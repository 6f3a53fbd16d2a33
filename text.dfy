/** String helpers: decimal rendering, code-point ordering, and `split` on a
    single character as Java does it. */
module Text {

  import opened Wrappers

  function DigitChar(d: int): (c: char)
    requires 0 <= d < 10
    ensures '0' <= c <= '9' && c as int - '0' as int == d
  {
    ('0' as int + d) as char
  }

  /** The number a string of decimal digits spells, most significant first. */
  function DecimalValue(s: string): nat
    requires forall i :: 0 <= i < |s| ==> '0' <= s[i] <= '9'
  {
    if s == [] then 0 else DecimalValue(s[..|s| - 1]) * 10 + (s[|s| - 1] as int - '0' as int)
  }

  /** The decimal digits of `n`, as `${n}` and `"" + n` print it: no leading
      zero unless `n` is 0. */
  function NatToString(n: nat): (s: string)
    ensures |s| >= 1
    ensures forall i :: 0 <= i < |s| ==> '0' <= s[i] <= '9'
    ensures |s| > 1 ==> s[0] != '0'
    decreases n
  {
    if n < 10 then [DigitChar(n)] else NatToString(n / 10) + [DigitChar(n % 10)]
  }

  /** The digits spell `n` back. */
  lemma {:induction false} NatToStringValue(n: nat)
    ensures DecimalValue(NatToString(n)) == n
    decreases n
  {
    var s := NatToString(n);
    if n >= 10 {
      NatToStringValue(n / 10);
      assert s[..|s| - 1] == NatToString(n / 10);
    }
  }

  /** Lexicographic order on code points (the model of `localeCompare(...) <= 0`). */
  predicate LexLeq(a: string, b: string)
    decreases |a|
  {
    a == [] || (b != [] && (a[0] < b[0] || (a[0] == b[0] && LexLeq(a[1..], b[1..]))))
  }

  lemma {:induction false} LexLeqTotal(a: string, b: string)
    ensures LexLeq(a, b) || LexLeq(b, a)
    decreases |a|
  {
    if a != [] && b != [] && a[0] == b[0] {
      LexLeqTotal(a[1..], b[1..]);
    }
  }

  lemma {:induction false} LexLeqTransitive(a: string, b: string, c: string)
    requires LexLeq(a, b) && LexLeq(b, c)
    ensures LexLeq(a, c)
    decreases |a|
  {
    if a != [] && a[0] == b[0] && b[0] == c[0] {
      LexLeqTransitive(a[1..], b[1..], c[1..]);
    }
  }

  /** The text before the first `sep`, or all of `s` when there is none. */
  function Before(s: string, sep: char): (r: string)
    ensures |r| <= |s| && r == s[..|r|]
    ensures sep !in r
    ensures |r| < |s| ==> s[|r|] == sep
  {
    if s == [] || s[0] == sep then [] else [s[0]] + Before(s[1..], sep)
  }

  /** The pieces of `s` between occurrences of `sep`, empty pieces included. */
  function Pieces(s: string, sep: char): (r: seq<string>)
    ensures |r| >= 1
    ensures forall i :: 0 <= i < |r| ==> sep !in r[i]
    decreases |s|
  {
    if s == [] then [[]]
    else
      var rest := Pieces(s[1..], sep);
      if s[0] == sep then [[]] + rest else [[s[0]] + rest[0]] + rest[1..]
  }

  /** The pieces glued back together with `sep` between them. */
  function Join(pieces: seq<string>, sep: char): string
  {
    if pieces == [] then [] else if |pieces| == 1 then pieces[0] else pieces[0] + [sep] + Join(pieces[1..], sep)
  }

  /** Splitting loses nothing: the pieces join back to the string. */
  lemma {:induction false} JoinPieces(s: string, sep: char)
    ensures Join(Pieces(s, sep), sep) == s
    decreases |s|
  {
    if s != [] {
      var rest := Pieces(s[1..], sep);
      JoinPieces(s[1..], sep);
      if s[0] == sep {
        assert ([[]] + rest)[1..] == rest;
      } else if |rest| > 1 {
        assert ([[s[0]] + rest[0]] + rest[1..])[1..] == rest[1..];
        assert Join(rest, sep) == rest[0] + [sep] + Join(rest[1..], sep);
      }
    }
  }

  /** The first piece is the text before the first separator. */
  lemma {:induction false} FirstPiece(s: string, sep: char)
    ensures Pieces(s, sep)[0] == Before(s, sep)
    decreases |s|
  {
    if s != [] && s[0] != sep {
      FirstPiece(s[1..], sep);
    }
  }

  /** Every piece is empty exactly when the string holds nothing but separators. */
  lemma {:induction false} PiecesAllEmpty(s: string, sep: char)
    ensures (forall i :: 0 <= i < |Pieces(s, sep)| ==> Pieces(s, sep)[i] == [])
            <==> (forall i :: 0 <= i < |s| ==> s[i] == sep)
    decreases |s|
  {
    if s != [] {
      var rest := Pieces(s[1..], sep);
      PiecesAllEmpty(s[1..], sep);
      if s[0] == sep {
        var p := Pieces(s, sep);
        assert p == [[]] + rest;
        assert (forall i :: 0 <= i < |p| ==> p[i] == []) <==> (forall i :: 0 <= i < |rest| ==> rest[i] == []) by {
          assert forall i :: 0 <= i < |rest| ==> p[i + 1] == rest[i];
        }
        assert (forall i :: 0 <= i < |s| ==> s[i] == sep) <==> (forall i :: 0 <= i < |s[1..]| ==> s[1..][i] == sep) by {
          assert forall i :: 0 <= i < |s[1..]| ==> s[1..][i] == s[i + 1];
          if forall i :: 0 <= i < |s[1..]| ==> s[1..][i] == sep {
            forall i | 0 <= i < |s| ensures s[i] == sep {
              if i > 0 {
                assert s[i] == s[1..][i - 1];
              }
            }
          }
        }
      } else {
        assert Pieces(s, sep)[0] != [];
      }
    }
  }

  /** The pieces without their trailing empty ones, as `split` with limit 0
      removes them. */
  function DropTrailingEmpty(pieces: seq<string>): (r: seq<string>)
    ensures |r| <= |pieces| && r == pieces[..|r|]
    ensures r != [] ==> r[|r| - 1] != []
    ensures forall i :: |r| <= i < |pieces| ==> pieces[i] == []
  {
    if pieces == [] then []
    else if pieces[|pieces| - 1] == [] then DropTrailingEmpty(pieces[..|pieces| - 1])
    else pieces
  }

  /** Java's `s.split(String.valueOf(sep))` for a `sep` that is not a regular
      expression metacharacter: the whole string when `sep` does not occur,
      otherwise the pieces with trailing empty ones removed. */
  function JavaSplit(s: string, sep: char): seq<string>
  {
    if sep !in s then [s] else DropTrailingEmpty(Pieces(s, sep))
  }

  /** `s.split(String.valueOf(sep))[0]`: absent when the array is empty, which
      happens exactly for a non-empty `s` made only of `sep`; otherwise the
      text before the first separator. */
  function FirstOfSplit(s: string, sep: char): (r: Option<string>)
    ensures r.None? <==> (s != [] && forall i :: 0 <= i < |s| ==> s[i] == sep)
    ensures r.Some? ==> r.value == Before(s, sep)
  {
    var parts := JavaSplit(s, sep);
    FirstOfSplitFacts(s, sep);
    if parts == [] then None else Some(parts[0])
  }

  /** The `split` array is empty exactly for a non-empty string made only of
      separators; otherwise it starts with the text before the first one. */
  lemma FirstOfSplitFacts(s: string, sep: char)
    ensures JavaSplit(s, sep) == [] <==> (s != [] && forall i :: 0 <= i < |s| ==> s[i] == sep)
    ensures JavaSplit(s, sep) != [] ==> JavaSplit(s, sep)[0] == Before(s, sep)
  {
    if sep !in s {
      assert Before(s, sep) == s;
    } else {
      var p := Pieces(s, sep);
      PiecesAllEmpty(s, sep);
      FirstPiece(s, sep);
      var d := DropTrailingEmpty(p);
      if d != [] {
        assert d[0] == p[0];
      }
    }
  }
}
