/** An insertion sort by a comparator, the model of `Array.prototype.sort`
    and of `Stream.sorted`. `leq(a, b)` means `a` may stand before `b`. */
module Sorting {

  import opened Seqs

  ghost predicate TotalPreorder<T(!new)>(leq: (T, T) -> bool)
  {
    && (forall a, b :: leq(a, b) || leq(b, a))
    && (forall a, b, c :: leq(a, b) && leq(b, c) ==> leq(a, c))
  }

  predicate SortedBy<T>(s: seq<T>, leq: (T, T) -> bool)
  {
    forall i, j :: 0 <= i < j < |s| ==> leq(s[i], s[j])
  }

  /** Puts `x` in front of the first element it may precede. */
  function Insert<T>(x: T, s: seq<T>, leq: (T, T) -> bool): (r: seq<T>)
    ensures multiset(r) == multiset(s) + multiset{x}
    ensures |r| == |s| + 1
  {
    if s == [] then [x]
    else if leq(x, s[0]) then [x] + s
    else
      assert s == [s[0]] + s[1..];
      [s[0]] + Insert(x, s[1..], leq)
  }

  function Sort<T>(s: seq<T>, leq: (T, T) -> bool): (r: seq<T>)
    ensures multiset(r) == multiset(s)
    ensures |r| == |s|
  {
    if s == [] then []
    else
      assert s == [s[0]] + s[1..];
      Insert(s[0], Sort(s[1..], leq), leq)
  }

  /** Sorting keeps exactly the elements it was given. */
  lemma SortMembers<T>(s: seq<T>, leq: (T, T) -> bool)
    ensures forall x :: x in Sort(s, leq) <==> x in s
  {
    assert forall x :: x in Sort(s, leq) <==> x in multiset(Sort(s, leq));
    assert forall x :: x in s <==> x in multiset(s);
  }

  lemma {:induction false} InsertSorted<T(!new)>(x: T, s: seq<T>, leq: (T, T) -> bool)
    requires TotalPreorder(leq)
    requires SortedBy(s, leq)
    ensures SortedBy(Insert(x, s, leq), leq)
  {
    if s != [] && !leq(x, s[0]) {
      InsertSorted(x, s[1..], leq);
      var rest := Insert(x, s[1..], leq);
      assert SortedBy(rest, leq);
      assert leq(s[0], x);
      forall k | 0 <= k < |rest|
        ensures leq(s[0], rest[k])
      {
        assert rest[k] in multiset(rest);
        assert rest[k] == x || rest[k] in multiset(s[1..]);
        if rest[k] != x {
          var m :| 0 <= m < |s[1..]| && s[1..][m] == rest[k];
          assert s[1 + m] == rest[k];
        }
      }
    }
  }

  lemma {:induction false} SortSorted<T(!new)>(s: seq<T>, leq: (T, T) -> bool)
    requires TotalPreorder(leq)
    ensures SortedBy(Sort(s, leq), leq)
  {
    if s != [] {
      SortSorted(s[1..], leq);
      InsertSorted(s[0], Sort(s[1..], leq), leq);
    }
  }

  lemma {:induction false} InsertNoDup<T>(x: T, s: seq<T>, leq: (T, T) -> bool)
    requires NoDup(s) && x !in s
    ensures NoDup(Insert(x, s, leq))
  {
    if s == [] {
    } else if leq(x, s[0]) {
      assert forall k :: 0 < k < |[x] + s| ==> ([x] + s)[k] == s[k - 1];
    } else {
      assert s[0] !in s[1..] by {
        forall k | 0 <= k < |s[1..]| ensures s[1..][k] != s[0] {
          assert s[1..][k] == s[k + 1];
        }
      }
      InsertNoDup(x, s[1..], leq);
      var rest := Insert(x, s[1..], leq);
      assert s[0] !in rest by {
        assert s[0] !in multiset(s[1..]);
        assert multiset(rest) == multiset(s[1..]) + multiset{x};
        assert s[0] != x;
        assert s[0] !in multiset(rest);
      }
      var r := [s[0]] + rest;
      forall i, j | 0 <= i < j < |r| ensures r[i] != r[j] {
        if i == 0 {
          assert r[j] == rest[j - 1];
        } else {
          assert r[i] == rest[i - 1] && r[j] == rest[j - 1];
        }
      }
    }
  }

  lemma {:induction false} SortNoDup<T>(s: seq<T>, leq: (T, T) -> bool)
    requires NoDup(s)
    ensures NoDup(Sort(s, leq))
  {
    if s != [] {
      assert NoDup(s[1..]) by {
        forall i, j | 0 <= i < j < |s[1..]| ensures s[1..][i] != s[1..][j] {
          assert s[1..][i] == s[i + 1] && s[1..][j] == s[j + 1];
        }
      }
      SortNoDup(s[1..], leq);
      assert s[0] !in Sort(s[1..], leq) by {
        assert multiset(Sort(s[1..], leq)) == multiset(s[1..]);
        forall k | 0 <= k < |s[1..]| ensures s[1..][k] != s[0] {
          assert s[1..][k] == s[k + 1];
        }
        assert s[0] !in multiset(s[1..]);
        assert s[0] !in multiset(Sort(s[1..], leq));
      }
      InsertNoDup(s[0], Sort(s[1..], leq), leq);
    }
  }

  /** `stream.sorted(cmp).limit(n)`. */
  function SortedPrefix<T>(s: seq<T>, leq: (T, T) -> bool, n: nat): (r: seq<T>)
    ensures |r| == if |s| < n then |s| else n
  {
    var sorted := Sort(s, leq);
    if |sorted| <= n then sorted else sorted[..n]
  }

  /** The first `n` of a sorted permutation are sorted, come from `s`, and no
      element left out stands strictly before any kept one. */
  lemma SortedPrefixProperties<T(!new)>(s: seq<T>, leq: (T, T) -> bool, n: nat)
    requires TotalPreorder(leq)
    ensures SortedBy(SortedPrefix(s, leq, n), leq)
    ensures forall x :: x in SortedPrefix(s, leq, n) ==> x in s
    ensures multiset(SortedPrefix(s, leq, n)) <= multiset(s)
    ensures forall i, j :: 0 <= i < |SortedPrefix(s, leq, n)| <= j < |s| ==>
              leq(SortedPrefix(s, leq, n)[i], Sort(s, leq)[j])
  {
    var sorted := Sort(s, leq);
    SortSorted(s, leq);
    var r := SortedPrefix(s, leq, n);
    assert r == sorted[..|r|];
    assert sorted == r + sorted[|r|..];
    assert multiset(sorted) == multiset(r) + multiset(sorted[|r|..]);
    forall x | x in r
      ensures x in s
    {
      assert x in multiset(r);
      assert x in multiset(s);
    }
  }

  /** An element of `s` that the first `n` leave out may not stand before any kept one. */
  lemma SortedPrefixExcluded<T(!new)>(s: seq<T>, leq: (T, T) -> bool, n: nat, x: T, y: T)
    requires TotalPreorder(leq)
    requires x in SortedPrefix(s, leq, n) && y in s && y !in SortedPrefix(s, leq, n)
    ensures leq(x, y)
  {
    SortedPrefixProperties(s, leq, n);
    var sorted := Sort(s, leq);
    var r := SortedPrefix(s, leq, n);
    assert r == sorted[..|r|];
    assert y in multiset(sorted);
    var j :| 0 <= j < |sorted| && sorted[j] == y;
    assert forall k :: 0 <= k < |r| ==> sorted[k] == r[k] && r[k] != y;
    assert j >= |r|;
    var i :| 0 <= i < |r| && r[i] == x;
  }
}
