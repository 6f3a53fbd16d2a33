/** The browser-local completion ledger (frontend/src/utils/challengeStorage.ts):
    a JSON list of completions kept under one localStorage key, read per user
    with expired entries hidden, and rewritten without expired entries on save. */
module ChallengeStorage {

  import opened Time

  datatype Period = Daily | Weekly | Monthly

  datatype Completion = Completion(challengeId: string, completedAt: int, period: Period, userId: int)

  /** The item under "challenge_completions": missing (or the empty string),
      text that does not parse as a completion list, or the parsed list. */
  datatype StoredValue = Missing | Unparseable | Parsed(entries: seq<Completion>)

  /** The instant from which an entry completed at `completedAt` counts as expired. */
  function ExpiresAt(completedAt: int, period: Period): int
  {
    match period
    case Daily => StartOfDay(completedAt) + DAY_MS
    case Weekly => DaysBefore(completedAt, -7)
    case Monthly => DaysBefore(completedAt, -30)
  }

  predicate IsExpired(completedAt: int, period: Period, now: int)
  {
    now >= ExpiresAt(completedAt, period)
  }

  /** A daily entry lives until the calendar day changes; weekly and monthly
      entries live for exactly 7 and 30 days; no entry is expired at the
      instant it is made. */
  lemma ExpiryRules(completedAt: int, period: Period, now: int)
    ensures period == Daily ==> (IsExpired(completedAt, period, now) <==> DayOf(now) > DayOf(completedAt))
    ensures period == Weekly ==> (IsExpired(completedAt, period, now) <==> now >= completedAt + 7 * DAY_MS)
    ensures period == Monthly ==> (IsExpired(completedAt, period, now) <==> now >= completedAt + 30 * DAY_MS)
    ensures !IsExpired(completedAt, period, completedAt)
  {
    var next := StartOfDay(completedAt) + DAY_MS;
    assert DayOf(next) == DayOf(completedAt) + 1 by {
      assert next == (DayOf(completedAt) + 1) * DAY_MS;
    }
    if period == Daily {
      if now >= next {
        assert DayOf(now) >= DayOf(next);
      } else {
        assert DayOf(now) <= DayOf(completedAt) by {
          assert now < (DayOf(completedAt) + 1) * DAY_MS;
        }
      }
    }
  }

  /** Entries that are not expired at `now`, in stored order. */
  function Unexpired(entries: seq<Completion>, now: int): (r: seq<Completion>)
    ensures |r| <= |entries|
    ensures forall c {:trigger c in r} :: c in r <==> c in entries && !IsExpired(c.completedAt, c.period, now)
  {
    if entries == [] then []
    else
      var c := entries[0];
      (if IsExpired(c.completedAt, c.period, now) then [] else [c]) + Unexpired(entries[1..], now)
  }

  /** Entries of `userId` that are not expired at `now`, in stored order. */
  function LiveFor(entries: seq<Completion>, userId: int, now: int): (r: seq<Completion>)
    ensures |r| <= |entries|
    ensures forall c {:trigger c in r} :: c in r <==> c in entries && c.userId == userId && !IsExpired(c.completedAt, c.period, now)
  {
    if entries == [] then []
    else
      var c := entries[0];
      (if c.userId == userId && !IsExpired(c.completedAt, c.period, now) then [c] else [])
        + LiveFor(entries[1..], userId, now)
  }

  /** `getChallengeCompletions(userId)`: nothing when the item is missing or
      does not parse, otherwise the user's unexpired entries. */
  function GetChallengeCompletions(stored: StoredValue, userId: int, now: int): (r: seq<Completion>)
    ensures !stored.Parsed? ==> r == []
    ensures forall c {:trigger c in r} :: c in r <==>
              stored.Parsed? && c in stored.entries && c.userId == userId && !IsExpired(c.completedAt, c.period, now)
  {
    match stored
    case Parsed(entries) => LiveFor(entries, userId, now)
    case _ => []
  }

  /** `isChallengeCompleted(challengeId, userId)`. */
  predicate IsChallengeCompleted(stored: StoredValue, challengeId: string, userId: int, now: int)
  {
    var completions := GetChallengeCompletions(stored, userId, now);
    exists i :: 0 <= i < |completions| && completions[i].challengeId == challengeId
  }

  /** `getCompletedChallengeIds(userId)`. */
  function GetCompletedChallengeIds(stored: StoredValue, userId: int, now: int): (r: seq<string>)
    ensures |r| == |GetChallengeCompletions(stored, userId, now)|
    ensures forall i :: 0 <= i < |r| ==> r[i] == GetChallengeCompletions(stored, userId, now)[i].challengeId
  {
    var completions := GetChallengeCompletions(stored, userId, now);
    seq(|completions|, i requires 0 <= i < |completions| => completions[i].challengeId)
  }

  /** A challenge id is listed exactly when the challenge counts as completed. */
  lemma CompletedIdsMatchIsCompleted(stored: StoredValue, challengeId: string, userId: int, now: int)
    ensures challengeId in GetCompletedChallengeIds(stored, userId, now)
            <==> IsChallengeCompleted(stored, challengeId, userId, now)
  {
    var ids := GetCompletedChallengeIds(stored, userId, now);
    if challengeId in ids {
      var i :| 0 <= i < |ids| && ids[i] == challengeId;
      assert GetChallengeCompletions(stored, userId, now)[i].challengeId == challengeId;
    }
  }

  /** The item after `saveChallengeCompletion(challengeId, period, userId)` at `now`. */
  function AfterSave(stored: StoredValue, challengeId: string, period: Period, userId: int, now: int): StoredValue
  {
    if IsChallengeCompleted(stored, challengeId, userId, now) then stored
    else
      var entry := Completion(challengeId, now, period, userId);
      match stored
      case Unparseable => stored
      case Missing => Parsed(Unexpired([entry], now))
      case Parsed(entries) => Parsed(Unexpired(entries + [entry], now))
  }

  /** localStorage, as far as the completion ledger uses it. */
  class CompletionStorage {
    var stored: StoredValue

    constructor ()
      ensures stored == Missing
    {
      stored := Missing;
    }

    method SaveChallengeCompletion(challengeId: string, period: Period, userId: int, now: int)
      modifies this
      ensures stored == AfterSave(old(stored), challengeId, period, userId, now)
    {
      var existing := GetChallengeCompletions(stored, userId, now);
      if exists i :: 0 <= i < |existing| && existing[i].challengeId == challengeId {
        return;
      }
      var newCompletion := Completion(challengeId, now, period, userId);
      var allCompletions: seq<Completion>;
      match stored {
        case Unparseable =>
          // JSON.parse throws; the catch swallows it and nothing is written
          return;
        case Missing =>
          allCompletions := [];
        case Parsed(entries) =>
          allCompletions := entries;
      }
      allCompletions := allCompletions + [newCompletion];
      stored := Parsed(Unexpired(allCompletions, now));
    }
  }

  lemma {:induction false} UnexpiredAppend(entries: seq<Completion>, c: Completion, now: int)
    ensures Unexpired(entries + [c], now)
            == Unexpired(entries, now) + (if IsExpired(c.completedAt, c.period, now) then [] else [c])
  {
    if entries == [] {
      assert entries + [c] == [c];
    } else {
      assert (entries + [c])[1..] == entries[1..] + [c];
      UnexpiredAppend(entries[1..], c, now);
    }
  }

  lemma {:induction false} LiveForAppend(entries: seq<Completion>, c: Completion, userId: int, now: int)
    ensures LiveFor(entries + [c], userId, now)
            == LiveFor(entries, userId, now)
               + (if c.userId == userId && !IsExpired(c.completedAt, c.period, now) then [c] else [])
  {
    if entries == [] {
      assert entries + [c] == [c];
    } else {
      assert (entries + [c])[1..] == entries[1..] + [c];
      LiveForAppend(entries[1..], c, userId, now);
    }
  }

  lemma {:induction false} LiveForOfUnexpired(entries: seq<Completion>, userId: int, now: int)
    ensures LiveFor(Unexpired(entries, now), userId, now) == LiveFor(entries, userId, now)
  {
    if entries != [] {
      LiveForOfUnexpired(entries[1..], userId, now);
      var c := entries[0];
      var head := if IsExpired(c.completedAt, c.period, now) then [] else [c];
      assert Unexpired(entries, now) == head + Unexpired(entries[1..], now);
      if head == [] {
        assert Unexpired(entries, now) == Unexpired(entries[1..], now);
      } else {
        assert (head + Unexpired(entries[1..], now))[1..] == Unexpired(entries[1..], now);
      }
    }
  }

  /** The entries stored before the save, read as a list (none when missing). */
  function EntriesOf(stored: StoredValue): seq<Completion>
  {
    if stored.Parsed? then stored.entries else []
  }

  /** Saving a challenge the user already holds unexpired (whatever its
      period) leaves the ledger exactly as it was. */
  lemma SaveWhenCompletedIsNoop(stored: StoredValue, challengeId: string, period: Period, userId: int, now: int)
    requires IsChallengeCompleted(stored, challengeId, userId, now)
    ensures AfterSave(stored, challengeId, period, userId, now) == stored
  {
  }

  /** Otherwise a readable ledger becomes its unexpired entries, of every
      user, followed by exactly one new entry completed at `now`. */
  lemma {:induction false} SaveAppendsOneEntry(stored: StoredValue, challengeId: string, period: Period, userId: int, now: int)
    requires !IsChallengeCompleted(stored, challengeId, userId, now)
    requires !stored.Unparseable?
    ensures AfterSave(stored, challengeId, period, userId, now)
            == Parsed(Unexpired(EntriesOf(stored), now) + [Completion(challengeId, now, period, userId)])
  {
    var entry := Completion(challengeId, now, period, userId);
    ExpiryRules(now, period, now);
    UnexpiredAppend(EntriesOf(stored), entry, now);
    if stored.Missing? {
      assert EntriesOf(stored) + [entry] == [entry];
    }
  }

  /** After a save that could read the ledger, the challenge counts as completed. */
  lemma {:induction false} SaveThenCompleted(stored: StoredValue, challengeId: string, period: Period, userId: int, now: int)
    requires !stored.Unparseable?
    ensures IsChallengeCompleted(AfterSave(stored, challengeId, period, userId, now), challengeId, userId, now)
  {
    if !IsChallengeCompleted(stored, challengeId, userId, now) {
      var entry := Completion(challengeId, now, period, userId);
      SaveAppendsOneEntry(stored, challengeId, period, userId, now);
      var after := AfterSave(stored, challengeId, period, userId, now);
      ExpiryRules(now, period, now);
      assert entry in after.entries;
      var cs := GetChallengeCompletions(after, userId, now);
      assert entry in cs;
      var i :| 0 <= i < |cs| && cs[i] == entry;
    }
  }

  /** Saving for one user never changes what any other user reads. */
  lemma {:induction false} SaveKeepsOtherUsers(stored: StoredValue, challengeId: string, period: Period, userId: int, other: int, now: int)
    requires other != userId
    ensures GetChallengeCompletions(AfterSave(stored, challengeId, period, userId, now), other, now)
            == GetChallengeCompletions(stored, other, now)
  {
    if !IsChallengeCompleted(stored, challengeId, userId, now) && !stored.Unparseable? {
      var entry := Completion(challengeId, now, period, userId);
      SaveAppendsOneEntry(stored, challengeId, period, userId, now);
      var kept := Unexpired(EntriesOf(stored), now);
      LiveForAppend(kept, entry, other, now);
      LiveForOfUnexpired(EntriesOf(stored), other, now);
    }
  }

  /** What the saving user reads afterwards: the previous list plus the new entry. */
  lemma {:induction false} SaveExtendsOwnCompletions(stored: StoredValue, challengeId: string, period: Period, userId: int, now: int)
    requires !IsChallengeCompleted(stored, challengeId, userId, now)
    requires !stored.Unparseable?
    ensures GetChallengeCompletions(AfterSave(stored, challengeId, period, userId, now), userId, now)
            == GetChallengeCompletions(stored, userId, now) + [Completion(challengeId, now, period, userId)]
  {
    var entry := Completion(challengeId, now, period, userId);
    SaveAppendsOneEntry(stored, challengeId, period, userId, now);
    ExpiryRules(now, period, now);
    var kept := Unexpired(EntriesOf(stored), now);
    LiveForAppend(kept, entry, userId, now);
    LiveForOfUnexpired(EntriesOf(stored), userId, now);
  }

  /** Saving twice at the same instant is the same as saving once. */
  lemma SaveIdempotent(stored: StoredValue, challengeId: string, period: Period, userId: int, now: int)
    ensures AfterSave(AfterSave(stored, challengeId, period, userId, now), challengeId, period, userId, now)
            == AfterSave(stored, challengeId, period, userId, now)
  {
    if !stored.Unparseable? {
      SaveThenCompleted(stored, challengeId, period, userId, now);
    }
  }

  /** A save never makes the item unreadable, nor readable again. */
  lemma SaveKeepsReadability(stored: StoredValue, challengeId: string, period: Period, userId: int, now: int)
    ensures AfterSave(stored, challengeId, period, userId, now).Unparseable? <==> stored.Unparseable?
  {
  }

  /** A save never takes away a completion any user already holds. */
  lemma SaveKeepsCompleted(stored: StoredValue, challengeId: string, period: Period, userId: int,
                           heldId: string, holder: int, now: int)
    requires IsChallengeCompleted(stored, heldId, holder, now)
    ensures IsChallengeCompleted(AfterSave(stored, challengeId, period, userId, now), heldId, holder, now)
  {
    if !IsChallengeCompleted(stored, challengeId, userId, now) && !stored.Unparseable? {
      var before := GetChallengeCompletions(stored, holder, now);
      var i :| 0 <= i < |before| && before[i].challengeId == heldId;
      var after := GetChallengeCompletions(AfterSave(stored, challengeId, period, userId, now), holder, now);
      if holder == userId {
        SaveExtendsOwnCompletions(stored, challengeId, period, userId, now);
      } else {
        SaveKeepsOtherUsers(stored, challengeId, period, userId, holder, now);
      }
      assert after[i] == before[i];
    }
  }
}
