/** The server-side completion ledger of the `stop.save` backend
    (backend/save/src/main/java/stop/save/service/ChallengeCompletionService.java):
    a completion is inserted unless the same user already completed the same
    challenge inside the period's lookback window. The repository is the
    sequence of stored rows. `completedAt` is taken to be the save instant,
    which is what `@CreatedDate` fills in when JPA auditing is enabled. */
module StopSaveCompletions {

  import opened Wrappers
  import opened Seqs
  import opened Time

  datatype ChallengePeriod = DAILY | WEEKLY | MONTHLY

  datatype Completion = Completion(
    id: int, userId: int, challengeId: string, challengeTitle: string,
    period: ChallengePeriod, rewardAmount: int, completedAt: int)

  /** Spring's failure when an `Optional` query finds two or more rows. */
  const NON_UNIQUE_RESULT: string := "query did not return a unique result"
  const SAVE_FAILED_PREFIX: string := "챌린지 완료 처리 중 오류가 발생했습니다: "

  /** `getCheckSinceTime(period)` at instant `now`. */
  function CheckSince(period: ChallengePeriod, now: int): (since: int)
    ensures since <= now
    ensures period == DAILY ==> since == StartOfDay(now) && now - since < DAY_MS
    ensures period == WEEKLY ==> now - since == 7 * DAY_MS
    ensures period == MONTHLY ==> now - since == 30 * DAY_MS
  {
    match period
    case DAILY => StartOfDay(now)
    case WEEKLY => DaysBefore(now, 7)
    case MONTHLY => DaysBefore(now, 30)
  }

  /** A later call never looks further back. */
  lemma CheckSinceMonotone(period: ChallengePeriod, now: int, later: int)
    requires now <= later
    ensures CheckSince(period, now) <= CheckSince(period, later)
  {
    if period == DAILY {
      StartOfDayMonotone(now, later);
    }
  }

  /** The rows `findRecentCompletion` selects: same user, same challenge id,
      completed at or after `since`. The period plays no part. */
  function Matches(ledger: seq<Completion>, userId: int, challengeId: string, since: int): (r: seq<Completion>)
    ensures forall c :: c in r <==> c in ledger && c.userId == userId && c.challengeId == challengeId && c.completedAt >= since
  {
    Filter(ledger, (c: Completion) => c.userId == userId && c.challengeId == challengeId && c.completedAt >= since)
  }

  /** `findRecentCompletion(user, challengeId, since)` as an `Optional`: empty,
      the single match, or a failure when the match is not unique. */
  function FindRecent(ledger: seq<Completion>, userId: int, challengeId: string, since: int): (r: Result<Option<Completion>>)
    ensures r == Ok(None) <==> Matches(ledger, userId, challengeId, since) == []
    ensures r.Ok? && r.value.Some? <==> |Matches(ledger, userId, challengeId, since)| == 1
    ensures r.Ok? && r.value.Some? ==> r.value.value == Matches(ledger, userId, challengeId, since)[0]
    ensures r.Err? <==> |Matches(ledger, userId, challengeId, since)| >= 2
  {
    var m := Matches(ledger, userId, challengeId, since);
    if |m| == 0 then Ok(None)
    else if |m| == 1 then Ok(Some(m[0]))
    else Err(NON_UNIQUE_RESULT)
  }

  /** How `save` ends: it stores the row, or it fails with a message after
      another writer committed `committed` (a unique-key clash, say). */
  datatype SaveOutcome = Saved | SaveFailed(message: string, committed: seq<Completion>)

  /** `completeChallenge`: the returned completion (or failure) and the ledger afterwards. */
  function Complete(ledger: seq<Completion>, nextId: int, userId: int, challengeId: string, title: string,
                    period: ChallengePeriod, reward: int, now: int, save: SaveOutcome)
    : (r: (Result<Completion>, seq<Completion>))
    ensures r.1 == ledger || r.1 == ledger + [Completion(nextId, userId, challengeId, title, period, reward, now)]
            || (save.SaveFailed? && r.1 == ledger + save.committed)
  {
    var since := CheckSince(period, now);
    match FindRecent(ledger, userId, challengeId, since)
    case Err(message) => (Err(message), ledger)
    case Ok(Some(existing)) => (Ok(existing), ledger)
    case Ok(None) =>
      match save
      case Saved =>
        var completion := Completion(nextId, userId, challengeId, title, period, reward, now);
        (Ok(completion), ledger + [completion])
      case SaveFailed(message, committed) =>
        match FindRecent(ledger + committed, userId, challengeId, since)
        case Err(retryMessage) => (Err(retryMessage), ledger + committed)
        case Ok(Some(existing)) => (Ok(existing), ledger + committed)
        case Ok(None) => (Err(SAVE_FAILED_PREFIX + message), ledger + committed)
  }

  /** `isRecentlyCompleted(user, challengeId, period)`. */
  function IsRecentlyCompleted(ledger: seq<Completion>, userId: int, challengeId: string, period: ChallengePeriod, now: int)
    : (r: Result<bool>)
    ensures r == Ok(true) <==> |Matches(ledger, userId, challengeId, CheckSince(period, now))| == 1
    ensures r == Ok(false) <==> Matches(ledger, userId, challengeId, CheckSince(period, now)) == []
  {
    match FindRecent(ledger, userId, challengeId, CheckSince(period, now))
    case Err(message) => Err(message)
    case Ok(found) => Ok(found.Some?)
  }

  function OfUser(ledger: seq<Completion>, userId: int): (r: seq<Completion>)
    ensures forall c :: c in r <==> c in ledger && c.userId == userId
  {
    Filter(ledger, (c: Completion) => c.userId == userId)
  }

  function RewardOf(c: Completion): int
  {
    c.rewardAmount
  }

  /** `countByUser(user)`. */
  function TotalCompletionCount(ledger: seq<Completion>, userId: int): int
  {
    |OfUser(ledger, userId)|
  }

  /** `COALESCE(SUM(rewardAmount), 0)` over the user's rows. */
  function TotalRewards(ledger: seq<Completion>, userId: int): (r: int)
    ensures OfUser(ledger, userId) == [] ==> r == 0
  {
    SumBy(OfUser(ledger, userId), RewardOf)
  }

  /** A found completion is returned whatever its period, and nothing is stored. */
  lemma ExistingCompletionIsReturned(ledger: seq<Completion>, nextId: int, userId: int, challengeId: string, title: string,
                                     period: ChallengePeriod, reward: int, now: int, save: SaveOutcome, existing: Completion)
    requires Matches(ledger, userId, challengeId, CheckSince(period, now)) == [existing]
    ensures Complete(ledger, nextId, userId, challengeId, title, period, reward, now, save) == (Ok(existing), ledger)
  {
  }

  /** With nothing found and the save succeeding, exactly one row with the
      given fields is added and returned. */
  lemma NewCompletionIsStored(ledger: seq<Completion>, nextId: int, userId: int, challengeId: string, title: string,
                              period: ChallengePeriod, reward: int, now: int)
    requires Matches(ledger, userId, challengeId, CheckSince(period, now)) == []
    ensures Complete(ledger, nextId, userId, challengeId, title, period, reward, now, Saved)
            == (Ok(Completion(nextId, userId, challengeId, title, period, reward, now)),
                ledger + [Completion(nextId, userId, challengeId, title, period, reward, now)])
  {
  }

  lemma MatchesAppend(ledger: seq<Completion>, extra: seq<Completion>, userId: int, challengeId: string, since: int)
    ensures Matches(ledger + extra, userId, challengeId, since) == Matches(ledger, userId, challengeId, since) + Matches(extra, userId, challengeId, since)
  {
    FilterAppend(ledger, extra, (c: Completion) => c.userId == userId && c.challengeId == challengeId && c.completedAt >= since);
  }

  /** After any successful call the challenge counts as recently completed. */
  lemma CompletedIsRecentlyCompleted(ledger: seq<Completion>, nextId: int, userId: int, challengeId: string, title: string,
                                     period: ChallengePeriod, reward: int, now: int, save: SaveOutcome)
    requires Complete(ledger, nextId, userId, challengeId, title, period, reward, now, save).0.Ok?
    ensures IsRecentlyCompleted(Complete(ledger, nextId, userId, challengeId, title, period, reward, now, save).1,
                                userId, challengeId, period, now) == Ok(true)
  {
    var since := CheckSince(period, now);
    if FindRecent(ledger, userId, challengeId, since) == Ok(None) && save.Saved? {
      var completion := Completion(nextId, userId, challengeId, title, period, reward, now);
      MatchesAppend(ledger, [completion], userId, challengeId, since);
      assert Matches([completion], userId, challengeId, since) == [completion];
    }
  }

  /** Calling again, at the same instant or later while the new row is still
      inside the window, returns the stored row and adds nothing. */
  lemma CompleteIsIdempotent(ledger: seq<Completion>, nextId: int, userId: int, challengeId: string, title: string,
                             period: ChallengePeriod, reward: int, now: int, later: int, nextId2: int, save2: SaveOutcome)
    requires FindRecent(ledger, userId, challengeId, CheckSince(period, now)) == Ok(None)
    requires now <= later && CheckSince(period, later) <= now
    ensures Complete(Complete(ledger, nextId, userId, challengeId, title, period, reward, now, Saved).1,
                     nextId2, userId, challengeId, title, period, reward, later, save2)
            == (Ok(Completion(nextId, userId, challengeId, title, period, reward, now)),
                Complete(ledger, nextId, userId, challengeId, title, period, reward, now, Saved).1)
  {
    var since := CheckSince(period, now);
    var since2 := CheckSince(period, later);
    CheckSinceMonotone(period, now, later);
    var completion := Completion(nextId, userId, challengeId, title, period, reward, now);
    MatchesAppend(ledger, [completion], userId, challengeId, since2);
    assert Matches([completion], userId, challengeId, since2) == [completion];
    forall c | c in ledger ensures !(c.userId == userId && c.challengeId == challengeId && c.completedAt >= since2) {
      assert c.userId == userId && c.challengeId == challengeId && c.completedAt >= since2 ==>
               c in Matches(ledger, userId, challengeId, since);
    }
    FilterNone(ledger, (c: Completion) => c.userId == userId && c.challengeId == challengeId && c.completedAt >= since2);
  }

  /** A stored completion adds one to the user's count and its reward to the
      user's total, and leaves other users' figures alone. */
  lemma NewCompletionTotals(ledger: seq<Completion>, c: Completion, userId: int)
    ensures TotalCompletionCount(ledger + [c], userId) == TotalCompletionCount(ledger, userId) + (if c.userId == userId then 1 else 0)
    ensures TotalRewards(ledger + [c], userId) == TotalRewards(ledger, userId) + (if c.userId == userId then c.rewardAmount else 0)
  {
    var mine := (x: Completion) => x.userId == userId;
    FilterAppend(ledger, [c], mine);
    assert Filter([c], mine) == if c.userId == userId then [c] else [];
    SumByAppend(OfUser(ledger, userId), Filter([c], mine), RewardOf);
  }

  class ChallengeCompletionService {
    /** The rows of `challenge_completions`. */
    var completions: seq<Completion>
    /** The next identity value. */
    var nextId: int

    constructor ()
      ensures completions == [] && nextId == 1
    {
      completions := [];
      nextId := 1;
    }

    method CompleteChallenge(userId: int, challengeId: string, title: string, period: ChallengePeriod,
                             rewardAmount: int, now: int, save: SaveOutcome) returns (r: Result<Completion>)
      modifies this
      ensures (r, completions) == Complete(old(completions), old(nextId), userId, challengeId, title, period, rewardAmount, now, save)
      ensures nextId == old(nextId) + (if save.Saved? && FindRecent(old(completions), userId, challengeId, CheckSince(period, now)) == Ok(None)
                                       then 1 else 0)
    {
      var checkSince := CheckSince(period, now);
      var existingCompletion := FindRecent(completions, userId, challengeId, checkSince);
      if existingCompletion.Err? {
        return Err(existingCompletion.message);
      }
      if existingCompletion.value.Some? {
        return Ok(existingCompletion.value.value);
      }
      match save {
        case Saved =>
          var completion := Completion(nextId, userId, challengeId, title, period, rewardAmount, now);
          completions := completions + [completion];
          nextId := nextId + 1;
          return Ok(completion);
        case SaveFailed(message, committed) =>
          completions := completions + committed;
          var retryCompletion := FindRecent(completions, userId, challengeId, checkSince);
          if retryCompletion.Err? {
            return Err(retryCompletion.message);
          }
          if retryCompletion.value.Some? {
            return Ok(retryCompletion.value.value);
          }
          return Err(SAVE_FAILED_PREFIX + message);
      }
    }

    method IsRecentlyCompletedNow(userId: int, challengeId: string, period: ChallengePeriod, now: int) returns (r: Result<bool>)
      ensures r == IsRecentlyCompleted(completions, userId, challengeId, period, now)
    {
      var checkSince := CheckSince(period, now);
      var found := FindRecent(completions, userId, challengeId, checkSince);
      r := if found.Err? then Err(found.message) else Ok(found.value.Some?);
    }
  }
}
