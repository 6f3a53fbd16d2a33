/** The client-side challenge evaluator (frontend/src/utils/challengeAutoComplete.ts):
    a fixed catalogue of six challenges, each judged against the records of its
    period window; a satisfied challenge is saved to the local ledger and
    reported to the backend once per pass. */
module ChallengeAutoComplete {

  import opened Wrappers
  import opened Seqs
  import opened Time
  import opened Sorting
  import opened ClientTypes
  import opened ChallengeStorage

  datatype Challenge = Challenge(
    id: string,
    title: string,
    reward: int,
    icon: string,
    description: string,
    category: Option<string>,
    amount: Option<int>,
    period: Period)

  const CHALLENGES: seq<Challenge> := [
    Challenge("coffee", "커피 한 잔 참기", 4500, "☕", "오늘 하루 커피를 마시지 않기", Some("음식"), Some(4500), Daily),
    Challenge("taxi", "택시 대신 대중교통", 10000, "🚕", "택시 대신 지하철/버스 이용하기", Some("교통"), Some(10000), Daily),
    Challenge("delivery", "배달음식 0회", 20000, "🍕", "이번 주 배달음식 주문하지 않기", Some("음식"), Some(20000), Weekly),
    Challenge("shopping", "충동구매 참기", 30000, "🛍️", "계획에 없던 쇼핑 참기", Some("쇼핑"), Some(30000), Weekly),
    Challenge("target", "10만원 절약하기", 100000, "🎯", "한 달간 10만원 이상 절약하기", None, Some(100000), Monthly),
    Challenge("streak", "30일 연속 절약", 50000, "🔥", "30일 연속으로 절약 기록하기", None, None, Monthly)
  ]

  /** The ids of the challenges judged by category and amount. */
  const CATEGORY_CHALLENGE_IDS: set<string> := {"coffee", "snack", "taxi", "delivery", "shopping"}

  const TARGET_AMOUNT: int := 100000
  const STREAK_DAYS: int := 30

  /** The window of `getRecordsByPeriod`: the same calendar day as `now`, or
      at most 7 (30) days before `now` with no upper bound. */
  predicate InPeriod(createdAt: int, period: Period, now: int)
  {
    match period
    case Daily => DayOf(createdAt) == DayOf(now)
    case Weekly => createdAt >= DaysBefore(now, 7)
    case Monthly => createdAt >= DaysBefore(now, 30)
  }

  function GetRecordsByPeriod(records: seq<Record>, period: Period, now: int): (r: seq<Record>)
    ensures forall x :: x in r <==> x in records && InPeriod(x.createdAt, period, now)
  {
    Filter(records, (x: Record) => InPeriod(x.createdAt, period, now))
  }

  /** The windows nest, for records not later than `now`: today's records lie in the
      weekly window, and the weekly window lies in the monthly one. */
  lemma PeriodWindowsNest(createdAt: int, now: int)
    ensures InPeriod(createdAt, Daily, now) ==> InPeriod(createdAt, Weekly, now)
    ensures InPeriod(createdAt, Weekly, now) ==> InPeriod(createdAt, Monthly, now)
  {
    if InPeriod(createdAt, Daily, now) {
      assert StartOfDay(now) == StartOfDay(createdAt);
    }
  }

  /** The window keeps the records' order: it is a subsequence of the input. */
  lemma RecordsByPeriodIsSubsequence(records: seq<Record>, period: Period, now: int)
    ensures IsSubsequence(GetRecordsByPeriod(records, period, now), records)
  {
    FilterIsSubsequence(records, (x: Record) => InPeriod(x.createdAt, period, now));
  }

  /** The calendar days on which some record was made. */
  function DaySet(records: seq<Record>): set<int>
  {
    set x | x in records :: DayOf(x.createdAt)
  }

  /** The keys of the `dateGroups` object: each record's day, in first-seen order. */
  function DateGroupKeys(records: seq<Record>): (r: seq<int>)
    ensures NoDup(r)
    ensures forall d :: d in r <==> d in DaySet(records)
  {
    if records == [] then []
    else
      var prev := DateGroupKeys(records[..|records| - 1]);
      var last := records[|records| - 1];
      assert records == records[..|records| - 1] + [last];
      var d := DayOf(last.createdAt);
      if d in prev then prev else prev + [d]
  }

  /** The comparator `(a, b) => b - a`: later days first. */
  predicate Later(a: int, b: int)
  {
    a >= b
  }

  /** The length of the run of days `d, d - 1, d - 2, …` that all lie in `days`. */
  function Run(days: set<int>, d: int): (r: nat)
    ensures forall e :: d - r < e <= d ==> e in days
    ensures d - r !in days
    decreases |set x | x in days && x <= d|
  {
    if d !in days then 0
    else
      var lower := set x | x in days && x <= d - 1;
      var upTo := set x | x in days && x <= d;
      assert |lower| < |upTo| by {
        assert upTo == lower + {d};
        assert d !in lower;
      }
      var r := Run(days, d - 1);
      1 + r
  }

  /** The streak `getConsecutiveDays` promises: no record on a later day than
      today, and then the number of days back from today, today included, that
      each hold a record. */
  function StreakFrom(days: set<int>, today: int): (r: nat)
    ensures (exists d :: d in days && d > today) ==> r == 0
    ensures (forall d :: d in days ==> d <= today) ==>
              (forall e :: today - r < e <= today ==> e in days) && today - r !in days
  {
    if exists d :: d in days && d > today then 0 else Run(days, today)
  }

  lemma {:induction false} RunIgnoresLaterDays(days: set<int>, d: int, x: int)
    requires x > d
    ensures Run(days - {x}, d) == Run(days, d)
    decreases |set y | y in days && y <= d|
  {
    if d in days {
      var lower := set y | y in days && y <= d - 1;
      var upTo := set y | y in days && y <= d;
      assert |lower| < |upTo| by {
        assert upTo == lower + {d};
      }
      RunIgnoresLaterDays(days, d - 1, x);
    }
  }

  lemma {:induction false} RunAtMostDays(days: set<int>, d: int)
    ensures Run(days, d) <= |days|
    decreases |days|
  {
    if d in days {
      RunIgnoresLaterDays(days, d - 1, d);
      RunAtMostDays(days - {d}, d - 1);
    }
  }

  /** The streak never exceeds the number of distinct days with a record, and
      it is 0 when no record was made today. */
  lemma StreakBounds(records: seq<Record>, now: int)
    ensures StreakFrom(DaySet(records), DayOf(now)) <= |DaySet(records)|
    ensures DayOf(now) !in DaySet(records) ==> StreakFrom(DaySet(records), DayOf(now)) == 0
    ensures records == [] ==> StreakFrom(DaySet(records), DayOf(now)) == 0
  {
    RunAtMostDays(DaySet(records), DayOf(now));
  }

  /** A scan of the days sorted latest first that stops at the first day off the
      run finds exactly the streak. */
  lemma {:induction false} ScanFindsStreak(dates: seq<int>, days: set<int>, today: int, i: nat)
    requires forall d :: d in dates <==> d in days
    requires forall a, b :: 0 <= a < b < |dates| ==> dates[a] > dates[b]
    requires i <= |dates|
    requires forall j :: 0 <= j < i ==> dates[j] == today - j
    requires i == |dates| || dates[i] != today - i
    ensures i == StreakFrom(days, today)
  {
    if exists d :: d in days && d > today {
      var d :| d in days && d > today;
      var k :| 0 <= k < |dates| && dates[k] == d;
      assert k == 0 || dates[0] > dates[k];
      assert dates[0] != today;
    } else {
      assert forall d :: d in days ==> d <= today;
      var s := StreakFrom(days, today);
      assert forall e :: today - i < e <= today ==> e in days by {
        forall e | today - i < e <= today ensures e in days {
          assert dates[today - e] == e;
          assert dates[today - e] in dates;
        }
      }
      forall k | 0 <= k < |dates| ensures dates[k] != today - i {
        if k < i {
          assert dates[k] == today - k;
        } else if k > i {
          assert dates[i] > dates[k];
          if i > 0 {
            assert dates[i - 1] > dates[i];
          } else {
            assert dates[0] in days;
          }
        }
      }
      assert today - i !in days;
      assert s < i ==> today - s in days;
      assert i < s ==> today - i in days;
    }
  }

  /** Distinct days sorted latest first are strictly decreasing and keep their members. */
  lemma SortedDateKeys(keys: seq<int>)
    requires NoDup(keys)
    ensures forall d :: d in Sort(keys, Later) <==> d in keys
    ensures forall a, b :: 0 <= a < b < |Sort(keys, Later)| ==> Sort(keys, Later)[a] > Sort(keys, Later)[b]
  {
    var dates := Sort(keys, Later);
    assert TotalPreorder(Later);
    SortSorted(keys, Later);
    SortNoDup(keys, Later);
    forall d ensures d in dates <==> d in keys {
      assert d in dates <==> d in multiset(dates);
      assert d in keys <==> d in multiset(keys);
    }
  }

  /** `getConsecutiveDays(records)` at the instant `now`. */
  method GetConsecutiveDays(records: seq<Record>, now: int) returns (consecutiveDays: nat)
    ensures consecutiveDays == StreakFrom(DaySet(records), DayOf(now))
  {
    if |records| == 0 {
      return 0;
    }
    var keys := DateGroupKeys(records);
    var dates := Sort(keys, Later);
    consecutiveDays := 0;
    var i := 0;
    while i < |dates|
      invariant 0 <= i <= |dates|
      invariant consecutiveDays == i
      invariant forall j :: 0 <= j < i ==> dates[j] == DayOf(now) - j
    {
      var recordDate := dates[i];
      var expectedDate := DayOf(DaysBefore(now, consecutiveDays));
      assert expectedDate == DayOf(now) - i by {
        DayOfDaysBefore(now, consecutiveDays);
      }
      if recordDate == expectedDate {
        consecutiveDays := consecutiveDays + 1;
      } else {
        break;
      }
      i := i + 1;
    }
    assert consecutiveDays == StreakFrom(DaySet(records), DayOf(now)) by {
      SortedDateKeys(keys);
      ScanFindsStreak(dates, DaySet(records), DayOf(now), i);
    }
  }

  /** Whether the switch in `checkAndCompleteAutoChallenges` judges the challenge
      completed. A category challenge needs a truthy category and amount. */
  predicate Satisfied(challenge: Challenge, records: seq<Record>, now: int)
  {
    var periodRecords := GetRecordsByPeriod(records, challenge.period, now);
    if challenge.id in CATEGORY_CHALLENGE_IDS then
      && challenge.category.Some? && challenge.category.value != ""
      && challenge.amount.Some? && challenge.amount.value != 0
      && CategoryAmount(periodRecords, challenge.category.value) >= challenge.amount.value
    else if challenge.id == "target" then
      SumBy(periodRecords, AmountOf) >= TARGET_AMOUNT
    else if challenge.id == "streak" then
      StreakFrom(DaySet(records), DayOf(now)) >= STREAK_DAYS
    else false
  }

  /** How the catalogue entries are judged: a category challenge by its
      category's total within its window against its amount. */
  lemma DailyChallengeRules(records: seq<Record>, now: int)
    ensures Satisfied(CHALLENGES[0], records, now)
            <==> CategoryAmount(GetRecordsByPeriod(records, Daily, now), "음식") >= 4500
    ensures Satisfied(CHALLENGES[1], records, now)
            <==> CategoryAmount(GetRecordsByPeriod(records, Daily, now), "교통") >= 10000
  {
    assert CHALLENGES[0].id in CATEGORY_CHALLENGE_IDS && CHALLENGES[1].id in CATEGORY_CHALLENGE_IDS;
  }

  lemma WeeklyChallengeRules(records: seq<Record>, now: int)
    ensures Satisfied(CHALLENGES[2], records, now)
            <==> CategoryAmount(GetRecordsByPeriod(records, Weekly, now), "음식") >= 20000
    ensures Satisfied(CHALLENGES[3], records, now)
            <==> CategoryAmount(GetRecordsByPeriod(records, Weekly, now), "쇼핑") >= 30000
  {
  }

  /** "target" uses the 30-day window; "streak" uses every record, not a window. */
  lemma MonthlyChallengeRules(records: seq<Record>, now: int)
    ensures Satisfied(CHALLENGES[4], records, now)
            <==> SumBy(GetRecordsByPeriod(records, Monthly, now), AmountOf) >= 100000
    ensures Satisfied(CHALLENGES[5], records, now)
            <==> StreakFrom(DaySet(records), DayOf(now)) >= 30
  {
  }

  /** The string key `${userId}-${challenge.id}-${challenge.period}`. */
  datatype PendingKey = PendingKey(userId: int, challengeId: string, period: Period)

  /** The body of `challengeCompletionService.completeChallenge(...)`. */
  datatype CompletionRequest = CompletionRequest(challengeId: string, challengeTitle: string, period: Period, rewardAmount: int)

  function KeyOf(challenge: Challenge, userId: int): PendingKey
  {
    PendingKey(userId, challenge.id, challenge.period)
  }

  /** The challenges of `catalogue` a pass completes: satisfied, and not
      already being reported by another pass. */
  function Completed(catalogue: seq<Challenge>, records: seq<Record>, now: int, userId: int,
                     pending: set<PendingKey>): (r: seq<Challenge>)
    ensures |r| <= |catalogue|
    ensures forall c {:trigger c in r} :: c in r <==>
              c in catalogue && Satisfied(c, records, now) && KeyOf(c, userId) !in pending
  {
    if catalogue == [] then []
    else
      var init := catalogue[..|catalogue| - 1];
      var last := catalogue[|catalogue| - 1];
      assert catalogue == init + [last];
      Completed(init, records, now, userId, pending)
        + (if Satisfied(last, records, now) && KeyOf(last, userId) !in pending then [last] else [])
  }

  /** The challenges a pass over `records` at `now` completes. */
  function CompletedInPass(records: seq<Record>, userId: int, now: int, pending: set<PendingKey>): seq<Challenge>
  {
    Completed(CHALLENGES, records, now, userId, pending)
  }

  function IdsOf(challenges: seq<Challenge>): (r: seq<string>)
    ensures |r| == |challenges|
    ensures forall i {:trigger r[i]} :: 0 <= i < |r| ==> r[i] == challenges[i].id
  {
    if challenges == [] then []
    else IdsOf(challenges[..|challenges| - 1]) + [challenges[|challenges| - 1].id]
  }

  function RequestsOf(challenges: seq<Challenge>): (r: seq<CompletionRequest>)
    ensures |r| == |challenges|
    ensures forall i {:trigger r[i]} :: 0 <= i < |r| ==>
              r[i] == CompletionRequest(challenges[i].id, challenges[i].title, challenges[i].period, challenges[i].reward)
  {
    if challenges == [] then []
    else
      var c := challenges[|challenges| - 1];
      RequestsOf(challenges[..|challenges| - 1]) + [CompletionRequest(c.id, c.title, c.period, c.reward)]
  }

  /** The ledger after saving each of `challenges` in turn. */
  function SaveAll(stored: StoredValue, challenges: seq<Challenge>, userId: int, now: int): StoredValue
  {
    if challenges == [] then stored
    else
      var c := challenges[|challenges| - 1];
      AfterSave(SaveAll(stored, challenges[..|challenges| - 1], userId, now), c.id, c.period, userId, now)
  }

  /** The `switch (challenge.id)` of one iteration. */
  method JudgeChallenge(challenge: Challenge, records: seq<Record>, now: int) returns (isCompleted: bool)
    ensures isCompleted == Satisfied(challenge, records, now)
  {
    isCompleted := false;
    var periodRecords := GetRecordsByPeriod(records, challenge.period, now);
    if challenge.id in CATEGORY_CHALLENGE_IDS {
      if challenge.category.Some? && challenge.category.value != ""
         && challenge.amount.Some? && challenge.amount.value != 0 {
        var categoryAmount := CategoryAmount(periodRecords, challenge.category.value);
        isCompleted := categoryAmount >= challenge.amount.value;
      }
    } else if challenge.id == "target" {
      var monthlyTotal := SumBy(periodRecords, AmountOf);
      isCompleted := monthlyTotal >= TARGET_AMOUNT;
    } else if challenge.id == "streak" {
      var consecutiveDays := GetConsecutiveDays(records, now);
      isCompleted := consecutiveDays >= STREAK_DAYS;
    }
  }

  lemma CompletedStep(catalogue: seq<Challenge>, k: nat, records: seq<Record>, now: int, userId: int,
                      pending: set<PendingKey>, done: seq<Challenge>, reported: bool)
    requires k < |catalogue|
    requires done == Completed(catalogue[..k], records, now, userId, pending)
    requires reported == (Satisfied(catalogue[k], records, now) && KeyOf(catalogue[k], userId) !in pending)
    ensures Completed(catalogue[..k + 1], records, now, userId, pending)
            == if reported then done + [catalogue[k]] else done
  {
    assert catalogue[..k + 1][..k] == catalogue[..k];
  }

  lemma AppendFacts(stored: StoredValue, done: seq<Challenge>, c: Challenge, userId: int, now: int)
    ensures IdsOf(done + [c]) == IdsOf(done) + [c.id]
    ensures RequestsOf(done + [c]) == RequestsOf(done) + [CompletionRequest(c.id, c.title, c.period, c.reward)]
    ensures SaveAll(stored, done + [c], userId, now) == AfterSave(SaveAll(stored, done, userId, now), c.id, c.period, userId, now)
  {
    assert (done + [c])[..|done|] == done;
  }

  class AutoCompleter {
    /** `pendingCompletions`: keys of reports in flight. */
    var pending: set<PendingKey>
    const storage: CompletionStorage

    constructor (storage: CompletionStorage)
      ensures this.storage == storage && pending == {}
    {
      this.storage := storage;
      pending := {};
    }

    /** One pass of the evaluator at the instant `now`. Returns the ids it
        completed, the reports it sent, and the callback invocations (when a
        callback is given); the outcome of each report does not matter. */
    method CheckAndCompleteAutoChallenges(records: seq<Record>, userId: int, now: int, hasCallback: bool)
      returns (completedChallenges: seq<string>, requests: seq<CompletionRequest>, notified: seq<string>)
      modifies this, storage
      ensures var done := CompletedInPass(records, userId, now, old(pending));
              && completedChallenges == IdsOf(done)
              && requests == RequestsOf(done)
              && notified == (if hasCallback then IdsOf(done) else [])
              && storage.stored == SaveAll(old(storage.stored), done, userId, now)
      ensures pending == old(pending)
    {
      completedChallenges := [];
      requests := [];
      notified := [];
      ghost var done: seq<Challenge> := [];
      var k := 0;
      while k < |CHALLENGES|
        invariant 0 <= k <= |CHALLENGES|
        invariant pending == old(pending)
        invariant done == Completed(CHALLENGES[..k], records, now, userId, old(pending))
        invariant completedChallenges == IdsOf(done)
        invariant requests == RequestsOf(done)
        invariant notified == (if hasCallback then IdsOf(done) else [])
        invariant storage.stored == SaveAll(old(storage.stored), done, userId, now)
      {
        var challenge := CHALLENGES[k];
        var isCompleted := JudgeChallenge(challenge, records, now);
        ghost var reported := isCompleted && PendingKey(userId, challenge.id, challenge.period) !in pending;
        CompletedStep(CHALLENGES, k, records, now, userId, old(pending), done, reported);
        if isCompleted {
          var completionKey := PendingKey(userId, challenge.id, challenge.period);
          if completionKey !in pending {
            storage.SaveChallengeCompletion(challenge.id, challenge.period, userId, now);
            completedChallenges := completedChallenges + [challenge.id];
            pending := pending + {completionKey};
            requests := requests + [CompletionRequest(challenge.id, challenge.title, challenge.period, challenge.reward)];
            pending := pending - {completionKey};
            if hasCallback {
              notified := notified + [challenge.id];
            }
            AppendFacts(old(storage.stored), done, challenge, userId, now);
            done := done + [challenge];
          }
        }
        k := k + 1;
      }
      assert CHALLENGES[..k] == CHALLENGES;
    }
  }

  /** The catalogue's ids are pairwise distinct. */
  lemma CatalogueIdsDistinct()
    ensures NoDup(IdsOf(CHALLENGES))
  {
    var ids := IdsOf(CHALLENGES);
    assert ids == ["coffee", "taxi", "delivery", "shopping", "target", "streak"];
  }

  /** A pass reports each challenge at most once. */
  lemma {:induction false} CompletedIdsDistinct(catalogue: seq<Challenge>, records: seq<Record>, now: int, userId: int,
                                                pending: set<PendingKey>)
    requires NoDup(IdsOf(catalogue))
    ensures NoDup(IdsOf(Completed(catalogue, records, now, userId, pending)))
  {
    if catalogue != [] {
      var n := |catalogue| - 1;
      var init := catalogue[..n];
      var last := catalogue[n];
      var ids := IdsOf(catalogue);
      assert NoDup(IdsOf(init)) by {
        forall a, b | 0 <= a < b < n ensures IdsOf(init)[a] != IdsOf(init)[b] {
          assert IdsOf(init)[a] == ids[a] && IdsOf(init)[b] == ids[b];
        }
      }
      CompletedIdsDistinct(init, records, now, userId, pending);
      var prev := Completed(init, records, now, userId, pending);
      var reported := Satisfied(last, records, now) && KeyOf(last, userId) !in pending;
      assert Completed(catalogue, records, now, userId, pending) == prev + (if reported then [last] else []);
      if reported {
        assert last.id !in IdsOf(prev) by {
          forall a | 0 <= a < |prev| ensures IdsOf(prev)[a] != last.id {
            assert prev[a] in prev;
            var m :| 0 <= m < n && init[m] == prev[a];
            assert IdsOf(prev)[a] == ids[m];
            assert ids[m] != ids[n] && ids[n] == last.id;
          }
        }
        NoDupAppend(IdsOf(prev), last.id);
        assert (prev + [last])[..|prev|] == prev;
        assert IdsOf(prev + [last]) == IdsOf(prev) + [last.id];
      } else {
        assert prev + [] == prev;
      }
    }
  }

  /** No challenge id appears twice in what one pass reports. */
  lemma PassReportsEachChallengeOnce(records: seq<Record>, userId: int, now: int, pending: set<PendingKey>)
    ensures NoDup(IdsOf(CompletedInPass(records, userId, now, pending)))
  {
    CatalogueIdsDistinct();
    CompletedIdsDistinct(CHALLENGES, records, now, userId, pending);
  }

  lemma {:induction false} SaveAllKeepsReadability(stored: StoredValue, challenges: seq<Challenge>, userId: int, now: int)
    ensures SaveAll(stored, challenges, userId, now).Unparseable? <==> stored.Unparseable?
  {
    if challenges != [] {
      var c := challenges[|challenges| - 1];
      SaveAllKeepsReadability(stored, challenges[..|challenges| - 1], userId, now);
      SaveKeepsReadability(SaveAll(stored, challenges[..|challenges| - 1], userId, now), c.id, c.period, userId, now);
    }
  }

  /** After a pass over a readable ledger, every challenge it reported is
      recorded as completed for the user. */
  lemma {:induction false} SavedChallengeIsCompleted(stored: StoredValue, challenges: seq<Challenge>, c: Challenge,
                                                     userId: int, now: int)
    requires !stored.Unparseable? && c in challenges
    ensures IsChallengeCompleted(SaveAll(stored, challenges, userId, now), c.id, userId, now)
  {
    var init := challenges[..|challenges| - 1];
    var last := challenges[|challenges| - 1];
    var mid := SaveAll(stored, init, userId, now);
    assert SaveAll(stored, challenges, userId, now) == AfterSave(mid, last.id, last.period, userId, now);
    if c == last {
      assert !mid.Unparseable? by {
        SaveAllKeepsReadability(stored, init, userId, now);
      }
      SaveThenCompleted(mid, last.id, last.period, userId, now);
    } else {
      assert IsChallengeCompleted(mid, c.id, userId, now) by {
        assert c in init by {
          assert challenges == init + [last];
        }
        SavedChallengeIsCompleted(stored, init, c, userId, now);
      }
      SaveKeepsCompleted(mid, last.id, last.period, userId, c.id, userId, now);
    }
  }

  lemma SavedChallengesAreCompleted(stored: StoredValue, challenges: seq<Challenge>, userId: int, now: int)
    requires !stored.Unparseable?
    ensures forall c :: c in challenges ==> IsChallengeCompleted(SaveAll(stored, challenges, userId, now), c.id, userId, now)
  {
    forall c | c in challenges
      ensures IsChallengeCompleted(SaveAll(stored, challenges, userId, now), c.id, userId, now)
    {
      SavedChallengeIsCompleted(stored, challenges, c, userId, now);
    }
  }

  /** Saving challenges that are all completed already changes nothing. */
  lemma {:induction false} SaveAllOfCompletedIsNoop(stored: StoredValue, challenges: seq<Challenge>, userId: int, now: int)
    requires forall c :: c in challenges ==> IsChallengeCompleted(stored, c.id, userId, now)
    ensures SaveAll(stored, challenges, userId, now) == stored
  {
    if challenges != [] {
      var init := challenges[..|challenges| - 1];
      var last := challenges[|challenges| - 1];
      assert forall c :: c in init ==> c in challenges;
      SaveAllOfCompletedIsNoop(stored, init, userId, now);
    }
  }

  lemma {:induction false} SaveAllOfUnreadableIsNoop(challenges: seq<Challenge>, userId: int, now: int)
    ensures SaveAll(Unparseable, challenges, userId, now) == Unparseable
  {
    if challenges != [] {
      SaveAllOfUnreadableIsNoop(challenges[..|challenges| - 1], userId, now);
    }
  }

  /** A second pass over the same records at the same instant leaves the ledger
      as the first pass left it (it still reports the same challenges again). */
  lemma SecondPassKeepsLedger(stored: StoredValue, records: seq<Record>, userId: int, now: int, pending: set<PendingKey>)
    ensures var done := CompletedInPass(records, userId, now, pending);
            SaveAll(SaveAll(stored, done, userId, now), done, userId, now) == SaveAll(stored, done, userId, now)
  {
    var done := CompletedInPass(records, userId, now, pending);
    if stored.Unparseable? {
      SaveAllOfUnreadableIsNoop(done, userId, now);
    } else {
      SavedChallengesAreCompleted(stored, done, userId, now);
      SaveAllOfCompletedIsNoop(SaveAll(stored, done, userId, now), done, userId, now);
    }
  }
}
