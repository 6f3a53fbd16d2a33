/** The saving-record service of the `stop.save` backend
    (backend/save/src/main/java/stop/save/service/SavingRecordService.java).
    The `saving_records` table is a sequence of rows; `list(userId)` is the
    user's rows in table order; `LocalDateTime.now()` is the input `now`. */
module StopSaveRecords {

  import opened Wrappers
  import opened Seqs
  import opened Sorting
  import opened Time
  import opened StopSaveUsers

  datatype SRecord = SRecord(id: int, userId: int, itemName: string, amount: int, category: string, memo: Option<string>, createdAt: int)

  const RECORD_NOT_FOUND: string := "기록을 찾을 수 없습니다."
  const NOT_OWNER: string := "권한이 없습니다."

  function Amount(r: SRecord): int
  {
    r.amount
  }

  /** `savingRecordRepository2.list(userId)`. */
  function OfUser(records: seq<SRecord>, userId: int): (r: seq<SRecord>)
    ensures forall x :: x in r <==> x in records && x.userId == userId
  {
    Filter(records, (x: SRecord) => x.userId == userId)
  }

  /** `totalAmount(userId)`. */
  function TotalAmount(records: seq<SRecord>, userId: int): int
  {
    SumBy(OfUser(records, userId), Amount)
  }

  /** The all-time total is 0 on an empty table and grows by exactly the
      amount of each record of the user. */
  lemma TotalAmountAppend(records: seq<SRecord>, x: SRecord, userId: int)
    ensures TotalAmount([], userId) == 0
    ensures TotalAmount(records + [x], userId) == TotalAmount(records, userId) + (if x.userId == userId then x.amount else 0)
  {
    OfUserAppend(records, x, userId);
    SumByAppend(OfUser(records, userId), if x.userId == userId then [x] else [], Amount);
  }

  /** `getTodayTotalAmount(userId)` as written: the sum over every record of
      the user, with no date condition. This is the as-written half of a
      finding, not a specification: its contract records that the method
      computes the same value as `totalAmount`. */
  function TodayTotalAmountAsWritten(records: seq<SRecord>, userId: int): (r: int)
    ensures r == TotalAmount(records, userId)
  {
    SumBy(OfUser(records, userId), Amount)
  }

  /** The records the user made on the calendar day of `now`. */
  function TodayRecords(records: seq<SRecord>, userId: int, now: int): (r: seq<SRecord>)
    ensures forall x :: x in r <==> x in records && x.userId == userId && DayOf(x.createdAt) == DayOf(now)
  {
    Filter(OfUser(records, userId), (x: SRecord) => DayOf(x.createdAt) == DayOf(now))
  }

  /** The total that the name "today's total" promises: today's records only. */
  function TodayTotalAmount(records: seq<SRecord>, userId: int, now: int): int
  {
    SumBy(TodayRecords(records, userId, now), Amount)
  }

  /** A record from another day changes the as-written total: one 3000 won
      record of day 0 is counted on day 1, when nothing was saved that day. */
  lemma TodayTotalAsWrittenCountsOtherDays()
    ensures TodayTotalAmountAsWritten([SRecord(1, 7, "커피", 3000, "음식", None, 0)], 7) == 3000
    ensures TodayTotalAmount([SRecord(1, 7, "커피", 3000, "음식", None, 0)], 7, DAY_MS) == 0
  {
    var rs := [SRecord(1, 7, "커피", 3000, "음식", None, 0)];
    assert OfUser(rs, 7) == rs;
    assert rs[1..] == [];
    assert DayOf(0) != DayOf(DAY_MS);
    assert Filter(rs, (x: SRecord) => DayOf(x.createdAt) == DayOf(DAY_MS)) == [];
  }

  lemma OfUserAppend(records: seq<SRecord>, x: SRecord, userId: int)
    ensures OfUser(records + [x], userId) == OfUser(records, userId) + (if x.userId == userId then [x] else [])
  {
    FilterAppend(records, [x], (r: SRecord) => r.userId == userId);
    assert [x][1..] == [];
  }

  /** The corrected total counts exactly today's records: adding a record of
      another day or of another user leaves it alone, adding one of today
      adds its amount. */
  lemma TodayTotalAmountAppend(records: seq<SRecord>, x: SRecord, userId: int, now: int)
    ensures TodayTotalAmount(records + [x], userId, now)
            == TodayTotalAmount(records, userId, now) + (if x.userId == userId && DayOf(x.createdAt) == DayOf(now) then x.amount else 0)
  {
    var today := (r: SRecord) => DayOf(r.createdAt) == DayOf(now);
    OfUserAppend(records, x, userId);
    FilterAppend(OfUser(records, userId), if x.userId == userId then [x] else [], today);
    if x.userId == userId {
      assert [x][1..] == [];
    }
    SumByAppend(TodayRecords(records, userId, now), Filter(if x.userId == userId then [x] else [], today), Amount);
  }

  /** `filterMonthRecords`: from the first of this month at 00:00 up to, not
      including, the first of the next month. */
  function MonthRecords(records: seq<SRecord>, userId: int, now: int): (r: seq<SRecord>)
    ensures forall x :: x in r <==> (x in records && x.userId == userId && StartOfMonth(now) <= x.createdAt < StartOfNextMonth(now))
  {
    Filter(OfUser(records, userId), (x: SRecord) => StartOfMonth(now) <= x.createdAt < StartOfNextMonth(now))
  }

  /** `getMonthTotalAmount` and `getMonthTotalCount`. */
  function MonthTotals(records: seq<SRecord>, userId: int, now: int): (r: (int, int))
    ensures r.1 == |MonthRecords(records, userId, now)| && r.1 <= |OfUser(records, userId)|
  {
    (SumBy(MonthRecords(records, userId, now), Amount), |MonthRecords(records, userId, now)|)
  }

  /** The month totals start at zero and count a new record, with its amount,
      exactly when it is the user's and falls in the month of `now`. */
  lemma MonthTotalsAppend(records: seq<SRecord>, x: SRecord, userId: int, now: int)
    ensures MonthTotals([], userId, now) == (0, 0)
    ensures var inMonth := x.userId == userId && StartOfMonth(now) <= x.createdAt < StartOfNextMonth(now);
            && MonthTotals(records + [x], userId, now).0 == MonthTotals(records, userId, now).0 + (if inMonth then x.amount else 0)
            && MonthTotals(records + [x], userId, now).1 == MonthTotals(records, userId, now).1 + (if inMonth then 1 else 0)
  {
    var month := (r: SRecord) => StartOfMonth(now) <= r.createdAt < StartOfNextMonth(now);
    OfUserAppend(records, x, userId);
    FilterAppend(OfUser(records, userId), if x.userId == userId then [x] else [], month);
    if x.userId == userId {
      assert [x][1..] == [];
    }
    SumByAppend(MonthRecords(records, userId, now), Filter(if x.userId == userId then [x] else [], month), Amount);
  }

  /** The comparator `(a, b) -> b.getCreatedAt().compareTo(a.getCreatedAt())`. */
  function Newer(a: SRecord, b: SRecord): bool
  {
    a.createdAt >= b.createdAt
  }

  /** `getLatestRecords(userId)`: sorted newest first, then `limit(3)`. */
  function LatestRecords(records: seq<SRecord>, userId: int): (r: seq<SRecord>)
    ensures |r| <= 3 && |r| == if |OfUser(records, userId)| < 3 then |OfUser(records, userId)| else 3
  {
    SortedPrefix(OfUser(records, userId), Newer, 3)
  }

  /** The latest records are the user's, newest first, and no left-out record
      is newer than one that was kept. */
  lemma LatestRecordsProperties(records: seq<SRecord>, userId: int)
    ensures forall x :: x in LatestRecords(records, userId) ==> x in records && x.userId == userId
    ensures forall i, j :: 0 <= i < j < |LatestRecords(records, userId)| ==>
              LatestRecords(records, userId)[i].createdAt >= LatestRecords(records, userId)[j].createdAt
    ensures multiset(LatestRecords(records, userId)) <= multiset(OfUser(records, userId))
    ensures forall x, y :: x in LatestRecords(records, userId) && y in OfUser(records, userId) && y !in LatestRecords(records, userId) ==>
              x.createdAt >= y.createdAt
  {
    assert TotalPreorder(Newer);
    SortedPrefixProperties(OfUser(records, userId), Newer, 3);
    var s := OfUser(records, userId);
    var p := LatestRecords(records, userId);
    forall x, y | x in p && y in s && y !in p ensures x.createdAt >= y.createdAt {
      SortedPrefixExcluded(s, Newer, 3, x, y);
    }
  }

  /** Removing by id, as `delete(record)` does for a row with a unique id. */
  function WithoutId(records: seq<SRecord>, recordId: int): (r: seq<SRecord>)
    ensures forall x :: x in r <==> x in records && x.id != recordId
  {
    Filter(records, (x: SRecord) => x.id != recordId)
  }

  function IndexOfRecord(records: seq<SRecord>, recordId: int): (i: int)
    ensures -1 <= i < |records|
    ensures i >= 0 ==> records[i].id == recordId
    ensures i < 0 <==> forall j :: 0 <= j < |records| ==> records[j].id != recordId
  {
    IndexWhere(records, (x: SRecord) => x.id == recordId)
  }

  class SavingRecordService {
    var records: seq<SRecord>
    var nextId: int
    const userService: UserService

    ghost predicate Valid()
      reads this, userService
    {
      && userService.Valid()
      && (forall i, j :: 0 <= i < j < |records| ==> records[i].id != records[j].id)
      && (forall x :: x in records ==> x.id < nextId)
    }

    constructor (userService: UserService)
      requires userService.Valid()
      ensures Valid() && records == [] && this.userService == userService
    {
      records := [];
      nextId := 1;
      this.userService := userService;
    }

    /** `createSavingRecord`: an unknown user fails before anything is saved;
        otherwise the record is stored, the amount goes to the user's total
        savings and 10 experience is added, which may raise the level. */
    method CreateSavingRecord(userId: int, itemName: string, amount: int, category: string, memo: Option<string>, now: int)
      returns (r: Result<SRecord>)
      requires Valid()
      modifies this, userService
      ensures Valid()
      ensures IndexOfId(old(userService.users), userId) < 0 ==>
                r == Err(USER_NOT_FOUND) && records == old(records) && userService.users == old(userService.users)
      ensures IndexOfId(old(userService.users), userId) >= 0 ==>
                && r == Ok(SRecord(old(nextId), userId, itemName, amount, category, memo, now))
                && records == old(records) + [r.value]
                && userService.users == old(userService.users)[IndexOfId(old(userService.users), userId) :=
                     Gained(WithSavings(old(userService.users)[IndexOfId(old(userService.users), userId)], amount), 10)]
    {
      var userOpt := FindById(userService.users, userId);
      if userOpt.None? {
        return Err(USER_NOT_FOUND);
      }
      var record := SRecord(nextId, userId, itemName, amount, category, memo, now);
      records := records + [record];
      nextId := nextId + 1;
      ghost var i := IndexOfId(userService.users, userId);
      var saved := userService.UpdateTotalSavings(userId, amount);
      IndexOfIdUnique(userService.users, i, userId);
      var gained := userService.AddExperience(userId, 10);
      return Ok(record);
    }

    /** `deleteSavingRecord(recordId, userId)`: a missing record and a record
        of another user are refused; otherwise only that record goes, and the
        user's totals are not touched. */
    method DeleteSavingRecord(recordId: int, userId: int) returns (r: Result<()>)
      requires Valid()
      modifies this
      ensures Valid()
      ensures IndexOfRecord(old(records), recordId) < 0 ==> r == Err(RECORD_NOT_FOUND) && records == old(records)
      ensures IndexOfRecord(old(records), recordId) >= 0 && old(records)[IndexOfRecord(old(records), recordId)].userId != userId ==>
                r == Err(NOT_OWNER) && records == old(records)
      ensures IndexOfRecord(old(records), recordId) >= 0 && old(records)[IndexOfRecord(old(records), recordId)].userId == userId ==>
                r == Ok(()) && records == WithoutId(old(records), recordId)
      ensures nextId == old(nextId)
    {
      var i := IndexOfRecord(records, recordId);
      if i < 0 {
        return Err(RECORD_NOT_FOUND);
      }
      if records[i].userId != userId {
        return Err(NOT_OWNER);
      }
      var rest := records[..i] + records[i + 1..];
      RemoveAtIsWithoutId(records, i, rest);
      RemoveAtKeepsUniqueIds(records, i, rest);
      records := rest;
      return Ok(());
    }
  }

  /** With unique ids, cutting out position `i` is removing its id. */
  lemma RemoveAtIsWithoutId(records: seq<SRecord>, i: int, rest: seq<SRecord>)
    requires 0 <= i < |records| && rest == records[..i] + records[i + 1..]
    requires forall a, b :: 0 <= a < b < |records| ==> records[a].id != records[b].id
    ensures rest == WithoutId(records, records[i].id)
  {
    var id := records[i].id;
    forall j | 0 <= j < |records| && j != i ensures records[j].id != id {
      if j < i {
        assert records[j].id != records[i].id;
      } else {
        assert records[i].id != records[j].id;
      }
    }
    FilterDropsOne(records, i, (x: SRecord) => x.id != id);
  }

  lemma RemoveAtKeepsUniqueIds(records: seq<SRecord>, i: int, rest: seq<SRecord>)
    requires 0 <= i < |records| && rest == records[..i] + records[i + 1..]
    requires forall a, b :: 0 <= a < b < |records| ==> records[a].id != records[b].id
    ensures forall a, b :: 0 <= a < b < |rest| ==> rest[a].id != rest[b].id
  {
    forall a, b | 0 <= a < b < |rest| ensures rest[a].id != rest[b].id {
      var a' := if a < i then a else a + 1;
      var b' := if b < i then b else b + 1;
      assert rest[a] == records[a'] && rest[b] == records[b'];
    }
  }
}
