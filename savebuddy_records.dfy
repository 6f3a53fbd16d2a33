/** The saving and expense records of the `com.savebuddy` backend:
    backend/src/main/java/com/savebuddy/service/SavingRecordService.java and
    backend/src/main/java/com/savebuddy/service/ExpenseRecordService.java.
    The two services run the same queries over two tables of the same shape,
    so the queries are defined once over a table of `BRecord` rows. A user is
    looked up by email; `LocalDateTime.now()` and `CURRENT_DATE` are the
    input `now`, and `@CreationTimestamp` gives a new row `createdAt == now`. */
module SaveBuddyRecords {

  import opened Wrappers
  import opened Seqs
  import opened Sorting
  import opened Time
  import opened SaveBuddyUsers

  /** A row of `saving_records` or `expense_records`; `userId` is the owner. */
  datatype BRecord = BRecord(id: int, userId: int, itemName: string, amount: int, category: string,
                             memo: Option<string>, createdAt: int)

  /** `RecordInfoDto` / `ExpenseRecordInfoDto`. */
  datatype RecordInfo = RecordInfo(count: int, totalAmount: int, data: seq<BRecord>)

  const RECORD_NOT_FOUND: string := "기록을 찾을 수 없습니다."
  const FORBIDDEN: string := "권한이 없습니다."
  /** `Optional.get()` on an empty result. */
  const NO_VALUE_PRESENT: string := "No value present"

  /** Experience awarded per saving record. */
  const SAVING_XP: int := 10

  function Amount(r: BRecord): int
  {
    r.amount
  }

  /** `oAuth2UserService.findByEmail(email).get().getId()`. */
  function UserIdOf(users: seq<BUser>, email: string): (r: Result<int>)
    ensures r.Err? <==> !EmailTaken(users, email)
    ensures r.Err? ==> r == Err(NO_VALUE_PRESENT)
    ensures r.Ok? ==> exists u :: u in users && u.email == email && u.id == r.value
  {
    match FindByEmail(users, email)
    case None => Err(NO_VALUE_PRESENT)
    case Some(u) => Ok(u.id)
  }

  function OfUser(records: seq<BRecord>, userId: int): (r: seq<BRecord>)
    ensures forall x :: x in r <==> x in records && x.userId == userId
  {
    Filter(records, (x: BRecord) => x.userId == userId)
  }

  /** `findTodaySavingsByUserId`: `DATE(createdAt) = DATE(CURRENT_DATE)`. */
  function TodayOf(records: seq<BRecord>, userId: int, now: int): (r: seq<BRecord>)
    ensures forall x :: x in r <==> x in records && x.userId == userId && DayOf(x.createdAt) == DayOf(now)
  {
    Filter(OfUser(records, userId), (x: BRecord) => DayOf(x.createdAt) == DayOf(now))
  }

  /** `findThisMonthSavingsByUserId`: same year and same month as `CURRENT_DATE`. */
  function MonthOf(records: seq<BRecord>, userId: int, now: int): (r: seq<BRecord>)
    ensures forall x :: x in r <==> x in records && x.userId == userId && YearMonthOf(x.createdAt) == YearMonthOf(now)
  {
    Filter(OfUser(records, userId), (x: BRecord) => YearMonthOf(x.createdAt) == YearMonthOf(now))
  }

  /** The DTO built from a list: its length, the sum of its amounts and the list. */
  function Info(list: seq<BRecord>): RecordInfo
  {
    RecordInfo(|list|, SumBy(list, Amount), list)
  }

  /** `todayRecords(email)`. */
  function TodayRecords(users: seq<BUser>, records: seq<BRecord>, email: string, now: int): (r: Result<RecordInfo>)
    ensures r.Err? <==> !EmailTaken(users, email)
    ensures r.Ok? ==> && r.value.count == |r.value.data|
                      && r.value.totalAmount == SumBy(r.value.data, Amount)
                      && forall x :: x in r.value.data <==>
                           x in records && UserIdOf(users, email) == Ok(x.userId) && DayOf(x.createdAt) == DayOf(now)
  {
    match UserIdOf(users, email)
    case Err(e) => Err(e)
    case Ok(userId) => Ok(Info(TodayOf(records, userId, now)))
  }

  /** `monthRecords(email)`. */
  function MonthRecords(users: seq<BUser>, records: seq<BRecord>, email: string, now: int): (r: Result<RecordInfo>)
    ensures r.Err? <==> !EmailTaken(users, email)
    ensures r.Ok? ==> && r.value.count == |r.value.data|
                      && r.value.totalAmount == SumBy(r.value.data, Amount)
                      && forall x :: x in r.value.data <==>
                           x in records && UserIdOf(users, email) == Ok(x.userId) && YearMonthOf(x.createdAt) == YearMonthOf(now)
  {
    match UserIdOf(users, email)
    case Err(e) => Err(e)
    case Ok(userId) => Ok(Info(MonthOf(records, userId, now)))
  }

  /** A record created now is counted once more in today's list and total;
      a record of another user changes neither. */
  lemma CreatedRecordIsToday(records: seq<BRecord>, created: BRecord, userId: int, now: int)
    requires created.createdAt == now
    ensures TodayOf(records + [created], userId, now) == TodayOf(records, userId, now) + (if created.userId == userId then [created] else [])
    ensures SumBy(TodayOf(records + [created], userId, now), Amount)
            == SumBy(TodayOf(records, userId, now), Amount) + (if created.userId == userId then created.amount else 0)
  {
    FilterSnoc(records, created, (x: BRecord) => x.userId == userId);
    if created.userId == userId {
      FilterSnoc(OfUser(records, userId), created, (x: BRecord) => DayOf(x.createdAt) == DayOf(now));
      SumByAppend(TodayOf(records, userId, now), [created], Amount);
      assert [created][1..] == [];
    } else {
      assert OfUser(records + [created], userId) == OfUser(records, userId);
      assert TodayOf(records, userId, now) + [] == TodayOf(records, userId, now);
    }
  }

  /** A record created now is in this month's list, after the ones before it. */
  lemma CreatedRecordIsThisMonth(records: seq<BRecord>, created: BRecord, userId: int, now: int)
    requires created.createdAt == now
    ensures MonthOf(records + [created], userId, now) == MonthOf(records, userId, now) + (if created.userId == userId then [created] else [])
  {
    FilterSnoc(records, created, (x: BRecord) => x.userId == userId);
    if created.userId == userId {
      FilterSnoc(OfUser(records, userId), created, (x: BRecord) => YearMonthOf(x.createdAt) == YearMonthOf(now));
    } else {
      assert OfUser(records + [created], userId) == OfUser(records, userId);
      assert MonthOf(records, userId, now) + [] == MonthOf(records, userId, now);
    }
  }

  /** The comparator `(a, b) -> b.getCreatedAt().compareTo(a.getCreatedAt())`. */
  function Newer(a: BRecord, b: BRecord): bool
  {
    a.createdAt >= b.createdAt
  }

  /** `getLatestRecords(email)`: the user's records sorted newest first, then `limit(3)`. */
  function LatestRecords(users: seq<BUser>, records: seq<BRecord>, email: string): (r: Result<seq<BRecord>>)
    ensures r.Err? <==> !EmailTaken(users, email)
    ensures r.Ok? ==> |r.value| <= 3
  {
    match UserIdOf(users, email)
    case Err(e) => Err(e)
    case Ok(userId) => Ok(SortedPrefix(OfUser(records, userId), Newer, 3))
  }

  /** The latest records are at most three of the user's, newest first; fewer
      only when the user has fewer; and no left-out record is newer than a
      kept one. */
  lemma LatestRecordsProperties(users: seq<BUser>, records: seq<BRecord>, email: string, userId: int)
    requires UserIdOf(users, email) == Ok(userId)
    ensures var latest := LatestRecords(users, records, email).value;
            && |latest| == (if |OfUser(records, userId)| < 3 then |OfUser(records, userId)| else 3)
            && (forall x :: x in latest ==> x in records && x.userId == userId)
            && (forall i, j :: 0 <= i < j < |latest| ==> latest[i].createdAt >= latest[j].createdAt)
            && multiset(latest) <= multiset(OfUser(records, userId))
            && (forall x, y :: x in latest && y in OfUser(records, userId) && y !in latest ==> x.createdAt >= y.createdAt)
  {
    var s := OfUser(records, userId);
    var latest := SortedPrefix(s, Newer, 3);
    assert TotalPreorder(Newer);
    SortedPrefixProperties(s, Newer, 3);
    forall x, y | x in latest && y in s && y !in latest ensures x.createdAt >= y.createdAt {
      SortedPrefixExcluded(s, Newer, 3, x, y);
    }
  }

  /** `LocalDate.now().minusDays(6).atStartOfDay()`. */
  function WeekStart(now: int): int
  {
    StartOfDay(now) - 6 * DAY_MS
  }

  /** `LocalDate.now().atTime(LocalTime.MAX)`, to the millisecond. */
  function WeekEnd(now: int): int
  {
    StartOfDay(now) + DAY_MS - 1
  }

  /** The window `[WeekStart, WeekEnd]`, both ends inclusive (`Between`), is
      exactly the seven calendar days ending today. */
  lemma WeekWindowIsSevenDays(now: int, t: int)
    ensures WeekStart(now) <= t <= WeekEnd(now) <==> DayOf(now) - 6 <= DayOf(t) <= DayOf(now)
  {
    var d := DayOf(now);
    assert StartOfDay(now) == d * DAY_MS;
    assert DayOf(t) * DAY_MS <= t < DayOf(t) * DAY_MS + DAY_MS;
    if DayOf(t) < d - 6 {
      assert DayOf(t) * DAY_MS + DAY_MS <= (d - 6) * DAY_MS;
    }
    if DayOf(t) > d {
      assert DayOf(t) * DAY_MS >= (d + 1) * DAY_MS;
    }
    if d - 6 <= DayOf(t) <= d {
      assert (d - 6) * DAY_MS <= DayOf(t) * DAY_MS;
      assert DayOf(t) * DAY_MS + DAY_MS <= d * DAY_MS + DAY_MS;
    }
  }

  /** `findByUserIdAndCreatedAtBetween…(userId, startDate, endDate)`. */
  function WeekOf(records: seq<BRecord>, userId: int, now: int): (r: seq<BRecord>)
    ensures forall x :: x in r <==> x in records && x.userId == userId && WeekStart(now) <= x.createdAt <= WeekEnd(now)
  {
    Filter(OfUser(records, userId), (x: BRecord) => WeekStart(now) <= x.createdAt <= WeekEnd(now))
  }

  /** The value a weekday has in the grouping, 0 when it is absent. */
  function DayTotal(status: map<int, int>, day: int): int
  {
    if day in status then status[day] else 0
  }

  /** `groupingBy(getDayOfWeek, summingLong(getAmount))`: weekday 1..7 to the
      sum of the amounts of that weekday's records; weekdays without records
      are absent. */
  function WeekStatus(list: seq<BRecord>): (status: map<int, int>)
    ensures forall d :: d in status ==> 1 <= d <= 7
  {
    if list == [] then map[]
    else
      var rest := WeekStatus(list[1..]);
      var d := DayOfWeek(list[0].createdAt);
      rest[d := DayTotal(rest, d) + list[0].amount]
  }

  /** Each weekday holds the sum of exactly its records, and it is a key
      exactly when it has a record. */
  lemma {:induction false} WeekStatusPerDay(list: seq<BRecord>, day: int)
    ensures DayTotal(WeekStatus(list), day) == SumBy(Filter(list, (x: BRecord) => DayOfWeek(x.createdAt) == day), Amount)
    ensures day in WeekStatus(list) <==> exists x :: x in list && DayOfWeek(x.createdAt) == day
  {
    if list != [] {
      WeekStatusPerDay(list[1..], day);
      var p := (x: BRecord) => DayOfWeek(x.createdAt) == day;
      var rest := WeekStatus(list[1..]);
      var d := DayOfWeek(list[0].createdAt);
      assert WeekStatus(list) == rest[d := DayTotal(rest, d) + list[0].amount];
      if p(list[0]) {
        assert Filter(list, p) == [list[0]] + Filter(list[1..], p);
        assert ([list[0]] + Filter(list[1..], p))[1..] == Filter(list[1..], p);
        assert day in WeekStatus(list) && list[0] in list;
      } else {
        assert Filter(list, p) == Filter(list[1..], p);
        assert forall x :: x in list <==> x == list[0] || x in list[1..];
      }
    }
  }

  /** The seven weekday values added up. */
  function SumFrom(status: map<int, int>, from: int): int
    decreases 8 - from
  {
    if from > 7 then 0 else DayTotal(status, from) + SumFrom(status, from + 1)
  }

  lemma {:induction false} SumFromAdd(status: map<int, int>, day: int, a: int, from: int)
    requires 1 <= day <= 7
    ensures SumFrom(status[day := DayTotal(status, day) + a], from) == SumFrom(status, from) + (if from <= day then a else 0)
    decreases 8 - from
  {
    if from <= 7 {
      SumFromAdd(status, day, a, from + 1);
    }
  }

  /** The weekday values add up to the total of the window. */
  lemma {:induction false} WeekStatusTotal(list: seq<BRecord>)
    ensures SumFrom(WeekStatus(list), 1) == SumBy(list, Amount)
  {
    if list != [] {
      var rest := WeekStatus(list[1..]);
      var d := DayOfWeek(list[0].createdAt);
      var a := list[0].amount;
      assert SumFrom(rest, 1) == SumBy(list[1..], Amount) by {
        WeekStatusTotal(list[1..]);
      }
      assert SumFrom(rest[d := DayTotal(rest, d) + a], 1) == SumFrom(rest, 1) + a by {
        SumFromAdd(rest, d, a, 1);
      }
      assert WeekStatus(list) == rest[d := DayTotal(rest, d) + a];
      assert SumBy(list, Amount) == a + SumBy(list[1..], Amount);
    }
  }

  /** `getWeekRecordsStatus(email)`. */
  function WeekRecordsStatus(users: seq<BUser>, records: seq<BRecord>, email: string, now: int): (r: Result<map<int, int>>)
    ensures r.Err? <==> !EmailTaken(users, email)
  {
    match UserIdOf(users, email)
    case Err(e) => Err(e)
    case Ok(userId) => Ok(WeekStatus(WeekOf(records, userId, now)))
  }

  /** The week statistics: each weekday maps to the sum of the user's records
      of that weekday in the last seven calendar days, and the seven values
      sum to the window's total. */
  lemma WeekRecordsStatusProperties(users: seq<BUser>, records: seq<BRecord>, email: string, now: int, userId: int, day: int)
    requires UserIdOf(users, email) == Ok(userId)
    ensures var status := WeekRecordsStatus(users, records, email, now).value;
            && DayTotal(status, day) == SumBy(Filter(WeekOf(records, userId, now), (x: BRecord) => DayOfWeek(x.createdAt) == day), Amount)
            && SumFrom(status, 1) == SumBy(WeekOf(records, userId, now), Amount)
            && (forall x :: x in WeekOf(records, userId, now) ==> DayOf(now) - 6 <= DayOf(x.createdAt) <= DayOf(now))
  {
    WeekStatusPerDay(WeekOf(records, userId, now), day);
    WeekStatusTotal(WeekOf(records, userId, now));
    forall x | x in WeekOf(records, userId, now) ensures DayOf(now) - 6 <= DayOf(x.createdAt) <= DayOf(now) {
      WeekWindowIsSevenDays(now, x.createdAt);
    }
  }

  /** Removing by id, as `delete(record)` does for a row with a unique id. */
  function WithoutRecord(records: seq<BRecord>, recordId: int): (r: seq<BRecord>)
    ensures forall x :: x in r <==> x in records && x.id != recordId
  {
    Filter(records, (x: BRecord) => x.id != recordId)
  }

  function IndexOfRecord(records: seq<BRecord>, recordId: int): (i: int)
    ensures -1 <= i < |records|
    ensures i >= 0 ==> records[i].id == recordId
    ensures i < 0 <==> forall j :: 0 <= j < |records| ==> records[j].id != recordId
  {
    IndexWhere(records, (x: BRecord) => x.id == recordId)
  }

  ghost predicate UniqueRecordIds(records: seq<BRecord>)
  {
    forall a, b :: 0 <= a < b < |records| ==> records[a].id != records[b].id
  }

  /** With unique ids, cutting out position `i` is removing its id, and the
      rest keeps unique ids. */
  lemma RemoveAt(records: seq<BRecord>, i: int)
    requires UniqueRecordIds(records) && 0 <= i < |records|
    ensures records[..i] + records[i + 1..] == WithoutRecord(records, records[i].id)
    ensures UniqueRecordIds(records[..i] + records[i + 1..])
  {
    var id := records[i].id;
    forall j | 0 <= j < |records| && j != i ensures records[j].id != id {
      if j < i {
        assert records[j].id != records[i].id;
      } else {
        assert records[i].id != records[j].id;
      }
    }
    FilterDropsOne(records, i, (x: BRecord) => x.id != id);
    var rest := records[..i] + records[i + 1..];
    forall a, b | 0 <= a < b < |rest| ensures rest[a].id != rest[b].id {
      var a' := if a < i then a else a + 1;
      var b' := if b < i then b else b + 1;
      assert rest[a] == records[a'] && rest[b] == records[b'];
    }
  }

  /** A saving record's effect on its owner: savings grow by the amount and
      experience by 10, with the level left as it was. */
  function SavingCredited(u: BUser, amount: int): (v: BUser)
    ensures v.totalSavings == u.totalSavings + amount && v.experience == u.experience + SAVING_XP
    ensures v.level == u.level && v.id == u.id && v.username == u.username && v.email == u.email
    ensures v == u.(totalSavings := v.totalSavings, experience := v.experience)
  {
    u.(totalSavings := u.totalSavings + amount, experience := u.experience + SAVING_XP)
  }

  /** `Optional.ofNullable(user.getTotalExpense()).orElse(0L)`. */
  function ExpenseOf(u: BUser): int
  {
    if u.totalExpense.Some? then u.totalExpense.value else 0
  }

  /** An expense record's effect on its owner: the total expense, a missing
      one counted as 0, grows by the amount; nothing else changes. */
  function ExpenseCharged(u: BUser, amount: int): (v: BUser)
    ensures v.totalExpense == Some(ExpenseOf(u) + amount)
    ensures v == u.(totalExpense := v.totalExpense)
  {
    u.(totalExpense := Some(ExpenseOf(u) + amount))
  }

  /** `deleteExpenseRecord` as written: the deleted amount is taken off the
      owner's total savings. */
  function ExpenseRefundedAsWritten(u: BUser, amount: int): (v: BUser)
    ensures v.totalSavings == u.totalSavings - amount && v.totalExpense == u.totalExpense
    ensures v == u.(totalSavings := v.totalSavings)
  {
    u.(totalSavings := u.totalSavings - amount)
  }

  /** The deletion the comment at the subtraction describes: the deleted
      amount is taken off the owner's total expense. */
  function ExpenseRefunded(u: BUser, amount: int): (v: BUser)
    ensures v.totalExpense == Some(ExpenseOf(u) - amount) && v.totalSavings == u.totalSavings
    ensures v == u.(totalExpense := v.totalExpense)
  {
    u.(totalExpense := Some(ExpenseOf(u) - amount))
  }

  /** As written, creating and then deleting an expense of a non-zero amount
      leaves the total expense raised and moves the total savings. */
  lemma ExpenseRoundTripAsWrittenDrifts(u: BUser, amount: int)
    requires amount != 0
    ensures ExpenseOf(ExpenseRefundedAsWritten(ExpenseCharged(u, amount), amount)) == ExpenseOf(u) + amount
    ensures ExpenseRefundedAsWritten(ExpenseCharged(u, amount), amount).totalSavings == u.totalSavings - amount
    ensures ExpenseRefundedAsWritten(ExpenseCharged(u, amount), amount) != u
  {
  }

  /** Corrected, creating and then deleting an expense restores the owner:
      the total expense returns to its value (a missing one becomes 0) and
      the savings are untouched. */
  lemma ExpenseRoundTrip(u: BUser, amount: int)
    ensures ExpenseRefunded(ExpenseCharged(u, amount), amount) == u.(totalExpense := Some(ExpenseOf(u)))
    ensures ExpenseOf(ExpenseRefunded(ExpenseCharged(u, amount), amount)) == ExpenseOf(u)
  {
  }

  /** Every record belongs to a stored user (the `user_id` foreign key). */
  ghost predicate Owned(records: seq<BRecord>, users: seq<BUser>)
  {
    forall x :: x in records ==> IndexOfId(users, x.userId) >= 0
  }

  /** A `saving_records` or `expense_records` table. */
  class RecordRepository {
    var records: seq<BRecord>
    var nextId: int

    ghost predicate Valid()
      reads this
    {
      UniqueRecordIds(records) && forall x :: x in records ==> x.id < nextId
    }

    constructor ()
      ensures Valid() && records == []
    {
      records := [];
      nextId := 1;
    }

    /** `save(record)` of a new row: it gets the next id. */
    method Insert(userId: int, itemName: string, amount: int, category: string, memo: Option<string>, now: int)
      returns (saved: BRecord)
      requires Valid()
      modifies this
      ensures Valid()
      ensures saved == BRecord(old(nextId), userId, itemName, amount, category, memo, now)
      ensures records == old(records) + [saved] && nextId == old(nextId) + 1
    {
      saved := BRecord(nextId, userId, itemName, amount, category, memo, now);
      forall a | 0 <= a < |records| ensures records[a].id != saved.id {
        assert records[a] in records;
      }
      records := records + [saved];
      nextId := nextId + 1;
    }

    /** `delete(record)` of the row at `i`. */
    method DeleteAt(i: int)
      requires Valid() && 0 <= i < |records|
      modifies this
      ensures Valid()
      ensures records == WithoutRecord(old(records), old(records)[i].id) && nextId == old(nextId)
    {
      RemoveAt(records, i);
      records := records[..i] + records[i + 1..];
    }
  }

  /** A stored user updated in place (same id) keeps every record owned. */
  lemma OwnedAfterUserUpdate(records: seq<BRecord>, users: seq<BUser>, i: int, v: BUser)
    requires Owned(records, users) && 0 <= i < |users| && v.id == users[i].id
    ensures Owned(records, users[i := v])
  {
    forall x | x in records ensures IndexOfId(users[i := v], x.userId) >= 0 {
      IndexOfIdAfterUpdate(users, i, v, x.userId);
    }
  }

  /** Deleting records keeps the rest owned. */
  lemma OwnedAfterDelete(records: seq<BRecord>, users: seq<BUser>, recordId: int)
    requires Owned(records, users)
    ensures Owned(WithoutRecord(records, recordId), users)
  {
  }

  class SavingRecordService {
    const records: RecordRepository
    const users: UserRepository

    ghost predicate Valid()
      reads this, records, users
    {
      records.Valid() && users.Valid() && Owned(records.records, users.users)
    }

    constructor (records: RecordRepository, users: UserRepository)
      ensures this.records == records && this.users == users
    {
      this.records := records;
      this.users := users;
    }

    /** `createSavingRecord(email, itemName, amount, category, memo)`. */
    method CreateSavingRecord(email: string, itemName: string, amount: int, category: string, memo: Option<string>, now: int)
      returns (r: Result<BRecord>)
      requires Valid()
      modifies records, users
      ensures Valid()
      ensures !EmailTaken(old(users.users), email) ==>
                && r == Err(USER_NOT_FOUND)
                && records.records == old(records.records) && users.users == old(users.users)
      ensures EmailTaken(old(users.users), email) ==>
                var i := IndexOfEmail(old(users.users), email);
                && r == Ok(BRecord(old(records.nextId), old(users.users)[i].id, itemName, amount, category, memo, now))
                && records.records == old(records.records) + [r.value]
                && users.users == old(users.users)[i := SavingCredited(old(users.users)[i], amount)]
      ensures users.nextId == old(users.nextId)
    {
      var userOpt := FindByEmail(users.users, email);
      if userOpt.None? {
        return Err(USER_NOT_FOUND);
      }
      var i := IndexOfEmail(users.users, email);
      var user := users.users[i];
      var savedRecord := records.Insert(user.id, itemName, amount, category, memo, now);
      user := SavingCredited(user, amount);
      OwnedAfterUserUpdate(old(records.records), users.users, i, user);
      IndexOfUnique(users.users, i);
      users.SetRow(i, user);
      OwnedAfterUserUpdate([savedRecord], old(users.users), i, user);
      return Ok(savedRecord);
    }

    /** `deleteSavingRecord(recordId, email)`: only the owner may delete, and
        the owner's totals are not adjusted. */
    method DeleteSavingRecord(recordId: int, email: string) returns (r: Result<()>)
      requires Valid()
      modifies records
      ensures Valid()
      ensures IndexOfRecord(old(records.records), recordId) < 0 ==>
                r == Err(RECORD_NOT_FOUND) && records.records == old(records.records)
      ensures IndexOfRecord(old(records.records), recordId) >= 0 ==>
                var owner := users.users[IndexOfId(users.users, old(records.records)[IndexOfRecord(old(records.records), recordId)].userId)];
                && (owner.email != email ==> r == Err(FORBIDDEN) && records.records == old(records.records))
                && (owner.email == email ==> r == Ok(()) && records.records == WithoutRecord(old(records.records), recordId))
      ensures records.nextId == old(records.nextId)
    {
      var i := IndexOfRecord(records.records, recordId);
      if i < 0 {
        return Err(RECORD_NOT_FOUND);
      }
      var record := records.records[i];
      assert record in records.records;
      var owner := users.users[IndexOfId(users.users, record.userId)];
      if owner.email != email {
        return Err(FORBIDDEN);
      }
      records.DeleteAt(i);
      return Ok(());
    }
  }

  class ExpenseRecordService {
    const records: RecordRepository
    const users: UserRepository

    ghost predicate Valid()
      reads this, records, users
    {
      records.Valid() && users.Valid() && Owned(records.records, users.users)
    }

    constructor (records: RecordRepository, users: UserRepository)
      ensures this.records == records && this.users == users
    {
      this.records := records;
      this.users := users;
    }

    /** `createExpenseRecord(email, itemName, amount, category, memo)`. */
    method CreateExpenseRecord(email: string, itemName: string, amount: int, category: string, memo: Option<string>, now: int)
      returns (r: Result<BRecord>)
      requires Valid()
      modifies records, users
      ensures Valid()
      ensures !EmailTaken(old(users.users), email) ==>
                && r == Err(USER_NOT_FOUND)
                && records.records == old(records.records) && users.users == old(users.users)
      ensures EmailTaken(old(users.users), email) ==>
                var i := IndexOfEmail(old(users.users), email);
                && r == Ok(BRecord(old(records.nextId), old(users.users)[i].id, itemName, amount, category, memo, now))
                && records.records == old(records.records) + [r.value]
                && users.users == old(users.users)[i := ExpenseCharged(old(users.users)[i], amount)]
      ensures users.nextId == old(users.nextId)
    {
      var userOpt := FindByEmail(users.users, email);
      if userOpt.None? {
        return Err(USER_NOT_FOUND);
      }
      var i := IndexOfEmail(users.users, email);
      var user := users.users[i];
      var expenseRecord := records.Insert(user.id, itemName, amount, category, memo, now);
      user := ExpenseCharged(user, amount);
      OwnedAfterUserUpdate(old(records.records), users.users, i, user);
      IndexOfUnique(users.users, i);
      users.SetRow(i, user);
      OwnedAfterUserUpdate([expenseRecord], old(users.users), i, user);
      return Ok(expenseRecord);
    }

    /** `deleteExpenseRecord(recordId, email)` as written: after the row is
        deleted, the amount is subtracted from the owner's total savings. */
    method DeleteExpenseRecordAsWritten(recordId: int, email: string) returns (r: Result<()>)
      requires Valid()
      modifies records, users
      ensures Valid()
      ensures IndexOfRecord(old(records.records), recordId) < 0 ==>
                && r == Err(RECORD_NOT_FOUND)
                && records.records == old(records.records) && users.users == old(users.users)
      ensures IndexOfRecord(old(records.records), recordId) >= 0 ==>
                var record := old(records.records)[IndexOfRecord(old(records.records), recordId)];
                var j := IndexOfId(old(users.users), record.userId);
                && (old(users.users)[j].email != email ==>
                      r == Err(FORBIDDEN) && records.records == old(records.records) && users.users == old(users.users))
                && (old(users.users)[j].email == email ==>
                      && r == Ok(())
                      && records.records == WithoutRecord(old(records.records), recordId)
                      && users.users == old(users.users)[j := ExpenseRefundedAsWritten(old(users.users)[j], record.amount)])
      ensures users.nextId == old(users.nextId) && records.nextId == old(records.nextId)
    {
      var i := IndexOfRecord(records.records, recordId);
      if i < 0 {
        return Err(RECORD_NOT_FOUND);
      }
      var record := records.records[i];
      assert record in records.records;
      var j := IndexOfId(users.users, record.userId);
      var user := users.users[j];
      if user.email != email {
        return Err(FORBIDDEN);
      }
      var deletedAmount := record.amount;
      records.DeleteAt(i);
      OwnedAfterDelete(old(records.records), users.users, recordId);
      user := ExpenseRefundedAsWritten(user, deletedAmount);
      OwnedAfterUserUpdate(records.records, users.users, j, user);
      users.SetRow(j, user);
      return Ok(());
    }

    /** The corrected `deleteExpenseRecord(recordId, email)`: after the row is
        deleted, the amount is subtracted from the owner's total expense. */
    method DeleteExpenseRecord(recordId: int, email: string) returns (r: Result<()>)
      requires Valid()
      modifies records, users
      ensures Valid()
      ensures IndexOfRecord(old(records.records), recordId) < 0 ==>
                && r == Err(RECORD_NOT_FOUND)
                && records.records == old(records.records) && users.users == old(users.users)
      ensures IndexOfRecord(old(records.records), recordId) >= 0 ==>
                var record := old(records.records)[IndexOfRecord(old(records.records), recordId)];
                var j := IndexOfId(old(users.users), record.userId);
                && (old(users.users)[j].email != email ==>
                      r == Err(FORBIDDEN) && records.records == old(records.records) && users.users == old(users.users))
                && (old(users.users)[j].email == email ==>
                      && r == Ok(())
                      && records.records == WithoutRecord(old(records.records), recordId)
                      && users.users == old(users.users)[j := ExpenseRefunded(old(users.users)[j], record.amount)])
      ensures users.nextId == old(users.nextId) && records.nextId == old(records.nextId)
    {
      var i := IndexOfRecord(records.records, recordId);
      if i < 0 {
        return Err(RECORD_NOT_FOUND);
      }
      var record := records.records[i];
      assert record in records.records;
      var j := IndexOfId(users.users, record.userId);
      var user := users.users[j];
      if user.email != email {
        return Err(FORBIDDEN);
      }
      var deletedAmount := record.amount;
      records.DeleteAt(i);
      OwnedAfterDelete(old(records.records), users.users, recordId);
      user := ExpenseRefunded(user, deletedAmount);
      OwnedAfterUserUpdate(records.records, users.users, j, user);
      users.SetRow(j, user);
      return Ok(());
    }
  }
}
