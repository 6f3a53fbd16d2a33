/** The expense-record store (frontend/src/store/useExpenseRecordStore.ts).
    Remote calls are input outcomes; the refreshes that `Promise.all` starts
    run one after the other, in the order they are listed. */
module ExpenseRecordStore {

  import opened Wrappers
  import opened Seqs
  import opened ClientTypes
  import AuthStore

  datatype Snapshot = Snapshot(
    records: seq<Record>,
    todayRecords: Option<RecordInfo>,
    monthRecords: Option<RecordInfo>,
    latestRecords: seq<Record>,
    weekRecords: seq<map<string, int>>,
    categoryStats: seq<CategoryStats>,
    isLoading: bool)

  const INITIAL: Snapshot := Snapshot([], None, None, [], [], [], false)

  /** The body of `createExpenseRecord`: the form fields and the fixed `userId: 1`. */
  datatype ExpenseRequest = ExpenseRequest(itemName: string, amount: int, category: string, memo: Option<string>, userId: int)

  /** The answers to the six refreshes. */
  datatype Refresh = Refresh(
    today: Outcome<RecordInfo>,
    month: Outcome<RecordInfo>,
    latest: Outcome<seq<Record>>,
    week: Outcome<seq<map<string, int>>>,
    category: Outcome<seq<CategoryStats>>,
    all: Outcome<seq<Record>>)

  /** A failed list refresh resets its field to `[]`. */
  function ListOr<T>(response: Outcome<seq<T>>): (r: seq<T>)
    ensures response.Resolved? ==> r == response.value
    ensures response.Rejected? ==> r == []
  {
    if response.Resolved? then response.value else []
  }

  /** A failed today or month refresh resets its field to `null`. */
  function InfoOr(response: Outcome<RecordInfo>): (r: Option<RecordInfo>)
    ensures response.Resolved? <==> r.Some?
    ensures response.Resolved? ==> r == Some(response.value)
  {
    if response.Resolved? then Some(response.value) else None
  }

  /** The state after the six refreshes, given the state before them. */
  function Refreshed(s: Snapshot, refresh: Refresh): (r: Snapshot)
    ensures r.todayRecords == InfoOr(refresh.today) && r.monthRecords == InfoOr(refresh.month)
    ensures r.latestRecords == ListOr(refresh.latest) && r.weekRecords == ListOr(refresh.week)
    ensures r.categoryStats == ListOr(refresh.category)
    ensures r.records == (if refresh.all.Resolved? then refresh.all.value else s.records)
    ensures !r.isLoading
  {
    Snapshot(
      if refresh.all.Resolved? then refresh.all.value else s.records,
      InfoOr(refresh.today), InfoOr(refresh.month),
      ListOr(refresh.latest), ListOr(refresh.week), ListOr(refresh.category),
      false)
  }

  /** The optimistic removal in `deleteRecord`. */
  function WithoutRecord(records: seq<Record>, recordId: int): (r: seq<Record>)
    ensures forall x :: x in r <==> x in records && x.id != recordId
    ensures |r| <= |records|
  {
    Filter(records, (x: Record) => x.id != recordId)
  }

  /** The removal keeps the other records in their order, and removing twice
      is removing once. */
  lemma WithoutRecordProperties(records: seq<Record>, recordId: int)
    ensures IsSubsequence(WithoutRecord(records, recordId), records)
    ensures WithoutRecord(WithoutRecord(records, recordId), recordId) == WithoutRecord(records, recordId)
    ensures (forall x :: x in records ==> x.id != recordId) ==> WithoutRecord(records, recordId) == records
  {
    var keep := (x: Record) => x.id != recordId;
    FilterIsSubsequence(records, keep);
    FilterAll(WithoutRecord(records, recordId), keep);
    if forall x :: x in records ==> x.id != recordId {
      FilterAll(records, keep);
    }
  }

  class ExpenseRecordStoreState {
    var records: seq<Record>
    var todayRecords: Option<RecordInfo>
    var monthRecords: Option<RecordInfo>
    var latestRecords: seq<Record>
    var weekRecords: seq<map<string, int>>
    var categoryStats: seq<CategoryStats>
    var isLoading: bool
    /** The auth store whose `getCurrentUser` refreshes the user after a change. */
    const auth: AuthStore.AuthState

    function State(): Snapshot
      reads this
    {
      Snapshot(records, todayRecords, monthRecords, latestRecords, weekRecords, categoryStats, isLoading)
    }

    constructor (auth: AuthStore.AuthState)
      ensures State() == INITIAL && this.auth == auth
    {
      records := [];
      todayRecords := None;
      monthRecords := None;
      latestRecords := [];
      weekRecords := [];
      categoryStats := [];
      isLoading := false;
      this.auth := auth;
    }

    /** `fetchAllRecords()`: a failure keeps the records and only clears the loading flag. */
    method FetchAllRecords(response: Outcome<seq<Record>>)
      modifies this
      ensures response.Resolved? ==> State() == old(State()).(records := response.value, isLoading := false)
      ensures response.Rejected? ==> State() == old(State()).(isLoading := false)
    {
      isLoading := true;
      if response.Resolved? {
        records := response.value;
      }
      isLoading := false;
    }

    method FetchTodayRecords(response: Outcome<RecordInfo>)
      modifies this
      ensures State() == old(State()).(todayRecords := InfoOr(response))
    {
      todayRecords := if response.Resolved? then Some(response.value) else None;
    }

    method FetchMonthRecords(response: Outcome<RecordInfo>)
      modifies this
      ensures State() == old(State()).(monthRecords := InfoOr(response))
    {
      monthRecords := if response.Resolved? then Some(response.value) else None;
    }

    method FetchLatestRecords(response: Outcome<seq<Record>>)
      modifies this
      ensures State() == old(State()).(latestRecords := ListOr(response))
    {
      latestRecords := if response.Resolved? then response.value else [];
    }

    method FetchWeekRecords(response: Outcome<seq<map<string, int>>>)
      modifies this
      ensures State() == old(State()).(weekRecords := ListOr(response))
    {
      weekRecords := if response.Resolved? then response.value else [];
    }

    method FetchCategoryStats(response: Outcome<seq<CategoryStats>>)
      modifies this
      ensures State() == old(State()).(categoryStats := ListOr(response))
    {
      categoryStats := if response.Resolved? then response.value else [];
    }

    /** The six refreshes of `createRecord` and `deleteRecord`. */
    method RefreshAll(refresh: Refresh)
      modifies this
      ensures State() == Refreshed(old(State()), refresh)
    {
      FetchTodayRecords(refresh.today);
      FetchMonthRecords(refresh.month);
      FetchLatestRecords(refresh.latest);
      FetchWeekRecords(refresh.week);
      FetchCategoryStats(refresh.category);
      FetchAllRecords(refresh.all);
    }

    /** `createRecord(record)`: after the backend accepts it, every refresh
        and the user refresh run; on failure nothing is refreshed and the
        failure is rethrown. */
    method CreateRecord(itemName: string, amount: int, category: string, memo: Option<string>,
                        response: Outcome<()>, refresh: Refresh, userResponse: Outcome<Option<User>>)
      returns (request: ExpenseRequest, thrown: Option<Failure>)
      requires auth.Valid()
      modifies this, auth
      ensures auth.Valid()
      ensures request == ExpenseRequest(itemName, amount, category, memo, 1)
      ensures !isLoading
      ensures response.Resolved? ==>
                && State() == Refreshed(old(State()), refresh)
                && auth.user == AuthStore.CurrentUserOf(userResponse)
                && thrown == None
      ensures response.Rejected? ==>
                && State() == old(State()).(isLoading := false)
                && auth.user == old(auth.user) && auth.isAuthenticated == old(auth.isAuthenticated)
                && thrown == Some(response.failure)
    {
      isLoading := true;
      request := ExpenseRequest(itemName, amount, category, memo, 1);
      if response.Rejected? {
        isLoading := false;
        return request, Some(response.failure);
      }
      RefreshAll(refresh);
      auth.GetCurrentUser(userResponse);
      isLoading := false;
      thrown := None;
    }

    /** `deleteRecord(recordId)`: the record leaves the local list before the
        backend call; on failure the list is fetched again (`restore`), the
        loading flag is cleared and the failure is rethrown. */
    method DeleteRecord(recordId: int, response: Outcome<()>, refresh: Refresh,
                        userResponse: Outcome<Option<User>>, restore: Outcome<seq<Record>>)
      returns (thrown: Option<Failure>)
      requires auth.Valid()
      modifies this, auth
      ensures auth.Valid()
      ensures !isLoading
      ensures response.Resolved? ==>
                && State() == Refreshed(old(State()).(records := WithoutRecord(old(records), recordId)), refresh)
                && auth.user == AuthStore.CurrentUserOf(userResponse)
                && thrown == None
      ensures response.Rejected? ==>
                && State() == old(State()).(records := if restore.Resolved? then restore.value
                                                       else WithoutRecord(old(records), recordId),
                                            isLoading := false)
                && auth.user == old(auth.user) && auth.isAuthenticated == old(auth.isAuthenticated)
                && thrown == Some(response.failure)
    {
      isLoading := true;
      var currentRecords := records;
      var updatedRecords := Filter(currentRecords, (x: Record) => x.id != recordId);
      records := updatedRecords;
      if response.Rejected? {
        FetchAllRecords(restore);
        isLoading := false;
        return Some(response.failure);
      }
      RefreshAll(refresh);
      auth.GetCurrentUser(userResponse);
      isLoading := false;
      thrown := None;
    }

    method Reset()
      modifies this
      ensures State() == INITIAL
    {
      records := [];
      todayRecords := None;
      monthRecords := None;
      latestRecords := [];
      weekRecords := [];
      categoryStats := [];
      isLoading := false;
    }
  }
}
