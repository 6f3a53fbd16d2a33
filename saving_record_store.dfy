/** The persisted saving-record store (frontend/src/store/useSavingRecordStore.ts).
    Each remote call is an input outcome; `createRecord` returns the failure it rethrows. */
module SavingRecordStore {

  import opened Wrappers
  import opened ClientTypes

  /** The whole store state, so that each action can say what it leaves alone. */
  datatype Snapshot = Snapshot(
    records: seq<Record>,
    todayRecords: RecordInfo,
    monthRecords: RecordInfo,
    latestRecords: seq<Record>,
    weekRecords: seq<map<string, int>>,
    categoryStats: seq<CategoryStats>,
    isLoading: bool,
    error: Option<string>)

  /** The subset written to "saving-record-storage". */
  datatype PersistedRecords = PersistedRecords(
    records: seq<Record>,
    todayRecords: RecordInfo,
    monthRecords: RecordInfo,
    latestRecords: seq<Record>,
    weekRecords: seq<map<string, int>>,
    categoryStats: seq<CategoryStats>)

  /** `{}` */
  const EMPTY_INFO: RecordInfo := RecordInfo(None, None, None)

  function PersistedOf(s: Snapshot): (p: PersistedRecords)
    ensures p.records == s.records && p.todayRecords == s.todayRecords && p.monthRecords == s.monthRecords
    ensures p.latestRecords == s.latestRecords && p.weekRecords == s.weekRecords && p.categoryStats == s.categoryStats
  {
    PersistedRecords(s.records, s.todayRecords, s.monthRecords, s.latestRecords, s.weekRecords, s.categoryStats)
  }

  /** Neither the loading flag nor the error reaches storage. */
  lemma PersistedIgnoresTransientFields(s: Snapshot, loading: bool, error: Option<string>)
    ensures PersistedOf(s.(isLoading := loading, error := error)) == PersistedOf(s)
  {
  }

  class SavingRecordStoreState {
    var records: seq<Record>
    var todayRecords: RecordInfo
    var monthRecords: RecordInfo
    var latestRecords: seq<Record>
    var weekRecords: seq<map<string, int>>
    var categoryStats: seq<CategoryStats>
    var isLoading: bool
    var error: Option<string>

    function State(): Snapshot
      reads this
    {
      Snapshot(records, todayRecords, monthRecords, latestRecords, weekRecords, categoryStats, isLoading, error)
    }

    function Persisted(): PersistedRecords
      reads this
    {
      PersistedOf(State())
    }

    constructor ()
      ensures State() == Snapshot([], EMPTY_INFO, EMPTY_INFO, [], [], [], false, None)
    {
      records := [];
      todayRecords := EMPTY_INFO;
      monthRecords := EMPTY_INFO;
      latestRecords := [];
      weekRecords := [];
      categoryStats := [];
      isLoading := false;
      error := None;
    }

    /** `createRecord(request)`: the created record goes in front of the old ones. */
    method CreateRecord(response: Outcome<Record>) returns (thrown: Option<Failure>)
      modifies this
      ensures response.Resolved? ==>
                && State() == old(State()).(records := [response.value] + old(records), isLoading := false, error := None)
                && thrown == None
      ensures response.Rejected? ==>
                && State() == old(State()).(isLoading := false,
                                            error := Some(MessageOf(response.failure, "절약 기록 등록에 실패했습니다.")))
                && thrown == Some(response.failure)
    {
      isLoading := true;
      error := None;
      match response {
        case Resolved(newRecord) =>
          var currentRecords := records;
          records := [newRecord] + currentRecords;
          isLoading := false;
          thrown := None;
        case Rejected(failure) =>
          isLoading := false;
          error := Some(MessageOf(failure, "절약 기록 등록에 실패했습니다."));
          thrown := Some(failure);
      }
    }

    method FetchAllRecords(response: Outcome<seq<Record>>)
      modifies this
      ensures response.Resolved? ==> State() == old(State()).(records := response.value)
      ensures response.Rejected? ==> State() == old(State())
    {
      if response.Resolved? {
        records := response.value;
      }
    }

    method FetchTodayRecords(response: Outcome<RecordInfo>)
      modifies this
      ensures response.Resolved? ==> State() == old(State()).(todayRecords := response.value)
      ensures response.Rejected? ==> State() == old(State())
    {
      if response.Resolved? {
        todayRecords := response.value;
      }
    }

    method FetchMonthRecords(response: Outcome<RecordInfo>)
      modifies this
      ensures response.Resolved? ==> State() == old(State()).(monthRecords := response.value)
      ensures response.Rejected? ==> State() == old(State())
    {
      if response.Resolved? {
        monthRecords := response.value;
      }
    }

    method FetchLatestRecords(response: Outcome<seq<Record>>)
      modifies this
      ensures response.Resolved? ==> State() == old(State()).(latestRecords := response.value)
      ensures response.Rejected? ==> State() == old(State())
    {
      if response.Resolved? {
        latestRecords := response.value;
      }
    }

    method FetchWeekRecords(response: Outcome<seq<map<string, int>>>)
      modifies this
      ensures response.Resolved? ==> State() == old(State()).(weekRecords := response.value)
      ensures response.Rejected? ==> State() == old(State())
    {
      if response.Resolved? {
        weekRecords := response.value;
      }
    }

    method FetchCategoryStats(response: Outcome<seq<CategoryStats>>)
      modifies this
      ensures response.Resolved? ==> State() == old(State()).(categoryStats := response.value)
      ensures response.Rejected? ==> State() == old(State())
    {
      if response.Resolved? {
        categoryStats := response.value;
      }
    }

    method ClearError()
      modifies this
      ensures State() == old(State()).(error := None)
      ensures Persisted() == old(Persisted())
    {
      error := None;
    }

    method SetLoading(loading: bool)
      modifies this
      ensures State() == old(State()).(isLoading := loading)
      ensures Persisted() == old(Persisted())
    {
      isLoading := loading;
    }
  }
}
