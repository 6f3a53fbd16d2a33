/** The derivations of the record list page (frontend/src/pages/ListPage.tsx):
    the category chips, the category filter, the three sort orders, the
    category icon, and the grouping by month with each month's total. A
    record's `createdAt` is the local instant `new Date(createdAt)` parses to. */
module ListPage {

  import opened Seqs
  import opened Sorting
  import opened Text
  import opened Time
  import opened ClientTypes

  /** The chip and filter value meaning "every category". */
  const ALL: string := "전체"

  /** `[...new Set(s)]`: each value once, where it first occurs. */
  function Distinct<T(==,!new)>(s: seq<T>): (r: seq<T>)
    ensures NoDup(r)
    ensures forall x :: x in r <==> x in s
    ensures |r| <= |s|
  {
    if s == [] then []
    else
      var d := Distinct(s[..|s| - 1]);
      assert forall x :: x in s <==> x in s[..|s| - 1] || x == s[|s| - 1] by {
        assert s == s[..|s| - 1] + [s[|s| - 1]];
      }
      if s[|s| - 1] in d then d
      else
        NoDupAppend(d, s[|s| - 1]);
        d + [s[|s| - 1]]
  }

  /** The index at which `x` first occurs in `s`. */
  function FirstIndex<T(==)>(s: seq<T>, x: T): (i: nat)
    requires x in s
    ensures i < |s| && s[i] == x && x !in s[..i]
  {
    if s[0] == x then 0
    else
      var j := FirstIndex(s[1..], x);
      assert s[..j + 1] == [s[0]] + s[1..][..j];
      j + 1
  }

  lemma {:induction false} FirstIndexOfPrefix<T>(s: seq<T>, t: seq<T>, x: T)
    requires x in s
    ensures FirstIndex(s + t, x) == FirstIndex(s, x)
  {
    if s[0] != x {
      assert (s + t)[1..] == s[1..] + t;
      FirstIndexOfPrefix(s[1..], t, x);
    }
  }

  /** `Distinct` lists the values in the order of their first occurrence. */
  lemma {:induction false} DistinctFirstSeenOrder<T(!new)>(s: seq<T>)
    ensures forall i, j :: 0 <= i < j < |Distinct(s)| ==> FirstIndex(s, Distinct(s)[i]) < FirstIndex(s, Distinct(s)[j])
  {
    if s != [] {
      var p := s[..|s| - 1];
      var x := s[|s| - 1];
      assert s == p + [x];
      DistinctFirstSeenOrder(p);
      var d := Distinct(p);
      forall y | y in d ensures FirstIndex(s, y) == FirstIndex(p, y) {
        FirstIndexOfPrefix(p, [x], y);
      }
      if x !in d {
        assert x !in p;
        assert FirstIndex(s, x) == |p|;
        var r := d + [x];
        forall i, j | 0 <= i < j < |r| ensures FirstIndex(s, r[i]) < FirstIndex(s, r[j]) {
          assert r[i] == d[i] && r[i] in d;
          if j < |d| {
            assert r[j] == d[j] && r[j] in d;
          }
        }
      } else {
        forall i, j | 0 <= i < j < |d| ensures FirstIndex(s, d[i]) < FirstIndex(s, d[j]) {
          assert d[i] in d && d[j] in d;
        }
      }
    }
  }

  function CategoriesOf(records: seq<Record>): (r: seq<string>)
    ensures |r| == |records|
    ensures forall i :: 0 <= i < |records| ==> r[i] == records[i].category
  {
    seq(|records|, i requires 0 <= i < |records| => records[i].category)
  }

  /** `categories`: "전체" and then every record category once, first seen first. */
  function Categories(records: seq<Record>): (r: seq<string>)
    ensures |r| >= 1 && r[0] == ALL
    ensures forall c :: c in r[1..] <==> exists i :: 0 <= i < |records| && records[i].category == c
    ensures NoDup(r[1..])
  {
    var d := Distinct(CategoriesOf(records));
    assert ([ALL] + d)[1..] == d;
    assert forall c :: c in CategoriesOf(records) <==> exists i :: 0 <= i < |records| && records[i].category == c by {
      forall c | c in CategoriesOf(records) ensures exists i :: 0 <= i < |records| && records[i].category == c {
        var i :| 0 <= i < |CategoriesOf(records)| && CategoriesOf(records)[i] == c;
        assert records[i].category == c;
      }
    }
    [ALL] + d
  }

  /** The chips after "전체" follow the order in which categories first appear. */
  lemma CategoriesInFirstSeenOrder(records: seq<Record>)
    ensures forall i, j :: 1 <= i < j < |Categories(records)| ==>
              FirstIndex(CategoriesOf(records), Categories(records)[i]) < FirstIndex(CategoriesOf(records), Categories(records)[j])
  {
    var d := Distinct(CategoriesOf(records));
    DistinctFirstSeenOrder(CategoriesOf(records));
    assert Categories(records) == [ALL] + d;
    forall i, j | 1 <= i < j < |Categories(records)|
      ensures FirstIndex(CategoriesOf(records), Categories(records)[i]) < FirstIndex(CategoriesOf(records), Categories(records)[j])
    {
      assert Categories(records)[i] == d[i - 1] && Categories(records)[j] == d[j - 1];
    }
  }

  /** `filterCategory === "전체" || record.category === filterCategory`. */
  function FilterByCategory(records: seq<Record>, filterCategory: string): (r: seq<Record>)
    ensures filterCategory != ALL ==> forall x :: x in r <==> x in records && x.category == filterCategory
  {
    Filter(records, (x: Record) => filterCategory == ALL || x.category == filterCategory)
  }

  /** "전체" keeps every record; any filter keeps the original order. */
  lemma FilterByCategoryProperties(records: seq<Record>, filterCategory: string)
    ensures filterCategory == ALL ==> FilterByCategory(records, filterCategory) == records
    ensures IsSubsequence(FilterByCategory(records, filterCategory), records)
  {
    var keep := (x: Record) => filterCategory == ALL || x.category == filterCategory;
    FilterIsSubsequence(records, keep);
    if filterCategory == ALL {
      FilterAll(records, keep);
    }
  }

  /** `sortBy`: "date" | "amount" | "category". */
  datatype SortKey = ByDate | ByAmount | ByCategory

  /** The comparator as "may stand before": newest first, largest amount
      first, category names ascending. */
  function Precedes(sortBy: SortKey): (Record, Record) -> bool
  {
    match sortBy
    case ByDate => (a: Record, b: Record) => a.createdAt >= b.createdAt
    case ByAmount => (a: Record, b: Record) => a.amount >= b.amount
    case ByCategory => (a: Record, b: Record) => LexLeq(a.category, b.category)
  }

  lemma PrecedesIsTotalPreorder(sortBy: SortKey)
    ensures TotalPreorder(Precedes(sortBy))
  {
    if sortBy == ByCategory {
      forall a: Record, b: Record ensures LexLeq(a.category, b.category) || LexLeq(b.category, a.category) {
        LexLeqTotal(a.category, b.category);
      }
      forall a: Record, b: Record, c: Record | LexLeq(a.category, b.category) && LexLeq(b.category, c.category)
        ensures LexLeq(a.category, c.category)
      {
        LexLeqTransitive(a.category, b.category, c.category);
      }
    }
  }

  /** `filteredAndSortedRecords`. */
  function FilteredAndSorted(records: seq<Record>, filterCategory: string, sortBy: SortKey): (r: seq<Record>)
    ensures multiset(r) == multiset(FilterByCategory(records, filterCategory))
  {
    Sort(FilterByCategory(records, filterCategory), Precedes(sortBy))
  }

  /** The list is in the chosen order. */
  lemma FilteredAndSortedOrder(records: seq<Record>, filterCategory: string, sortBy: SortKey)
    ensures sortBy == ByDate ==> forall i, j :: 0 <= i < j < |FilteredAndSorted(records, filterCategory, sortBy)| ==>
              FilteredAndSorted(records, filterCategory, sortBy)[i].createdAt >= FilteredAndSorted(records, filterCategory, sortBy)[j].createdAt
    ensures sortBy == ByAmount ==> forall i, j :: 0 <= i < j < |FilteredAndSorted(records, filterCategory, sortBy)| ==>
              FilteredAndSorted(records, filterCategory, sortBy)[i].amount >= FilteredAndSorted(records, filterCategory, sortBy)[j].amount
    ensures sortBy == ByCategory ==> forall i, j :: 0 <= i < j < |FilteredAndSorted(records, filterCategory, sortBy)| ==>
              LexLeq(FilteredAndSorted(records, filterCategory, sortBy)[i].category, FilteredAndSorted(records, filterCategory, sortBy)[j].category)
  {
    PrecedesIsTotalPreorder(sortBy);
    SortSorted(FilterByCategory(records, filterCategory), Precedes(sortBy));
  }

  const FOOD_ICON: string := "🍔"
  const TRANSPORT_ICON: string := "🚗"
  const SHOPPING_ICON: string := "\U{1F6CD}\U{FE0F}"
  const ENTERTAINMENT_ICON: string := "🎬"
  const DEFAULT_ICON: string := "💡"

  /** `getCategoryIcon`: one icon per known category, "💡" for every other one. */
  function CategoryIcon(category: string): (r: string)
    ensures r == DEFAULT_ICON <==> category !in {"음식", "교통", "쇼핑", "엔터테인먼트"}
  {
    assert DEFAULT_ICON[0] !in {FOOD_ICON[0], TRANSPORT_ICON[0], SHOPPING_ICON[0], ENTERTAINMENT_ICON[0]};
    if category == "음식" then FOOD_ICON
    else if category == "교통" then TRANSPORT_ICON
    else if category == "쇼핑" then SHOPPING_ICON
    else if category == "엔터테인먼트" then ENTERTAINMENT_ICON
    else DEFAULT_ICON
  }

  /** The four known categories have four different icons. */
  lemma CategoryIconsDistinct()
    ensures NoDup([CategoryIcon("음식"), CategoryIcon("교통"), CategoryIcon("쇼핑"), CategoryIcon("엔터테인먼트")])
  {
    var icons := [FOOD_ICON, TRANSPORT_ICON, SHOPPING_ICON, ENTERTAINMENT_ICON];
    assert icons[0][0] != icons[1][0] && icons[0][0] != icons[2][0] && icons[0][0] != icons[3][0];
    assert icons[1][0] != icons[2][0] && icons[1][0] != icons[3][0] && icons[2][0] != icons[3][0];
  }

  /** The group key `${getFullYear()}년 ${getMonth() + 1}월`, kept as its two numbers. */
  datatype MonthKey = MonthKey(year: int, month: int)

  function MonthOf(record: Record): MonthKey
  {
    var (y, m) := YearMonthOf(record.createdAt);
    MonthKey(y, m)
  }

  function MonthsOf(records: seq<Record>): (r: seq<MonthKey>)
    ensures |r| == |records|
    ensures forall i :: 0 <= i < |records| ==> r[i] == MonthOf(records[i])
  {
    seq(|records|, i requires 0 <= i < |records| => MonthOf(records[i]))
  }

  /** The accumulator dictionary: its keys in insertion order (the order
      `Object.entries` lists them) and the records under each key. */
  datatype Groups = Groups(order: seq<MonthKey>, byKey: map<MonthKey, seq<Record>>)

  /** One step of the `reduce`: create the group if missing, then push. */
  function AddToGroup(g: Groups, record: Record): Groups
  {
    var k := MonthOf(record);
    if k in g.byKey then Groups(g.order, g.byKey[k := g.byKey[k] + [record]])
    else Groups(g.order + [k], g.byKey[k := [record]])
  }

  /** `groupedByMonth`: the `reduce` over the records, from `{}`. */
  function GroupByMonth(records: seq<Record>): Groups
  {
    if records == [] then Groups([], map[])
    else AddToGroup(GroupByMonth(records[..|records| - 1]), records[|records| - 1])
  }

  /** The records of one month, in list order. */
  function InMonth(records: seq<Record>, k: MonthKey): (r: seq<Record>)
    ensures forall x :: x in r <==> x in records && MonthOf(x) == k
  {
    Filter(records, (x: Record) => MonthOf(x) == k)
  }

  lemma InMonthAppend(records: seq<Record>, record: Record, k: MonthKey)
    ensures InMonth(records + [record], k) == InMonth(records, k) + (if MonthOf(record) == k then [record] else [])
  {
    FilterAppend(records, [record], (x: Record) => MonthOf(x) == k);
    assert [record][1..] == [];
  }

  lemma InMonthEmpty(records: seq<Record>, k: MonthKey)
    requires k !in MonthsOf(records)
    ensures InMonth(records, k) == []
  {
    forall x | x in records ensures MonthOf(x) != k {
      var i :| 0 <= i < |records| && records[i] == x;
      assert MonthsOf(records)[i] == MonthOf(x);
    }
    FilterNone(records, (x: Record) => MonthOf(x) == k);
  }

  lemma MonthsOfPrefix(records: seq<Record>, n: int)
    requires 0 <= n <= |records|
    ensures MonthsOf(records)[..n] == MonthsOf(records[..n])
  {
  }

  /** A month has a group exactly when it is among the listed keys. */
  lemma {:induction false} GroupByMonthKeys(records: seq<Record>)
    ensures forall k :: k in GroupByMonth(records).byKey <==> k in GroupByMonth(records).order
  {
    if records != [] {
      GroupByMonthKeys(records[..|records| - 1]);
    }
  }

  /** The keys of the groups are the months of the records, once each and
      first seen first. */
  lemma {:induction false} GroupByMonthOrder(records: seq<Record>)
    ensures GroupByMonth(records).order == Distinct(MonthsOf(records))
  {
    if records != [] {
      var n := |records| - 1;
      var p := records[..n];
      var k := MonthOf(records[n]);
      GroupByMonthOrder(p);
      var g := GroupByMonth(p);
      assert k in g.byKey <==> k in g.order by {
        GroupByMonthKeys(p);
      }
      MonthsOfPrefix(records, n);
      assert MonthsOf(records)[n] == k;
    }
  }

  /** The group of month `m` holds exactly that month's records, in list order. */
  lemma {:induction false} GroupOfMonth(records: seq<Record>, m: MonthKey)
    requires m in GroupByMonth(records).byKey
    ensures GroupByMonth(records).byKey[m] == InMonth(records, m)
  {
    if records != [] {
      var n := |records| - 1;
      var p := records[..n];
      var r := records[n];
      var g := GroupByMonth(p);
      assert GroupByMonth(records) == AddToGroup(g, r);
      SplitLast(records);
      InMonthAppend(p, r, m);
      if m in g.byKey {
        GroupOfMonth(p, m);
      } else {
        assert m !in MonthsOf(p) by {
          GroupByMonthKeys(p);
          GroupByMonthOrder(p);
        }
        InMonthEmpty(p, m);
      }
    }
  }

  lemma GroupByMonthGroups(records: seq<Record>)
    ensures forall k :: k in GroupByMonth(records).byKey ==> GroupByMonth(records).byKey[k] == InMonth(records, k)
  {
    forall k | k in GroupByMonth(records).byKey ensures GroupByMonth(records).byKey[k] == InMonth(records, k) {
      GroupOfMonth(records, k);
    }
  }

  /** The groups are a partition of the records by month: the keys are the
      months of the records, once each and first seen first, and each group
      holds exactly its month's records in list order. */
  lemma GroupByMonthPartition(records: seq<Record>)
    ensures GroupByMonth(records).order == Distinct(MonthsOf(records))
    ensures forall k :: k in GroupByMonth(records).byKey <==> k in GroupByMonth(records).order
    ensures forall k :: k in GroupByMonth(records).byKey ==> GroupByMonth(records).byKey[k] == InMonth(records, k)
  {
    GroupByMonthKeys(records);
    GroupByMonthOrder(records);
    GroupByMonthGroups(records);
  }

  /** Every record is in the group of its own month and in no other. */
  lemma EachRecordInOneGroup(records: seq<Record>, x: Record, k: MonthKey)
    requires x in records
    ensures k in GroupByMonth(records).byKey && x in GroupByMonth(records).byKey[k] <==> k == MonthOf(x)
  {
    GroupByMonthPartition(records);
    var i :| 0 <= i < |records| && records[i] == x;
    assert MonthsOf(records)[i] == MonthOf(x);
  }

  /** Within a group the records keep their list order. */
  lemma GroupKeepsOrder(records: seq<Record>, k: MonthKey)
    requires k in GroupByMonth(records).byKey
    ensures IsSubsequence(GroupByMonth(records).byKey[k], records)
  {
    GroupByMonthPartition(records);
    FilterIsSubsequence(records, (x: Record) => MonthOf(x) == k);
  }

  /** The sum of `w` over the groups listed in `order`. */
  function Total(order: seq<MonthKey>, byKey: map<MonthKey, seq<Record>>, w: Record -> int): int
  {
    if order == [] then 0
    else (if order[0] in byKey then SumBy(byKey[order[0]], w) else 0) + Total(order[1..], byKey, w)
  }

  lemma {:induction false} TotalAppend(a: seq<MonthKey>, b: seq<MonthKey>, byKey: map<MonthKey, seq<Record>>, w: Record -> int)
    ensures Total(a + b, byKey, w) == Total(a, byKey, w) + Total(b, byKey, w)
  {
    if a == [] {
      assert a + b == b;
    } else {
      assert (a + b)[0] == a[0];
      assert (a + b)[1..] == a[1..] + b;
      TotalAppend(a[1..], b, byKey, w);
    }
  }

  lemma {:induction false} TotalIgnoresOtherKeys(order: seq<MonthKey>, byKey: map<MonthKey, seq<Record>>, k: MonthKey, v: seq<Record>, w: Record -> int)
    requires k !in order
    ensures Total(order, byKey[k := v], w) == Total(order, byKey, w)
  {
    if order != [] {
      TotalIgnoresOtherKeys(order[1..], byKey, k, v, w);
    }
  }

  lemma {:induction false} TotalUpdate(order: seq<MonthKey>, byKey: map<MonthKey, seq<Record>>, k: MonthKey, v: seq<Record>, w: Record -> int)
    requires NoDup(order) && k in order && k in byKey
    ensures Total(order, byKey[k := v], w) == Total(order, byKey, w) - SumBy(byKey[k], w) + SumBy(v, w)
  {
    assert NoDup(order[1..]) by {
      forall i, j | 0 <= i < j < |order[1..]| ensures order[1..][i] != order[1..][j] {
        assert order[i + 1] != order[j + 1];
      }
    }
    if order[0] == k {
      assert forall i :: 0 <= i < |order[1..]| ==> order[1..][i] != k by {
        forall i | 0 <= i < |order[1..]| ensures order[1..][i] != k {
          assert order[0] != order[i + 1];
        }
      }
      TotalIgnoresOtherKeys(order[1..], byKey, k, v, w);
    } else {
      TotalUpdate(order[1..], byKey, k, v, w);
    }
  }

  /** The keys of the accumulator are listed once each. */
  lemma GroupKeys(records: seq<Record>)
    ensures NoDup(GroupByMonth(records).order)
    ensures forall k :: k in GroupByMonth(records).byKey <==> k in GroupByMonth(records).order
  {
    GroupByMonthPartition(records);
  }

  /** Summing `w` group by group gives its sum over all the records; with
      `w` the amount this is the month headers adding up to the list total,
      with `w` one it is the group sizes adding up to the list length. */
  lemma {:induction false} GroupTotals(records: seq<Record>, w: Record -> int)
    ensures Total(GroupByMonth(records).order, GroupByMonth(records).byKey, w) == SumBy(records, w)
  {
    if records != [] {
      var p := records[..|records| - 1];
      var r := records[|records| - 1];
      assert records == p + [r];
      GroupTotals(p, w);
      GroupKeys(p);
      var g := GroupByMonth(p);
      var k := MonthOf(r);
      SumByAppend(p, [r], w);
      if k in g.byKey {
        TotalUpdate(g.order, g.byKey, k, g.byKey[k] + [r], w);
        SumByAppend(g.byKey[k], [r], w);
      } else {
        TotalIgnoresOtherKeys(g.order, g.byKey, k, [r], w);
        TotalAppend(g.order, [k], g.byKey[k := [r]], w);
      }
    }
  }

  function One(x: Record): int
  {
    1
  }

  lemma {:induction false} SumOfOnes(s: seq<Record>)
    ensures SumBy(s, One) == |s|
  {
    if s != [] {
      SumOfOnes(s[1..]);
    }
  }

  /** A month header: the number of records and `monthRecords.reduce((sum,
      record) => sum + record.amount, 0)`. */
  function MonthHeader(group: seq<Record>): (int, int)
  {
    (|group|, SumBy(group, AmountOf))
  }

  /** The `reduce` as the page runs it: a mutable dictionary filled record by record. */
  lemma GroupByMonthStep(records: seq<Record>, i: int)
    requires 0 <= i < |records|
    ensures GroupByMonth(records[..i + 1]) == AddToGroup(GroupByMonth(records[..i]), records[i])
  {
    assert records[..i + 1][..i] == records[..i];
  }

  method GroupRecordsByMonth(records: seq<Record>) returns (order: seq<MonthKey>, groups: map<MonthKey, seq<Record>>)
    ensures Groups(order, groups) == GroupByMonth(records)
  {
    order := [];
    groups := map[];
    var i := 0;
    while i < |records|
      invariant 0 <= i <= |records|
      invariant Groups(order, groups) == GroupByMonth(records[..i])
    {
      var record := records[i];
      var monthKey := MonthOf(record);
      ghost var before := Groups(order, groups);
      if monthKey !in groups {
        groups := groups[monthKey := []];
        order := order + [monthKey];
      }
      var group := groups[monthKey] + [record];
      groups := groups[monthKey := group];
      if monthKey in before.byKey {
        assert AddToGroup(before, record) == Groups(before.order, before.byKey[monthKey := group]);
      } else {
        assert group == [record];
        assert AddToGroup(before, record) == Groups(before.order + [monthKey], before.byKey[monthKey := group]);
      }
      assert groups == before.byKey[monthKey := group];
      GroupByMonthStep(records, i);
      i := i + 1;
    }
    assert records[..|records|] == records;
  }

}
