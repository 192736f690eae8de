/** The spending pie chart (frontend/src/components/SpendingChart.jsx): the
    expenses grouped by category with a falsy category counted as
    'Uncategorized', sorted by value, largest first, one palette colour per
    slice. */
module SpendingChart {
  import opened Expenses
  import opened Grouping

  const Colors: seq<string> :=
    ["#6366f1", "#10b981", "#f59e0b", "#ef4444", "#8b5cf6", "#ec4899", "#14b8a6"]

  predicate ValueDescending(s: seq<Entry>) {
    forall i, j :: 0 <= i < j < |s| ==> s[i].value >= s[j].value
  }

  predicate NamesDistinct(s: seq<Entry>) {
    forall i, j :: 0 <= i < j < |s| ==> s[i].name != s[j].name
  }

  /** Places `x` before the first slice that is not larger than it. */
  function InsertByValue(x: Entry, s: seq<Entry>): (r: seq<Entry>)
    requires ValueDescending(s)
    ensures |r| == |s| + 1
    ensures r[0] == x || (s != [] && r[0] == s[0])
    ensures ValueDescending(r)
    ensures multiset(r) == multiset(s) + multiset{x}
    ensures SumValues(r) == x.value + SumValues(s)
  {
    if s == [] || s[0].value <= x.value then [x] + s
    else
      assert s == [s[0]] + s[1..];
      var rest := InsertByValue(x, s[1..]);
      assert ([s[0]] + rest)[1..] == rest;
      [s[0]] + rest
  }

  /** `.sort((a, b) => b.value - a.value)`; slices of equal value keep their
      order, as JavaScript's sort is stable. */
  function SortByValue(s: seq<Entry>): (r: seq<Entry>)
    ensures ValueDescending(r)
    ensures multiset(r) == multiset(s)
    ensures SumValues(r) == SumValues(s)
  {
    if s == [] then []
    else
      assert s == [s[0]] + s[1..];
      InsertByValue(s[0], SortByValue(s[1..]))
  }

  /** The slices of value `v`, in the order they come in `s`. */
  function SlicesOfValue(s: seq<Entry>, v: real): seq<Entry> {
    if s == [] then []
    else (if s[0].value == v then [s[0]] else []) + SlicesOfValue(s[1..], v)
  }

  /** An inserted slice goes before every slice of its own value, and the
      other slices keep their order. */
  lemma {:induction false} InsertStable(x: Entry, s: seq<Entry>, v: real)
    requires ValueDescending(s)
    ensures SlicesOfValue(InsertByValue(x, s), v) ==
      if x.value == v then [x] + SlicesOfValue(s, v) else SlicesOfValue(s, v)
  {
    var r := InsertByValue(x, s);
    if s == [] || s[0].value <= x.value {
      assert r[0] == x && r[1..] == s;
    } else {
      assert ValueDescending(s[1..]);
      InsertStable(x, s[1..], v);
      assert r[0] == s[0] && r[1..] == InsertByValue(x, s[1..]);
    }
  }

  /** The sort is stable: for every value, the slices of that value come in
      the order they had before sorting. */
  lemma {:induction false} SortStable(s: seq<Entry>, v: real)
    ensures SlicesOfValue(SortByValue(s), v) == SlicesOfValue(s, v)
  {
    if s != [] {
      SortStable(s[1..], v);
      InsertStable(s[0], SortByValue(s[1..]), v);
    }
  }

  /** Inserting a slice with a fresh name keeps the names distinct. */
  lemma {:induction false} InsertKeepsNamesDistinct(x: Entry, s: seq<Entry>)
    requires ValueDescending(s) && NamesDistinct(s)
    requires forall k :: 0 <= k < |s| ==> s[k].name != x.name
    ensures NamesDistinct(InsertByValue(x, s))
  {
    if s != [] && s[0].value > x.value {
      InsertKeepsNamesDistinct(x, s[1..]);
      var rest := InsertByValue(x, s[1..]);
      forall k | 0 <= k < |rest|
        ensures rest[k].name != s[0].name
      {
        InInsert(x, s[1..], k);
      }
    }
  }

  /** Every slice after an insertion is the inserted one or an old one. */
  lemma {:induction false} InInsert(x: Entry, s: seq<Entry>, k: nat)
    requires ValueDescending(s) && k < |InsertByValue(x, s)|
    ensures InsertByValue(x, s)[k] == x || InsertByValue(x, s)[k] in s
  {
    var r := InsertByValue(x, s);
    assert r[k] in multiset(s) + multiset{x};
  }

  /** Sorting keeps the names distinct. */
  lemma {:induction false} SortKeepsNamesDistinct(s: seq<Entry>)
    requires NamesDistinct(s)
    ensures NamesDistinct(SortByValue(s))
  {
    if s != [] {
      SortKeepsNamesDistinct(s[1..]);
      var sorted := SortByValue(s[1..]);
      forall k | 0 <= k < |sorted|
        ensures sorted[k].name != s[0].name
      {
        assert sorted[k] in multiset(s[1..]);
        assert sorted[k] in s[1..];
      }
      InsertKeepsNamesDistinct(s[0], sorted);
    }
  }

  /** A reordering of a breakdown with distinct names is a breakdown. */
  lemma {:induction false} BreakdownReordered(rule: KeyRule, es: seq<Expense>, a: seq<Entry>, b: seq<Entry>)
    requires IsBreakdown(rule, es, a)
    requires multiset(b) == multiset(a) && NamesDistinct(b)
    ensures IsBreakdown(rule, es, b)
  {
    ReorderedCovers(rule, es, a, b);
    ReorderedFromExpenses(rule, es, a, b);
  }

  /** An entry of `a` is an entry of any reordering `b` of it. */
  lemma {:induction false} InReordering(a: seq<Entry>, b: seq<Entry>, m: nat)
    requires multiset(b) == multiset(a) && m < |a|
    ensures exists j :: 0 <= j < |b| && b[j] == a[m]
  {
    assert a[m] in multiset(b);
  }

  lemma {:induction false} ReorderedCovers(rule: KeyRule, es: seq<Expense>, a: seq<Entry>, b: seq<Entry>)
    requires forall k :: 0 <= k < |es| ==> HasEntry(a, KeyOf(rule, es[k]))
    requires multiset(b) == multiset(a)
    ensures forall k :: 0 <= k < |es| ==> HasEntry(b, KeyOf(rule, es[k]))
  {
    forall k | 0 <= k < |es|
      ensures HasEntry(b, KeyOf(rule, es[k]))
    {
      assert HasEntry(a, KeyOf(rule, es[k]));
      var m :| 0 <= m < |a| && a[m].name == KeyOf(rule, es[k]);
      InReordering(a, b, m);
    }
  }

  lemma {:induction false} ReorderedFromExpenses(rule: KeyRule, es: seq<Expense>, a: seq<Entry>, b: seq<Entry>)
    requires forall i :: 0 <= i < |a| ==> SomeExpenseUnder(rule, es, a[i].name)
    requires forall i :: 0 <= i < |a| ==> a[i].value == GroupTotal(rule, es, a[i].name)
    requires multiset(b) == multiset(a)
    ensures forall i :: 0 <= i < |b| ==> SomeExpenseUnder(rule, es, b[i].name)
    ensures forall i :: 0 <= i < |b| ==> b[i].value == GroupTotal(rule, es, b[i].name)
  {
    forall i | 0 <= i < |b|
      ensures SomeExpenseUnder(rule, es, b[i].name)
           && b[i].value == GroupTotal(rule, es, b[i].name)
    {
      InReordering(b, a, i);
    }
  }

  /** The `data` memo: group, then sort. */
  method ChartData(expenses: seq<Expense>) returns (data: seq<Entry>)
    ensures IsBreakdown(OrUncategorized, expenses, data)
    ensures ValueDescending(data)
    ensures SumValues(data) == Total(expenses)
    ensures |data| == 0 <==> |expenses| == 0
    ensures forall v :: SlicesOfValue(data, v) == SlicesOfValue(Entries(OrUncategorized, expenses), v)
  {
    var entries := GroupTotals(OrUncategorized, expenses);
    EntriesMeaning(OrUncategorized, expenses);
    EntriesSumToTotal(OrUncategorized, expenses);
    data := SortByValue(entries);
    SortKeepsNamesDistinct(entries);
    BreakdownReordered(OrUncategorized, expenses, entries, data);
    assert |multiset(data)| == |multiset(entries)|;
    forall v
      ensures SlicesOfValue(data, v) == SlicesOfValue(entries, v)
    {
      SortStable(entries, v);
    }
  }

  /** An expense with an empty category is counted under 'Uncategorized',
      together with any expense literally categorised so. */
  lemma {:induction false} FalsyCategoryIsUncategorized(expenses: seq<Expense>, data: seq<Entry>, k: nat)
    requires IsBreakdown(OrUncategorized, expenses, data)
    requires k < |expenses| && expenses[k].category == ""
    ensures HasEntry(data, "Uncategorized")
  {
    assert KeyOf(OrUncategorized, expenses[k]) == "Uncategorized";
  }

  /** The fill of slice `i` (`COLORS[index % COLORS.length]`), always a colour
      of the palette, the palette repeating after seven slices. */
  function SliceColor(i: nat): (c: string)
    ensures c in Colors
    ensures i < |Colors| ==> c == Colors[i]
    ensures c == SliceColor(i % |Colors|)
  {
    Colors[i % |Colors|]
  }
}
