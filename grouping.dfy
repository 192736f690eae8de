/** Per-category spending, the fold the dashboard cards and the pie chart both
    run over the fetched expenses: an object keyed by category name, updated in
    place, whose entries come out in the order their keys were first inserted. */
module Grouping {
  import opened Expenses

  /** How an expense's category becomes a key: the dashboard uses the string as
      it is (DashboardStats.jsx), the chart replaces a falsy one by
      'Uncategorized' (SpendingChart.jsx). */
  datatype KeyRule = Exact | OrUncategorized

  function KeyOf(rule: KeyRule, e: Expense): string {
    match rule
    case Exact => e.category
    case OrUncategorized => if e.category == "" then "Uncategorized" else e.category
  }

  /** One `[name, value]` pair of `Object.entries`. */
  datatype Entry = Entry(name: string, value: real)

  /** The amount spent under key `c`. */
  function GroupTotal(rule: KeyRule, es: seq<Expense>, c: string): real {
    if es == [] then 0.0
    else
      var last := es[|es| - 1];
      GroupTotal(rule, es[..|es| - 1], c) + (if KeyOf(rule, last) == c then last.amount else 0.0)
  }

  predicate Distinct(keys: seq<string>) {
    forall i, j :: 0 <= i < j < |keys| ==> keys[i] != keys[j]
  }

  /** The keys in the order they are first met. */
  function Keys(rule: KeyRule, es: seq<Expense>): (keys: seq<string>)
    ensures Distinct(keys)
    ensures forall k :: 0 <= k < |es| ==> KeyOf(rule, es[k]) in keys
    ensures |keys| <= |es|
    ensures es != [] ==> keys != []
  {
    if es == [] then []
    else
      var prefix := es[..|es| - 1];
      var keys := Keys(rule, prefix);
      var c := KeyOf(rule, es[|es| - 1]);
      assert forall k :: 0 <= k < |prefix| ==> es[k] == prefix[k];
      if c in keys then keys else keys + [c]
  }

  /** Every key comes from some expense. */
  lemma {:induction false} KeysFromExpenses(rule: KeyRule, es: seq<Expense>, c: string)
    requires c in Keys(rule, es)
    ensures exists k :: 0 <= k < |es| && KeyOf(rule, es[k]) == c
  {
    var prefix := es[..|es| - 1];
    if c in Keys(rule, prefix) {
      KeysFromExpenses(rule, prefix, c);
      var k :| 0 <= k < |prefix| && KeyOf(rule, prefix[k]) == c;
      assert es[k] == prefix[k];
    } else {
      assert KeyOf(rule, es[|es| - 1]) == c;
    }
  }

  /** One more expense: the totals change only under its key, and its key is
      appended when it is new. */
  lemma {:induction false} GroupStep(rule: KeyRule, es: seq<Expense>, i: nat)
    requires i < |es|
    ensures es[..i + 1][..i] == es[..i]
    ensures Keys(rule, es[..i + 1])
         == (var ks := Keys(rule, es[..i]); if KeyOf(rule, es[i]) in ks then ks else ks + [KeyOf(rule, es[i])])
    ensures forall c :: (GroupTotal(rule, es[..i + 1], c)
         == GroupTotal(rule, es[..i], c) + (if KeyOf(rule, es[i]) == c then es[i].amount else 0.0))
  {
    assert es[..i + 1][..i] == es[..i];
  }

  /** A key no expense maps to has nothing spent under it. */
  lemma {:induction false} AbsentKeyTotal(rule: KeyRule, es: seq<Expense>, c: string)
    requires c !in Keys(rule, es)
    ensures GroupTotal(rule, es, c) == 0.0
  {
    if es != [] {
      AbsentKeyTotal(rule, es[..|es| - 1], c);
    }
  }

  /** The entries of the accumulator object after the whole fold. */
  function EntriesFor(rule: KeyRule, es: seq<Expense>, keys: seq<string>): (r: seq<Entry>)
    ensures |r| == |keys|
    ensures forall k :: 0 <= k < |r| ==> r[k] == Entry(keys[k], GroupTotal(rule, es, keys[k]))
  {
    seq(|keys|, k requires 0 <= k < |keys| => Entry(keys[k], GroupTotal(rule, es, keys[k])))
  }

  function Entries(rule: KeyRule, es: seq<Expense>): seq<Entry> {
    EntriesFor(rule, es, Keys(rule, es))
  }

  /** The accumulator after the first `i` expenses: its key order and its
      slots agree with the fold over that prefix. */
  ghost predicate Accumulated(rule: KeyRule, es: seq<Expense>, i: nat, keys: seq<string>, acc: map<string, real>)
    requires i <= |es|
  {
    && keys == Keys(rule, es[..i])
    && (forall c :: c in acc <==> c in keys)
    && (forall c :: c in acc ==> acc[c] == GroupTotal(rule, es[..i], c))
  }

  lemma {:induction false} FoldStep(rule: KeyRule, es: seq<Expense>, i: nat, keys: seq<string>, acc: map<string, real>,
                                   keys': seq<string>, acc': map<string, real>)
    requires i < |es| && Accumulated(rule, es, i, keys, acc)
    requires var c := KeyOf(rule, es[i]);
      && keys' == (if c in keys then keys else keys + [c])
      && acc' == acc[c := (if c in acc then acc[c] else 0.0) + es[i].amount]
    ensures Accumulated(rule, es, i + 1, keys', acc')
  {
    var c := KeyOf(rule, es[i]);
    GroupStep(rule, es, i);
    if c !in acc {
      AbsentKeyTotal(rule, es[..i], c);
    }
    forall d | d in acc'
      ensures acc'[d] == GroupTotal(rule, es[..i + 1], d)
    {
      if d != c {
        assert acc'[d] == acc[d];
      }
    }
  }

  /** The fold itself, as the source runs it: one pass that adds each amount to
      the slot of its key (`acc[c] = (acc[c] || 0) + amount`), then
      `Object.entries` of the accumulator. */
  method GroupTotals(rule: KeyRule, es: seq<Expense>) returns (entries: seq<Entry>)
    ensures entries == Entries(rule, es)
  {
    var keys: seq<string> := [];
    var acc: map<string, real> := map[];
    for i := 0 to |es|
      invariant Accumulated(rule, es, i, keys, acc)
    {
      var c := KeyOf(rule, es[i]);
      var previous := if c in acc then acc[c] else 0.0;
      var acc' := acc[c := previous + es[i].amount];
      var keys' := if c in keys then keys else keys + [c];
      FoldStep(rule, es, i, keys, acc, keys', acc');
      keys, acc := keys', acc';
    }
    AccumulatedEntries(rule, es, keys, acc);
    entries := ObjectEntries(keys, acc);
  }

  /** `Object.entries` of the accumulator: its slots in key order. */
  function ObjectEntries(keys: seq<string>, acc: map<string, real>): (r: seq<Entry>)
    requires forall k :: 0 <= k < |keys| ==> keys[k] in acc
    ensures |r| == |keys|
    ensures forall k :: 0 <= k < |keys| ==> r[k] == Entry(keys[k], acc[keys[k]])
  {
    seq(|keys|, k requires 0 <= k < |keys| => Entry(keys[k], acc[keys[k]]))
  }

  /** The accumulator after the whole pass holds the breakdown. */
  lemma {:induction false} AccumulatedEntries(rule: KeyRule, es: seq<Expense>, keys: seq<string>, acc: map<string, real>)
    requires Accumulated(rule, es, |es|, keys, acc)
    ensures forall k :: 0 <= k < |keys| ==> keys[k] in acc
    ensures ObjectEntries(keys, acc) == Entries(rule, es)
  {
    assert es[..|es|] == es;
    assert forall k :: 0 <= k < |keys| ==> ObjectEntries(keys, acc)[k] == Entries(rule, es)[k];
  }

  // ---------------------------------------------------------------------------
  // The breakdown accounts for every amount exactly once

  function SumValues(entries: seq<Entry>): real {
    if entries == [] then 0.0 else entries[0].value + SumValues(entries[1..])
  }

  /** Sum of the group totals over a list of keys. */
  function SumOver(rule: KeyRule, es: seq<Expense>, keys: seq<string>): real {
    if keys == [] then 0.0 else GroupTotal(rule, es, keys[0]) + SumOver(rule, es, keys[1..])
  }

  lemma {:induction false} SumValuesEntries(rule: KeyRule, es: seq<Expense>, keys: seq<string>)
    ensures SumValues(EntriesFor(rule, es, keys)) == SumOver(rule, es, keys)
  {
    if keys != [] {
      assert EntriesFor(rule, es, keys)[1..] == EntriesFor(rule, es, keys[1..]);
      SumValuesEntries(rule, es, keys[1..]);
    }
  }

  lemma {:induction false} SumOverEmpty(rule: KeyRule, keys: seq<string>)
    ensures SumOver(rule, [], keys) == 0.0
  {
    if keys != [] {
      SumOverEmpty(rule, keys[1..]);
    }
  }

  /** Adding one expense adds its amount once, to the one key it maps to. */
  lemma {:induction false} SumOverSnoc(rule: KeyRule, es: seq<Expense>, e: Expense, keys: seq<string>)
    requires Distinct(keys)
    ensures SumOver(rule, es + [e], keys)
         == SumOver(rule, es, keys) + (if KeyOf(rule, e) in keys then e.amount else 0.0)
  {
    if keys != [] {
      assert (es + [e])[..|es + [e]| - 1] == es;
      SumOverSnoc(rule, es, e, keys[1..]);
      assert keys == [keys[0]] + keys[1..];
    }
  }

  lemma {:induction false} SumOverTotal(rule: KeyRule, es: seq<Expense>, keys: seq<string>)
    requires Distinct(keys)
    requires forall k :: 0 <= k < |es| ==> KeyOf(rule, es[k]) in keys
    ensures SumOver(rule, es, keys) == Total(es)
  {
    if es == [] {
      SumOverEmpty(rule, keys);
    } else {
      var prefix := es[..|es| - 1];
      var e := es[|es| - 1];
      assert es == prefix + [e];
      SumOverTotal(rule, prefix, keys);
      SumOverSnoc(rule, prefix, e, keys);
    }
  }

  /** The per-category sums add up to the overall total. */
  lemma {:induction false} EntriesSumToTotal(rule: KeyRule, es: seq<Expense>)
    ensures SumValues(Entries(rule, es)) == Total(es)
  {
    SumValuesEntries(rule, es, Keys(rule, es));
    SumOverTotal(rule, es, Keys(rule, es));
  }

  /** Some entry is named `name`. */
  ghost predicate HasEntry(entries: seq<Entry>, name: string) {
    exists i :: 0 <= i < |entries| && entries[i].name == name
  }

  /** Some expense falls under key `c`. */
  ghost predicate SomeExpenseUnder(rule: KeyRule, es: seq<Expense>, c: string) {
    exists k :: 0 <= k < |es| && KeyOf(rule, es[k]) == c
  }

  /** What a breakdown of `es` is: one entry per key that some expense maps
      to, none twice, each carrying the sum spent under its key. */
  ghost predicate IsBreakdown(rule: KeyRule, es: seq<Expense>, entries: seq<Entry>) {
    && (forall i, j :: 0 <= i < j < |entries| ==> entries[i].name != entries[j].name)
    && (forall k :: 0 <= k < |es| ==> HasEntry(entries, KeyOf(rule, es[k])))
    && (forall i :: 0 <= i < |entries| ==> SomeExpenseUnder(rule, es, entries[i].name))
    && (forall i :: 0 <= i < |entries| ==> entries[i].value == GroupTotal(rule, es, entries[i].name))
  }

  lemma {:induction false} EntryOfExpense(rule: KeyRule, es: seq<Expense>, k: nat)
    requires k < |es|
    ensures HasEntry(Entries(rule, es), KeyOf(rule, es[k]))
  {
    var keys := Keys(rule, es);
    var i :| 0 <= i < |keys| && keys[i] == KeyOf(rule, es[k]);
    assert Entries(rule, es)[i].name == keys[i];
  }

  lemma {:induction false} ExpenseOfEntry(rule: KeyRule, es: seq<Expense>, i: nat)
    requires i < |Entries(rule, es)|
    ensures SomeExpenseUnder(rule, es, Entries(rule, es)[i].name)
  {
    KeysFromExpenses(rule, es, Keys(rule, es)[i]);
  }

  lemma {:induction false} EntriesNamesDistinct(rule: KeyRule, es: seq<Expense>)
    ensures forall i, j :: 0 <= i < j < |Entries(rule, es)| ==> Entries(rule, es)[i].name != Entries(rule, es)[j].name
  {
    var keys := Keys(rule, es);
    assert forall i :: 0 <= i < |keys| ==> Entries(rule, es)[i].name == keys[i];
  }

  lemma {:induction false} EntriesValues(rule: KeyRule, es: seq<Expense>)
    ensures forall i :: 0 <= i < |Entries(rule, es)| ==>
      Entries(rule, es)[i].value == GroupTotal(rule, es, Entries(rule, es)[i].name)
  {
  }

  lemma {:induction false} EntriesCoverExpenses(rule: KeyRule, es: seq<Expense>)
    ensures forall k :: 0 <= k < |es| ==> HasEntry(Entries(rule, es), KeyOf(rule, es[k]))
  {
    forall k | 0 <= k < |es|
      ensures HasEntry(Entries(rule, es), KeyOf(rule, es[k]))
    {
      EntryOfExpense(rule, es, k);
    }
  }

  lemma {:induction false} EntriesFromExpenses(rule: KeyRule, es: seq<Expense>)
    ensures forall i :: 0 <= i < |Entries(rule, es)| ==> SomeExpenseUnder(rule, es, Entries(rule, es)[i].name)
  {
    forall i | 0 <= i < |Entries(rule, es)|
      ensures SomeExpenseUnder(rule, es, Entries(rule, es)[i].name)
    {
      ExpenseOfEntry(rule, es, i);
    }
  }

  /** The fold's entries are a breakdown, and there are none exactly when there
      are no expenses. */
  lemma {:induction false} EntriesMeaning(rule: KeyRule, es: seq<Expense>)
    ensures IsBreakdown(rule, es, Entries(rule, es))
    ensures |Entries(rule, es)| == 0 <==> |es| == 0
  {
    EntriesNamesDistinct(rule, es);
    EntriesValues(rule, es);
    EntriesCoverExpenses(rule, es);
    EntriesFromExpenses(rule, es);
  }
}
