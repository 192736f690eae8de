/** The dashboard cards (frontend/src/components/DashboardStats.jsx): total,
    count and top category of the fetched expenses, and the budget card's
    utilisation percentage and bar colour. */
module DashboardStats {
  import opened Text
  import opened Expenses
  import opened Grouping
  import Backend

  /** Shown as the top category when no category has a positive total. */
  const NoCategory: string := "-"

  /** Entry `k` holds a positive maximum and no earlier entry reaches it. */
  ghost predicate IsFirstMax(entries: seq<Entry>, k: int) {
    && 0 <= k < |entries|
    && entries[k].value > 0.0
    && (forall j :: 0 <= j < |entries| ==> entries[j].value <= entries[k].value)
    && (forall j :: 0 <= j < k ==> entries[j].value < entries[k].value)
  }

  /** What the card's top category is: the sentinel when no entry is
      positive, otherwise the name of the first entry holding the maximum. */
  ghost predicate IsTopCategory(entries: seq<Entry>, top: string) {
    if forall k :: 0 <= k < |entries| ==> entries[k].value <= 0.0 then top == NoCategory
    else exists k :: IsFirstMax(entries, k) && top == entries[k].name
  }

  /** The `forEach` over the category entries with a strict `>` against a
      running maximum that starts at 0. */
  method TopCategory(entries: seq<Entry>) returns (top: string)
    ensures IsTopCategory(entries, top)
  {
    top := NoCategory;
    var maxAmount := 0.0;
    ghost var at := -1;
    for i := 0 to |entries|
      invariant -1 <= at < |entries| && at < i
      invariant at == -1 ==> top == NoCategory && maxAmount == 0.0
      invariant at == -1 ==> forall k :: 0 <= k < i ==> entries[k].value <= 0.0
      invariant at >= 0 ==> top == entries[at].name && maxAmount == entries[at].value > 0.0
      invariant at >= 0 ==> forall j :: 0 <= j < i ==> entries[j].value <= maxAmount
      invariant at >= 0 ==> forall j :: 0 <= j < at ==> entries[j].value < maxAmount
    {
      if entries[i].value > maxAmount {
        maxAmount := entries[i].value;
        top := entries[i].name;
        at := i;
      }
    }
    if at >= 0 {
      assert IsFirstMax(entries, at);
    }
  }

  /** The top category is determined by the entries: the first maximum is
      unique. */
  lemma {:induction false} TopCategoryUnique(entries: seq<Entry>, top1: string, top2: string)
    requires IsTopCategory(entries, top1) && IsTopCategory(entries, top2)
    ensures top1 == top2
  {
    if exists k :: 0 <= k < |entries| && entries[k].value > 0.0 {
      var k1 :| IsFirstMax(entries, k1) && top1 == entries[k1].name;
      var k2 :| IsFirstMax(entries, k2) && top2 == entries[k2].name;
      assert entries[k1].value <= entries[k2].value <= entries[k1].value;
      assert k1 == k2;
    }
  }

  /** In terms of the expenses: with no positive category total the card shows
      the sentinel; otherwise it shows a category whose total is positive and
      at least that of the category of every expense. */
  lemma {:induction false} TopCategoryIsArgmax(es: seq<Expense>, top: string)
    requires IsTopCategory(Entries(Exact, es), top)
    ensures (forall k :: 0 <= k < |es| ==> GroupTotal(Exact, es, es[k].category) <= 0.0) ==> top == NoCategory
    ensures (exists k :: 0 <= k < |es| && GroupTotal(Exact, es, es[k].category) > 0.0) ==>
      && GroupTotal(Exact, es, top) > 0.0
      && (forall k :: 0 <= k < |es| ==> GroupTotal(Exact, es, es[k].category) <= GroupTotal(Exact, es, top))
  {
    var entries := Entries(Exact, es);
    EntriesValues(Exact, es);
    if exists k :: 0 <= k < |entries| && entries[k].value > 0.0 {
      var i :| IsFirstMax(entries, i) && top == entries[i].name;
      ExpenseOfEntry(Exact, es, i);
      var e :| 0 <= e < |es| && KeyOf(Exact, es[e]) == entries[i].name;
      assert GroupTotal(Exact, es, es[e].category) > 0.0;
      forall k | 0 <= k < |es|
        ensures GroupTotal(Exact, es, es[k].category) <= GroupTotal(Exact, es, top)
      {
        EntryOfExpense(Exact, es, k);
        var j :| 0 <= j < |entries| && entries[j].name == KeyOf(Exact, es[k]);
        assert entries[j].value <= entries[i].value;
      }
    } else {
      forall k | 0 <= k < |es|
        ensures GroupTotal(Exact, es, es[k].category) <= 0.0
      {
        EntryOfExpense(Exact, es, k);
        var j :| 0 <= j < |entries| && entries[j].name == KeyOf(Exact, es[k]);
        assert entries[j].value <= 0.0;
      }
    }
  }

  /** An empty expense list has no top category. */
  lemma {:induction false} EmptyHasNoTopCategory(top: string)
    requires IsTopCategory(Entries(Exact, []), top)
    ensures top == NoCategory
  {
    EntriesMeaning(Exact, []);
  }

  // ---------------------------------------------------------------------------
  // The `stats` memo

  datatype Stats = Stats(total: real, count: nat, topCategory: string)

  method ComputeStats(expenses: seq<Expense>) returns (s: Stats)
    ensures s.total == Total(expenses)
    ensures s.count == |expenses|
    ensures IsTopCategory(Entries(Exact, expenses), s.topCategory)
  {
    var categoryCounts := GroupTotals(Exact, expenses);
    var top := TopCategory(categoryCounts);
    s := Stats(Total(expenses), |expenses|, top);
  }

  // ---------------------------------------------------------------------------
  // The budget card

  /** A budget is shown (as a percentage rather than 'N/A') only when one was
      fetched and its limit is positive. */
  predicate BudgetShown(budget: Option<Budget>) {
    budget.Some? && budget.value.limitAmount > 0.0
  }

  /** `budgetProgress`: the share of the limit spent, in percent, capped at
      100; 0 when no budget is shown. */
  function BudgetProgress(budget: Option<Budget>, total: real): (p: real)
    ensures p <= 100.0
    ensures !BudgetShown(budget) ==> p == 0.0
    ensures BudgetShown(budget) && total >= budget.value.limitAmount ==> p == 100.0
    ensures BudgetShown(budget) && total < budget.value.limitAmount ==>
      p * budget.value.limitAmount == total * 100.0
    ensures total >= 0.0 ==> p >= 0.0
  {
    if !BudgetShown(budget) then 0.0
    else
      var limit := budget.value.limitAmount;
      var percent := total / limit * 100.0;
      assert percent * limit == total * 100.0;
      assert total >= limit ==> percent >= 100.0 by {
        if total >= limit {
          assert total / limit >= 1.0;
        }
      }
      if percent < 100.0 then percent else 100.0
  }

  /** The default budget `GET /budget/` means to deliver has a zero limit, so
      the card shows 'N/A' and no progress; so does a card whose fetch failed
      and which still holds no budget. */
  lemma {:induction false} DefaultBudgetShowsNA(total: real)
    ensures !BudgetShown(Some(Backend.DefaultBudget)) && BudgetProgress(Some(Backend.DefaultBudget), total) == 0.0
    ensures !BudgetShown(None) && BudgetProgress(None, total) == 0.0
  {
  }

  datatype BarColor = Red | Yellow | Green

  /** `progressColor`. */
  function ProgressColor(progress: real): BarColor {
    if progress > 100.0 then Red else if progress > 75.0 then Yellow else Green
  }

  /** Because the progress is capped at 100 the bar is never red: it is yellow
      exactly when more than 75 percent is spent, green otherwise. */
  lemma {:induction false} ProgressNeverRed(budget: Option<Budget>, total: real)
    ensures ProgressColor(BudgetProgress(budget, total)) != Red
    ensures ProgressColor(BudgetProgress(budget, total)) == Yellow <==> BudgetProgress(budget, total) > 75.0
  {
  }

  /** The card's budget state, set by the effect that fetches the budget
      whenever the refresh trigger changes. */
  class BudgetCard {
    var budget: Option<Budget>

    constructor ()
      ensures budget == None
    {
      budget := None;
    }

    /** A fetched budget replaces the old one; a failed fetch is logged and
        leaves it as it was. */
    method OnBudgetFetched(response: Option<Budget>)
      modifies this
      ensures budget == if response.Some? then response else old(budget)
    {
      if response.Some? {
        budget := response;
      }
    }

    function Progress(total: real): (p: real)
      reads this
      ensures 0.0 <= total ==> 0.0 <= p <= 100.0
    {
      BudgetProgress(budget, total)
    }
  }
}
