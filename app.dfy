/** The top-level state of frontend/src/App.jsx: two refresh counters, the
    OCR draft slot, the editing slot, the date filter and the fetched
    expenses, each replaced or incremented by a handler. */
module App {
  import opened Text
  import opened Expenses
  import opened ExpenseForm

  /** `ocrData || editingExpense`: the OCR draft wins over the expense being
      edited. */
  function InitialDataOf(ocrData: Option<Draft>, editing: Option<Expense>): (d: Option<Draft>)
    ensures ocrData.Some? ==> d == ocrData
    ensures ocrData.None? && editing.Some? ==> d == Some(DraftOfExpense(editing.value))
    ensures d.None? <==> ocrData.None? && editing.None?
  {
    if ocrData.Some? then ocrData
    else if editing.Some? then Some(DraftOfExpense(editing.value))
    else None
  }

  /** With a draft in the OCR slot the form creates a new expense even while
      an expense is being edited, since an OCR draft has no id. */
  lemma {:induction false} DraftWhileEditingCreates(receipt: Draft, editing: Expense, form: FormData)
    requires receipt.id.None?
    ensures ChooseRequest(true, InitialDataOf(Some(receipt), Some(editing)), form) == Create(form)
  {
  }

  /** Without a draft, the form updates the expense being edited. */
  lemma {:induction false} EditingUpdates(editing: Expense, form: FormData)
    requires editing.id >= 1
    ensures ChooseRequest(true, InitialDataOf(None, Some(editing)), form) == Update(editing.id, form)
  {
    EditUpdates(editing, form);
  }

  class AppState {
    var refreshList: nat
    var refreshBudget: nat
    var ocrData: Option<Draft>
    var editingExpense: Option<Expense>
    var startDate: Option<string>
    var endDate: Option<string>
    var expenses: seq<Expense>

    constructor ()
      ensures refreshList == 0 && refreshBudget == 0
      ensures ocrData.None? && editingExpense.None?
      ensures startDate.None? && endDate.None?
      ensures expenses == []
    {
      refreshList := 0;
      refreshBudget := 0;
      ocrData := None;
      editingExpense := None;
      startDate := None;
      endDate := None;
      expenses := [];
    }

    /** The form's `initialData` prop. */
    function InitialData(): Option<Draft>
      reads this
    {
      InitialDataOf(ocrData, editingExpense)
    }

    /** The form's `isEditing` prop, `!!editingExpense`. */
    predicate IsEditing()
      reads this
    {
      editingExpense.Some?
    }

    /** What the expense fetch depends on; it runs again whenever this
        changes. */
    function FetchKey(): (nat, Option<string>, Option<string>)
      reads this
    {
      (refreshList, startDate, endDate)
    }

    /** `handleDateChange`: 'start' sets the start, any other kind the end. */
    method HandleDateChange(kind: string, value: Option<string>)
      modifies this
      ensures kind == "start" ==> startDate == value && endDate == old(endDate)
      ensures kind != "start" ==> endDate == value && startDate == old(startDate)
      ensures refreshList == old(refreshList) && refreshBudget == old(refreshBudget)
      ensures ocrData == old(ocrData) && editingExpense == old(editingExpense) && expenses == old(expenses)
    {
      if kind == "start" {
        startDate := value;
      } else {
        endDate := value;
      }
    }

    /** `handleClearFilters`: both bounds go, nothing else changes. */
    method HandleClearFilters()
      modifies this
      ensures startDate.None? && endDate.None?
      ensures refreshList == old(refreshList) && refreshBudget == old(refreshBudget)
      ensures ocrData == old(ocrData) && editingExpense == old(editingExpense) && expenses == old(expenses)
    {
      startDate := None;
      endDate := None;
    }

    /** `handleExpenseAdded`: one more list refresh, and both slots cleared. */
    method HandleExpenseAdded()
      modifies this
      ensures refreshList == old(refreshList) + 1
      ensures ocrData.None? && editingExpense.None?
      ensures InitialData().None? && !IsEditing()
      ensures refreshBudget == old(refreshBudget)
      ensures startDate == old(startDate) && endDate == old(endDate) && expenses == old(expenses)
    {
      refreshList := refreshList + 1;
      ocrData := None;
      editingExpense := None;
    }

    /** `handleUploadSuccess`: the newest OCR result replaces any earlier
        draft and becomes the form's initial data. */
    method HandleUploadSuccess(data: Draft)
      modifies this
      ensures ocrData == Some(data) && InitialData() == Some(data)
      ensures editingExpense == old(editingExpense) && IsEditing() == old(IsEditing())
      ensures refreshList == old(refreshList) && refreshBudget == old(refreshBudget)
      ensures startDate == old(startDate) && endDate == old(endDate) && expenses == old(expenses)
    {
      ocrData := Some(data);
    }

    /** The list's edit button. */
    method OnEdit(e: Expense)
      modifies this
      ensures editingExpense == Some(e) && IsEditing()
      ensures ocrData == old(ocrData)
      ensures refreshList == old(refreshList) && refreshBudget == old(refreshBudget)
      ensures startDate == old(startDate) && endDate == old(endDate) && expenses == old(expenses)
    {
      editingExpense := Some(e);
    }

    /** The form's cancel: the edit slot is cleared, a draft stays. */
    method OnCancelEdit()
      modifies this
      ensures editingExpense.None? && !IsEditing()
      ensures ocrData == old(ocrData)
      ensures refreshList == old(refreshList) && refreshBudget == old(refreshBudget)
      ensures startDate == old(startDate) && endDate == old(endDate) && expenses == old(expenses)
    {
      editingExpense := None;
    }

    /** The budget form's callback: the budget card refetches; the expense
        fetch does not, as its dependencies stay the same. */
    method OnBudgetUpdated()
      modifies this
      ensures refreshBudget == old(refreshBudget) + 1
      ensures FetchKey() == old(FetchKey())
      ensures ocrData == old(ocrData) && editingExpense == old(editingExpense) && expenses == old(expenses)
    {
      refreshBudget := refreshBudget + 1;
    }

    /** The Refresh button and the list's delete callback. */
    method OnRefreshList()
      modifies this
      ensures refreshList == old(refreshList) + 1
      ensures FetchKey() != old(FetchKey())
      ensures refreshBudget == old(refreshBudget)
      ensures ocrData == old(ocrData) && editingExpense == old(editingExpense)
      ensures startDate == old(startDate) && endDate == old(endDate) && expenses == old(expenses)
    {
      refreshList := refreshList + 1;
    }

    /** A fetch answering: any successful response is committed, whichever
        request it answers; a failure is only logged. */
    method ReceiveExpenses(response: Option<seq<Expense>>)
      modifies this
      ensures response.Some? ==> expenses == response.value
      ensures response.None? ==> expenses == old(expenses)
      ensures refreshList == old(refreshList) && refreshBudget == old(refreshBudget)
      ensures ocrData == old(ocrData) && editingExpense == old(editingExpense)
      ensures startDate == old(startDate) && endDate == old(endDate)
    {
      if response.Some? {
        expenses := response.value;
      }
    }
  }

  /** The handlers that may run on the state. */
  datatype Event =
    | DateChange(kind: string, value: Option<string>)
    | ClearFilters
    | ExpenseAdded
    | UploadSuccess(data: Draft)
    | Edit(e: Expense)
    | CancelEdit
    | BudgetUpdated
    | RefreshList
    | ExpensesFetched(response: Option<seq<Expense>>)

  /** Runs a sequence of handlers; the counters never go down and grow by
      exactly one per event that bumps them. */
  method Run(app: AppState, events: seq<Event>)
    modifies app
    ensures app.refreshList >= old(app.refreshList)
    ensures app.refreshBudget >= old(app.refreshBudget)
    ensures app.refreshList - old(app.refreshList) == CountListBumps(events)
    ensures app.refreshBudget - old(app.refreshBudget) == CountBudgetBumps(events)
  {
    for i := 0 to |events|
      invariant app.refreshList - old(app.refreshList) == CountListBumps(events[..i])
      invariant app.refreshBudget - old(app.refreshBudget) == CountBudgetBumps(events[..i])
    {
      assert events[..i + 1] == events[..i] + [events[i]];
      CountAppend(events[..i], events[i]);
      match events[i]
      case DateChange(kind, value) => app.HandleDateChange(kind, value);
      case ClearFilters => app.HandleClearFilters();
      case ExpenseAdded => app.HandleExpenseAdded();
      case UploadSuccess(data) => app.HandleUploadSuccess(data);
      case Edit(e) => app.OnEdit(e);
      case CancelEdit => app.OnCancelEdit();
      case BudgetUpdated => app.OnBudgetUpdated();
      case RefreshList => app.OnRefreshList();
      case ExpensesFetched(response) => app.ReceiveExpenses(response);
    }
    assert events[..|events|] == events;
  }

  predicate BumpsList(ev: Event) {
    ev.ExpenseAdded? || ev.RefreshList?
  }

  function CountListBumps(events: seq<Event>): (n: nat)
    ensures n <= |events|
  {
    if events == [] then 0
    else CountListBumps(events[..|events| - 1]) + (if BumpsList(events[|events| - 1]) then 1 else 0)
  }

  function CountBudgetBumps(events: seq<Event>): (n: nat)
    ensures n <= |events|
  {
    if events == [] then 0
    else CountBudgetBumps(events[..|events| - 1]) + (if events[|events| - 1].BudgetUpdated? then 1 else 0)
  }

  lemma {:induction false} CountAppend(events: seq<Event>, ev: Event)
    ensures CountListBumps(events + [ev]) == CountListBumps(events) + (if BumpsList(ev) then 1 else 0)
    ensures CountBudgetBumps(events + [ev]) == CountBudgetBumps(events) + (if ev.BudgetUpdated? then 1 else 0)
  {
    assert (events + [ev])[..|events|] == events;
  }
}
