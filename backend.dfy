/** The REST handlers of backend/main.py over an in-memory copy of the three
    tables: expenses, the (single) budget and the categories. A table is a
    sequence of rows in insertion order; a new row's id is one more than the
    largest id in the table, as SQLite allocates an `INTEGER PRIMARY KEY`. */
module Backend {
  import opened Text
  import opened Expenses

  /** What a handler answers: a value, a 404, the failed commit of a row
      that breaks a unique constraint, or a response that fails validation
      against the route's declared response model. */
  datatype Response<T> = Ok(value: T) | NotFound | Conflict | ServerError

  const DefaultSkip: nat := 0
  const DefaultLimit: nat := 100

  /** The budget `GET /budget/` reports when none was ever set. */
  const DefaultBudget: Budget := Budget(0.0, "monthly")

  /** The categories seeded into an empty table, each with the column default
      colour. */
  const DefaultCategories: seq<string> :=
    ["Food", "Transport", "Utilities", "Entertainment", "Health", "Shopping", "Housing", "Education"]
  const DefaultColor: string := "blue"

  /** The header row of the CSV export. */
  const ExportHeader: seq<string> := ["ID", "Date", "Amount", "Category", "Store", "Description"]

  // ---------------------------------------------------------------------------
  // Row selection

  /** `created_at >= start_date`: at or after midnight of the start day. */
  predicate AfterStart(e: Expense, start: Option<int>) {
    start.None? || e.createdAt >= start.value * SecondsPerDay
  }

  /** `created_at < end_date + 1 day`: no later than the end day itself. */
  predicate BeforeDayAfter(e: Expense, end: Option<int>) {
    end.None? || e.createdAt < (end.value + 1) * SecondsPerDay
  }

  predicate InRange(e: Expense, start: Option<int>, end: Option<int>) {
    AfterStart(e, start) && BeforeDayAfter(e, end)
  }

  /** The rows the date filters let through, in table order. */
  function Filtered(es: seq<Expense>, start: Option<int>, end: Option<int>): (r: seq<Expense>)
    ensures |r| <= |es|
    ensures forall e :: e in r <==> e in es && InRange(e, start, end)
  {
    if es == [] then []
    else
      var rest := Filtered(es[..|es| - 1], start, end);
      var last := es[|es| - 1];
      assert es == es[..|es| - 1] + [last];
      if InRange(last, start, end) then rest + [last] else rest
  }

  /** A range from a day to the same day selects exactly the rows created on
      that day, from its first second to its last. */
  lemma {:induction false} SameDayRange(es: seq<Expense>, day: int, e: Expense)
    ensures e in Filtered(es, Some(day), Some(day)) <==>
      e in es && day * SecondsPerDay <= e.createdAt < day * SecondsPerDay + SecondsPerDay
  {
  }

  /** Listing the rows from offset 0 with a limit no smaller than the table
      gives every matching row: the export is the unlimited listing. */
  lemma {:induction false} ExportIsUnlimitedRead(es: seq<Expense>, start: Option<int>, end: Option<int>, limit: nat)
    requires limit >= |es|
    ensures Window(NewestFirst(Filtered(es, start, end)), 0, limit) == NewestFirst(Filtered(es, start, end))
  {
    NewestFirstLength(Filtered(es, start, end));
  }

  // ---------------------------------------------------------------------------
  // Ids

  predicate IdsAscending(es: seq<Expense>) {
    forall i, j :: 0 <= i < j < |es| ==> es[i].id < es[j].id
  }

  predicate CategoryIdsAscending(cs: seq<Category>) {
    forall i, j :: 0 <= i < j < |cs| ==> cs[i].id < cs[j].id
  }

  predicate NamesDistinct(cs: seq<Category>) {
    forall i, j :: 0 <= i < j < |cs| ==> cs[i].name != cs[j].name
  }

  /** The id SQLite gives the next row: one more than the largest. */
  function NextId(es: seq<Expense>): (id: int)
    requires IdsAscending(es)
    ensures forall k :: 0 <= k < |es| ==> es[k].id < id
    ensures es == [] ==> id == 1
  {
    if es == [] then 1 else es[|es| - 1].id + 1
  }

  function NextCategoryId(cs: seq<Category>): (id: int)
    requires CategoryIdsAscending(cs)
    ensures forall k :: 0 <= k < |cs| ==> cs[k].id < id
    ensures cs == [] ==> id == 1
  {
    if cs == [] then 1 else cs[|cs| - 1].id + 1
  }

  /** The row `.filter(id == ...).first()` finds. */
  function IndexOfId(es: seq<Expense>, id: int): (r: Option<nat>)
    ensures r.Some? ==> r.value < |es| && es[r.value].id == id
    ensures r.None? ==> forall k :: 0 <= k < |es| ==> es[k].id != id
  {
    if es == [] then None
    else if es[0].id == id then Some(0)
    else
      var r := IndexOfId(es[1..], id);
      if r.Some? then Some(r.value + 1) else None
  }

  function IndexOfCategory(cs: seq<Category>, id: int): (r: Option<nat>)
    ensures r.Some? ==> r.value < |cs| && cs[r.value].id == id
    ensures r.None? ==> forall k :: 0 <= k < |cs| ==> cs[k].id != id
  {
    if cs == [] then None
    else if cs[0].id == id then Some(0)
    else
      var r := IndexOfCategory(cs[1..], id);
      if r.Some? then Some(r.value + 1) else None
  }

  function Names(cs: seq<Category>): (names: seq<string>)
    ensures |names| == |cs|
    ensures forall k :: 0 <= k < |cs| ==> names[k] == cs[k].name
  {
    seq(|cs|, k requires 0 <= k < |cs| => cs[k].name)
  }

  lemma {:induction false} DefaultCategoriesDistinct()
    ensures forall i, j :: 0 <= i < j < |DefaultCategories| ==> DefaultCategories[i] != DefaultCategories[j]
  {
    var d := DefaultCategories;
    assert d[0][0] == 'F' && d[1][0] == 'T' && d[2][0] == 'U' && d[3][0] == 'E';
    assert d[4][0] == 'H' && d[5][0] == 'S' && d[6][0] == 'H' && d[7][0] == 'E';
    assert d[4][1] == 'e' && d[6][1] == 'o';
    assert d[3][1] == 'n' && d[7][1] == 'd';
  }

  /** Removing a row keeps the ids ascending. */
  lemma {:induction false} RemoveKeepsAscending(es: seq<Expense>, k: nat)
    requires IdsAscending(es) && k < |es|
    ensures IdsAscending(es[..k] + es[k + 1..])
  {
    var r := es[..k] + es[k + 1..];
    forall i, j | 0 <= i < j < |r|
      ensures r[i].id < r[j].id
    {
      var i' := if i < k then i else i + 1;
      var j' := if j < k then j else j + 1;
      assert r[i] == es[i'] && r[j] == es[j'];
    }
  }

  lemma {:induction false} RemoveCategoryKeepsValid(cs: seq<Category>, k: nat)
    requires CategoryIdsAscending(cs) && NamesDistinct(cs) && k < |cs|
    ensures CategoryIdsAscending(cs[..k] + cs[k + 1..]) && NamesDistinct(cs[..k] + cs[k + 1..])
  {
    var r := cs[..k] + cs[k + 1..];
    forall i, j | 0 <= i < j < |r|
      ensures r[i].id < r[j].id && r[i].name != r[j].name
    {
      var i' := if i < k then i else i + 1;
      var j' := if j < k then j else j + 1;
      assert r[i] == cs[i'] && r[j] == cs[j'];
    }
  }

  // ---------------------------------------------------------------------------
  // The ledger

  class Ledger {
    var expenses: seq<Expense>
    var budgets: seq<Budget>
    var categories: seq<Category>

    /** Ids are positive and increase along each table, category names are
        unique (the column's constraint) and there is at most one budget. */
    ghost predicate Valid()
      reads this
    {
      && IdsAscending(expenses)
      && (forall k :: 0 <= k < |expenses| ==> expenses[k].id >= 1)
      && |budgets| <= 1
      && CategoryIdsAscending(categories)
      && NamesDistinct(categories)
    }

    constructor ()
      ensures Valid()
      ensures expenses == [] && budgets == [] && categories == []
    {
      expenses := [];
      budgets := [];
      categories := [];
    }

    /** `POST /expenses/`: the row gets a fresh id and the current time; every
        other row is kept. */
    method CreateExpense(fields: ExpenseFields, now: int) returns (e: Expense)
      requires Valid()
      modifies this
      ensures Valid()
      ensures expenses == old(expenses) + [e]
      ensures e.Fields() == fields && e.createdAt == now
      ensures forall k :: 0 <= k < |old(expenses)| ==> old(expenses)[k].id != e.id
      ensures budgets == old(budgets) && categories == old(categories)
    {
      e := Expense(NextId(expenses), fields.amount, fields.category, fields.description, fields.storeName, now);
      expenses := expenses + [e];
    }

    /** `GET /expenses/`: the rows in the date range, newest first, after
        skipping `skip` of them and keeping at most `limit`; a negative `skip`
        skips nothing and a negative `limit` keeps every remaining row, as
        SQLite treats them. */
    method ReadExpenses(skip: int, limit: int, start: Option<int>, end: Option<int>) returns (rows: seq<Expense>)
      ensures rows == SqlWindow(NewestFirst(Filtered(expenses, start, end)), skip, limit)
      ensures limit >= 0 ==> |rows| <= limit
      ensures limit < 0 && skip <= 0 ==> |rows| == |Filtered(expenses, start, end)|
      ensures NewestFirstOrder(rows)
      ensures forall k :: 0 <= k < |rows| ==> rows[k] in expenses && InRange(rows[k], start, end)
    {
      var selected := Filtered(expenses, start, end);
      var ordered := NewestFirst(selected);
      NewestFirstLength(selected);
      var offset: nat := if skip < 0 then 0 else skip;
      rows := Window(ordered, offset, if limit < 0 then |ordered| else limit);
      forall k | 0 <= k < |rows|
        ensures rows[k] in expenses && InRange(rows[k], start, end)
      {
        assert rows[k] == ordered[offset + k];
        assert ordered[offset + k] in multiset(selected);
      }
    }

    /** `GET /expenses/export`: the header, then every row in the date range,
        newest first. */
    method ExportExpenses(start: Option<int>, end: Option<int>) returns (header: seq<string>, rows: seq<Expense>)
      ensures header == ExportHeader
      ensures NewestFirstOrder(rows)
      ensures multiset(rows) == multiset(Filtered(expenses, start, end))
      ensures forall e :: e in rows <==> e in expenses && InRange(e, start, end)
    {
      header := ExportHeader;
      rows := NewestFirst(Filtered(expenses, start, end));
      forall e
        ensures e in rows <==> e in Filtered(expenses, start, end)
      {
        assert e in rows <==> e in multiset(rows);
      }
    }

    /** `PUT /expenses/{id}`: the four client fields are replaced, the id and
        creation time kept; an unknown id is a 404 and changes nothing. */
    method UpdateExpense(id: int, fields: ExpenseFields) returns (r: Response<Expense>)
      requires Valid()
      modifies this
      ensures Valid()
      ensures (forall k :: 0 <= k < |old(expenses)| ==> old(expenses)[k].id != id) <==> r == NotFound
      ensures r == NotFound ==> expenses == old(expenses)
      ensures r.Ok? ==> exists k :: (
        && 0 <= k < |old(expenses)| && old(expenses)[k].id == id
        && r.value == old(expenses)[k].(amount := fields.amount, category := fields.category,
                                        description := fields.description, storeName := fields.storeName)
        && expenses == old(expenses)[k := r.value])
      ensures r.Ok? || r.NotFound?
      ensures r.Ok? ==> r.value.id == id && r.value.Fields() == fields
      ensures budgets == old(budgets) && categories == old(categories)
    {
      var found := IndexOfId(expenses, id);
      if found.None? {
        return NotFound;
      }
      var k := found.value;
      var e := expenses[k].(amount := fields.amount, category := fields.category,
                            description := fields.description, storeName := fields.storeName);
      expenses := expenses[k := e];
      r := Ok(e);
    }

    /** `DELETE /expenses/{id}`: exactly that row goes; an unknown id is a 404
        and changes nothing. */
    method DeleteExpense(id: int) returns (r: Response<bool>)
      requires Valid()
      modifies this
      ensures Valid()
      ensures (forall k :: 0 <= k < |old(expenses)| ==> old(expenses)[k].id != id) <==> r == NotFound
      ensures r == NotFound ==> expenses == old(expenses)
      ensures r.Ok? ==> exists k :: (
        && 0 <= k < |old(expenses)| && old(expenses)[k].id == id
        && expenses == old(expenses)[..k] + old(expenses)[k + 1..])
      ensures r.Ok? || r.NotFound?
      ensures forall k :: 0 <= k < |expenses| ==> expenses[k].id != id
      ensures budgets == old(budgets) && categories == old(categories)
    {
      var found := IndexOfId(expenses, id);
      if found.None? {
        return NotFound;
      }
      var k := found.value;
      RemoveKeepsAscending(expenses, k);
      expenses := expenses[..k] + expenses[k + 1..];
      r := Ok(true);
      forall j | 0 <= j < |expenses|
        ensures expenses[j].id != id
      {
        if j < k {
          assert expenses[j] == old(expenses)[j];
        } else {
          assert expenses[j] == old(expenses)[j + 1];
        }
      }
    }

    /** `GET /budget/` as the handler evidently means it: the first budget
        row, or the default with a zero limit. */
    function GetBudget(): (b: Budget)
      reads this
      ensures budgets == [] ==> b == DefaultBudget
      ensures budgets != [] ==> b == budgets[0]
    {
      if budgets == [] then DefaultBudget else budgets[0]
    }

    /** `GET /budget/` as written: with no row, the handler returns an unsaved
        budget whose id is still unset, the declared response model requires
        an integer id, and the request fails with a server error instead of
        delivering the default. */
    function GetBudgetAsWritten(): (r: Response<Budget>)
      reads this
      ensures r.Ok? <==> budgets != []
      ensures r.Ok? ==> r.value == budgets[0]
      ensures !r.Ok? ==> r == ServerError
    {
      if budgets == [] then ServerError else Ok(budgets[0])
    }

    /** `POST /budget/`: overwrites the single budget or creates it; a later
        `GetBudget` returns what was posted. */
    method UpsertBudget(b: Budget) returns (saved: Budget)
      requires Valid()
      modifies this
      ensures Valid()
      ensures budgets == [b] && saved == b
      ensures GetBudget() == b
      ensures expenses == old(expenses) && categories == old(categories)
    {
      if budgets != [] {
        budgets := budgets[0 := b];
      } else {
        budgets := budgets + [b];
      }
      saved := b;
    }

    /** `GET /categories/`: an empty table is first seeded with the eight
        defaults; a non-empty one is listed as it is. */
    method ReadCategories() returns (cats: seq<Category>)
      requires Valid()
      modifies this
      ensures Valid()
      ensures cats == categories
      ensures old(categories) != [] ==> categories == old(categories)
      ensures old(categories) == [] ==>
        Names(categories) == DefaultCategories && forall k :: 0 <= k < |categories| ==> categories[k].color == DefaultColor
      ensures expenses == old(expenses) && budgets == old(budgets)
    {
      if categories == [] {
        DefaultCategoriesDistinct();
        for i := 0 to |DefaultCategories|
          invariant |categories| == i
          invariant forall k :: 0 <= k < i ==> categories[k] == Category(k + 1, DefaultCategories[k], DefaultColor)
          invariant expenses == old(expenses) && budgets == old(budgets)
        {
          categories := categories + [Category(NextCategoryId(categories), DefaultCategories[i], DefaultColor)];
        }
        assert Names(categories) == DefaultCategories;
      }
      cats := categories;
    }

    /** `POST /categories/`: a new row under a fresh id; a name already taken
        fails the unique constraint and nothing is stored. */
    method CreateCategory(name: string, color: string) returns (r: Response<Category>)
      requires Valid()
      modifies this
      ensures Valid()
      ensures name in Names(old(categories)) <==> r == Conflict
      ensures r == Conflict ==> categories == old(categories)
      ensures r.Ok? ==> categories == old(categories) + [r.value] && r.value.name == name && r.value.color == color
      ensures r.Ok? ==> forall k :: 0 <= k < |old(categories)| ==> old(categories)[k].id != r.value.id
      ensures r.Ok? || r.Conflict?
      ensures expenses == old(expenses) && budgets == old(budgets)
    {
      if name in Names(categories) {
        return Conflict;
      }
      var c := Category(NextCategoryId(categories), name, color);
      categories := categories + [c];
      r := Ok(c);
    }

    /** `DELETE /categories/{id}`: exactly that row goes; an unknown id is a
        404 and changes nothing. */
    method DeleteCategory(id: int) returns (r: Response<bool>)
      requires Valid()
      modifies this
      ensures Valid()
      ensures (forall k :: 0 <= k < |old(categories)| ==> old(categories)[k].id != id) <==> r == NotFound
      ensures r == NotFound ==> categories == old(categories)
      ensures r.Ok? ==> exists k :: (
        && 0 <= k < |old(categories)| && old(categories)[k].id == id
        && categories == old(categories)[..k] + old(categories)[k + 1..])
      ensures r.Ok? || r.NotFound?
      ensures expenses == old(expenses) && budgets == old(budgets)
    {
      var found := IndexOfCategory(categories, id);
      if found.None? {
        return NotFound;
      }
      var k := found.value;
      RemoveCategoryKeepsValid(categories, k);
      categories := categories[..k] + categories[k + 1..];
      r := Ok(true);
    }
  }

  /** With a budget stored, the handler as written and as meant agree; with
      none, the written one fails where the meant one delivers the default. */
  lemma {:induction false} BudgetAsWrittenDiffers(l: Ledger)
    ensures l.budgets != [] ==> l.GetBudgetAsWritten() == Ok(l.GetBudget())
    ensures l.budgets == [] ==> l.GetBudgetAsWritten() == ServerError && l.GetBudget() == DefaultBudget
  {
  }
}
