/** The rows of the expense ledger (the `expenses`, `budgets` and `categories`
    tables of backend/models.py), the amount fold every aggregate is built
    from, and the newest-first order the backend lists rows in. */
module Expenses {
  import opened Text

  /** Seconds in a day; timestamps are seconds and a calendar date is a day
      number whose midnight is `day * SecondsPerDay`. */
  const SecondsPerDay: int := 86400

  /** The fields a client sends to create or update an expense. */
  datatype ExpenseFields = ExpenseFields(
    amount: real,
    category: string,
    description: Option<string>,
    storeName: Option<string>)

  /** A stored expense: the client's fields plus the id and creation time the
      store assigns. */
  datatype Expense = Expense(
    id: int,
    amount: real,
    category: string,
    description: Option<string>,
    storeName: Option<string>,
    createdAt: int)
  {
    function Fields(): ExpenseFields {
      ExpenseFields(amount, category, description, storeName)
    }
  }

  datatype Budget = Budget(limitAmount: real, period: string)

  datatype Category = Category(id: int, name: string, color: string)

  /** Sum of the amounts, folded from the left as `reduce` does. */
  function Total(es: seq<Expense>): real {
    if es == [] then 0.0 else Total(es[..|es| - 1]) + es[|es| - 1].amount
  }

  /** The fold distributes over concatenation. */
  lemma {:induction false} TotalAppend(a: seq<Expense>, b: seq<Expense>)
    ensures Total(a + b) == Total(a) + Total(b)
  {
    if b == [] {
      assert a + b == a;
    } else {
      assert (a + b)[..|a + b| - 1] == a + b[..|b| - 1];
      TotalAppend(a, b[..|b| - 1]);
    }
  }

  /** Taking one row out of the fold takes its amount out of the total. */
  lemma {:induction false} TotalRemove(b: seq<Expense>, k: nat)
    requires k < |b|
    ensures Total(b) == Total(b[..k] + b[k + 1..]) + b[k].amount
  {
    var p, x, q := b[..k], b[k], b[k + 1..];
    assert b == (p + [x]) + q;
    TotalAppend(p + [x], q);
    assert (p + [x])[..|p|] == p;
    assert Total(p + [x]) == Total(p) + x.amount;
    TotalAppend(p, q);
  }

  /** The total does not depend on the order of the rows. */
  lemma {:induction false} TotalPermutation(a: seq<Expense>, b: seq<Expense>)
    requires multiset(a) == multiset(b)
    ensures Total(a) == Total(b)
    decreases |a|
  {
    if a != [] {
      var a' := a[..|a| - 1];
      var x := a[|a| - 1];
      assert a == a' + [x];
      assert x in multiset(b);
      var k :| 0 <= k < |b| && b[k] == x;
      var b' := b[..k] + b[k + 1..];
      assert multiset(b') == multiset(b) - multiset{x} by {
        assert b == b[..k] + [x] + b[k + 1..];
      }
      assert multiset(a') == multiset(a) - multiset{x};
      TotalPermutation(a', b');
      TotalRemove(b, k);
    }
  }

  /** All amounts non-negative gives a non-negative total. */
  lemma {:induction false} TotalNonNegative(es: seq<Expense>)
    requires forall k :: 0 <= k < |es| ==> es[k].amount >= 0.0
    ensures Total(es) >= 0.0
  {
    if es != [] {
      TotalNonNegative(es[..|es| - 1]);
    }
  }

  // ---------------------------------------------------------------------------
  // Newest first (`order_by(created_at.desc())`)

  predicate NewestFirstOrder(s: seq<Expense>) {
    forall i, j :: 0 <= i < j < |s| ==> s[i].createdAt >= s[j].createdAt
  }

  /** Places `x` before the first row that is not newer than it. */
  function InsertNewest(x: Expense, s: seq<Expense>): (r: seq<Expense>)
    requires NewestFirstOrder(s)
    ensures |r| == |s| + 1
    ensures r[0] == x || (s != [] && r[0] == s[0])
    ensures NewestFirstOrder(r)
    ensures multiset(r) == multiset(s) + multiset{x}
  {
    if s == [] || s[0].createdAt <= x.createdAt then [x] + s
    else
      assert s == [s[0]] + s[1..];
      var rest := InsertNewest(x, s[1..]);
      assert s[0].createdAt >= rest[0].createdAt;
      [s[0]] + rest
  }

  /** The rows ordered by creation time, newest first; rows created at the same
      time keep their table order. */
  function NewestFirst(s: seq<Expense>): (r: seq<Expense>)
    ensures NewestFirstOrder(r)
    ensures multiset(r) == multiset(s)
  {
    if s == [] then []
    else
      assert s == [s[0]] + s[1..];
      InsertNewest(s[0], NewestFirst(s[1..]))
  }

  lemma {:induction false} NewestFirstLength(s: seq<Expense>)
    ensures |NewestFirst(s)| == |s|
  {
    assert |multiset(NewestFirst(s))| == |multiset(s)|;
  }

  /** `.offset(skip).limit(limit)`. */
  function Window<T>(s: seq<T>, skip: nat, limit: nat): (r: seq<T>)
    ensures |r| <= limit
    ensures skip >= |s| ==> r == []
    ensures skip < |s| ==> |r| == if |s| - skip < limit then |s| - skip else limit
    ensures forall k :: 0 <= k < |r| ==> r[k] == s[skip + k]
  {
    var rest := if skip < |s| then s[skip..] else [];
    if |rest| <= limit then rest else rest[..limit]
  }

  /** The window SQLite applies for `OFFSET skip LIMIT limit` on any integers:
      a negative offset counts as no offset, and a negative limit as no limit. */
  function SqlWindow<T>(s: seq<T>, skip: int, limit: int): (r: seq<T>)
    ensures limit >= 0 ==> |r| <= limit
    ensures limit < 0 && skip <= 0 ==> r == s
    ensures limit < 0 && 0 < skip <= |s| ==> r == s[skip..]
    ensures skip >= |s| ==> r == []
    ensures skip <= 0 && 0 <= limit <= |s| ==> r == s[..limit]
  {
    Window(s, if skip < 0 then 0 else skip, if limit < 0 then |s| else limit)
  }
}
