/** The request URLs built by frontend/src/api.js: the expense list query,
    the export link, and the per-id paths for updates and deletes. A value is
    truthy when present and not empty; dates are put in the URL as they are,
    without percent-encoding. */
module Api {
  import opened Text

  const DefaultBase: string := "http://localhost:8000"
  const DefaultSkip: nat := 0
  const DefaultLimit: nat := 100

  predicate Truthy(v: Option<string>) {
    v.Some? && v.value != ""
  }

  /** `VITE_API_URL || 'http://localhost:8000'`. */
  function ApiUrl(env: Option<string>): (base: string)
    ensures base != ""
    ensures Truthy(env) ==> base == env.value
    ensures !Truthy(env) ==> base == DefaultBase
  {
    if Truthy(env) then env.value else DefaultBase
  }

  // ---------------------------------------------------------------------------
  // Query strings

  datatype Param = Param(key: string, value: string)

  /** `key=value`. */
  function Render(p: Param): string {
    p.key + "=" + p.value
  }

  function Rendered(ps: seq<Param>): (r: seq<string>)
    ensures |r| == |ps|
    ensures forall i :: 0 <= i < |ps| ==> r[i] == Render(ps[i])
  {
    seq(|ps|, i requires 0 <= i < |ps| => Render(ps[i]))
  }

  /** The parameters joined by `&`. */
  function QueryOf(ps: seq<Param>): string
    requires |ps| >= 1
  {
    Join(Rendered(ps), '&')
  }

  /** How a server reads one `key=value` piece: the key runs to the first
      `=`, the value is the rest; a piece without `=` has an empty value. */
  function ParamOf(piece: string): Param {
    var parts := Split(piece, '=');
    if |parts| == 1 then Param(piece, "") else Param(parts[0], Join(parts[1..], '='))
  }

  /** How a server reads a query string: its `&`-separated pieces, in order. */
  function ParseQuery(q: string): (ps: seq<Param>)
    ensures |ps| == |Split(q, '&')|
    ensures forall i :: 0 <= i < |ps| ==> ps[i] == ParamOf(Split(q, '&')[i])
  {
    var pieces := Split(q, '&');
    seq(|pieces|, i requires 0 <= i < |pieces| => ParamOf(pieces[i]))
  }

  /** A parameter the query string carries unambiguously. */
  predicate Plain(p: Param) {
    '=' !in p.key && '&' !in p.key && '&' !in p.value
  }

  lemma {:induction false} ParamRoundTrip(p: Param)
    requires '=' !in p.key
    ensures ParamOf(Render(p)) == p
  {
    SplitConcat(p.key, p.value, '=');
    assert Render(p) == p.key + ['='] + p.value;
    JoinSplit(p.value, '=');
  }

  /** Reading back a query string gives back its parameters. */
  lemma {:induction false} QueryRoundTrip(ps: seq<Param>)
    requires |ps| >= 1
    requires forall i :: 0 <= i < |ps| ==> Plain(ps[i])
    ensures ParseQuery(QueryOf(ps)) == ps
  {
    var r := Rendered(ps);
    forall k | 0 <= k < |r|
      ensures '&' !in r[k]
    {
      assert r[k] == ps[k].key + "=" + ps[k].value;
    }
    SplitJoin(r, '&');
    forall i | 0 <= i < |ps|
      ensures ParseQuery(QueryOf(ps))[i] == ps[i]
    {
      ParamRoundTrip(ps[i]);
    }
  }

  predicate HasKey(ps: seq<Param>, key: string) {
    exists i :: 0 <= i < |ps| && ps[i].key == key
  }

  // ---------------------------------------------------------------------------
  // getExpenses

  /** The optional date bounds, start before end, each only when truthy. */
  function DateParams(startDate: Option<string>, endDate: Option<string>): (ps: seq<Param>)
    ensures |ps| == (if Truthy(startDate) then 1 else 0) + (if Truthy(endDate) then 1 else 0)
    ensures Truthy(startDate) ==> ps[0] == Param("start_date", startDate.value)
    ensures Truthy(endDate) ==> ps[|ps| - 1] == Param("end_date", endDate.value)
  {
    (if Truthy(startDate) then [Param("start_date", startDate.value)] else [])
    + (if Truthy(endDate) then [Param("end_date", endDate.value)] else [])
  }

  /** The list query: `skip` then `limit`, then the date bounds. */
  function ExpenseParams(skip: nat, limit: nat, startDate: Option<string>, endDate: Option<string>): (ps: seq<Param>)
    ensures |ps| >= 2
    ensures ps[0] == Param("skip", NatToString(skip)) && ps[1] == Param("limit", NatToString(limit))
    ensures ps[2..] == DateParams(startDate, endDate)
  {
    [Param("skip", NatToString(skip)), Param("limit", NatToString(limit))] + DateParams(startDate, endDate)
  }

  /** The list URL as a path and a query string. */
  function ExpensesUrl(base: string, skip: nat, limit: nat, startDate: Option<string>, endDate: Option<string>): string {
    base + "/expenses/?" + QueryOf(ExpenseParams(skip, limit, startDate, endDate))
  }

  /** `getExpenses`: the URL grows by `+=`, one optional bound at a time. */
  method GetExpensesUrl(base: string, skip: nat, limit: nat, startDate: Option<string>, endDate: Option<string>)
    returns (url: string)
    ensures url == ExpensesUrl(base, skip, limit, startDate, endDate)
  {
    var skipText, limitText := NatToString(skip), NatToString(limit);
    url := base + "/expenses/?skip=" + skipText + "&limit=" + limitText;
    ghost var prefix := base + "/expenses/?";
    ghost var ps := [Param("skip", skipText), Param("limit", limitText)];
    FirstPieces(base, skipText, limitText);
    if Truthy(startDate) {
      url := url + "&start_date=" + startDate.value;
      NextPiece(prefix, ps, "start_date", "&start_date=", startDate.value);
      ps := ps + [Param("start_date", startDate.value)];
    }
    if Truthy(endDate) {
      url := url + "&end_date=" + endDate.value;
      NextPiece(prefix, ps, "end_date", "&end_date=", endDate.value);
      ps := ps + [Param("end_date", endDate.value)];
    }
    assert ps == ExpenseParams(skip, limit, startDate, endDate);
  }

  /** The template literal of `getExpenses` is the path and the first two
      parameters. */
  lemma {:induction false} FirstPieces(base: string, skipText: string, limitText: string)
    ensures base + "/expenses/?skip=" + skipText + "&limit=" + limitText
         == base + "/expenses/?" + QueryOf([Param("skip", skipText), Param("limit", limitText)])
  {
    var r := Rendered([Param("skip", skipText), Param("limit", limitText)]);
    assert "skip" + "=" == "skip=" && "limit" + "=" == "limit=";
    assert r[0] == "skip=" + skipText && r[1] == "limit=" + limitText;
    assert Join(r, '&') == r[0] + ['&'] + Join(r[1..], '&');
    assert r[1..] == [r[1]];
    assert "/expenses/?skip=" == "/expenses/?" + "skip=" && "&limit=" == ['&'] + "limit=";
  }

  /** Appending a literal `&key=` and a value appends the parameter. */
  lemma {:induction false} NextPiece(prefix: string, ps: seq<Param>, key: string, lit: string, v: string)
    requires |ps| >= 1 && lit == "&" + key + "="
    ensures prefix + QueryOf(ps) + lit + v == prefix + QueryOf(ps + [Param(key, v)])
  {
    var p := Param(key, v);
    assert Rendered(ps + [p]) == Rendered(ps) + [Render(p)];
    JoinAppend(Rendered(ps), Render(p), '&');
  }

  lemma {:induction false} DigitsPlain(n: nat)
    ensures '&' !in NatToString(n) && '=' !in NatToString(n)
  {
    var s := NatToString(n);
    assert forall k :: 0 <= k < |s| ==> IsDigit(s[k]);
  }

  /** The server reads back exactly the list query's parameters. */
  lemma {:induction false} ExpensesQueryRead(skip: nat, limit: nat, startDate: Option<string>, endDate: Option<string>)
    requires startDate.Some? ==> '&' !in startDate.value
    requires endDate.Some? ==> '&' !in endDate.value
    ensures ParseQuery(QueryOf(ExpenseParams(skip, limit, startDate, endDate))) == ExpenseParams(skip, limit, startDate, endDate)
  {
    var ps := ExpenseParams(skip, limit, startDate, endDate);
    var d := DateParams(startDate, endDate);
    DigitsPlain(skip);
    DigitsPlain(limit);
    assert Plain(ps[0]) && Plain(ps[1]);
    DateParamsPlain(startDate, endDate);
    forall i | 2 <= i < |ps|
      ensures Plain(ps[i])
    {
      assert ps[i] == d[i - 2];
    }
    QueryRoundTrip(ps);
  }

  lemma {:induction false} DateParamsPlain(startDate: Option<string>, endDate: Option<string>)
    requires startDate.Some? ==> '&' !in startDate.value
    requires endDate.Some? ==> '&' !in endDate.value
    ensures forall i :: 0 <= i < |DateParams(startDate, endDate)| ==> Plain(DateParams(startDate, endDate)[i])
  {
  }

  /** The list query holds skip and limit always, in that order, and each
      date bound exactly when it is truthy, start before end. */
  lemma {:induction false} ExpenseParamsKeys(skip: nat, limit: nat, startDate: Option<string>, endDate: Option<string>)
    ensures var ps := ExpenseParams(skip, limit, startDate, endDate);
      && ps[0].key == "skip" && ps[1].key == "limit"
      && (HasKey(ps, "start_date") <==> Truthy(startDate))
      && (HasKey(ps, "end_date") <==> Truthy(endDate))
      && (Truthy(startDate) ==> ps[2].key == "start_date")
      && (Truthy(endDate) ==> ps[|ps| - 1].key == "end_date")
  {
    var ps := ExpenseParams(skip, limit, startDate, endDate);
    var d := DateParams(startDate, endDate);
    assert ps == ps[..2] + d;
    assert "start_date" != "skip" && "start_date" != "limit" && "start_date" != "end_date";
    assert "end_date" != "skip" && "end_date" != "limit";
    if HasKey(ps, "start_date") {
      var i :| 0 <= i < |ps| && ps[i].key == "start_date";
      assert ps[i] in d;
    }
    if HasKey(ps, "end_date") {
      var i :| 0 <= i < |ps| && ps[i].key == "end_date";
      assert ps[i] in d;
    }
    if Truthy(startDate) {
      assert ps[2].key == "start_date";
    }
    if Truthy(endDate) {
      assert ps[|ps| - 1].key == "end_date";
    }
  }

  /** The default call asks for the first hundred rows, unfiltered. */
  lemma {:induction false} DefaultExpensesUrl(base: string)
    ensures ExpensesUrl(base, DefaultSkip, DefaultLimit, None, None) == base + "/expenses/?skip=0&limit=100"
  {
    assert NatToString(0) == "0";
    assert NatToString(100) == "100" by {
      assert NatToString(1) == "1";
      assert NatToString(10) == NatToString(1) + [DigitChar(0)];
    }
    assert ExpenseParams(DefaultSkip, DefaultLimit, None, None) == [Param("skip", "0"), Param("limit", "100")];
    FirstPieces(base, "0", "100");
    assert base + "/expenses/?skip=" + "0" + "&limit=" + "100" == base + "/expenses/?skip=0&limit=100";
  }

  // ---------------------------------------------------------------------------
  // exportExpenses

  /** The export link: the bare path without bounds, else one `?` and the
      present bounds joined by `&`. */
  function ExportUrlOf(base: string, startDate: Option<string>, endDate: Option<string>): string {
    var ps := DateParams(startDate, endDate);
    if ps == [] then base + "/expenses/export" else base + "/expenses/export?" + QueryOf(ps)
  }

  /** `exportExpenses`: the bounds are pushed onto `params`, which is joined
      only when non-empty. */
  method ExportUrl(base: string, startDate: Option<string>, endDate: Option<string>) returns (url: string)
    ensures url == ExportUrlOf(base, startDate, endDate)
  {
    url := base + "/expenses/export";
    var params: seq<string> := [];
    ghost var ps: seq<Param> := [];
    if Truthy(startDate) {
      params := params + ["start_date=" + startDate.value];
      ps := ps + [Param("start_date", startDate.value)];
      assert "start_date=" + startDate.value == Render(Param("start_date", startDate.value));
    }
    if Truthy(endDate) {
      params := params + ["end_date=" + endDate.value];
      ps := ps + [Param("end_date", endDate.value)];
      assert "end_date=" + endDate.value == Render(Param("end_date", endDate.value));
    }
    assert ps == DateParams(startDate, endDate);
    assert params == Rendered(ps);
    if |params| > 0 {
      url := url + "?" + Join(params, '&');
    }
  }

  /** What the server reads from the export link: nothing without bounds,
      otherwise exactly the truthy bounds, start first. */
  lemma {:induction false} ExportQueryRead(base: string, startDate: Option<string>, endDate: Option<string>)
    requires startDate.Some? ==> '&' !in startDate.value
    requires endDate.Some? ==> '&' !in endDate.value
    ensures !Truthy(startDate) && !Truthy(endDate) ==> ExportUrlOf(base, startDate, endDate) == base + "/expenses/export"
    ensures Truthy(startDate) || Truthy(endDate) ==>
      exists q :: ExportUrlOf(base, startDate, endDate) == base + "/expenses/export?" + q
               && ParseQuery(q) == DateParams(startDate, endDate)
  {
    var ps := DateParams(startDate, endDate);
    if ps != [] {
      QueryRoundTrip(ps);
      var q := QueryOf(ps);
      assert ExportUrlOf(base, startDate, endDate) == base + "/expenses/export?" + q;
    }
  }

  // ---------------------------------------------------------------------------
  // Per-id paths

  const ExpensesPrefix: string := "/expenses/"
  const CategoriesPrefix: string := "/categories/"

  /** `${API_URL}/expenses/${id}`, the target of both `updateExpense` and
      `deleteExpense`. */
  function ExpensePath(base: string, id: nat): string {
    base + ExpensesPrefix + NatToString(id)
  }

  /** `${API_URL}/categories/${id}`, the target of `deleteCategory`. */
  function CategoryPath(base: string, id: nat): string {
    base + CategoriesPrefix + NatToString(id)
  }

  datatype Verb = Put | Delete
  datatype Request = Request(verb: Verb, url: string)

  function UpdateExpenseRequest(base: string, id: nat): Request {
    Request(Put, ExpensePath(base, id))
  }

  function DeleteExpenseRequest(base: string, id: nat): Request {
    Request(Delete, ExpensePath(base, id))
  }

  function DeleteCategoryRequest(base: string, id: nat): Request {
    Request(Delete, CategoryPath(base, id))
  }

  /** The id is the last segment of an expense path and reads back as the id;
      update and delete of one expense address the same resource. */
  lemma {:induction false} ExpensePathId(base: string, id: nat)
    ensures var u := ExpensePath(base, id);
      && u[..|base| + |ExpensesPrefix|] == base + ExpensesPrefix
      && DigitsValue(u[|base| + |ExpensesPrefix|..]) == id
      && UpdateExpenseRequest(base, id).url == DeleteExpenseRequest(base, id).url == u
  {
    var u := ExpensePath(base, id);
    assert u[|base| + |ExpensesPrefix|..] == NatToString(id);
    NatToStringRoundTrip(id);
  }

  /** Distinct expenses have distinct paths. */
  lemma {:induction false} ExpensePathInjective(base: string, m: nat, n: nat)
    requires ExpensePath(base, m) == ExpensePath(base, n)
    ensures m == n
  {
    var k := |base| + |ExpensesPrefix|;
    assert ExpensePath(base, m)[k..] == NatToString(m);
    assert ExpensePath(base, n)[k..] == NatToString(n);
    NatToStringInjective(m, n);
  }

  /** The category path reads back as its id. */
  lemma {:induction false} CategoryPathId(base: string, id: nat)
    ensures var u := CategoryPath(base, id);
      && u[..|base| + |CategoriesPrefix|] == base + CategoriesPrefix
      && DigitsValue(u[|base| + |CategoriesPrefix|..]) == id
  {
    var u := CategoryPath(base, id);
    assert u[|base| + |CategoriesPrefix|..] == NatToString(id);
    NatToStringRoundTrip(id);
  }
}
