/** The chat analyst of backend/services/ai_analyst.py: a question is
    lower-cased and stripped, sorted into one intent by a fixed chain of
    patterns (total, category, store, recent, otherwise a canned answer), and
    answered from sums over the expense table. The table is a sequence and
    each SQL sum a fold over it; the answer is a `Reply` value, its
    `${total:.2f}` and `%b %d` renderings being left to the caller. */
module Analyst {
  import opened Text
  import opened Expenses

  /** `query.lower().strip()`. */
  function Normalize(query: string): string {
    Strip(Lower(query))
  }

  /** A normalized question has no upper-case letter and no whitespace at its
      edges, and holds only lowered characters of the question. */
  lemma {:induction false} NormalizeMeaning(query: string, c: char)
    ensures var q := Normalize(query);
      && (q == [] || (!IsSpace(q[0]) && !IsSpace(q[|q| - 1])))
      && (c in q ==> exists k :: 0 <= k < |query| && LowerChar(query[k]) == c)
      && (c in q ==> !('A' <= c <= 'Z'))
  {
    if c in Normalize(query) {
      StripLowerKeeps(query, c);
    }
  }

  // ---------------------------------------------------------------------------
  // `total.*spent|how much.*spent.*total`

  /** The words occur in order, each after the end of the previous one, from
      `from` on. */
  ghost predicate InOrder(s: string, words: seq<string>, from: nat)
    decreases |words|
  {
    words == [] ||
    exists i :: from <= i && OccursAt(s, words[0], i) && InOrder(s, words[1..], i + |words[0]|)
  }

  /** Decides `InOrder` by taking each word's leftmost occurrence. */
  function FindInOrder(s: string, words: seq<string>, from: nat): bool
    decreases |words|
  {
    if words == [] then true
    else match FindFrom(s, words[0], from)
      case None => false
      case Some(i) => FindInOrder(s, words[1..], i + |words[0]|)
  }

  lemma {:induction false} InOrderLater(s: string, words: seq<string>, a: nat, b: nat)
    requires a <= b && InOrder(s, words, b)
    ensures InOrder(s, words, a)
  {
    if words != [] {
      var i :| b <= i && OccursAt(s, words[0], i) && InOrder(s, words[1..], i + |words[0]|);
      assert a <= i;
    }
  }

  /** Taking the leftmost occurrence of each word loses no match. */
  lemma {:induction false} FindInOrderMeaning(s: string, words: seq<string>, from: nat)
    decreases |words|
    ensures FindInOrder(s, words, from) <==> InOrder(s, words, from)
  {
    if words != [] {
      var w := words[0];
      match FindFrom(s, w, from)
      case None =>
      case Some(i) =>
        FindInOrderMeaning(s, words[1..], i + |w|);
        if InOrder(s, words, from) {
          var j :| from <= j && OccursAt(s, w, j) && InOrder(s, words[1..], j + |w|);
          assert i <= j;
          InOrderLater(s, words[1..], i + |w|, j + |w|);
        }
    }
  }

  /** The second word of an in-order match occurs. */
  lemma {:induction false} InOrderSecond(s: string, words: seq<string>, from: nat)
    requires |words| >= 2 && InOrder(s, words, from)
    ensures Contains(s, words[1])
  {
    var i :| from <= i && OccursAt(s, words[0], i) && InOrder(s, words[1..], i + |words[0]|);
    var j :| i + |words[0]| <= j && OccursAt(s, words[1..][0], j) && InOrder(s, words[2..], j + |words[1]|);
    assert OccursAt(s, words[1], j);
  }

  const TotalWords: seq<string> := ["total", "spent"]
  const HowMuchWords: seq<string> := ["how much", "spent", "total"]

  /** `.` does not cross a newline, so a match lies within one line. */
  ghost predicate AsksTotal(q: string) {
    var lines := Split(q, '\n');
    exists k :: 0 <= k < |lines| && (InOrder(lines[k], TotalWords, 0) || InOrder(lines[k], HowMuchWords, 0))
  }

  /** The first test of `analyze`, decided line by line. */
  predicate TotalQuery(q: string) {
    var lines := Split(q, '\n');
    exists k :: 0 <= k < |lines| && (FindInOrder(lines[k], TotalWords, 0) || FindInOrder(lines[k], HowMuchWords, 0))
  }

  lemma {:induction false} TotalQueryMeaning(q: string)
    ensures TotalQuery(q) <==> AsksTotal(q)
  {
    var lines := Split(q, '\n');
    forall k | 0 <= k < |lines|
      ensures FindInOrder(lines[k], TotalWords, 0) <==> InOrder(lines[k], TotalWords, 0)
      ensures FindInOrder(lines[k], HowMuchWords, 0) <==> InOrder(lines[k], HowMuchWords, 0)
    {
      FindInOrderMeaning(lines[k], TotalWords, 0);
      FindInOrderMeaning(lines[k], HowMuchWords, 0);
    }
  }

  // ---------------------------------------------------------------------------
  // `(?:k1|k2|...)\s+(\w+)`

  datatype CharClass = Spaces | WordChars

  predicate InClass(c: char, cls: CharClass) {
    match cls
    case Spaces => IsSpace(c)
    case WordChars => IsWordChar(c)
  }

  /** The end of the longest run of `cls` characters from `i`. */
  function RunEnd(s: string, i: nat, cls: CharClass): (e: nat)
    requires i <= |s|
    decreases |s| - i
    ensures i <= e <= |s|
    ensures forall k :: i <= k < e ==> InClass(s[k], cls)
    ensures e == |s| || !InClass(s[e], cls)
  {
    if i < |s| && InClass(s[i], cls) then RunEnd(s, i + 1, cls) else i
  }

  /** `kw\s+(\w+)` matches at `p` with the group spanning `[a, b)`. */
  ghost predicate CaptureSpan(q: string, kw: string, p: nat, a: nat, b: nat) {
    && OccursAt(q, kw, p)
    && p + |kw| < a < b <= |q|
    && (forall k :: p + |kw| <= k < a ==> IsSpace(q[k]))
    && (forall k :: a <= k < b ==> IsWordChar(q[k]))
  }

  /** The group of `kw\s+(\w+)` at `p`: both repetitions are greedy, and
      giving back a space never lets `\w` match, so the group is the word run
      after the whole run of spaces. */
  function CaptureWith(q: string, kw: string, p: nat): Option<string> {
    if OccursAt(q, kw, p) then
      var a := RunEnd(q, p + |kw|, Spaces);
      if p + |kw| < a < |q| && IsWordChar(q[a]) then Some(q[a..RunEnd(q, a, WordChars)]) else None
    else None
  }

  /** The pattern matches at `p` exactly when some span fits, and the group
      is the longest such span, with nothing but spaces before it. */
  lemma {:induction false} CaptureWithMeaning(q: string, kw: string, p: nat)
    ensures (exists a: nat, b: nat :: CaptureSpan(q, kw, p, a, b)) <==> CaptureWith(q, kw, p).Some?
    ensures CaptureWith(q, kw, p).Some? ==>
      var a := RunEnd(q, p + |kw|, Spaces);
      var b := RunEnd(q, a, WordChars);
      && CaptureSpan(q, kw, p, a, b)
      && CaptureWith(q, kw, p).value == q[a..b]
      && (forall a': nat, b': nat :: CaptureSpan(q, kw, p, a', b') ==> a' == a && b' <= b)
  {
    var e := p + |kw|;
    if exists a: nat, b: nat :: CaptureSpan(q, kw, p, a, b) {
      var a: nat, b: nat :| CaptureSpan(q, kw, p, a, b);
      SpaceRunBeforeWord(q, kw, p, a, b);
    }
    if CaptureWith(q, kw, p).Some? {
      var a := RunEnd(q, e, Spaces);
      var b := RunEnd(q, a, WordChars);
      assert CaptureSpan(q, kw, p, a, b);
      forall a': nat, b': nat | CaptureSpan(q, kw, p, a', b')
        ensures a' == a && b' <= b
      {
        SpaceRunBeforeWord(q, kw, p, a', b');
      }
    }
  }

  /** In a span, the group starts where the run of spaces ends. */
  lemma {:induction false} SpaceRunBeforeWord(q: string, kw: string, p: nat, a: nat, b: nat)
    requires CaptureSpan(q, kw, p, a, b)
    ensures RunEnd(q, p + |kw|, Spaces) == a
    ensures b <= RunEnd(q, a, WordChars)
  {
    assert !InClass(q[a], Spaces);
  }

  /** Alternation: the first keyword, in the order written, whose pattern
      matches at `p`. */
  function CaptureFrom(q: string, kws: seq<string>, p: nat, m: nat): (c: Option<string>)
    requires m <= |kws|
    decreases |kws| - m
    ensures c.None? <==> forall n :: m <= n < |kws| ==> CaptureWith(q, kws[n], p).None?
    ensures c.Some? ==> exists n :: m <= n < |kws| && IsFirstAlternative(q, kws, p, m, n) && c == CaptureWith(q, kws[n], p)
  {
    if m == |kws| then None
    else
      var c := CaptureWith(q, kws[m], p);
      if c.Some? then
        assert IsFirstAlternative(q, kws, p, m, m);
        c
      else CaptureFrom(q, kws, p, m + 1)
  }

  ghost predicate IsFirstAlternative(q: string, kws: seq<string>, p: nat, m: nat, n: nat) {
    && m <= n < |kws|
    && CaptureWith(q, kws[n], p).Some?
    && forall n' :: m <= n' < n ==> CaptureWith(q, kws[n'], p).None?
  }

  function CaptureAt(q: string, kws: seq<string>, p: nat): Option<string> {
    CaptureFrom(q, kws, p, 0)
  }

  /** `re.search`: the leftmost position, from `from`, where the pattern
      matches. */
  function SearchFrom(q: string, kws: seq<string>, from: nat): (r: Option<nat>)
    decreases |q| - from
    ensures r.Some? ==> from <= r.value < |q| && CaptureAt(q, kws, r.value).Some?
    ensures r.Some? ==> forall k :: from <= k < r.value ==> CaptureAt(q, kws, k).None?
    ensures r.None? ==> forall k :: from <= k < |q| ==> CaptureAt(q, kws, k).None?
  {
    if from >= |q| then None
    else if CaptureAt(q, kws, from).Some? then Some(from)
    else SearchFrom(q, kws, from + 1)
  }

  /** The pattern matches at `p` and at no earlier position. */
  ghost predicate IsLeftmostMatch(q: string, kws: seq<string>, p: nat) {
    && p < |q|
    && CaptureAt(q, kws, p).Some?
    && forall k :: 0 <= k < p ==> CaptureAt(q, kws, k).None?
  }

  /** `group(1)` of the leftmost match, if any. */
  function Group(q: string, kws: seq<string>): (g: Option<string>)
    ensures g.Some? ==> exists p: nat :: IsLeftmostMatch(q, kws, p) && g == CaptureAt(q, kws, p)
    ensures g.None? <==> forall k :: 0 <= k < |q| ==> CaptureAt(q, kws, k).None?
  {
    match SearchFrom(q, kws, 0)
    case Some(p) =>
      assert IsLeftmostMatch(q, kws, p);
      CaptureAt(q, kws, p)
    case None => None
  }

  /** There is only one leftmost match. */
  lemma {:induction false} LeftmostUnique(q: string, kws: seq<string>, p1: nat, p2: nat)
    requires IsLeftmostMatch(q, kws, p1) && IsLeftmostMatch(q, kws, p2)
    ensures p1 == p2
  {
  }

  /** So `group(1)` is the capture at any leftmost match. */
  lemma {:induction false} GroupAtLeftmost(q: string, kws: seq<string>, p: nat)
    requires IsLeftmostMatch(q, kws, p)
    ensures Group(q, kws) == CaptureAt(q, kws, p)
  {
    assert CaptureAt(q, kws, p).Some?;
    var p': nat :| IsLeftmostMatch(q, kws, p') && Group(q, kws) == CaptureAt(q, kws, p');
    LeftmostUnique(q, kws, p, p');
  }

  /** A capture at `p` starts with one of the keywords at `p`. */
  lemma {:induction false} CaptureAtKeyword(q: string, kws: seq<string>, p: nat)
    requires CaptureAt(q, kws, p).Some?
    ensures exists n :: 0 <= n < |kws| && OccursAt(q, kws[n], p)
  {
    var n :| 0 <= n < |kws| && IsFirstAlternative(q, kws, p, 0, n) && CaptureAt(q, kws, p) == CaptureWith(q, kws[n], p);
  }

  const CategoryWords: seq<string> := ["on", "in", "for"]

  /** The store alternatives as written: `(?:at|at the)`. */
  const StoreWordsAsWritten: seq<string> := ["at", "at the"]

  /** The store alternatives with the longer one first, so that `the` is
      skipped as the written alternation evidently meant. */
  const StoreWords: seq<string> := ["at the", "at"]

  /** As written, `at the` is never the alternative taken: wherever it
      matches, the plain `at` already matched, capturing the word `the...`. */
  lemma {:induction false} AsWrittenCapturesThe(q: string, p: nat)
    requires OccursAt(q, "at the", p)
    ensures CaptureAt(q, StoreWordsAsWritten, p) == CaptureWith(q, "at", p)
    ensures CaptureAt(q, StoreWordsAsWritten, p) == Some(q[p + 3..RunEnd(q, p + 3, WordChars)])
    ensures OccursAt(q[p + 3..RunEnd(q, p + 3, WordChars)], "the", 0)
  {
    AtCapturesNextWord(q, p);
    FirstAlternativeWins(q, StoreWordsAsWritten, p);
    GroupStartsWithThe(q, p, RunEnd(q, p + 3, WordChars));
  }

  /** The alternation takes its first keyword whenever that one matches. */
  lemma {:induction false} FirstAlternativeWins(q: string, kws: seq<string>, p: nat)
    requires |kws| > 0 && CaptureWith(q, kws[0], p).Some?
    ensures CaptureAt(q, kws, p) == CaptureWith(q, kws[0], p)
  {
    assert CaptureFrom(q, kws, p, 0) == CaptureWith(q, kws[0], p);
  }

  lemma {:induction false} GroupStartsWithThe(q: string, p: nat, e: nat)
    requires OccursAt(q, "at the", p) && p + 6 <= e <= |q|
    ensures OccursAt(q[p + 3..e], "the", 0)
  {
    assert q[p + 3..p + 6] == q[p..p + 6][3..] == "the";
    assert q[p + 3..e][..3] == q[p + 3..p + 6];
  }

  /** Where `at the` occurs, `at` matches too and its group starts at `the`. */
  lemma {:induction false} AtCapturesNextWord(q: string, p: nat)
    requires OccursAt(q, "at the", p)
    ensures p + 6 <= RunEnd(q, p + 3, WordChars)
    ensures CaptureWith(q, "at", p) == Some(q[p + 3..RunEnd(q, p + 3, WordChars)])
  {
    assert q[p..p + 6] == "at the";
    assert q[p..p + 2] == q[p..p + 6][..2] == "at";
    assert q[p + 2] == ' ' && q[p + 3] == 't' && q[p + 4] == 'h' && q[p + 5] == 'e';
    assert RunEnd(q, p + 3, Spaces) == p + 3;
    assert RunEnd(q, p + 2, Spaces) == p + 3;
    assert IsWordChar(q[p + 3]) && IsWordChar(q[p + 4]) && IsWordChar(q[p + 5]);
    assert RunEnd(q, p + 5, WordChars) >= p + 6;
    assert RunEnd(q, p + 4, WordChars) == RunEnd(q, p + 5, WordChars);
    assert RunEnd(q, p + 3, WordChars) == RunEnd(q, p + 4, WordChars);
  }

  /** The corrected alternation takes `at the` when it matches and otherwise
      behaves as written. */
  lemma {:induction false} StoreWordsCorrected(q: string, p: nat)
    ensures CaptureWith(q, "at the", p).Some? ==> CaptureAt(q, StoreWords, p) == CaptureWith(q, "at the", p)
    ensures CaptureWith(q, "at the", p).None? ==> CaptureAt(q, StoreWords, p) == CaptureAt(q, StoreWordsAsWritten, p)
  {
    if CaptureWith(q, "at the", p).Some? {
      FirstAlternativeWins(q, StoreWords, p);
    } else {
      assert CaptureFrom(q, StoreWords, p, 0) == CaptureFrom(q, StoreWords, p, 1);
      assert CaptureFrom(q, StoreWords, p, 1) == CaptureWith(q, "at", p);
      if CaptureWith(q, "at", p).None? {
        assert CaptureFrom(q, StoreWordsAsWritten, p, 0) == CaptureFrom(q, StoreWordsAsWritten, p, 1);
      }
    }
  }

  /** With no `a` before `p`, keywords that all start with `a` have their
      leftmost match at `p` as soon as they match there. */
  lemma {:induction false} LeftmostAfterNoA(q: string, kws: seq<string>, p: nat)
    requires p < |q| && CaptureAt(q, kws, p).Some?
    requires forall k :: 0 <= k < p ==> q[k] != 'a'
    requires forall n :: 0 <= n < |kws| ==> |kws[n]| > 0 && kws[n][0] == 'a'
    ensures Group(q, kws) == CaptureAt(q, kws, p)
  {
    forall k | 0 <= k < p
      ensures CaptureAt(q, kws, k).None?
    {
      NoCaptureWithoutA(q, kws, k);
    }
    assert IsLeftmostMatch(q, kws, p);
    GroupAtLeftmost(q, kws, p);
  }

  /** Where the leftmost `a` begins `at the` followed by a space, the store
      as written is "the". */
  lemma {:induction false} AsWrittenStoreIsThe(q: string, p: nat)
    requires OccursAt(q, "at the", p) && p + 6 < |q| && q[p + 6] == ' '
    requires forall k :: 0 <= k < p ==> q[k] != 'a'
    ensures Group(q, StoreWordsAsWritten) == Some("the")
  {
    AsWrittenCapturesThe(q, p);
    assert !InClass(q[p + 6], WordChars);
    assert RunEnd(q, p + 3, WordChars) == p + 6;
    assert q[p + 3..p + 6] == q[p..p + 6][3..] == "the";
    LeftmostAfterNoA(q, StoreWordsAsWritten, p);
  }

  /** Where the leftmost `a` begins `at the`, a space and a word that runs to
      the end, the corrected store is that word. */
  lemma {:induction false} CorrectedStoreIsWord(q: string, p: nat)
    requires OccursAt(q, "at the", p) && p + 7 < |q| && q[p + 6] == ' '
    requires forall k :: p + 7 <= k < |q| ==> IsWordChar(q[k])
    requires forall k :: 0 <= k < p ==> q[k] != 'a'
    ensures Group(q, StoreWords) == Some(q[p + 7..])
  {
    assert IsWordChar(q[p + 7]);
    assert RunEnd(q, p + 6, Spaces) == p + 7;
    assert RunEnd(q, p + 7, WordChars) == |q|;
    assert |"at the"| == 6 && q[p + 7..|q|] == q[p + 7..];
    assert CaptureWith(q, "at the", p) == Some(q[p + 7..]);
    StoreWordsCorrected(q, p);
    LeftmostAfterNoA(q, StoreWords, p);
  }

  /** Where `pre`, `at the`, a space and `w` sit in a question. */
  lemma {:induction false} AtTheLayout(q: string, pre: string, w: string)
    requires q == pre + "at the " + w && 'a' !in pre
    ensures OccursAt(q, "at the", |pre|) && |pre| + 6 < |q| && q[|pre| + 6] == ' '
    ensures q[|pre| + 7..] == w
    ensures forall k :: 0 <= k < |pre| ==> q[k] != 'a'
  {
    var p := |pre|;
    assert q[p..p + 6] == "at the";
    forall k | 0 <= k < p
      ensures q[k] != 'a'
    {
      assert q[k] == pre[k];
    }
  }

  /** A question "<pre>at the <word>" with no `a` in `pre`, e.g. "how much at
      the uber": as written the store is "the". */
  lemma {:induction false} AtTheAsWritten(q: string, pre: string, w: string)
    requires q == pre + "at the " + w && 'a' !in pre
    ensures Group(q, StoreWordsAsWritten) == Some("the")
  {
    AtTheLayout(q, pre, w);
    AsWrittenStoreIsThe(q, |pre|);
  }

  /** Corrected, the store of "<pre>at the <word>" is the word. */
  lemma {:induction false} AtTheCorrected(q: string, pre: string, w: string)
    requires q == pre + "at the " + w && 'a' !in pre && |w| > 0
    requires forall k :: 0 <= k < |w| ==> IsWordChar(w[k])
    ensures Group(q, StoreWords) == Some(w)
  {
    AtTheLayout(q, pre, w);
    var p := |pre|;
    forall k | p + 7 <= k < |q|
      ensures IsWordChar(q[k])
    {
      assert q[k] == q[p + 7..][k - p - 7] == w[k - p - 7];
    }
    CorrectedStoreIsWord(q, p);
  }

  /** Keywords that start with `a` cannot match where there is no `a`. */
  lemma {:induction false} NoCaptureWithoutA(q: string, kws: seq<string>, p: nat)
    requires p < |q| && q[p] != 'a'
    requires forall n :: 0 <= n < |kws| ==> |kws[n]| > 0 && kws[n][0] == 'a'
    ensures CaptureAt(q, kws, p).None?
  {
    forall n | 0 <= n < |kws|
      ensures !OccursAt(q, kws[n], p)
    {
      if p + |kws[n]| <= |q| {
        assert q[p..p + |kws[n]|][0] == q[p];
      }
    }
    if CaptureAt(q, kws, p).Some? {
      CaptureAtKeyword(q, kws, p);
    }
  }

  // ---------------------------------------------------------------------------
  // Intent

  datatype Intent =
    | TotalSpent
    | SpentByCategory(category: string)
    | SpentByStore(store: string)
    | RecentTransactions
    | Unknown

  /** The category test: a category word is captured and the question
      mentions neither a store nor a shop. */
  predicate CategoryFires(q: string) {
    Group(q, CategoryWords).Some? && !ContainsText(q, "store") && !ContainsText(q, "shop")
  }

  /** The test for recent transactions. */
  predicate AsksRecent(q: string) {
    ContainsText(q, "recent") || ContainsText(q, "last transaction")
  }

  /** The chain of tests in `analyze`, on the normalized question, with the
      store alternation `storeWords`: total; a category word, unless the
      question mentions a store or shop; a store word; a request for recent
      transactions; otherwise nothing. */
  function ClassifyWith(q: string, storeWords: seq<string>): Intent {
    if TotalQuery(q) then TotalSpent
    else if CategoryFires(q) then SpentByCategory(Group(q, CategoryWords).value)
    else
      var store := Group(q, storeWords);
      if store.Some? then SpentByStore(store.value)
      else if AsksRecent(q) then RecentTransactions
      else Unknown
  }

  /** The dispatch of `analyze` as written, with `(?:at|at the)`. */
  function Classify(q: string): Intent {
    ClassifyWith(q, StoreWordsAsWritten)
  }

  /** The dispatch with the store alternation corrected to `(?:at the|at)`. */
  function ClassifyCorrected(q: string): Intent {
    ClassifyWith(q, StoreWords)
  }

  /** The precedence of the intents: each is chosen exactly when its own test
      passes and every earlier one fails. */
  lemma {:induction false} ClassifyPrecedence(q: string, storeWords: seq<string>)
    ensures ClassifyWith(q, storeWords) == TotalSpent <==> AsksTotal(q)
    ensures ClassifyWith(q, storeWords).SpentByCategory? <==> !AsksTotal(q) && CategoryFires(q)
    ensures ClassifyWith(q, storeWords).SpentByStore? <==>
      !AsksTotal(q) && !CategoryFires(q) && Group(q, storeWords).Some?
    ensures ClassifyWith(q, storeWords) == RecentTransactions <==>
      !AsksTotal(q) && !CategoryFires(q) && Group(q, storeWords).None? && AsksRecent(q)
    ensures ClassifyWith(q, storeWords) == Unknown <==>
      !AsksTotal(q) && !CategoryFires(q) && Group(q, storeWords).None? && !AsksRecent(q)
    ensures ClassifyWith(q, storeWords).SpentByCategory? ==>
      ClassifyWith(q, storeWords).category == Group(q, CategoryWords).value
    ensures ClassifyWith(q, storeWords).SpentByStore? ==>
      ClassifyWith(q, storeWords).store == Group(q, storeWords).value
  {
    TotalQueryMeaning(q);
  }

  /** The category word is the word after the leftmost `on`, `in` or `for`
      (possibly the end of a longer word) followed by whitespace, taking the
      first of the three that matches there. */
  lemma {:induction false} CategoryWordFollowsKeyword(q: string)
    requires Classify(q).SpentByCategory?
    ensures exists p: nat, n ::
      && 0 <= n < |CategoryWords|
      && IsLeftmostMatch(q, CategoryWords, p)
      && IsFirstAlternative(q, CategoryWords, p, 0, n)
      && CaptureWith(q, CategoryWords[n], p) == Some(Classify(q).category)
  {
    var p: nat :| IsLeftmostMatch(q, CategoryWords, p) && Group(q, CategoryWords) == CaptureAt(q, CategoryWords, p);
    var n :| 0 <= n < |CategoryWords| && IsFirstAlternative(q, CategoryWords, p, 0, n) && CaptureAt(q, CategoryWords, p) == CaptureWith(q, CategoryWords[n], p);
  }

  /** A question "<pre>at the <word>" with no `a` in `pre` and no `n` or `f`
      anywhere asks neither for the total nor for a category, so the store
      branch answers: for "the" as written, for the word as corrected. */
  lemma {:induction false} AtTheQuery(q: string, pre: string, w: string)
    requires q == pre + "at the " + w && 'a' !in pre && 'n' !in q && 'f' !in q
    requires |w| > 0 && forall k :: 0 <= k < |w| ==> IsWordChar(w[k])
    ensures Classify(q) == SpentByStore("the")
    ensures ClassifyCorrected(q) == SpentByStore(w)
  {
    MissingSpentLetterNotTotal(q, 3);
    NoNOrFNoCategory(q);
    AtTheAsWritten(q, pre, w);
    AtTheCorrected(q, pre, w);
  }

  /** "how much at the uber" is answered with the spending at the store "the"
      as written, and at "uber" as corrected. */
  lemma {:induction false} HowMuchAtTheUber(es: seq<Expense>)
    ensures Classify("how much at the uber") == SpentByStore("the")
    ensures ClassifyCorrected("how much at the uber") == SpentByStore("uber")
    ensures ReplyFor(Classify("how much at the uber"), es) == StoreReplyOf(es, "the")
  {
    AtTheQuery("how much at the uber", "how much ", "uber");
  }

  /** An occurrence of `w` puts each of its characters into `s`. */
  lemma {:induction false} OccursChar(s: string, w: string, i: nat, k: nat)
    requires OccursAt(s, w, i) && k < |w|
    ensures s[i + k] == w[k] && w[k] in s
  {
    assert s[i..i + |w|][k] == s[i + k];
  }

  /** Both total patterns need `spent`, so a question lacking one of its
      letters does not ask for the total. */
  lemma {:induction false} MissingSpentLetterNotTotal(q: string, j: nat)
    requires j < 5 && "spent"[j] !in q
    ensures !TotalQuery(q)
  {
    TotalQueryMeaning(q);
    if AsksTotal(q) {
      var lines := Split(q, '\n');
      var k :| 0 <= k < |lines| && (InOrder(lines[k], TotalWords, 0) || InOrder(lines[k], HowMuchWords, 0));
      if InOrder(lines[k], TotalWords, 0) {
        InOrderSecond(lines[k], TotalWords, 0);
      } else {
        InOrderSecond(lines[k], HowMuchWords, 0);
      }
      var i :| OccursAt(lines[k], "spent", i);
      OccursChar(lines[k], "spent", i, j);
      InSplitPiece(q, '\n', k, "spent"[j]);
    }
  }

  /** A keyword that does not occur cannot start a match. */
  lemma {:induction false} NoGroupWithoutKeywords(q: string, kws: seq<string>)
    requires forall n :: 0 <= n < |kws| ==> !Contains(q, kws[n])
    ensures Group(q, kws).None?
  {
    if Group(q, kws).Some? {
      var p: nat :| IsLeftmostMatch(q, kws, p) && Group(q, kws) == CaptureAt(q, kws, p);
      CaptureAtKeyword(q, kws, p);
    }
  }

  /** A word with a character the text lacks does not occur in it. */
  lemma {:induction false} AbsentChar(q: string, w: string, j: nat)
    requires j < |w| && w[j] !in q
    ensures !Contains(q, w)
  {
    if Contains(q, w) {
      var i :| OccursAt(q, w, i);
      OccursChar(q, w, i, j);
    }
  }

  lemma {:induction false} NoNOrFNoCategory(q: string)
    requires 'n' !in q && 'f' !in q
    ensures Group(q, CategoryWords).None?
  {
    AbsentChar(q, "on", 1);
    AbsentChar(q, "in", 1);
    AbsentChar(q, "for", 0);
    NoGroupWithoutKeywords(q, CategoryWords);
  }

  lemma {:induction false} NoTNoStore(q: string)
    requires 't' !in q
    ensures Group(q, StoreWords).None? && Group(q, StoreWordsAsWritten).None?
  {
    AbsentChar(q, "at the", 1);
    AbsentChar(q, "at", 1);
    NoGroupWithoutKeywords(q, StoreWords);
    NoGroupWithoutKeywords(q, StoreWordsAsWritten);
  }

  lemma {:induction false} NoTNoRecent(q: string)
    requires 't' !in q
    ensures !AsksRecent(q)
  {
    if ContainsText(q, "recent") {
      var i :| OccursAt(q, "recent", i);
      OccursChar(q, "recent", i, 5);
    }
    if ContainsText(q, "last transaction") {
      var i :| OccursAt(q, "last transaction", i);
      OccursChar(q, "last transaction", i, 3);
    }
  }

  /** A question without the letters t, n and f matches no intent: every
      pattern needs one of them. */
  lemma {:induction false} NoKeyLettersIsUnknown(q: string)
    requires 't' !in q && 'n' !in q && 'f' !in q
    ensures Classify(q) == Unknown && ClassifyCorrected(q) == Unknown
  {
    MissingSpentLetterNotTotal(q, 4);
    NoNOrFNoCategory(q);
    NoTNoStore(q);
    NoTNoRecent(q);
  }

  /** A character no letter of the question lowers to is not in the
      normalized question. */
  lemma {:induction false} NormalizedLacks(query: string, c: char)
    requires forall k :: 0 <= k < |query| ==> LowerChar(query[k]) != c
    ensures c !in Normalize(query)
  {
    NormalizeMeaning(query, c);
  }

  /** Questions written only with the letters of "hello" and "help", in
      either case. */
  predicate GreetingLetters(query: string) {
    forall k :: 0 <= k < |query| ==> GreetingLetter(LowerChar(query[k]))
  }

  predicate GreetingLetter(c: char) {
    c == 'h' || c == 'e' || c == 'l' || c == 'o' || c == 'p'
  }

  lemma {:induction false} GreetingsQualify()
    ensures GreetingLetters("hello") && GreetingLetters("help")
  {
  }

  /** Such questions, "hello" and "help" among them, match no intent. */
  lemma {:induction false} GreetingsAreUnknown(query: string)
    requires GreetingLetters(query)
    ensures Classify(Normalize(query)) == Unknown && ClassifyCorrected(Normalize(query)) == Unknown
  {
    NormalizedLacks(query, 't');
    NormalizedLacks(query, 'n');
    NormalizedLacks(query, 'f');
    NoKeyLettersIsUnknown(Normalize(query));
  }

  // ---------------------------------------------------------------------------
  // The sums

  /** `SUM(amount)` over the rows `sel` picks, `or 0.0` when there are none. */
  function SumOf(es: seq<Expense>, sel: Expense -> bool): real {
    if es == [] then 0.0
    else SumOf(es[..|es| - 1], sel) + (if sel(es[|es| - 1]) then es[|es| - 1].amount else 0.0)
  }

  /** Selecting every row sums the whole table. */
  lemma {:induction false} SumOfAll(es: seq<Expense>, sel: Expense -> bool)
    requires forall k :: 0 <= k < |es| ==> sel(es[k])
    ensures SumOf(es, sel) == Total(es)
  {
    if es != [] {
      SumOfAll(es[..|es| - 1], sel);
    }
  }

  /** Selecting no row gives zero. */
  lemma {:induction false} SumOfNone(es: seq<Expense>, sel: Expense -> bool)
    requires forall k :: 0 <= k < |es| ==> !sel(es[k])
    ensures SumOf(es, sel) == 0.0
  {
    if es != [] {
      SumOfNone(es[..|es| - 1], sel);
    }
  }

  /** With positive amounts, the sum is positive as soon as one row is
      selected. */
  lemma {:induction false} SumOfPositive(es: seq<Expense>, sel: Expense -> bool)
    requires forall k :: 0 <= k < |es| ==> es[k].amount > 0.0
    ensures SumOf(es, sel) >= 0.0
    ensures (exists k :: 0 <= k < |es| && sel(es[k])) ==> SumOf(es, sel) > 0.0
  {
    if es != [] {
      var init := es[..|es| - 1];
      SumOfPositive(init, sel);
      if exists k :: 0 <= k < |es| && sel(es[k]) {
        var k :| 0 <= k < |es| && sel(es[k]);
        if k < |es| - 1 {
          assert sel(init[k]);
        }
      }
    }
  }

  /** `func.lower(category) == name.lower()`. */
  predicate InCategory(e: Expense, name: string) {
    Lower(e.category) == Lower(name)
  }

  /** `w` matches `s` at `i` as a LIKE pattern: `_` matches any character. */
  predicate LikeAt(s: string, w: string, i: nat) {
    i + |w| <= |s| && forall k :: 0 <= k < |w| ==> w[k] == '_' || s[i + k] == w[k]
  }

  /** `LIKE '%' || w || '%'`, decided by a scan. */
  function LikeFrom(s: string, w: string, from: nat): (b: bool)
    decreases |s| - from
    ensures b <==> exists i :: from <= i && LikeAt(s, w, i)
  {
    if from + |w| > |s| then false
    else LikeAt(s, w, from) || LikeFrom(s, w, from + 1)
  }

  /** `func.lower(store_name).contains(name.lower())`: SQLAlchemy puts the
      word unescaped into a LIKE pattern, so `_` is a wildcard; a missing
      store never matches. */
  predicate AtStore(e: Expense, name: string) {
    e.storeName.Some? && LikeFrom(Lower(e.storeName.value), Lower(name), 0)
  }

  /** A store name containing the word matches. */
  lemma {:induction false} ContainingStoreMatches(e: Expense, name: string, i: nat)
    requires e.storeName.Some? && OccursAt(Lower(e.storeName.value), Lower(name), i)
    ensures AtStore(e, name)
  {
    var s, w := Lower(e.storeName.value), Lower(name);
    forall k | 0 <= k < |w|
      ensures s[i + k] == w[k]
    {
      assert s[i..i + |w|][k] == s[i + k];
    }
    assert LikeAt(s, w, i);
  }

  function CategoryTotal(es: seq<Expense>, name: string): real {
    SumOf(es, e => InCategory(e, name))
  }

  function StoreTotal(es: seq<Expense>, name: string): real {
    SumOf(es, e => AtStore(e, name))
  }

  // ---------------------------------------------------------------------------
  // Answers

  const UnknownStore: string := "Unknown Store"
  const RecentLimit: nat := 3

  /** One line of the recent-transactions answer. */
  datatype RecentLine = RecentLine(createdAt: int, amount: real, store: string)

  datatype Reply =
    | TotalReply(total: real)
    | CategoryReply(shown: string, total: real)
    | NoCategorySpending(category: string)
    | StoreReply(shown: string, total: real)
    | NoStoreSpending(store: string)
    | RecentReply(lines: seq<RecentLine>)
    | NoRecentTransactions
    | StillLearning

  /** `str.capitalize()`: the first character upper-cased, the rest lower. */
  function Capitalize(s: string): (r: string)
    ensures |r| == |s|
    ensures s != [] ==> r[0] == UpperChar(s[0]) && r[1..] == Lower(s[1..])
  {
    if s == [] then [] else [UpperChar(s[0])] + Lower(s[1..])
  }

  function CategoryReplyOf(es: seq<Expense>, name: string): Reply {
    var total := CategoryTotal(es, name);
    if total == 0.0 then NoCategorySpending(name) else CategoryReply(Capitalize(name), total)
  }

  function StoreReplyOf(es: seq<Expense>, name: string): Reply {
    var total := StoreTotal(es, name);
    if total == 0.0 then NoStoreSpending(name) else StoreReply(Capitalize(name), total)
  }

  /** With positive amounts, "couldn't find any spending" is the answer
      exactly when no row is in the category. */
  lemma {:induction false} CategoryNotFoundIff(es: seq<Expense>, name: string)
    requires forall k :: 0 <= k < |es| ==> es[k].amount > 0.0
    ensures CategoryReplyOf(es, name) == NoCategorySpending(name) <==>
      forall k :: 0 <= k < |es| ==> !InCategory(es[k], name)
  {
    var sel := e => InCategory(e, name);
    SumOfPositive(es, sel);
    if forall k :: 0 <= k < |es| ==> !InCategory(es[k], name) {
      SumOfNone(es, sel);
    }
  }

  /** With positive amounts, "couldn't find any spending at" is the answer
      exactly when no row's store matches. */
  lemma {:induction false} StoreNotFoundIff(es: seq<Expense>, name: string)
    requires forall k :: 0 <= k < |es| ==> es[k].amount > 0.0
    ensures StoreReplyOf(es, name) == NoStoreSpending(name) <==>
      forall k :: 0 <= k < |es| ==> !AtStore(es[k], name)
  {
    var sel := e => AtStore(e, name);
    SumOfPositive(es, sel);
    if forall k :: 0 <= k < |es| ==> !AtStore(es[k], name) {
      SumOfNone(es, sel);
    }
  }

  /** `ex.store_name or "Unknown Store"`. */
  function LineOf(e: Expense): (l: RecentLine)
    ensures l.createdAt == e.createdAt && l.amount == e.amount
    ensures e.storeName.Some? && e.storeName.value != "" ==> l.store == e.storeName.value
    ensures !(e.storeName.Some? && e.storeName.value != "") ==> l.store == UnknownStore
  {
    RecentLine(e.createdAt, e.amount,
      if e.storeName.Some? && e.storeName.value != "" then e.storeName.value else UnknownStore)
  }

  /** The three newest rows, newest first. */
  function Latest(es: seq<Expense>): seq<Expense> {
    Window(NewestFirst(es), 0, RecentLimit)
  }

  /** One line per row, in order. */
  function LinesOf(rows: seq<Expense>): (lines: seq<RecentLine>)
    ensures |lines| == |rows|
    ensures forall i :: 0 <= i < |rows| ==> lines[i] == LineOf(rows[i])
  {
    seq(|rows|, i requires 0 <= i < |rows| => LineOf(rows[i]))
  }

  /** The recent-transactions answer. */
  function RecentReplyOf(es: seq<Expense>): Reply {
    var latest := Latest(es);
    if latest == [] then NoRecentTransactions else RecentReply(LinesOf(latest))
  }

  /** `_get_recent_transactions`: one line appended per row, as the loop
      extends `response`. */
  method RecentTransactionsOf(es: seq<Expense>) returns (reply: Reply)
    ensures reply == RecentReplyOf(es)
  {
    var latest := Latest(es);
    if latest == [] {
      return NoRecentTransactions;
    }
    var lines := AppendLines(latest);
    reply := RecentReply(lines);
  }

  /** The loop body of `_get_recent_transactions`: one line per row, appended
      in order. */
  method AppendLines(rows: seq<Expense>) returns (lines: seq<RecentLine>)
    ensures lines == LinesOf(rows)
  {
    lines := [];
    for i := 0 to |rows|
      invariant |lines| == i
      invariant forall k :: 0 <= k < i ==> lines[k] == LineOf(rows[k])
    {
      lines := lines + [LineOf(rows[i])];
    }
  }

  /** The recent answer is "none found" exactly for an empty table, and
      otherwise has one line per row, up to three. */
  lemma {:induction false} RecentReplyLength(es: seq<Expense>)
    ensures RecentReplyOf(es) == NoRecentTransactions <==> es == []
    ensures RecentReplyOf(es).RecentReply? ==>
      |RecentReplyOf(es).lines| == (if |es| < RecentLimit then |es| else RecentLimit)
  {
    NewestFirstLength(es);
  }

  /** The lines are newest first, the first being the newest row. */
  lemma {:induction false} RecentReplyNewestFirst(es: seq<Expense>)
    requires RecentReplyOf(es).RecentReply?
    ensures var lines := RecentReplyOf(es).lines;
      && (forall i, j :: 0 <= i < j < |lines| ==> lines[i].createdAt >= lines[j].createdAt)
      && (forall k :: 0 <= k < |es| ==> lines[0].createdAt >= es[k].createdAt)
  {
    var sorted := NewestFirst(es);
    var lines := RecentReplyOf(es).lines;
    assert forall i :: 0 <= i < |lines| ==> lines[i].createdAt == sorted[i].createdAt;
    forall k | 0 <= k < |es|
      ensures sorted[0].createdAt >= es[k].createdAt
    {
      assert es[k] in multiset(sorted);
      var j :| 0 <= j < |sorted| && sorted[j] == es[k];
    }
  }

  /** Every line of the recent answer is a row of the table. */
  lemma {:induction false} RecentLinesFromTable(es: seq<Expense>, i: nat)
    requires RecentReplyOf(es).RecentReply? && i < |RecentReplyOf(es).lines|
    ensures exists k :: 0 <= k < |es| && RecentReplyOf(es).lines[i] == LineOf(es[k])
  {
    var sorted := NewestFirst(es);
    assert sorted[i] in multiset(es);
    var k :| 0 <= k < |es| && es[k] == sorted[i];
  }

  /** The reply for an intent. */
  function ReplyFor(intent: Intent, es: seq<Expense>): Reply {
    match intent
    case TotalSpent => TotalReply(Total(es))
    case SpentByCategory(name) => CategoryReplyOf(es, name)
    case SpentByStore(name) => StoreReplyOf(es, name)
    case RecentTransactions => RecentReplyOf(es)
    case Unknown => StillLearning
  }

  /** `analyze`, with the store alternation as written. */
  method Analyze(query: string, es: seq<Expense>) returns (reply: Reply)
    ensures reply == ReplyFor(Classify(Normalize(query)), es)
  {
    var q := Normalize(query);
    var intent := Classify(q);
    if intent == RecentTransactions {
      reply := RecentTransactionsOf(es);
    } else {
      reply := ReplyFor(intent, es);
    }
  }

  /** "hello", "help" and the like are answered with the canned text. */
  lemma {:induction false} GreetingsStillLearning(query: string, es: seq<Expense>)
    requires GreetingLetters(query)
    ensures ReplyFor(Classify(Normalize(query)), es) == StillLearning
    ensures ReplyFor(ClassifyCorrected(Normalize(query)), es) == StillLearning
  {
    GreetingsAreUnknown(query);
    UnknownReply(Classify(Normalize(query)), es);
    UnknownReply(ClassifyCorrected(Normalize(query)), es);
  }

  lemma {:induction false} UnknownReply(intent: Intent, es: seq<Expense>)
    requires intent == Unknown
    ensures ReplyFor(intent, es) == StillLearning
  {
  }
}
