/** The receipt parser of backend/services/ocr.py, from the recognised text
    on: the amount is read from the bottom-most line mentioning "total" that
    holds a price `\d+\.\d{2}`, the store name is the first non-blank line. */
module Ocr {
  import opened Text

  // ---------------------------------------------------------------------------
  // The price pattern `\d+\.\d{2}`

  /** `s[i..j]` is in the language of `\d+\.\d{2}`. */
  ghost predicate MatchSpan(s: string, i: int, j: int) {
    && 0 <= i && i + 4 <= j <= |s|
    && (forall k :: i <= k < j - 3 ==> IsDigit(s[k]))
    && s[j - 3] == '.' && IsDigit(s[j - 2]) && IsDigit(s[j - 1])
  }

  /** The end of the run of digits starting at `i` (how far `\d+` reaches). */
  function RunEnd(s: string, i: nat): (e: nat)
    requires i <= |s|
    decreases |s| - i
    ensures i <= e <= |s|
    ensures forall k :: i <= k < e ==> IsDigit(s[k])
    ensures e == |s| || !IsDigit(s[e])
  {
    if i < |s| && IsDigit(s[i]) then RunEnd(s, i + 1) else i
  }

  /** The run of digits is determined by where it starts. */
  lemma {:induction false} RunEndIs(s: string, i: nat, e: nat)
    requires i <= e <= |s|
    requires forall k :: i <= k < e ==> IsDigit(s[k])
    requires e == |s| || !IsDigit(s[e])
    ensures RunEnd(s, i) == e
    decreases e - i
  {
    if i < e {
      RunEndIs(s, i + 1, e);
    }
  }

  /** The pattern matches at `i`: the greedy `\d+` is the whole run of digits
      from `i`, and it is followed by a point and two digits. */
  predicate MatchesAt(s: string, i: nat) {
    && i <= |s|
    && var e := RunEnd(s, i);
    && i < e && e + 3 <= |s|
    && s[e] == '.' && IsDigit(s[e + 1]) && IsDigit(s[e + 2])
  }

  /** The scan agrees with the pattern's language, and a match at `i` is unique:
      it ends three characters after the run of digits. */
  lemma {:induction false} MatchesAtMeaning(s: string, i: nat, j: int)
    requires i <= |s|
    ensures MatchSpan(s, i, j) ==> MatchesAt(s, i) && j == RunEnd(s, i) + 3
    ensures MatchesAt(s, i) ==> MatchSpan(s, i, RunEnd(s, i) + 3)
  {
    if MatchSpan(s, i, j) {
      RunEndIs(s, i, j - 3);
    }
  }

  /** `re.search`: the leftmost position at or after `from` where the pattern
      matches. */
  function Search(s: string, from: nat): (r: Option<nat>)
    decreases |s| - from
    ensures r.Some? ==> from <= r.value < |s| && MatchesAt(s, r.value)
    ensures r.Some? ==> forall k :: from <= k < r.value ==> !MatchesAt(s, k)
    ensures r.None? ==> forall k :: from <= k <= |s| ==> !MatchesAt(s, k)
  {
    if from >= |s| then None
    else if MatchesAt(s, from) then Some(from)
    else Search(s, from + 1)
  }

  /** The match found is a whole number: it does not start in the middle of a
      run of digits. */
  lemma {:induction false} SearchStartsAtRun(s: string)
    requires Search(s, 0).Some?
    ensures var i := Search(s, 0).value; i == 0 || !IsDigit(s[i - 1])
  {
    var i := Search(s, 0).value;
    if i > 0 && IsDigit(s[i - 1]) {
      RunEndIs(s, i - 1, RunEnd(s, i));
      assert MatchesAt(s, i - 1);
    }
  }

  /** `float(match.group(1))`: the whole part plus the two decimals. */
  function MatchValue(s: string, i: nat): (v: real)
    requires MatchesAt(s, i)
    ensures v >= 0.0
  {
    var e := RunEnd(s, i);
    DigitsValue(s[i..e]) as real + DigitsValue(s[e + 1..e + 3]) as real / 100.0
  }

  // ---------------------------------------------------------------------------
  // The amount

  /** A line the loop takes its amount from: it mentions "total" in any case
      and holds a price. */
  predicate Qualifies(line: string) {
    ContainsText(Lower(line), "total") && Search(line, 0).Some?
  }

  function LineAmount(line: string): real
    requires Qualifies(line)
  {
    MatchValue(line, Search(line, 0).value)
  }

  /** Line `k` qualifies and no line below it does. */
  ghost predicate IsBottomTotalLine(lines: seq<string>, k: int) {
    && 0 <= k < |lines|
    && Qualifies(lines[k])
    && forall j :: k < j < |lines| ==> !Qualifies(lines[j])
  }

  /** What `extract_amount` returns for the given lines: the price of the
      bottom-most qualifying line, or 0 when no line qualifies. */
  ghost predicate IsExtractedAmount(lines: seq<string>, amount: real) {
    if forall k :: 0 <= k < |lines| ==> !Qualifies(lines[k]) then amount == 0.0
    else exists k :: IsBottomTotalLine(lines, k) && amount == LineAmount(lines[k])
  }

  /** `extract_amount`: the lines are scanned from the bottom and the first
      qualifying one gives the amount. The `ValueError` branch is not modelled:
      text matched by `\d+\.\d{2}` always converts. */
  method ExtractAmount(text: string) returns (amount: real)
    ensures IsExtractedAmount(Split(text, '\n'), amount)
    ensures amount >= 0.0
  {
    var lines := Split(text, '\n');
    var i := |lines|;
    while i > 0
      invariant 0 <= i <= |lines|
      invariant forall j :: i <= j < |lines| ==> !Qualifies(lines[j])
    {
      i := i - 1;
      var lineLower := Lower(lines[i]);
      if ContainsText(lineLower, "total") {
        var m := Search(lines[i], 0);
        if m.Some? {
          amount := MatchValue(lines[i], m.value);
          BottomLineAmount(lines, i);
          return;
        }
      }
    }
    NoLineAmount(lines);
    amount := 0.0;
  }

  lemma {:induction false} BottomLineAmount(lines: seq<string>, k: nat)
    requires IsBottomTotalLine(lines, k)
    ensures IsExtractedAmount(lines, LineAmount(lines[k]))
  {
  }

  lemma {:induction false} NoLineAmount(lines: seq<string>)
    requires forall k :: 0 <= k < |lines| ==> !Qualifies(lines[k])
    ensures IsExtractedAmount(lines, 0.0)
  {
  }

  /** The extracted amount is determined by the text. */
  lemma {:induction false} ExtractedAmountUnique(lines: seq<string>, a: real, b: real)
    requires IsExtractedAmount(lines, a) && IsExtractedAmount(lines, b)
    ensures a == b
  {
    if exists k :: 0 <= k < |lines| && Qualifies(lines[k]) {
      var ka :| IsBottomTotalLine(lines, ka) && a == LineAmount(lines[ka]);
      var kb :| IsBottomTotalLine(lines, kb) && b == LineAmount(lines[kb]);
      assert !(ka < kb) && !(kb < ka);
    }
  }

  // ---------------------------------------------------------------------------
  // Reading back a printed price

  /** A price printed with two decimals, `w.cc`. */
  function PriceText(whole: nat, cents: nat): (t: string)
    requires cents < 100
    ensures |t| >= 4
  {
    NatToString(whole) + ['.', DigitChar(cents / 10), DigitChar(cents % 10)]
  }

  lemma {:induction false} TwoDigitsValue(cents: nat)
    requires cents < 100
    ensures DigitsValue([DigitChar(cents / 10), DigitChar(cents % 10)]) == cents
  {
    var t := [DigitChar(cents / 10), DigitChar(cents % 10)];
    assert t[..1] == [DigitChar(cents / 10)];
    assert t[..1][..0] == [];
    assert DigitsValue(t[..1]) == cents / 10;
    assert DigitsValue(t) == cents / 10 * 10 + cents % 10;
  }

  /** A price printed after text without digits is found and read back as
      printed: the pattern is the inverse of printing `w.cc`. */
  lemma {:induction false} PriceRoundTrip(prefix: string, whole: nat, cents: nat, suffix: string)
    requires cents < 100
    requires forall k :: 0 <= k < |prefix| ==> !IsDigit(prefix[k])
    ensures var s := prefix + PriceText(whole, cents) + suffix;
      && Search(s, 0) == Some(|prefix|)
      && MatchValue(s, |prefix|) == whole as real + cents as real / 100.0
  {
    var s := prefix + PriceText(whole, cents) + suffix;
    var w := NatToString(whole);
    var e := |prefix| + |w|;
    PriceLayout(prefix, whole, cents, suffix);
    RunEndIs(s, |prefix|, e);
    assert MatchesAt(s, |prefix|);
    forall k | 0 <= k < |prefix|
      ensures !MatchesAt(s, k)
    {
      assert s[k] == prefix[k];
    }
    SearchFrom(s, 0, |prefix|);
    NatToStringRoundTrip(whole);
    TwoDigitsValue(cents);
  }

  /** Where the parts of a printed price sit in the text around it. */
  lemma {:induction false} PriceLayout(prefix: string, whole: nat, cents: nat, suffix: string)
    requires cents < 100
    ensures var s := prefix + PriceText(whole, cents) + suffix;
      var e := |prefix| + |NatToString(whole)|;
      && e + 3 <= |s|
      && s[|prefix|..e] == NatToString(whole)
      && s[e] == '.'
      && s[e + 1..e + 3] == [DigitChar(cents / 10), DigitChar(cents % 10)]
  {
    var w := NatToString(whole);
    var tail := ['.', DigitChar(cents / 10), DigitChar(cents % 10)];
    var s := prefix + PriceText(whole, cents) + suffix;
    assert s == (prefix + w) + tail + suffix;
    var e := |prefix| + |w|;
    assert s[|prefix|..e] == w;
    assert s[e..e + 3] == tail;
    assert s[e + 1..e + 3] == tail[1..];
  }

  lemma {:induction false} SearchFrom(s: string, from: nat, i: nat)
    requires from <= i < |s| && MatchesAt(s, i)
    requires forall k :: from <= k < i ==> !MatchesAt(s, k)
    ensures Search(s, from) == Some(i)
    decreases i - from
  {
    if from < i {
      SearchFrom(s, from + 1, i);
    }
  }

  // ---------------------------------------------------------------------------
  // The store name

  /** Line `k` is the first that is not blank. */
  ghost predicate IsFirstNonBlank(lines: seq<string>, k: int) {
    && 0 <= k < |lines|
    && Strip(lines[k]) != []
    && forall j :: 0 <= j < k ==> Strip(lines[j]) == []
  }

  /** The index of the first line that is not blank (the one `lines[0]` of
      the comprehension comes from), if any. */
  function FirstNonBlank(lines: seq<string>): (r: Option<nat>)
    ensures r.Some? ==> IsFirstNonBlank(lines, r.value)
    ensures r.None? ==> forall k :: 0 <= k < |lines| ==> Strip(lines[k]) == []
  {
    if lines == [] then None
    else if Strip(lines[0]) != [] then Some(0)
    else
      var r := FirstNonBlank(lines[1..]);
      if r.Some? then Some(r.value + 1) else None
  }

  const UnknownStore: string := "Unknown Store"

  /** `extract_store_name`: the first non-blank line, stripped, else the
      placeholder; never empty and never padded with whitespace. */
  function ExtractStoreName(text: string): (name: string)
    ensures name != []
    ensures !IsSpace(name[0]) && !IsSpace(name[|name| - 1])
  {
    var first := FirstNonBlank(Split(text, '\n'));
    if first.Some? then Strip(Split(text, '\n')[first.value]) else UnknownStore
  }

  /** The store name is the first non-blank line, stripped. */
  lemma {:induction false} StoreNameIsFirstLine(text: string, k: nat)
    requires IsFirstNonBlank(Split(text, '\n'), k)
    ensures ExtractStoreName(text) == Strip(Split(text, '\n')[k])
  {
    var first := FirstNonBlank(Split(text, '\n'));
    assert !(first.value < k) && !(k < first.value);
  }

  /** A text whose lines are all blank gives the placeholder. */
  lemma {:induction false} StoreNameOfBlankText(text: string)
    requires forall k :: 0 <= k < |Split(text, '\n')| ==> Strip(Split(text, '\n')[k]) == []
    ensures ExtractStoreName(text) == UnknownStore
  {
  }

  // ---------------------------------------------------------------------------
  // The upload result

  datatype Receipt = Receipt(text: string, amount: real, storeName: string, category: string)

  /** `process_receipt`, from the recognised text on. */
  method ProcessReceipt(text: string) returns (r: Receipt)
    ensures r.text == text
    ensures IsExtractedAmount(Split(text, '\n'), r.amount) && r.amount >= 0.0
    ensures r.storeName == ExtractStoreName(text)
    ensures r.category == "Uncategorized"
  {
    var amount := ExtractAmount(text);
    r := Receipt(text, amount, ExtractStoreName(text), "Uncategorized");
  }

  /** An image the recogniser cannot read gives the empty text, hence an amount
      of 0 and an unknown store. */
  lemma {:induction false} UnreadableReceipt(amount: real)
    requires IsExtractedAmount(Split("", '\n'), amount)
    ensures amount == 0.0 && ExtractStoreName("") == UnknownStore
  {
    EmptyTextLines();
    StoreNameOfBlankText("");
  }

  lemma {:induction false} EmptyTextLines()
    ensures Split("", '\n') == [""]
    ensures !Qualifies("") && Strip("") == ""
  {
  }

  /** A text whose first line is not blank is named after that line. */
  lemma {:induction false} StoreNameOfFirstLine(first: string, rest: string)
    requires '\n' !in first && Strip(first) != []
    ensures ExtractStoreName(first + "\n" + rest) == Strip(first)
  {
    SplitConcat(first, rest, '\n');
    assert IsFirstNonBlank(Split(first + "\n" + rest, '\n'), 0);
    StoreNameIsFirstLine(first + "\n" + rest, 0);
  }

  /** Lower-casing works character by character, so an occurrence in the
      lower-cased prefix is one in the lower-cased whole. */
  lemma {:induction false} LowerPrefixOccurrence(a: string, b: string, w: string, i: int)
    requires OccursAt(Lower(a), w, i)
    ensures OccursAt(Lower(a + b), w, i)
  {
    LowerAppend(a, b);
    OccursInPrefix(Lower(a), Lower(b), w, i);
  }

  /** A bottom line made of a caption mentioning "total" and a printed price
      gives that price, whatever the lines above it hold. */
  lemma {:induction false} BottomPriceLine(lines: seq<string>, caption: string, whole: nat, cents: nat, amount: real)
    requires cents < 100
    requires forall k :: 0 <= k < |caption| ==> !IsDigit(caption[k])
    requires ContainsText(Lower(caption), "total")
    requires |lines| > 0 && lines[|lines| - 1] == caption + PriceText(whole, cents)
    requires IsExtractedAmount(lines, amount)
    ensures amount == whole as real + cents as real / 100.0
  {
    var last := lines[|lines| - 1];
    PriceRoundTrip(caption, whole, cents, "");
    assert last == caption + PriceText(whole, cents) + "";
    var i := FindFrom(Lower(caption), "total", 0).value;
    LowerPrefixOccurrence(caption, PriceText(whole, cents), "total", i);
    assert Qualifies(last);
    assert IsBottomTotalLine(lines, |lines| - 1);
    ExtractedAmountUnique(lines, amount, LineAmount(last));
  }

  /** The last line of the backend's OCR test receipt, "Total: 25.50",
      gives 25.50. */
  lemma {:induction false} SampleTotalLine(lines: seq<string>, caption: string, amount: real)
    requires caption == "Total: "
    requires |lines| > 0 && lines[|lines| - 1] == caption + "25.50"
    requires IsExtractedAmount(lines, amount)
    ensures amount == 25.5
  {
    SamplePrice();
    SampleCaption(caption);
    BottomPriceLine(lines, caption, 25, 50, amount);
  }

  lemma {:induction false} SamplePrice()
    ensures PriceText(25, 50) == "25.50"
  {
    assert NatToString(25) == "25";
  }

  lemma {:induction false} SampleCaption(caption: string)
    requires caption == "Total: "
    ensures forall k :: 0 <= k < |caption| ==> !IsDigit(caption[k])
    ensures ContainsText(Lower(caption), "total")
  {
    var l := Lower(caption);
    assert l[0] == 't' && l[1] == 'o' && l[2] == 't' && l[3] == 'a' && l[4] == 'l';
    assert l[0..5] == "total";
    assert OccursAt(l, "total", 0);
  }
}
