/**
 * Scanners for the fixed regular expressions of the modelled code.  Each
 * `...At(s, i)` says whether the pattern matches with its match starting at
 * index `i`; a search takes the leftmost such start (`FirstMatch`), as
 * `re.search` does.
 * For every pattern here the greedy reading is the only one that can succeed
 * (what follows a digit run or a whitespace run can never start with a digit,
 * a point or whitespace), so backtracking never yields another match.
 */
module Patterns {
  import opened Outcomes
  import opened Text

  /** End of the longest run of `inClass` characters starting at `i`. */
  function RunEnd(s: string, i: nat, inClass: char -> bool): (j: nat)
    requires i <= |s|
    ensures i <= j <= |s|
    ensures forall k :: i <= k < j ==> inClass(s[k])
    ensures j == |s| || !inClass(s[j])
    decreases |s| - i
  {
    if i < |s| && inClass(s[i]) then RunEnd(s, i + 1, inClass) else i
  }

  function DigitEnd(s: string, i: nat): (j: nat)
    requires i <= |s|
    ensures i <= j <= |s|
  {
    RunEnd(s, i, IsDigit)
  }

  function SpaceEnd(s: string, i: nat): (j: nat)
    requires i <= |s|
    ensures i <= j <= |s|
  {
    RunEnd(s, i, IsSpace)
  }

  /** Index of the first alternative of `words` present at `k` (ignoring case when `folded`). */
  function FirstWordAt(s: string, k: nat, words: seq<string>, folded: bool): (r: Option<nat>)
    ensures r.Some? ==> r.value < |words| && (if folded then HasAtFolded(s, k, words[r.value]) else HasAt(s, k, words[r.value]))
    ensures r.None? ==> forall w :: w in words ==> !(if folded then HasAtFolded(s, k, w) else HasAt(s, k, w))
  {
    if words == [] then None
    else if (if folded then HasAtFolded(s, k, words[0]) else HasAt(s, k, words[0])) then Some(0)
    else match FirstWordAt(s, k, words[1..], folded)
      case None => None
      case Some(n) => Some(n + 1)
  }

  /** End of `\d+` optionally extended by `\.\d+` (a point followed by at least one digit). */
  function NumeralEnd(s: string, i: nat): (j: nat)
    requires i <= |s|
    ensures i <= j <= |s|
  {
    var d := DigitEnd(s, i);
    if d + 1 < |s| && s[d] == '.' && IsDigit(s[d + 1]) then DigitEnd(s, d + 1) else d
  }

  // ---------------------------------------------------------------------
  // `(\d+\s*bhk)`, ignoring case: the title pattern of both extractors.

  predicate BhkAt(s: string, i: nat) {
    i < |s| && IsDigit(s[i]) && HasAtFolded(s, SpaceEnd(s, DigitEnd(s, i)), "bhk")
  }

  /** The leftmost `\d+\s*bhk` in `s`. */
  function SearchBhk(s: string): (r: Option<string>)
    ensures r.Some? ==> |r.value| >= 4 && IsDigit(r.value[0]) && Lower(r.value[|r.value| - 3..]) == "bhk"
  {
    match FirstMatch(Bhk, s)
    case None => None
    case Some(i) =>
      var e := SpaceEnd(s, DigitEnd(s, i)) + 3;
      assert s[i..e][|s[i..e]| - 3..] == s[e - 3..e];
      Some(s[i..e])
  }

  // ---------------------------------------------------------------------
  // `(\d+\.?\d*\s*(lakh|crore|rs|₹))`, ignoring case: price rule of the hybrid extractor.

  const ExtractorPriceUnits: seq<string> := ["lakh", "crore", "rs", "\U{20B9}"]

  /** End of `\d+\.?\d*` from a digit at `i`. */
  function LooseNumeralEnd(s: string, i: nat): (j: nat)
    requires i <= |s|
    ensures i <= j <= |s|
  {
    var d := DigitEnd(s, i);
    if d < |s| && s[d] == '.' then DigitEnd(s, d + 1) else d
  }

  predicate ExtractorPriceAt(s: string, i: nat) {
    i < |s| && IsDigit(s[i])
    && FirstWordAt(s, SpaceEnd(s, LooseNumeralEnd(s, i)), ExtractorPriceUnits, true).Some?
  }

  function SearchExtractorPrice(s: string): (r: Option<string>)
    ensures r.Some? ==> r.value != [] && IsDigit(r.value[0])
  {
    match FirstMatch(ExtractorPrice, s)
    case None => None
    case Some(i) =>
      assert ExtractorPriceAt(s, i);
      var k := SpaceEnd(s, LooseNumeralEnd(s, i));
      var u := FirstWordAt(s, k, ExtractorPriceUnits, true).value;
      Some(s[i..k + |ExtractorPriceUnits[u]|])
  }

  // ---------------------------------------------------------------------
  // `(\d{3,5}\s*(sqft|square feet|sq\.ft|sq ft))`, ignoring case: area rule of the hybrid extractor.

  const ExtractorAreaUnits: seq<string> := ["sqft", "square feet", "sq.ft", "sq ft"]

  /** Three to five digits from `i`; a longer run cannot be followed by a unit. */
  predicate AreaDigitsAt(s: string, i: nat) {
    i < |s| && IsDigit(s[i]) && 3 <= DigitEnd(s, i) - i <= 5
  }

  predicate ExtractorAreaAt(s: string, i: nat) {
    AreaDigitsAt(s, i) && FirstWordAt(s, SpaceEnd(s, DigitEnd(s, i)), ExtractorAreaUnits, true).Some?
  }

  function SearchExtractorArea(s: string): (r: Option<string>)
    ensures r.Some? ==> |r.value| >= 3 && IsDigit(r.value[0])
  {
    match FirstMatch(ExtractorArea, s)
    case None => None
    case Some(i) =>
      var k := SpaceEnd(s, DigitEnd(s, i));
      var u := FirstWordAt(s, k, ExtractorAreaUnits, true).value;
      Some(s[i..k + |ExtractorAreaUnits[u]|])
  }

  // ---------------------------------------------------------------------
  // `re.findall(r"(parking|lift|gym|pool|garden|security)", text, re.IGNORECASE)`

  const ExtractorAmenities: seq<string> := ["parking", "lift", "gym", "pool", "garden", "security"]

  /** Non-overlapping keyword hits from `i` on, left to right, each as the lower-case keyword. */
  function FindAllWords(s: string, i: nat, words: seq<string>): (r: seq<string>)
    requires forall w :: w in words ==> w != []
    ensures forall j :: 0 <= j < |r| ==> r[j] in words
    decreases |s| - i
  {
    if i >= |s| then []
    else match FirstWordAt(s, i, words, true)
      case Some(n) =>
        assert words[n] in words;
        [words[n]] + FindAllWords(s, i + |words[n]|, words)
      case None => FindAllWords(s, i + 1, words)
  }

  /** Every keyword found in `s` occurs in it, up to case. */
  lemma {:induction false} FindAllWordsOccur(s: string, i: nat, words: seq<string>, j: nat)
    requires forall w :: w in words ==> w != []
    requires j < |FindAllWords(s, i, words)|
    ensures exists k: nat :: i <= k && HasAtFolded(s, k, FindAllWords(s, i, words)[j])
    decreases |s| - i
  {
    if i < |s| {
      match FirstWordAt(s, i, words, true)
      case Some(n) =>
        assert words[n] in words;
        var rest := FindAllWords(s, i + |words[n]|, words);
        assert FindAllWords(s, i, words) == [words[n]] + rest;
        if j > 0 {
          FindAllWordsOccur(s, i + |words[n]|, words, j - 1);
          assert FindAllWords(s, i, words)[j] == rest[j - 1];
        } else {
          assert HasAtFolded(s, i, FindAllWords(s, i, words)[j]);
        }
      case None =>
        FindAllWordsOccur(s, i + 1, words, j);
    }
  }

  // ---------------------------------------------------------------------
  // Patterns of the language-model client's local fallback.

  const FallbackPriceUnits: seq<string> := ["lakh", "crore", "cr", "rs", "\U{20B9}"]

  /** `(\d+(\.\d+)?\s*(lakh|crore|cr|rs|₹))`, ignoring case. */
  predicate FallbackPriceAt(s: string, i: nat) {
    i < |s| && IsDigit(s[i]) && FirstWordAt(s, SpaceEnd(s, NumeralEnd(s, i)), FallbackPriceUnits, true).Some?
  }

  function SearchFallbackPrice(s: string): (r: Option<string>)
    ensures r.Some? ==> r.value != [] && IsDigit(r.value[0])
  {
    match FirstMatch(FallbackPrice, s)
    case None => None
    case Some(i) =>
      var k := SpaceEnd(s, NumeralEnd(s, i));
      var u := FirstWordAt(s, k, FallbackPriceUnits, true).value;
      Some(s[i..k + |FallbackPriceUnits[u]|])
  }

  /** End of `(sqft|sq\.?ft|square\s*feet)` at `k`, ignoring case. */
  function FallbackAreaUnitEnd(s: string, k: nat): (r: Option<nat>)
    requires k <= |s|
    ensures r.Some? ==> k < r.value <= |s|
  {
    if HasAtFolded(s, k, "sqft") then Some(k + 4)
    else if HasAtFolded(s, k, "sq.ft") then Some(k + 5)
    else if HasAtFolded(s, k, "square") && HasAtFolded(s, SpaceEnd(s, k + 6), "feet") then Some(SpaceEnd(s, k + 6) + 4)
    else None
  }

  /** `(\d{3,5}\s*(sqft|sq\.?ft|square\s*feet))`, ignoring case. */
  predicate FallbackAreaAt(s: string, i: nat) {
    AreaDigitsAt(s, i) && FallbackAreaUnitEnd(s, SpaceEnd(s, DigitEnd(s, i))).Some?
  }

  function SearchFallbackArea(s: string): (r: Option<string>)
    ensures r.Some? ==> |r.value| >= 3 && IsDigit(r.value[0])
  {
    match FirstMatch(FallbackArea, s)
    case None => None
    case Some(i) => Some(s[i..FallbackAreaUnitEnd(s, SpaceEnd(s, DigitEnd(s, i))).value])
  }

  /** `\bw\b` matches at `i`, ignoring case; `w` starts and ends with a letter. */
  predicate WordAt(s: string, i: nat, w: string) {
    HasAtFolded(s, i, w)
    && (i == 0 || !IsWordChar(s[i - 1]))
    && (i + |w| == |s| || !IsWordChar(s[i + |w|]))
  }

  /** `re.search(r'\b' + w + r'\b', s, re.IGNORECASE)` succeeds. */
  predicate ContainsWord(s: string, w: string) {
    exists i: nat :: i <= |s| && WordAt(s, i, w)
  }

  /** The class `[A-Za-z0-9\s\-\,]` of the fallback's location group. */
  predicate PlaceChar(c: char) {
    IsLowerLetter(c) || IsUpperLetter(c) || IsDigit(c) || IsSpace(c) || c == '-' || c == ','
  }

  /** `(?:,|for|priced|price|asking|$)` matches at `e`, ignoring case. */
  predicate PlaceEndAt(s: string, e: nat) {
    e == |s| || (e + 1 == |s| && s[e] == '\n') || HasAt(s, e, ",")
    || HasAtFolded(s, e, "for") || HasAtFolded(s, e, "priced") || HasAtFolded(s, e, "price") || HasAtFolded(s, e, "asking")
  }

  /** The first `e` in `i..n` where the terminator matches. */
  function FirstPlaceEnd(s: string, i: nat, n: nat): (r: Option<nat>)
    ensures r.Some? ==> i <= r.value <= n && PlaceEndAt(s, r.value)
    ensures r.Some? ==> forall e :: i <= e < r.value ==> !PlaceEndAt(s, e)
    ensures r.None? ==> forall e :: i <= e <= n ==> !PlaceEndAt(s, e)
    decreases n + 1 - i
  {
    if i > n then None else if PlaceEndAt(s, i) then Some(i) else FirstPlaceEnd(s, i + 1, n)
  }

  /** The last `e` in `lo..hi` where the terminator matches. */
  function LastPlaceEnd(s: string, lo: nat, hi: nat): (r: Option<nat>)
    ensures r.Some? ==> lo <= r.value <= hi && PlaceEndAt(s, r.value)
    ensures r.Some? ==> forall e :: r.value < e <= hi ==> !PlaceEndAt(s, e)
    ensures r.None? ==> forall e :: lo <= e <= hi ==> !PlaceEndAt(s, e)
    decreases hi
  {
    if hi < lo then None else if PlaceEndAt(s, hi) then Some(hi) else if hi == 0 then None else LastPlaceEnd(s, lo, hi - 1)
  }

  /** `in\s+` at `i` with at least one whitespace; yields the end of the greedy `\s+`. */
  predicate InSpaceAt(s: string, i: nat, folded: bool) {
    (if folded then HasAtFolded(s, i, "in") else HasAt(s, i, "in")) && SpaceEnd(s, i + 2) > i + 2
  }

  /**
   * The group of `in\s+([A-Za-z0-9\s\-\,]+?)(?:,|for|priced|price|asking|$)`
   * for a match starting at `i`.  With `\s+` greedy up to `w`, the lazy group
   * first tries every end after `w` inside the class run, shortest first; then
   * `\s+` gives back one whitespace at a time, each time adding the single
   * candidate group `s[e - 1..e]` for `e` from `w` down.
   */
  function FallbackPlaceGroupAt(s: string, i: nat): (r: Option<(nat, nat)>)
    ensures r.Some? ==> r.value.0 < r.value.1 <= |s|
  {
    if !InSpaceAt(s, i, true) then None
    else
      var w := SpaceEnd(s, i + 2);
      var run := RunEnd(s, w, PlaceChar);
      match FirstPlaceEnd(s, w + 1, run)
      case Some(e) => Some((w, e))
      case None =>
        match LastPlaceEnd(s, i + 4, w)
        case Some(e) => Some((e - 1, e))
        case None => None
  }

  function SearchFallbackPlace(s: string): (r: Option<string>)
  {
    match FirstMatch(FallbackPlace, s)
    case None => None
    case Some(i) =>
      var g := FallbackPlaceGroupAt(s, i).value;
      Some(s[g.0..g.1])
  }

  // ---------------------------------------------------------------------
  // Patterns of the rule-based language-understanding helper (case-sensitive).

  const QueryPriceUnits: seq<string> := ["lakh", "cr", "crore"]

  /** `(\d+(?:\.\d+)?\s*(?:lakh|cr|crore))` */
  predicate QueryPriceAt(s: string, i: nat) {
    i < |s| && IsDigit(s[i]) && FirstWordAt(s, SpaceEnd(s, NumeralEnd(s, i)), QueryPriceUnits, false).Some?
  }

  function SearchQueryPrice(s: string): (r: Option<string>)
    ensures r.Some? ==> r.value != [] && IsDigit(r.value[0])
  {
    match FirstMatch(QueryPrice, s)
    case None => None
    case Some(i) =>
      var k := SpaceEnd(s, NumeralEnd(s, i));
      var u := FirstWordAt(s, k, QueryPriceUnits, false).value;
      Some(s[i..k + |QueryPriceUnits[u]|])
  }

  /** The class `[a-z\s]`. */
  predicate LowerOrSpace(c: char) { IsLowerLetter(c) || IsSpace(c) }

  /**
   * The group of `in\s+([a-z\s]+)` for a match at `i`: the greedy class run
   * after all the whitespace, or, when nothing of the class follows it, the
   * last whitespace character given back by `\s+` (possible only when there
   * were at least two).
   */
  function QueryPlaceGroupAt(s: string, i: nat): (r: Option<(nat, nat)>)
    ensures r.Some? ==> r.value.0 < r.value.1 <= |s|
  {
    if !InSpaceAt(s, i, false) then None
    else
      var w := SpaceEnd(s, i + 2);
      var e := RunEnd(s, w, LowerOrSpace);
      if e > w then Some((w, e))
      else if w >= i + 4 then Some((w - 1, w))
      else None
  }

  function SearchQueryPlace(s: string): (r: Option<string>)
  {
    match FirstMatch(QueryPlace, s)
    case None => None
    case Some(i) =>
      var g := QueryPlaceGroupAt(s, i).value;
      Some(s[g.0..g.1])
  }

  // ---------------------------------------------------------------------
  // Patterns of the store's free-text query parser (on the lower-cased query).

  /** End of `\s?`: one whitespace character when there is one. */
  function OptSpaceEnd(s: string, k: nat): (j: nat)
    requires k <= |s|
    ensures k <= j <= |s|
  {
    if k < |s| && IsSpace(s[k]) then k + 1 else k
  }

  /** `(\d+)\s?bhk` */
  predicate StoreBhkAt(s: string, i: nat) {
    i < |s| && IsDigit(s[i]) && HasAt(s, OptSpaceEnd(s, DigitEnd(s, i)), "bhk")
  }

  /** The digits of the leftmost `(\d+)\s?bhk`. */
  function SearchStoreBhk(s: string): (r: Option<string>)
    ensures r.Some? ==> r.value != [] && AllDigits(r.value)
  {
    match FirstMatch(StoreBhk, s)
    case None => None
    case Some(i) => Some(s[i..DigitEnd(s, i)])
  }

  const StorePriceUnits: seq<string> := ["lakh", "crore", "cr"]

  /** `(\d+(\.\d+)?)\s?(lakh|crore|cr)` */
  predicate StorePriceAt(s: string, i: nat) {
    i < |s| && IsDigit(s[i]) && FirstWordAt(s, OptSpaceEnd(s, NumeralEnd(s, i)), StorePriceUnits, false).Some?
  }

  /** Groups 1 and 3 of the leftmost `(\d+(\.\d+)?)\s?(lakh|crore|cr)`: the number and its unit. */
  function SearchStorePrice(s: string): (r: Option<(string, string)>)
    ensures r.Some? ==> r.value.1 in StorePriceUnits
  {
    match FirstMatch(StorePrice, s)
    case None => None
    case Some(i) =>
      var k := OptSpaceEnd(s, NumeralEnd(s, i));
      var u := FirstWordAt(s, k, StorePriceUnits, false).value;
      Some((s[i..NumeralEnd(s, i)], StorePriceUnits[u]))
  }

  /** What `\d+(\.\d+)?` matches is a decimal numeral, which `float` accepts. */
  lemma NumeralParses(s: string, i: nat)
    requires i < |s| && IsDigit(s[i])
    ensures ParseDecimal(s[i..NumeralEnd(s, i)]).Some?
  {
    var d := DigitEnd(s, i);
    var intPart := s[i..d];
    assert AllDigits(intPart) && |intPart| > 0;
    var e := NumeralEnd(s, i);
    var dotted := d + 1 < |s| && s[d] == '.' && IsDigit(s[d + 1]);
    var frac := if dotted then s[d + 1..e] else "";
    assert AllDigits(frac);
    assert s[i..e] == intPart + (if dotted then "." + frac else "");
    ParseNumeral(intPart, frac, dotted);
  }

  /** The number of a price match parses. */
  lemma StorePriceParses(s: string)
    requires SearchStorePrice(s).Some?
    ensures ParseDecimal(SearchStorePrice(s).value.0).Some?
  {
    var i := FirstMatch(StorePrice, s).value;
    NumeralParses(s, i);
  }

  // ---------------------------------------------------------------------
  // Leftmost search, as `re.search` does it.

  datatype Pattern =
    | Bhk | ExtractorPrice | ExtractorArea
    | FallbackPrice | FallbackArea | FallbackPlace
    | QueryPrice | QueryPlace
    | StoreBhk | StorePrice

  /** Pattern `p` has a match starting at index `i` of `s`. */
  predicate MatchesAt(p: Pattern, s: string, i: nat) {
    match p
    case Bhk => BhkAt(s, i)
    case ExtractorPrice => ExtractorPriceAt(s, i)
    case ExtractorArea => ExtractorAreaAt(s, i)
    case FallbackPrice => FallbackPriceAt(s, i)
    case FallbackArea => FallbackAreaAt(s, i)
    case FallbackPlace => FallbackPlaceGroupAt(s, i).Some?
    case QueryPrice => QueryPriceAt(s, i)
    case QueryPlace => QueryPlaceGroupAt(s, i).Some?
    case StoreBhk => StoreBhkAt(s, i)
    case StorePrice => StorePriceAt(s, i)
  }

  /** The first start from `i` on at which `p` matches. */
  function FirstMatchFrom(p: Pattern, s: string, i: nat): (r: Option<nat>)
    requires i <= |s| + 1
    ensures r.Some? ==> i <= r.value <= |s| && MatchesAt(p, s, r.value)
    ensures r.Some? ==> forall k :: i <= k < r.value ==> !MatchesAt(p, s, k)
    ensures r.None? ==> forall k :: i <= k <= |s| ==> !MatchesAt(p, s, k)
    decreases |s| + 1 - i
  {
    if i > |s| then None else if MatchesAt(p, s, i) then Some(i) else FirstMatchFrom(p, s, i + 1)
  }

  /** The start of the match `re.search` reports: the leftmost one. */
  function FirstMatch(p: Pattern, s: string): (r: Option<nat>)
    ensures r.Some? ==> r.value <= |s| && MatchesAt(p, s, r.value)
    ensures r.Some? ==> forall k :: 0 <= k < r.value ==> !MatchesAt(p, s, k)
    ensures r.None? ==> forall k :: 0 <= k <= |s| ==> !MatchesAt(p, s, k)
  {
    FirstMatchFrom(p, s, 0)
  }
}
