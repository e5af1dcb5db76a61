/**
 * Post-processing in the language-model client (app/llm_client.py): picking
 * the reply text out of the API answer, cutting the JSON block out of it,
 * normalising the parsed fields, the pattern-based fallback extraction, and
 * the summary of search results.  The HTTP exchange and `json.loads` are
 * inputs: the API answer arrives as an `ApiReply`, and the JSON parser is a
 * function parameter that yields `None` where `json.loads` raises or does
 * not produce an object.
 */
module LlmClient {
  import opened Outcomes
  import opened Text
  import opened Patterns
  import opened Memory
  import opened Sequences

  // ---------------------------------------------------------------------
  // Choosing the reply text.

  /** A field of the API's JSON answer: missing, a string, or some other JSON value. */
  datatype Field = NoField | StrField(s: string) | OtherField

  /**
   * The `choices` key of the answer: missing, a value with a length (for a
   * list, the `text` field of each entry; for a string or a dict, entries
   * whose `.get` raises are `OtherField`), or a value `len` rejects, such as
   * `null` or a number.
   */
  datatype Choices = NoChoices | ChoiceList(items: seq<Field>) | Unsized

  /** The decoded API answer: its `choices`, its `response` field, and `str(data)` of the whole answer. */
  datatype ApiReply = ApiReply(choices: Choices, response: Field, repr: string)

  /** `"choices" in data and len(data["choices"]) > 0` is false without raising. */
  predicate NoChoiceText(c: Choices) {
    c.NoChoices? || (c.ChoiceList? && |c.items| == 0)
  }

  /** A choice's or the response's text after `.strip()`; a non-string raises, which yields "". */
  function StrippedField(f: Field, absent: string): string {
    match f
    case NoField => absent
    case StrField(t) => Strip(t)
    case OtherField => ""
  }

  /** A field's stripped text has no whitespace at either end. */
  lemma StrippedFieldTrimmed(f: Field)
    ensures Trimmed(StrippedField(f, ""))
  {
    if f.StrField? {
      StripTrimmed(f.s);
    }
  }

  /**
   * `_post`: the first choice's text if there are choices, else the
   * `response` field if present, else the printed answer; "" when the
   * request failed (`reply == None`) or `len` rejects the `choices` value.
   */
  function Post(reply: Option<ApiReply>): (r: string)
    ensures reply.None? ==> r == ""
    ensures reply.Some? && reply.value.choices.Unsized? ==> r == ""
    ensures reply.Some? && reply.value.choices.ChoiceList? && |reply.value.choices.items| > 0
            ==> r == StrippedField(reply.value.choices.items[0], "") && Trimmed(r)
    ensures reply.Some? && reply.value.response != NoField ==> Trimmed(r)
    ensures reply.Some? && NoChoiceText(reply.value.choices) && reply.value.response != NoField
            ==> r == StrippedField(reply.value.response, "")
    ensures reply.Some? && NoChoiceText(reply.value.choices) && reply.value.response == NoField
            ==> r == reply.value.repr
  {
    match reply
    case None => ""
    case Some(data) =>
      if data.choices.Unsized? then ""
      else if data.choices.ChoiceList? && |data.choices.items| > 0 then
        StrippedFieldTrimmed(data.choices.items[0]);
        StrippedField(data.choices.items[0], "")
      else if data.response != NoField then
        StrippedFieldTrimmed(data.response);
        StrippedField(data.response, "")
      else data.repr
  }

  /** The choices take precedence: a `response` field beside them is ignored. */
  lemma PostPrefersChoices(choices: seq<Field>, response: Field, repr: string)
    requires |choices| > 0
    ensures Post(Some(ApiReply(ChoiceList(choices), response, repr))) == StrippedField(choices[0], "")
  {
  }

  /** Without choices, a string `response` field is returned stripped, and the printed answer is not used. */
  lemma PostFallsBackToResponse(choices: Choices, t: string, repr: string)
    requires NoChoiceText(choices)
    ensures Post(Some(ApiReply(choices, StrField(t), repr))) == Strip(t)
  {
  }

  /** A `choices` value without a length makes `len` raise, so the reply is "" whatever `response` holds. */
  lemma PostUnsizedChoices(response: Field, repr: string)
    ensures Post(Some(ApiReply(Unsized, response, repr))) == ""
  {
  }

  // ---------------------------------------------------------------------
  // The JSON block.

  /** `raw[start:end+1]` for the first `{` and the last `}`, when the `}` comes later; else all of `raw`. */
  function BraceWindow(raw: string): (r: string)
    ensures |r| <= |raw|
  {
    var start := Find(raw, '{');
    var end := RFind(raw, '}');
    if start != -1 && end != -1 && end > start then raw[start..end + 1] else raw
  }

  /** With a `{` before a `}`, the window runs from the first `{` to the last `}` and holds both. */
  lemma BraceWindowCut(raw: string, i: nat, j: nat)
    requires i < j < |raw| && raw[i] == '{' && raw[j] == '}'
    ensures 0 <= Find(raw, '{') <= i && j <= RFind(raw, '}')
    ensures BraceWindow(raw) == raw[Find(raw, '{')..RFind(raw, '}') + 1]
    ensures BraceWindow(raw)[0] == '{' && BraceWindow(raw)[|BraceWindow(raw)| - 1] == '}'
  {
  }

  /** Without a `{` followed somewhere by a `}`, the whole reply is parsed. */
  lemma BraceWindowWhole(raw: string)
    requires forall i, j :: 0 <= i < j < |raw| && raw[i] == '{' ==> raw[j] != '}'
    ensures BraceWindow(raw) == raw
  {
  }

  // ---------------------------------------------------------------------
  // Normalising the parsed object.

  /** A JSON value as the normalisation sees it: `str(x)` and the truth value of `x`. */
  datatype JsonItem = JsonItem(repr: string, truthy: bool)

  /** A field of the parsed object: `null`, a list, or any other value. */
  datatype JsonValue = JNull | JScalar(item: JsonItem) | JList(items: seq<JsonItem>)

  /** `[str(x).strip() for x in items if x]` */
  function StrippedTruthy(items: seq<JsonItem>): (r: seq<string>)
    ensures |r| <= |items|
  {
    if items == [] then []
    else
      var last := items[|items| - 1];
      StrippedTruthy(items[..|items| - 1]) + (if last.truthy then [Strip(last.repr)] else [])
  }

  /** Every element the comprehension keeps comes from a truthy item, in order. */
  lemma {:induction false} StrippedTruthyAll(items: seq<JsonItem>)
    requires forall k :: 0 <= k < |items| ==> items[k].truthy
    ensures |StrippedTruthy(items)| == |items|
    ensures forall k :: 0 <= k < |items| ==> StrippedTruthy(items)[k] == Strip(items[k].repr)
  {
    if items != [] {
      var init := items[..|items| - 1];
      StrippedTruthyAll(init);
      assert StrippedTruthy(items) == StrippedTruthy(init) + [Strip(items[|items| - 1].repr)];
      forall k | 0 <= k < |items|
        ensures StrippedTruthy(items)[k] == Strip(items[k].repr)
      {
        if k < |init| {
          assert items[k] == init[k];
        }
      }
    }
  }

  /** Falsy items (empty strings, `null`, empty lists, zero) are dropped. */
  lemma {:induction false} StrippedTruthyNone(items: seq<JsonItem>)
    requires forall k :: 0 <= k < |items| ==> !items[k].truthy
    ensures StrippedTruthy(items) == []
  {
    if items != [] {
      var init := items[..|items| - 1];
      assert forall k :: 0 <= k < |init| ==> init[k] == items[k];
      StrippedTruthyNone(init);
    }
  }

  /** `if x`: the items the comprehension keeps. */
  predicate Kept(x: JsonItem) {
    x.truthy
  }

  /** `[str(x).strip() for x in items]` */
  function StrippedReprs(items: seq<JsonItem>): seq<string> {
    seq(|items|, k requires 0 <= k < |items| => Strip(items[k].repr))
  }

  /** The comprehension is the stripped printed forms of the truthy items, in their order, whatever the mix. */
  lemma {:induction false} StrippedTruthyKept(items: seq<JsonItem>)
    ensures StrippedTruthy(items) == StrippedReprs(Where(items, Kept))
  {
    if items != [] {
      var init := items[..|items| - 1];
      var last := items[|items| - 1];
      StrippedTruthyKept(init);
      var w := Where(init, Kept);
      if last.truthy {
        assert Where(items, Kept) == w + [last];
        assert StrippedReprs(w + [last]) == StrippedReprs(w) + [Strip(last.repr)];
      }
    }
  }

  /** A mixed list: the empty string is dropped, the other items are joined. */
  lemma NormalizeMixedList()
    ensures NormalizeValue(JList([JsonItem("gym", true), JsonItem("", false), JsonItem("pool", true)])) == Str("gym, pool")
  {
    MixedListKept();
    assert Join(["gym", "pool"], ", ") == "gym, pool";
  }

  /** The truthy items of the mixed list, stripped. */
  lemma MixedListKept()
    ensures StrippedTruthy([JsonItem("gym", true), JsonItem("", false), JsonItem("pool", true)]) == ["gym", "pool"]
  {
    var items := [JsonItem("gym", true), JsonItem("", false), JsonItem("pool", true)];
    StripNoSpace("gym");
    StripNoSpace("pool");
    assert items[..2][..1] == [items[0]];
    assert StrippedTruthy(items[..1]) == ["gym"];
    assert StrippedTruthy(items[..2]) == ["gym"];
  }

  /** The normalised value of one field. */
  function NormalizeValue(v: JsonValue): (r: Value)
    ensures r.Null? <==> v.JNull?
    ensures v.JScalar? ==> r == Str(Strip(v.item.repr)) && Trimmed(r.s)
    ensures v.JList? ==> r == Str(Join(StrippedReprs(Where(v.items, Kept)), ", "))
  {
    match v
    case JNull => Null
    case JScalar(x) =>
      StripTrimmed(x.repr);
      Str(Strip(x.repr))
    case JList(items) =>
      StrippedTruthyKept(items);
      Str(Join(StrippedTruthy(items), ", "))
  }

  /** What the normalisation loop builds: one normalised entry per parsed key. */
  function NormalizedOf(parsed: map<string, JsonValue>): (r: Record)
    ensures r.Keys == parsed.Keys
  {
    map k | k in parsed :: NormalizeValue(parsed[k])
  }

  /** The loop over `parsed.items()` filling `normalized`. */
  method Normalize(parsed: map<string, JsonValue>) returns (normalized: Record)
    ensures normalized.Keys == parsed.Keys
    ensures forall k :: k in parsed ==> normalized[k] == NormalizeValue(parsed[k])
    ensures normalized == NormalizedOf(parsed)
  {
    normalized := map[];
    var todo := parsed.Keys;
    while todo != {}
      invariant todo <= parsed.Keys
      invariant normalized.Keys == parsed.Keys - todo
      invariant forall k :: k in normalized ==> normalized[k] == NormalizeValue(parsed[k])
      decreases |todo|
    {
      var k :| k in todo;
      var v := parsed[k];
      if v.JList? {
        normalized := normalized[k := Str(Join(StrippedTruthy(v.items), ", "))];
      } else if v.JNull? {
        normalized := normalized[k := Null];
      } else {
        normalized := normalized[k := Str(Strip(v.item.repr))];
      }
      assert normalized[k] == NormalizeValue(v);
      todo := todo - {k};
    }
  }

  // ---------------------------------------------------------------------
  // The fallback extraction.

  const FallbackAmenities: seq<string> := ["lift", "parking", "garden", "pool", "gym", "security", "balcony"]

  /** The capitalised keywords of `words` that occur as whole words, in the order of `words`. */
  function AmenityHits(text: string, words: seq<string>): (r: seq<string>)
    ensures |r| <= |words|
  {
    if words == [] then []
    else
      var w := words[|words| - 1];
      AmenityHits(text, words[..|words| - 1]) + (if ContainsWord(text, w) then [Capitalize(w)] else [])
  }

  /** The elements of a list. */
  function Elems(s: seq<string>): (r: set<string>)
    ensures forall x :: x in r <==> x in s
  {
    set x | x in s
  }

  /** The capitalised keywords of `words` that occur as whole words in `text`. */
  function Found(text: string, words: seq<string>): set<string> {
    set w | w in words && ContainsWord(text, w) :: Capitalize(w)
  }

  /** A hit is exactly a capitalised keyword present in the text. */
  lemma {:induction false} AmenityHitsSet(text: string, words: seq<string>)
    ensures Elems(AmenityHits(text, words)) == Found(text, words)
  {
    if words != [] {
      var init := words[..|words| - 1];
      var w := words[|words| - 1];
      AmenityHitsSet(text, init);
      assert words == init + [w];
      assert Found(text, words) == Found(text, init) + (if ContainsWord(text, w) then {Capitalize(w)} else {});
    }
  }

  /** The group of each pattern of the fallback, when it matched. */
  datatype PatternHits = PatternHits(bhk: Option<string>, place: Option<string>, price: Option<string>, area: Option<string>)

  function PatternHitsOf(text: string): PatternHits {
    PatternHits(SearchBhk(text), SearchFallbackPlace(text), SearchFallbackPrice(text), SearchFallbackArea(text))
  }

  /** The title made from a BHK match: upper-cased, spaces removed. */
  function Title(m: string): string {
    RemoveAll(Upper(m), " ")
  }

  /** The fields set from the four patterns; a key appears only when its pattern matched. */
  function MatchRecord(h: PatternHits): Record {
    var r1: Record := if h.bhk.Some? then map["title" := Str(Title(h.bhk.value))] else map[];
    var r2 := if h.place.Some? then r1["location" := Str(Strip(h.place.value))] else r1;
    var r3 := if h.price.Some? then r2["price" := Str(Strip(h.price.value))] else r2;
    if h.area.Some? then r3["area" := Str(Strip(h.area.value))] else r3
  }

  /** The fallback record: the pattern fields, then the amenities when any keyword was found. */
  function FallbackRecord(h: PatternHits, amenities: seq<string>): Record {
    var r := MatchRecord(h);
    if amenities != [] then r["amenities" := Str(Join(SortedSet(amenities), ", "))] else r
  }

  /** What the fallback branch of `extract_property_details` returns for `text`. */
  function FallbackOf(text: string): Record {
    FallbackRecord(PatternHitsOf(text), AmenityHits(text, FallbackAmenities))
  }

  /** The fallback's assignments, one `if` per pattern. */
  method MatchPass(h: PatternHits) returns (fallback: Record)
    ensures fallback == MatchRecord(h)
  {
    fallback := map[];
    if h.bhk.Some? {
      fallback := fallback["title" := Str(Title(h.bhk.value))];
    }
    if h.place.Some? {
      fallback := fallback["location" := Str(Strip(h.place.value))];
    }
    if h.price.Some? {
      fallback := fallback["price" := Str(Strip(h.price.value))];
    }
    if h.area.Some? {
      fallback := fallback["area" := Str(Strip(h.area.value))];
    }
  }

  /** The fallback branch: the pattern assignments, the keyword loop, then the amenities. */
  method Fallback(text: string) returns (fallback: Record)
    ensures fallback == FallbackOf(text)
  {
    var h := PatternHits(SearchBhk(text), SearchFallbackPlace(text), SearchFallbackPrice(text), SearchFallbackArea(text));
    fallback := MatchPass(h);
    var amenities: seq<string> := [];
    var i := 0;
    while i < |FallbackAmenities|
      invariant 0 <= i <= |FallbackAmenities|
      invariant amenities == AmenityHits(text, FallbackAmenities[..i])
    {
      var amen := FallbackAmenities[i];
      assert FallbackAmenities[..i + 1][..i] == FallbackAmenities[..i];
      if ContainsWord(text, amen) {
        amenities := amenities + [Capitalize(amen)];
      }
      i := i + 1;
    }
    assert FallbackAmenities[..i] == FallbackAmenities;
    if amenities != [] {
      var sorted := SortedSet(amenities);
      fallback := fallback["amenities" := Str(Join(sorted, ", "))];
    }
  }

  /** Each key of the fallback is present exactly when its pattern matched, and no other key is. */
  lemma FallbackKeys(h: PatternHits, amenities: seq<string>)
    ensures FallbackRecord(h, amenities).Keys <= {"title", "location", "price", "area", "amenities"}
    ensures "title" in FallbackRecord(h, amenities) <==> h.bhk.Some?
    ensures "location" in FallbackRecord(h, amenities) <==> h.place.Some?
    ensures "price" in FallbackRecord(h, amenities) <==> h.price.Some?
    ensures "area" in FallbackRecord(h, amenities) <==> h.area.Some?
    ensures "amenities" in FallbackRecord(h, amenities) <==> amenities != []
  {
  }

  /** A BHK match: digits, optional whitespace, then "bhk" in any case. */
  predicate BhkShaped(m: string) {
    |m| >= 4 && IsDigit(m[0]) && Lower(m[|m| - 3..]) == "bhk"
  }

  /** What the searches guarantee about their matches. */
  predicate Plausible(h: PatternHits) {
    && (h.bhk.Some? ==> BhkShaped(h.bhk.value))
    && (h.price.Some? ==> h.price.value != [] && IsDigit(h.price.value[0]))
    && (h.area.Some? ==> h.area.value != [] && IsDigit(h.area.value[0]))
  }

  predicate NoBlank(xs: seq<string>) {
    forall k :: 0 <= k < |xs| ==> xs[k] != ""
  }

  lemma PatternHitsPlausible(text: string)
    ensures Plausible(PatternHitsOf(text))
  {
  }

  /** Each hit is a capitalised keyword, so none is empty. */
  lemma AmenityHitsNoBlank(text: string)
    ensures NoBlank(AmenityHits(text, FallbackAmenities))
  {
    var hits := AmenityHits(text, FallbackAmenities);
    AmenityHitsSet(text, FallbackAmenities);
    forall k | 0 <= k < |hits|
      ensures hits[k] != ""
    {
      assert hits[k] in Elems(hits);
      assert hits[k] in Found(text, FallbackAmenities);
      var w :| w in FallbackAmenities && ContainsWord(text, w) && hits[k] == Capitalize(w);
    }
  }

  /** Some keyword occurs exactly when the hit list is not empty. */
  lemma {:induction false} AmenityHitsNonEmpty(text: string, words: seq<string>)
    ensures AmenityHits(text, words) != [] <==> exists w :: w in words && ContainsWord(text, w)
  {
    AmenityHitsSet(text, words);
    var hits := AmenityHits(text, words);
    if exists w :: w in words && ContainsWord(text, w) {
      var w :| w in words && ContainsWord(text, w);
      assert Capitalize(w) in Found(text, words);
    }
    if hits != [] {
      assert hits[0] in Elems(hits);
      assert hits[0] in Found(text, words);
    }
  }

  /** The amenity key is there exactly when some keyword occurs as a whole word. */
  lemma FallbackAmenityKey(text: string, h: PatternHits)
    ensures "amenities" in FallbackRecord(h, AmenityHits(text, FallbackAmenities))
        <==> exists w :: w in FallbackAmenities && ContainsWord(text, w)
  {
    AmenityHitsNonEmpty(text, FallbackAmenities);
  }

  /**
   * The amenities are joined in strictly ascending order, so without
   * repetition, and they are exactly the capitalised keywords present;
   * `SortedUnique` shows no other list has both properties.
   */
  lemma FallbackAmenitiesSorted(text: string, h: PatternHits)
    requires "amenities" in FallbackRecord(h, AmenityHits(text, FallbackAmenities))
    ensures exists s :: FallbackRecord(h, AmenityHits(text, FallbackAmenities))["amenities"] == Str(Join(s, ", "))
                        && StrictlySorted(s) && Elems(s) == Found(text, FallbackAmenities)
  {
    var hits := AmenityHits(text, FallbackAmenities);
    AmenityHitsSet(text, FallbackAmenities);
    var s := SortedSet(hits);
    SortedSetSpec(hits);
    assert FallbackRecord(h, hits)["amenities"] == Str(Join(s, ", "));
  }

  /** The fallback title has no spaces, starts with the match's first digit and ends in "BHK". */
  lemma FallbackTitleShape(h: PatternHits, amenities: seq<string>)
    requires Plausible(h) && "title" in FallbackRecord(h, amenities)
    ensures FallbackRecord(h, amenities)["title"].Str?
    ensures var t := FallbackRecord(h, amenities)["title"].s;
      |t| >= 4 && IsDigit(t[0]) && t[|t| - 3..] == "BHK" && forall k :: 0 <= k < |t| ==> t[k] != ' '
  {
    assert FallbackRecord(h, amenities)["title"] == MatchRecord(h)["title"] == Str(Title(h.bhk.value));
    TitleShape(h.bhk.value);
  }

  lemma TitleShape(m: string)
    requires BhkShaped(m)
    ensures var t := Title(m);
      |t| >= 4 && IsDigit(t[0]) && t[|t| - 3..] == "BHK" && forall k :: 0 <= k < |t| ==> t[k] != ' '
  {
    var u := Upper(m);
    var head := [u[0]];
    var mid := u[1..|u| - 3];
    var tail := u[|u| - 3..];
    assert u == head + mid + tail;
    forall k | 0 <= k < 3
      ensures tail[k] == "BHK"[k]
    {
      assert LowerChar(m[|m| - 3 + k]) == "bhk"[k];
    }
    assert tail == "BHK";
    RemoveAllCharAppend(head + mid, tail, ' ');
    RemoveAllCharAppend(head, mid, ' ');
    RemoveAllNoHead(head, " ");
    RemoveAllNoHead(tail, " ");
    RemoveAllChar(u, ' ');
    assert Title(m) == head + RemoveAll(mid, " ") + "BHK";
  }

  /** Title, price and area are never empty strings. */
  lemma MatchRecordNoBlank(h: PatternHits)
    requires Plausible(h)
    ensures forall k :: k in MatchRecord(h) && k != "location" ==> MatchRecord(h)[k].Str? && MatchRecord(h)[k].s != ""
  {
    if h.bhk.Some? { TitleShape(h.bhk.value); }
    if h.price.Some? { StripKeeps(h.price.value, 0); }
    if h.area.Some? { StripKeeps(h.area.value, 0); }
  }

  /** Only the location can be an empty string; title, price, area and amenities never are. */
  lemma FallbackNoEmptyFields(h: PatternHits, amenities: seq<string>)
    requires Plausible(h) && NoBlank(amenities)
    ensures forall k :: k in FallbackRecord(h, amenities) && k != "location" ==>
      FallbackRecord(h, amenities)[k].Str? && FallbackRecord(h, amenities)[k].s != ""
  {
    MatchRecordNoBlank(h);
    if amenities != [] {
      var sorted := SortedSet(amenities);
      SortedSetSpec(amenities);
      assert amenities[0] in Elems(sorted);
      var k :| 0 <= k < |sorted| && sorted[k] == amenities[0];
      JoinNonEmpty(sorted, ", ");
    }
  }

  /**
   * The location is the exception, it can be empty: in "in  ,!" the lazy
   * group cannot end at the comma after the second space, so `\s+` gives one
   * space back and the group is that space, which strips to "".
   */
  lemma FallbackEmptyLocation()
    ensures SearchFallbackPlace("in  ,!") == Some(" ")
    ensures Strip(" ") == ""
  {
    var s := "in  ,!";
    assert InSpaceAt(s, 0, true) by {
      assert Lower(s[0..2]) == "in";
    }
    assert SpaceEnd(s, 2) == 4 by {
      assert SpaceEnd(s, 4) == 4;
      assert SpaceEnd(s, 3) == 4;
    }
    assert RunEnd(s, 4, PlaceChar) == 5;
    assert !PlaceEndAt(s, 5) by {
      assert !HasAt(s, 5, ",") by { assert s[5..6] == "!"; }
      assert Lower(s[5..6]) == "!";
    }
    assert FirstPlaceEnd(s, 5, 5) == None;
    assert PlaceEndAt(s, 4) by { assert s[4..5] == ","; }
    assert LastPlaceEnd(s, 4, 4) == Some(4);
    assert FallbackPlaceGroupAt(s, 0) == Some((3, 4));
    assert FirstMatch(FallbackPlace, s) == Some(0);
    assert s[3..4] == " ";
  }

  // ---------------------------------------------------------------------
  // `sorted(set(...))` over strings.

  /** Python's string order: code point by code point, a proper prefix first. */
  predicate Below(a: string, b: string) {
    if a == [] then b != []
    else if b == [] then false
    else if a[0] != b[0] then a[0] < b[0]
    else Below(a[1..], b[1..])
  }

  lemma {:induction false} BelowIrreflexive(a: string)
    ensures !Below(a, a)
  {
    if a != [] {
      BelowIrreflexive(a[1..]);
    }
  }

  lemma {:induction false} BelowAsymmetric(a: string, b: string)
    ensures !(Below(a, b) && Below(b, a))
  {
    if a != [] && b != [] && a[0] == b[0] {
      BelowAsymmetric(a[1..], b[1..]);
    }
  }

  lemma {:induction false} BelowTotal(a: string, b: string)
    requires a != b
    ensures Below(a, b) || Below(b, a)
  {
    if a != [] && b != [] && a[0] == b[0] {
      assert a == [a[0]] + a[1..] && b == [b[0]] + b[1..];
      BelowTotal(a[1..], b[1..]);
    }
  }

  lemma {:induction false} BelowTransitive(a: string, b: string, c: string)
    requires Below(a, b) && Below(b, c)
    ensures Below(a, c)
  {
    if a != [] && b != [] && c != [] && a[0] == b[0] && b[0] == c[0] {
      BelowTransitive(a[1..], b[1..], c[1..]);
    }
  }

  predicate StrictlySorted(s: seq<string>) {
    forall i, j :: 0 <= i < j < |s| ==> Below(s[i], s[j])
  }

  /** `x` put into its place in a list: before the first element it is below, unless it is there already. */
  function Insert(x: string, s: seq<string>): seq<string> {
    if s == [] then [x]
    else if x == s[0] then s
    else if Below(x, s[0]) then [x] + s
    else [s[0]] + Insert(x, s[1..])
  }

  /** A strictly sorted list stays so when an element below all of it is put in front. */
  lemma ConsSorted(x: string, t: seq<string>)
    requires StrictlySorted(t)
    requires forall k :: 0 <= k < |t| ==> Below(x, t[k])
    ensures StrictlySorted([x] + t)
  {
    var r := [x] + t;
    forall i, j | 0 <= i < j < |r|
      ensures Below(r[i], r[j])
    {
      assert r[j] == t[j - 1];
      if i > 0 { assert r[i] == t[i - 1]; }
    }
  }

  /** Insertion keeps a list strictly sorted and adds exactly `x` to its elements. */
  lemma {:induction false} InsertSorted(x: string, s: seq<string>)
    requires StrictlySorted(s)
    ensures StrictlySorted(Insert(x, s))
    ensures Elems(Insert(x, s)) == Elems(s) + {x}
  {
    if s == [] {
    } else if x == s[0] {
    } else if Below(x, s[0]) {
      forall k | 0 <= k < |s|
        ensures Below(x, s[k])
      {
        if k > 0 { BelowTransitive(x, s[0], s[k]); }
      }
      ConsSorted(x, s);
    } else {
      BelowTotal(x, s[0]);
      var t := Insert(x, s[1..]);
      InsertSorted(x, s[1..]);
      assert Elems(s) == {s[0]} + Elems(s[1..]) by {
        assert s == [s[0]] + s[1..];
      }
      forall k | 0 <= k < |t|
        ensures Below(s[0], t[k])
      {
        assert t[k] in Elems(t);
        if t[k] != x {
          var m :| 0 <= m < |s[1..]| && s[1..][m] == t[k];
          assert s[m + 1] == t[k];
        }
      }
      ConsSorted(s[0], t);
    }
  }

  /** `sorted(set(xs))` */
  function SortedSet(xs: seq<string>): seq<string> {
    if xs == [] then [] else Insert(xs[0], SortedSet(xs[1..]))
  }

  /** `SortedSet` is strictly sorted and has the elements of its argument. */
  lemma {:induction false} SortedSetSpec(xs: seq<string>)
    ensures StrictlySorted(SortedSet(xs))
    ensures Elems(SortedSet(xs)) == Elems(xs)
  {
    if xs != [] {
      SortedSetSpec(xs[1..]);
      InsertSorted(xs[0], SortedSet(xs[1..]));
      assert xs == [xs[0]] + xs[1..];
      assert Elems(xs) == {xs[0]} + Elems(xs[1..]);
    }
  }

  /** A strictly sorted list is determined by its elements: `sorted(set(..))` has one answer. */
  lemma {:induction false} SortedUnique(a: seq<string>, b: seq<string>)
    requires StrictlySorted(a) && StrictlySorted(b)
    requires Elems(a) == Elems(b)
    ensures a == b
  {
    assert a != [] ==> a[0] in Elems(b);
    assert b != [] ==> b[0] in Elems(a);
    if a != [] && b != [] {
      assert a[0] in b && b[0] in a;
      if a[0] != b[0] {
        assert Below(a[0], b[0]) && Below(b[0], a[0]);
        BelowAsymmetric(a[0], b[0]);
      }
      BelowIrreflexive(a[0]);
      assert a[0] !in a[1..] && b[0] !in b[1..];
      assert forall x :: x in a[1..] <==> x in a && x != a[0];
      assert forall x :: x in b[1..] <==> x in b && x != b[0];
      assert Elems(a[1..]) == Elems(b[1..]);
      SortedUnique(a[1..], b[1..]);
      assert a == [a[0]] + a[1..] && b == [b[0]] + b[1..];
    }
  }

  // ---------------------------------------------------------------------
  // The whole extraction.

  /** What `extract_property_details` returns: the normalised JSON, or the fallback when parsing fails. */
  function Details(text: string, reply: Option<ApiReply>, loads: string -> Option<map<string, JsonValue>>): Record {
    match loads(BraceWindow(Post(reply)))
    case Some(parsed) => NormalizedOf(parsed)
    case None => FallbackOf(text)
  }

  method ExtractPropertyDetails(text: string, reply: Option<ApiReply>, loads: string -> Option<map<string, JsonValue>>)
    returns (details: Record)
    ensures details == Details(text, reply, loads)
  {
    var raw := Post(reply);
    var jsonText := BraceWindow(raw);
    var parsed := loads(jsonText);
    if parsed.Some? {
      details := Normalize(parsed.value);
    } else {
      details := Fallback(text);
    }
  }

  /** A failed request gives "", which no JSON parser accepts, so extraction falls back to the patterns. */
  lemma FailedRequestFallsBack(text: string, loads: string -> Option<map<string, JsonValue>>)
    requires loads("") == None
    ensures Details(text, None, loads) == FallbackOf(text)
  {
  }

  /** Parsed output keeps exactly the keys the model returned. */
  lemma ParsedKeysKept(text: string, reply: Option<ApiReply>, loads: string -> Option<map<string, JsonValue>>)
    requires loads(BraceWindow(Post(reply))).Some?
    ensures Details(text, reply, loads).Keys == loads(BraceWindow(Post(reply))).value.Keys
  {
  }

  // ---------------------------------------------------------------------
  // Summaries.

  /** A search result as the summary sees it: each field's `str()` form. */
  type Listing = map<string, string>

  const NoMatches: string := "No matching properties found."
  const SummaryHeader: string := "Here are the top properties I found:"

  /** `p.get(key, default)` */
  function Lookup(p: Listing, key: string, default: string): string {
    if key in p then p[key] else default
  }

  /** One line of the fallback summary. */
  function SummaryLine(p: Listing): string {
    "\U{1F3E0} " + Lookup(p, "title", "Property") + " (" + Lookup(p, "bhk", "?") + " BHK, "
    + Lookup(p, "type", "N/A") + ") in " + Lookup(p, "location", "Unknown") + " at " + Lookup(p, "price", "N/A")
  }

  /** The fallback summary: the header, then one line per listing. */
  function FallbackSummary(props: seq<Listing>): string {
    SummaryHeader + "\n" + Join(seq(|props|, i requires 0 <= i < |props| => SummaryLine(props[i])), "\n")
  }

  /** A model summary is used when it is non-empty and does not start with "Sorry". */
  predicate UsableSummary(reply: Option<string>) {
    reply.Some? && reply.value != "" && !StartsWith(reply.value, "Sorry")
  }

  /** `summarize`; `reply` is the model's summary, `None` when the call raised. */
  function Summarize(props: seq<Listing>, reply: Option<string>): (r: string)
    ensures props == [] ==> r == NoMatches
    ensures props != [] && UsableSummary(reply) ==> r == reply.value && !StartsWith(r, "Sorry")
    ensures props != [] && !UsableSummary(reply) ==> r == FallbackSummary(props) && StartsWith(r, SummaryHeader + "\n")
    ensures props != [] && !UsableSummary(reply) && (forall i :: 0 <= i < |props| ==> OneLine(props[i]))
            ==> Count(r, '\n') == |props|
  {
    if props == [] then NoMatches
    else if UsableSummary(reply) then reply.value
    else
      var r := FallbackSummary(props);
      assert r[..|SummaryHeader + "\n"|] == SummaryHeader + "\n";
      if forall i :: 0 <= i < |props| ==> OneLine(props[i]) then
        FallbackSummaryLines(props);
        r
      else r
  }

  /** The listing's fields are free of line breaks. */
  predicate OneLine(p: Listing) {
    forall k :: k in p ==> '\n' !in p[k]
  }

  lemma SummaryLineSingle(p: Listing)
    requires OneLine(p)
    ensures '\n' !in SummaryLine(p)
  {
    var t, b, ty, l, pr := Lookup(p, "title", "Property"), Lookup(p, "bhk", "?"), Lookup(p, "type", "N/A"),
                          Lookup(p, "location", "Unknown"), Lookup(p, "price", "N/A");
    assert '\n' !in t && '\n' !in b && '\n' !in ty && '\n' !in l && '\n' !in pr;
    assert SummaryLine(p) == "\U{1F3E0} " + t + " (" + b + " BHK, " + ty + ") in " + l + " at " + pr;
  }

  /** Joining `n` one-line strings with "\n" puts `n - 1` line breaks in. */
  lemma {:induction false} JoinLines(xs: seq<string>)
    requires xs != []
    requires forall k :: 0 <= k < |xs| ==> '\n' !in xs[k]
    ensures Count(Join(xs, "\n"), '\n') == |xs| - 1
  {
    CountAbsent(xs[0], '\n');
    if |xs| > 1 {
      JoinLines(xs[1..]);
      assert Join(xs, "\n") == xs[0] + "\n" + Join(xs[1..], "\n");
      CountAppend(xs[0], "\n", '\n');
      CountAppend(xs[0] + "\n", Join(xs[1..], "\n"), '\n');
    }
  }

  /** The header holds no line break. */
  lemma HeaderSingle()
    ensures Count(SummaryHeader, '\n') == 0
  {
    assert '\n' !in SummaryHeader;
    CountAbsent(SummaryHeader, '\n');
  }

  /** A one-line head followed by a line break and `rest`. */
  lemma HeadLine(head: string, rest: string)
    requires Count(head, '\n') == 0
    ensures Count(head + "\n" + rest, '\n') == 1 + Count(rest, '\n')
  {
    CountAppend(head, "\n", '\n');
    CountAppend(head + "\n", rest, '\n');
  }

  /** The fallback summary has one line per listing after the header line. */
  lemma FallbackSummaryLines(props: seq<Listing>)
    requires props != []
    requires forall i :: 0 <= i < |props| ==> OneLine(props[i])
    ensures Count(FallbackSummary(props), '\n') == |props|
  {
    var lines := seq(|props|, i requires 0 <= i < |props| => SummaryLine(props[i]));
    forall k | 0 <= k < |lines|
      ensures '\n' !in lines[k]
    {
      SummaryLineSingle(props[k]);
    }
    JoinLines(lines);
    var j := Join(lines, "\n");
    assert FallbackSummary(props) == SummaryHeader + "\n" + j;
    HeaderSingle();
    HeadLine(SummaryHeader, j);
  }
}
