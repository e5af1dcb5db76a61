/**
 * The rule-based language-understanding helper for search queries
 * (app/nlu.py): character-class normalisation, keyword intent
 * classification in a fixed order, and two pattern entities.
 */
module Nlu {
  import opened Outcomes
  import opened Text
  import opened Patterns

  // ---------------------------------------------------------------------
  // Normalisation.

  /** The class `[a-z0-9\s]` that normalisation keeps. */
  predicate Allowed(c: char) {
    IsLowerLetter(c) || IsDigit(c) || IsSpace(c)
  }

  /** `re.sub(r"[^a-z0-9\s]", "", s)`: every character outside the class removed. */
  function Scrub(s: string): (r: string)
    ensures |r| <= |s|
  {
    if s == [] then []
    else
      var init := Scrub(s[..|s| - 1]);
      if Allowed(s[|s| - 1]) then init + [s[|s| - 1]] else init
  }

  /** `normalize`: lower-case, strip, then drop what is not a letter, digit or whitespace. */
  function Normalize(text: string): string {
    Scrub(Strip(Lower(text)))
  }

  /** Scrubbing leaves only characters of the class. */
  lemma {:induction false} ScrubAlphabet(s: string)
    ensures forall k :: 0 <= k < |Scrub(s)| ==> Allowed(Scrub(s)[k])
  {
    if s != [] {
      ScrubAlphabet(s[..|s| - 1]);
    }
  }

  /** Scrubbing keeps a string made only of the class as it is. */
  lemma {:induction false} ScrubKeeps(s: string)
    requires forall k :: 0 <= k < |s| ==> Allowed(s[k])
    ensures Scrub(s) == s
  {
    if s != [] {
      ScrubKeeps(s[..|s| - 1]);
      assert s[..|s| - 1] + [s[|s| - 1]] == s;
    }
  }

  /** The normalised text uses only `[a-z0-9\s]` and is no longer than the input. */
  lemma NormalizeAlphabet(text: string)
    ensures forall k :: 0 <= k < |Normalize(text)| ==> Allowed(Normalize(text)[k])
    ensures |Normalize(text)| <= |text|
  {
    ScrubAlphabet(Strip(Lower(text)));
  }

  /**
   * Stripping comes before the removal, so the result need not be trimmed and
   * normalising again can change it: "a !" becomes "a ", which becomes "a".
   */
  lemma NormalizeNotIdempotent()
    ensures Normalize("a !") == "a "
    ensures Normalize(Normalize("a !")) == "a"
  {
    assert Lower("a !") == "a !";
    StripNoSpace("a !");
    assert Scrub("a !"[..2]) == "a ";
    assert Lower("a ") == "a ";
    assert SpaceRunEnd("a ", 0) == 0;
    assert SpaceRunStart("a ", 1) == 1;
    assert SpaceRunStart("a ", 2) == 1;
    assert Strip("a ") == "a";
    assert Scrub("a") == "a";
  }

  // ---------------------------------------------------------------------
  // Intent classification.

  datatype IntentRule = IntentRule(name: string, keywords: seq<string>)

  /** The intents in the order they are tried, each with its keywords. */
  const Intents: seq<IntentRule> := [
    IntentRule("search_property", ["find", "show", "search", "available", "property", "flat", "plot", "villa", "apartment"]),
    IntentRule("schedule_visit", ["visit", "book", "schedule", "see", "site", "appointment"]),
    IntentRule("contact_agent", ["contact", "call", "whatsapp", "email", "connect"]),
    IntentRule("price_query", ["price", "cost", "budget", "rate", "demand"])
  ]

  const DefaultIntent: string := "search_property"

  /** `any(word in text for word in keywords)` */
  predicate Mentions(text: string, keywords: seq<string>) {
    exists w :: w in keywords && Contains(text, w)
  }

  /** The index of the first intent from `i` on whose keywords the text mentions. */
  function FirstMentioned(text: string, i: nat): Option<nat>
    requires i <= |Intents|
    decreases |Intents| - i
  {
    if i == |Intents| then None
    else if Mentions(text, Intents[i].keywords) then Some(i)
    else FirstMentioned(text, i + 1)
  }

  /** The intent `classify_intent` picks. */
  function IntentOf(text: string): string {
    match FirstMentioned(text, 0)
    case None => DefaultIntent
    case Some(i) => Intents[i].name
  }

  /** `FirstMentioned` finds the first mentioned intent, and none exactly when no intent is mentioned. */
  lemma {:induction false} FirstMentionedSpec(text: string, i: nat)
    requires i <= |Intents|
    ensures FirstMentioned(text, i).None? <==> forall j :: i <= j < |Intents| ==> !Mentions(text, Intents[j].keywords)
    ensures FirstMentioned(text, i).Some? ==>
      var k := FirstMentioned(text, i).value;
      i <= k < |Intents| && Mentions(text, Intents[k].keywords)
      && forall j :: i <= j < k ==> !Mentions(text, Intents[j].keywords)
    decreases |Intents| - i
  {
    if i < |Intents| && !Mentions(text, Intents[i].keywords) {
      FirstMentionedSpec(text, i + 1);
    }
  }

  /** `classify_intent`: the first intent in order with a keyword in the text, else the default. */
  method ClassifyIntent(text: string) returns (intent: string)
    ensures intent == IntentOf(text)
  {
    var i := 0;
    while i < |Intents|
      invariant 0 <= i <= |Intents|
      invariant FirstMentioned(text, i) == FirstMentioned(text, 0)
    {
      var rule := Intents[i];
      if exists w :: w in rule.keywords && Contains(text, w) {
        return rule.name;
      }
      i := i + 1;
    }
    return DefaultIntent;
  }

  /** The intent is one of the four, whatever the text. */
  lemma IntentKnown(text: string)
    ensures IntentOf(text) in {"search_property", "schedule_visit", "contact_agent", "price_query"}
  {
    FirstMentionedSpec(text, 0);
  }

  /** An intent whose keyword occurs, with no earlier intent's keyword occurring, is the one chosen. */
  lemma IntentIsFirstMentioned(text: string, k: nat, w: string)
    requires k < |Intents| && w in Intents[k].keywords && Contains(text, w)
    requires forall j :: 0 <= j < k ==> !Mentions(text, Intents[j].keywords)
    ensures IntentOf(text) == Intents[k].name
  {
    FirstMentionedSpec(text, 0);
    assert Mentions(text, Intents[k].keywords);
  }

  /** Without any keyword the intent is the default, a property search. */
  lemma IntentDefault(text: string)
    requires forall j :: 0 <= j < |Intents| ==> !Mentions(text, Intents[j].keywords)
    ensures IntentOf(text) == DefaultIntent
  {
    FirstMentionedSpec(text, 0);
  }

  /** A search keyword wins over every other intent's keywords. */
  lemma SearchWins(text: string, w: string)
    requires w in Intents[0].keywords && Contains(text, w)
    ensures IntentOf(text) == "search_property"
  {
    IntentIsFirstMentioned(text, 0, w);
  }

  // ---------------------------------------------------------------------
  // Entities.

  /** What `extract_entities` returns: price and location, each present when its pattern matched. */
  function EntitiesOf(text: string): map<string, string> {
    var e: map<string, string> := map[];
    var e1 := if SearchQueryPrice(text).Some? then e["price" := SearchQueryPrice(text).value] else e;
    if SearchQueryPlace(text).Some? then e1["location" := Strip(SearchQueryPlace(text).value)] else e1
  }

  /** `extract_entities`: the two pattern assignments. */
  method ExtractEntities(text: string) returns (entities: map<string, string>)
    ensures entities == EntitiesOf(text)
  {
    entities := map[];
    var priceMatch := SearchQueryPrice(text);
    var locationMatch := SearchQueryPlace(text);
    if priceMatch.Some? {
      entities := entities["price" := priceMatch.value];
    }
    if locationMatch.Some? {
      entities := entities["location" := Strip(locationMatch.value)];
    }
  }

  /**
   * Only price and location can appear, each exactly when its pattern
   * matched; the price starts with a digit and the location is trimmed.
   */
  lemma EntitiesShape(text: string)
    ensures EntitiesOf(text).Keys <= {"price", "location"}
    ensures "price" in EntitiesOf(text) <==> SearchQueryPrice(text).Some?
    ensures "location" in EntitiesOf(text) <==> SearchQueryPlace(text).Some?
    ensures "price" in EntitiesOf(text) ==> EntitiesOf(text)["price"] != [] && IsDigit(EntitiesOf(text)["price"][0])
    ensures "location" in EntitiesOf(text) ==> Trimmed(EntitiesOf(text)["location"])
  {
    if SearchQueryPlace(text).Some? {
      StripTrimmed(SearchQueryPlace(text).value);
    }
  }

  /**
   * The location can be empty: in "in  " the class run after the whitespace
   * is empty, so `\s+` gives back its last space, the group is that space,
   * and stripping leaves "".
   */
  lemma EmptyLocation()
    ensures "location" in EntitiesOf("in  ") && EntitiesOf("in  ")["location"] == ""
  {
    var s := "in  ";
    assert InSpaceAt(s, 0, false) by {
      assert s[0..2] == "in";
      assert SpaceEnd(s, 2) == 4 by {
        assert SpaceEnd(s, 4) == 4;
        assert SpaceEnd(s, 3) == 4;
      }
    }
    assert RunEnd(s, 4, LowerOrSpace) == 4;
    assert QueryPlaceGroupAt(s, 0) == Some((3, 4));
    assert FirstMatch(QueryPlace, s) == Some(0);
    assert s[3..4] == " ";
    assert SearchQueryPlace(s) == Some(" ");
    assert SpaceRunEnd(" ", 1) == 1;
    assert Strip(" ") == "";
  }

  // ---------------------------------------------------------------------
  // The whole pipeline.

  datatype Understanding = Understanding(original: string, normalized: string, intent: string, entities: map<string, string>)

  /** `process`: intent and entities are both read from the normalised text, not the original. */
  method Process(text: string) returns (r: Understanding)
    ensures r.original == text && r.normalized == Normalize(text)
    ensures r.intent == IntentOf(Normalize(text))
    ensures r.entities == EntitiesOf(Normalize(text))
  {
    var normalized := Normalize(text);
    var intent := ClassifyIntent(normalized);
    var entities := ExtractEntities(normalized);
    r := Understanding(text, normalized, intent, entities);
  }
}
