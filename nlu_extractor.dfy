/**
 * The hybrid field extractor (app/nlu_extractor.py): three layers fill one
 * record, and a later layer only fills what is still unset.  The entity
 * recogniser's output and the language-model client's answer are inputs.
 */
module NluExtractor {
  import opened Outcomes
  import opened Text
  import opened Patterns
  import opened Memory

  /** A recognised entity: its label (`GPE`, `MONEY`, ...) and its text. */
  datatype Entity = Entity(kind: string, text: string)

  const PlaceLabels: set<string> := {"GPE", "LOC"}
  const MoneyLabels: set<string> := {"MONEY"}
  const QuantityLabels: set<string> := {"QUANTITY"}

  /** The text of the first entity whose label is in `labels`. */
  function FirstOf(ents: seq<Entity>, labels: set<string>): Option<string> {
    if ents == [] then None
    else if ents[0].kind in labels then Some(ents[0].text)
    else FirstOf(ents[1..], labels)
  }

  /** `FirstOf` finds an entity of the kind exactly when there is one, and no earlier one has the kind. */
  lemma {:induction false} FirstOfIsFirst(ents: seq<Entity>, labels: set<string>)
    ensures FirstOf(ents, labels).None? <==> forall i :: 0 <= i < |ents| ==> ents[i].kind !in labels
    ensures FirstOf(ents, labels).Some? ==>
      exists i :: 0 <= i < |ents| && ents[i].kind in labels && ents[i].text == FirstOf(ents, labels).value
                  && forall j :: 0 <= j < i ==> ents[j].kind !in labels
  {
    if ents != [] && ents[0].kind !in labels {
      FirstOfIsFirst(ents[1..], labels);
      assert forall i :: 1 <= i < |ents| ==> ents[i] == ents[1..][i - 1];
      if FirstOf(ents, labels).Some? {
        var i :| 0 <= i < |ents[1..]| && ents[1..][i].kind in labels && ents[1..][i].text == FirstOf(ents, labels).value
                 && forall j :: 0 <= j < i ==> ents[1..][j].kind !in labels;
        assert ents[i + 1] == ents[1..][i];
      }
    }
  }

  /** Looking one entity further changes the first match only when there was none. */
  lemma {:induction false} FirstOfSnoc(ents: seq<Entity>, e: Entity, labels: set<string>)
    ensures FirstOf(ents + [e], labels)
         == if FirstOf(ents, labels).Some? then FirstOf(ents, labels)
            else if e.kind in labels then Some(e.text) else None
  {
    if ents != [] {
      assert (ents + [e])[1..] == ents[1..] + [e];
      FirstOfSnoc(ents[1..], e, labels);
    } else {
      assert (ents + [e])[1..] == [];
    }
  }

  /** `key := Str(v)` when `v` is present. */
  function PutFirst(r: Record, key: string, v: Option<string>): Record {
    if v.Some? then r[key := Str(v.value)] else r
  }

  /** Python's `dict.setdefault`: `key` gets `v` only when it has no value yet. */
  function SetDefault(r: Record, key: string, v: Value): Record {
    if key in r then r else r[key := v]
  }

  /** Layer 1: location, price and area from the first entity of the matching kind. */
  function EntityLayer(ents: seq<Entity>): Record {
    var r0: Record := map[];
    var r1 := PutFirst(r0, "location", FirstOf(ents, PlaceLabels));
    var r2 := PutFirst(r1, "price", FirstOf(ents, MoneyLabels));
    PutFirst(r2, "area", FirstOf(ents, QuantityLabels))
  }

  /** Each field of layer 1 is present exactly when an entity of its kind is, with the first one's text. */
  lemma EntityLayerFields(ents: seq<Entity>)
    ensures EntityLayer(ents).Keys <= {"location", "price", "area"}
    ensures "location" in EntityLayer(ents) <==> FirstOf(ents, PlaceLabels).Some?
    ensures "location" in EntityLayer(ents) ==> EntityLayer(ents)["location"] == Str(FirstOf(ents, PlaceLabels).value)
    ensures "price" in EntityLayer(ents) <==> FirstOf(ents, MoneyLabels).Some?
    ensures "price" in EntityLayer(ents) ==> EntityLayer(ents)["price"] == Str(FirstOf(ents, MoneyLabels).value)
    ensures "area" in EntityLayer(ents) <==> FirstOf(ents, QuantityLabels).Some?
    ensures "area" in EntityLayer(ents) ==> EntityLayer(ents)["area"] == Str(FirstOf(ents, QuantityLabels).value)
  {
  }

  /** One more entity does what one turn of the recogniser loop does. */
  lemma EntityLayerSnoc(ents: seq<Entity>, e: Entity)
    ensures EntityLayer(ents + [e])
         == if e.kind in PlaceLabels then SetDefault(EntityLayer(ents), "location", Str(e.text))
            else if e.kind in MoneyLabels then SetDefault(EntityLayer(ents), "price", Str(e.text))
            else if e.kind in QuantityLabels then SetDefault(EntityLayer(ents), "area", Str(e.text))
            else EntityLayer(ents)
  {
    FirstOfSnoc(ents, e, PlaceLabels);
    FirstOfSnoc(ents, e, MoneyLabels);
    FirstOfSnoc(ents, e, QuantityLabels);
    EntityLayerFields(ents);
    EntityLayerFields(ents + [e]);
  }

  /** The keyword hits without repetitions, each kept at its first occurrence. */
  function Dedup(xs: seq<string>): (r: seq<string>)
    ensures forall i, j :: 0 <= i < j < |r| ==> r[i] != r[j]
    ensures forall x :: x in r <==> x in xs
  {
    if xs == [] then []
    else
      var d := Dedup(xs[..|xs| - 1]);
      assert forall x :: x in xs <==> x in xs[..|xs| - 1] || x == xs[|xs| - 1];
      if xs[|xs| - 1] in d then d else d + [xs[|xs| - 1]]
  }

  /** What the four pattern rules of layer 2 find in the utterance. */
  datatype RuleHits = RuleHits(price: Option<string>, area: Option<string>, bhk: Option<string>, amenities: seq<string>)

  function RuleHitsOf(text: string): RuleHits {
    RuleHits(SearchExtractorPrice(text), SearchExtractorArea(text), SearchBhk(text), FindAllWords(text, 0, ExtractorAmenities))
  }

  /** Layer 2 on top of `base`: price and area only fill a gap; title and amenities are set whenever found. */
  function RuleLayer(h: RuleHits, base: Record): Record {
    var r1 := if h.price.Some? && "price" !in base then base["price" := Str(h.price.value)] else base;
    var r2 := if h.area.Some? && "area" !in r1 then r1["area" := Str(h.area.value)] else r1;
    var r3 := if h.bhk.Some? then r2["title" := Str(Upper(h.bhk.value))] else r2;
    if h.amenities != [] then r3["amenities" := Items(Dedup(h.amenities))] else r3
  }

  /** The rules' price and area fill only a gap left by layer 1; title and amenities are set whenever found. */
  lemma RuleLayerFields(h: RuleHits, base: Record)
    ensures var r := RuleLayer(h, base);
      && ("price" in r <==> "price" in base || h.price.Some?)
      && ("price" in base ==> r["price"] == base["price"])
      && ("price" !in base && h.price.Some? ==> r["price"] == Str(h.price.value))
      && ("area" in r <==> "area" in base || h.area.Some?)
      && ("area" in base ==> r["area"] == base["area"])
      && ("area" !in base && h.area.Some? ==> r["area"] == Str(h.area.value))
      && ("title" in r <==> "title" in base || h.bhk.Some?)
      && (h.bhk.Some? ==> r["title"] == Str(Upper(h.bhk.value)))
      && ("amenities" in r <==> "amenities" in base || h.amenities != [])
      && (h.amenities != [] ==> r["amenities"] == Items(Dedup(h.amenities)))
      && (forall k :: k in r && k !in {"price", "area", "title", "amenities"} ==> k in base)
      && (forall k :: k in base && k !in {"title", "amenities"} ==> k in r && r[k] == base[k])
  {
  }

  /** The amenities of layer 2 are a repetition-free list of lower-case keywords, never empty. */
  lemma RuleAmenities(text: string, base: Record)
    requires "amenities" !in base
    ensures var r := RuleLayer(RuleHitsOf(text), base);
      "amenities" in r ==> r["amenities"].Items? && var xs := r["amenities"].xs;
        xs != [] && (forall i, j :: 0 <= i < j < |xs| ==> xs[i] != xs[j]) && forall x :: x in xs ==> x in ExtractorAmenities
  {
    RuleLayerFields(RuleHitsOf(text), base);
  }

  /** The keys of `llm` that layer 3 adds to `base`: truthy and not yet set. */
  function Additions(base: Record, llm: Record, keys: set<string>): (r: Record)
    requires keys <= llm.Keys
    ensures forall k :: k in r <==> k in keys && Truthy(llm[k]) && k !in base
    ensures forall k :: k in r ==> r[k] == llm[k]
  {
    map k | k in keys && Truthy(llm[k]) && k !in base :: llm[k]
  }

  /** Layer 3: the model's fields, when the call returned, added under layers 1-2. */
  function ModelLayer(base: Record, llm: Option<Record>): Record {
    match llm
    case None => base
    case Some(fields) => base + Additions(base, fields, fields.Keys)
  }

  /**
   * Layer 3 keeps every field it is given, adds only truthy fields of the
   * model's answer that were unset, adds all of those, and changes nothing
   * when the call failed.
   */
  lemma ModelLayerPrecedence(base: Record, llm: Option<Record>)
    ensures llm.None? ==> ModelLayer(base, llm) == base
    ensures forall k :: k in base ==> k in ModelLayer(base, llm) && ModelLayer(base, llm)[k] == base[k]
    ensures forall k :: k in ModelLayer(base, llm) && k !in base ==>
      llm.Some? && k in llm.value && Truthy(llm.value[k]) && ModelLayer(base, llm)[k] == llm.value[k]
    ensures llm.Some? ==> forall k :: k in llm.value && Truthy(llm.value[k]) ==> k in ModelLayer(base, llm)
  {
  }

  /** The three layers in their order of precedence, given what the pattern rules found. */
  function Layered(hits: RuleHits, ents: seq<Entity>, llm: Option<Record>): Record {
    ModelLayer(RuleLayer(hits, EntityLayer(ents)), llm)
  }

  /** `HybridExtractor.extract`: fills one record layer by layer; a failed model call is skipped. */
  method Extract(text: string, ents: seq<Entity>, llm: Option<Record>) returns (extracted: Record)
    ensures extracted == Layered(RuleHitsOf(text), ents, llm)
  {
    extracted := EntityPass(ents);
    var hits := RuleHitsOf(text);
    extracted := RulePass(hits, extracted);
    if llm.Some? {
      extracted := ModelPass(extracted, llm.value);
    }
  }

  /** Named-entity section: `setdefault` per recognised entity, in order. */
  method EntityPass(ents: seq<Entity>) returns (extracted: Record)
    ensures extracted == EntityLayer(ents)
  {
    extracted := map[];
    var i := 0;
    while i < |ents|
      invariant 0 <= i <= |ents|
      invariant extracted == EntityLayer(ents[..i])
    {
      var ent := ents[i];
      assert ents[..i + 1] == ents[..i] + [ent];
      EntityLayerSnoc(ents[..i], ent);
      if ent.kind in PlaceLabels {
        extracted := SetDefault(extracted, "location", Str(ent.text));
      } else if ent.kind in MoneyLabels {
        extracted := SetDefault(extracted, "price", Str(ent.text));
      } else if ent.kind in QuantityLabels {
        extracted := SetDefault(extracted, "area", Str(ent.text));
      }
      i := i + 1;
    }
    assert ents[..i] == ents;
  }

  /** Pattern-rule section: conditional assignments on top of the entity fields, given what the patterns found. */
  method RulePass(hits: RuleHits, base: Record) returns (extracted: Record)
    ensures extracted == RuleLayer(hits, base)
  {
    extracted := base;
    var priceMatch := hits.price;
    if priceMatch.Some? && "price" !in extracted {
      extracted := extracted["price" := Str(priceMatch.value)];
    }
    var areaMatch := hits.area;
    if areaMatch.Some? && "area" !in extracted {
      extracted := extracted["area" := Str(areaMatch.value)];
    }
    var bhkMatch := hits.bhk;
    if bhkMatch.Some? {
      extracted := extracted["title" := Str(Upper(bhkMatch.value))];
    }
    var amenitiesMatch := hits.amenities;
    if amenitiesMatch != [] {
      extracted := extracted["amenities" := Items(Dedup(amenitiesMatch))];
    }
  }

  /** Model section: each truthy field of the answer that is still unset is added. */
  method ModelPass(base: Record, fields: Record) returns (extracted: Record)
    ensures extracted == ModelLayer(base, Some(fields))
  {
    extracted := base;
    var todo := fields.Keys;
    while todo != {}
      invariant todo <= fields.Keys
      invariant forall k :: k in extracted <==> k in base || (k in fields && k !in todo && Truthy(fields[k]))
      invariant forall k :: k in extracted ==> extracted[k] == if k in base then base[k] else fields[k]
      decreases |todo|
    {
      var k :| k in todo;
      var v := fields[k];
      if Truthy(v) && k !in extracted {
        extracted := extracted[k := v];
      }
      todo := todo - {k};
    }
    ModelLayerPointwise(base, fields, extracted);
  }

  /** A record with the keys and values layer 3 gives is layer 3's result. */
  lemma ModelLayerPointwise(base: Record, fields: Record, r: Record)
    requires forall k :: k in r <==> k in base || (k in fields && Truthy(fields[k]))
    requires forall k :: k in r ==> r[k] == if k in base then base[k] else fields[k]
    ensures r == ModelLayer(base, Some(fields))
  {
    var m := ModelLayer(base, Some(fields));
    assert forall k :: k in m <==> k in r;
    assert r.Keys == m.Keys;
  }

  /** Layer 3 never changes a field that layers 1-2 set. */
  lemma ModelCannotOverride(hits: RuleHits, ents: seq<Entity>, llm: Option<Record>, k: string)
    requires k in RuleLayer(hits, EntityLayer(ents))
    ensures k in Layered(hits, ents, llm)
    ensures Layered(hits, ents, llm)[k] == RuleLayer(hits, EntityLayer(ents))[k]
  {
    ModelLayerPrecedence(RuleLayer(hits, EntityLayer(ents)), llm);
  }

  /** The entity layer's location and price win over everything later; the rules' price only fills a gap. */
  lemma EntityFirst(hits: RuleHits, ents: seq<Entity>, llm: Option<Record>)
    ensures FirstOf(ents, PlaceLabels).Some? ==>
      Layered(hits, ents, llm)["location"] == Str(FirstOf(ents, PlaceLabels).value)
    ensures FirstOf(ents, MoneyLabels).Some? ==>
      Layered(hits, ents, llm)["price"] == Str(FirstOf(ents, MoneyLabels).value)
    ensures FirstOf(ents, MoneyLabels).None? && hits.price.Some? ==>
      Layered(hits, ents, llm)["price"] == Str(hits.price.value)
    ensures FirstOf(ents, QuantityLabels).None? && hits.area.Some? ==>
      Layered(hits, ents, llm)["area"] == Str(hits.area.value)
  {
    var e := EntityLayer(ents);
    EntityLayerFields(ents);
    RuleLayerFields(hits, e);
    ModelLayerPrecedence(RuleLayer(hits, e), llm);
  }

  /** When the model call fails, the result is the output of the first two layers. */
  lemma ModelFailure(hits: RuleHits, ents: seq<Entity>)
    ensures Layered(hits, ents, None) == RuleLayer(hits, EntityLayer(ents))
  {
  }

  /** Every value of the record is truthy: no field is stored empty. */
  predicate AllTruthy(r: Record) {
    forall k :: k in r ==> Truthy(r[k])
  }

  /** Recognised entities are non-empty spans. */
  predicate SpansNonEmpty(ents: seq<Entity>) {
    forall i :: 0 <= i < |ents| ==> ents[i].text != ""
  }

  /** Layer 1 stores entity texts only, so nothing empty when the spans are not. */
  lemma EntityLayerTruthy(ents: seq<Entity>)
    requires SpansNonEmpty(ents)
    ensures AllTruthy(EntityLayer(ents))
  {
    EntityLayerFields(ents);
    FirstOfIsFirst(ents, PlaceLabels);
    FirstOfIsFirst(ents, MoneyLabels);
    FirstOfIsFirst(ents, QuantityLabels);
  }

  /** Layer 2 stores pattern matches and a keyword list, none of them empty. */
  lemma RuleLayerTruthy(text: string, base: Record)
    requires AllTruthy(base)
    ensures AllTruthy(RuleLayer(RuleHitsOf(text), base))
  {
    RuleHitsTruthy(RuleHitsOf(text), base);
  }

  /** Non-empty matches over a record without empty values leave it without empty values. */
  lemma RuleHitsTruthy(h: RuleHits, base: Record)
    requires AllTruthy(base)
    requires h.price.Some? ==> h.price.value != ""
    requires h.area.Some? ==> h.area.value != ""
    requires h.bhk.Some? ==> h.bhk.value != ""
    ensures AllTruthy(RuleLayer(h, base))
  {
    if h.bhk.Some? {
      assert |Upper(h.bhk.value)| == |h.bhk.value|;
    }
    if h.amenities != [] {
      assert h.amenities[0] in Dedup(h.amenities);
    }
  }

  /**
   * What one utterance contributes has no empty value: the entity and
   * pattern layers store non-empty texts, and the model layer adds only
   * truthy values.
   */
  lemma LayeredTruthy(text: string, ents: seq<Entity>, llm: Option<Record>)
    requires SpansNonEmpty(ents)
    ensures AllTruthy(Layered(RuleHitsOf(text), ents, llm))
  {
    EntityLayerTruthy(ents);
    RuleLayerTruthy(text, EntityLayer(ents));
    ModelLayerPrecedence(RuleLayer(RuleHitsOf(text), EntityLayer(ents)), llm);
  }
}
