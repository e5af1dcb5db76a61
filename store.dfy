/**
 * The property store's structured search (app/store.py): free-text query
 * parsing into filters, the SQL text built from the filters, the price
 * conversion of a listing's price cell, and the filter chain applied to the
 * listing table.  The table is a sequence of rows; the database, the data
 * frame library and the vector index are not part of this model.
 */
module Store {
  import opened Outcomes
  import opened Text
  import opened Patterns
  import opened Sequences

  // ---------------------------------------------------------------------
  // `_price_to_number`.

  /** A cell of the price column: a string, or anything else (a number, a missing value). */
  datatype Cell = StrCell(s: string) | OtherCell

  const FloatError: string := "could not convert string to float"

  /** The text once the two unit spellings are removed and the ends stripped. */
  function Unitless(text: string, unit: string, alias: string): string
    requires unit != [] && alias != []
  {
    Strip(RemoveAll(RemoveAll(Lower(text), unit), alias))
  }

  /** The price, in lakh, of the lower-cased, space-free text of a cell. */
  function PriceOfText(text: string): Result<real> {
    if Contains(text, "cr") || Contains(text, "crore") then
      match ParseDecimal(Unitless(text, "crore", "cr"))
      case None => Err(FloatError)
      case Some(v) => Ok(v * 100.0)
    else if Contains(text, "lakh") then
      match ParseDecimal(Unitless(text, "lakh", "L"))
      case None => Err(FloatError)
      case Some(v) => Ok(v)
    else
      match ParseDecimal(text)
      case None => Ok(0.0)
      case Some(v) => Ok(v)
  }

  /**
   * The price of a cell in lakh. A cell naming crore or lakh must parse as a
   * number once the unit is removed, otherwise the conversion fails; a cell
   * without a unit that does not parse counts as 0.
   */
  function PriceToNumber(c: Cell): Result<real> {
    match c
    case OtherCell => Ok(0.0)
    case StrCell(s) => PriceOfText(RemoveAll(Lower(s), " "))
  }

  /** The conversion only fails on a string that names a unit. */
  lemma PriceErrorNeedsUnit(c: Cell)
    requires PriceToNumber(c).Err?
    ensures c.StrCell?
    ensures var text := RemoveAll(Lower(c.s), " "); Contains(text, "cr") || Contains(text, "crore") || Contains(text, "lakh")
  {
  }

  /** A cell that is not a string, or a unit-less text that is not a number, counts as 0. */
  lemma PriceDefaults(s: string)
    requires var text := RemoveAll(Lower(s), " ");
      !Contains(text, "cr") && !Contains(text, "crore") && !Contains(text, "lakh") && ParseDecimal(text).None?
    ensures PriceToNumber(OtherCell) == Ok(0.0)
    ensures PriceToNumber(StrCell(s)) == Ok(0.0)
  {
  }

  /** "N/A" names no unit and is no number: it counts as 0 rather than failing. */
  lemma PriceNotANumber()
    ensures PriceToNumber(StrCell("N/A")) == Ok(0.0)
  {
    assert Lower("N/A") == "n/a";
    assert RemoveAll("n/a", " ") == "n/a";
    NoCrore("n/a");
    NoLakh("n/a");
    NotANumber();
    PriceDefaults("N/A");
  }

  /** "n/a" is not a number to `float`. */
  lemma NotANumber()
    ensures ParseDecimal("n/a").None?
  {
    StripNoSpace("n/a");
    assert !IsDigit("n/a"[0]);
  }

  /** A decimal numeral: digits, and when `hasDot` a point and more digits. */
  function Numeral(intPart: string, frac: string, hasDot: bool): string {
    intPart + (if hasDot then "." + frac else "")
  }

  /** A numeral has no letters, no spaces and no unit. */
  lemma NumeralChars(intPart: string, frac: string, hasDot: bool)
    requires AllDigits(intPart) && AllDigits(frac)
    ensures var n := Numeral(intPart, frac, hasDot);
      forall k :: 0 <= k < |n| ==> (IsDigit(n[k]) || n[k] == '.')
  {
    var n := Numeral(intPart, frac, hasDot);
    forall k | 0 <= k < |n|
      ensures IsDigit(n[k]) || n[k] == '.'
    {
      if k < |intPart| {
        assert n[k] == intPart[k];
      } else if k > |intPart| {
        assert n[k] == frac[k - |intPart| - 1];
      }
    }
  }

  /** Lower-casing and removing a unit or a space leave a numeral as it is. */
  lemma NumeralUntouched(n: string, w: string)
    requires forall k :: 0 <= k < |n| ==> (IsDigit(n[k]) || n[k] == '.')
    requires w != [] && !IsDigit(w[0]) && w[0] != '.'
    ensures Lower(n) == n
    ensures forall t :: RemoveAll(n + t, w) == n + RemoveAll(t, w)
  {
    forall t
      ensures RemoveAll(n + t, w) == n + RemoveAll(t, w)
    {
      RemoveAllPrefix(n, t, w);
    }
  }

  /** What the price text becomes once lower-cased and rid of spaces: the numeral and the unit. */
  lemma PriceText(intPart: string, frac: string, hasDot: bool, spaced: bool, unit: string)
    requires AllDigits(intPart) && AllDigits(frac)
    requires unit in ["cr", "crore", "lakh", ""]
    ensures var n := Numeral(intPart, frac, hasDot);
      RemoveAll(Lower(n + (if spaced then " " else "") + unit), " ") == n + unit
  {
    var n := Numeral(intPart, frac, hasDot);
    var sp := if spaced then " " else "";
    NumeralChars(intPart, frac, hasDot);
    NumeralUntouched(n, " ");
    LowerAppend(n, sp + unit);
    assert n + sp + unit == n + (sp + unit);
    assert Lower(sp + unit) == sp + unit;
    assert RemoveAll(unit, " ") == unit by {
      assert forall k :: 0 <= k < |unit| ==> unit[k] != ' ';
      RemoveAllNoHead(unit, " ");
    }
    assert RemoveAll(sp + unit, " ") == unit by {
      if spaced {
        assert HasAt(sp + unit, 0, " ");
        assert (sp + unit)[1..] == unit;
      } else {
        assert sp + unit == unit;
      }
    }
  }

  /** Removing a word from itself leaves nothing. */
  lemma RemoveSelf(w: string)
    requires w != []
    ensures RemoveAll(w, w) == ""
  {
    assert HasAt(w, 0, w);
    assert w[|w|..] == [];
  }

  /** Removing "crore" and then "cr" from a numeral and its unit leaves the numeral. */
  lemma CroreRemoved(n: string, unit: string)
    requires forall k :: 0 <= k < |n| ==> (IsDigit(n[k]) || n[k] == '.')
    requires unit in ["cr", "crore"]
    ensures Lower(n + unit) == n + unit
    ensures Contains(n + unit, "cr")
    ensures RemoveAll(RemoveAll(n + unit, "crore"), "cr") == n
  {
    NumeralUntouched(n, "crore");
    NumeralUntouched(n, "cr");
    LowerAppend(n, unit);
    UnitRemoved(unit);
    assert HasAt(n + unit, |n|, "cr");
    var u := RemoveAll(unit, "crore");
    assert RemoveAll(n + unit, "crore") == n + u;
    assert RemoveAll(n + u, "cr") == n + RemoveAll(u, "cr");
    assert n + "" == n;
  }

  /** Removing "crore" and then "cr" from either spelling of the unit leaves nothing. */
  lemma UnitRemoved(unit: string)
    requires unit in ["cr", "crore"]
    ensures Lower(unit) == unit
    ensures RemoveAll(RemoveAll(unit, "crore"), "cr") == ""
  {
    RemoveSelf("cr");
    RemoveSelf("crore");
    if unit == "cr" {
      assert !HasAt("cr", 0, "crore");
      assert !HasAt("r", 0, "crore");
      assert RemoveAll("cr", "crore") == "cr";
    } else {
      assert RemoveAll("", "cr") == "";
    }
  }

  /** A numeral directly followed by "cr" or "crore" converts to a hundred times its value. */
  lemma CroreText(intPart: string, frac: string, hasDot: bool, unit: string)
    requires AllDigits(intPart) && AllDigits(frac) && |intPart| > 0
    requires !hasDot ==> frac == ""
    requires unit in ["cr", "crore"]
    ensures PriceOfText(Numeral(intPart, frac, hasDot) + unit) == Ok(Decimal(intPart, frac) * 100.0)
  {
    var n := Numeral(intPart, frac, hasDot);
    NumeralChars(intPart, frac, hasDot);
    CroreRemoved(n, unit);
    NumeralEnds(intPart, frac, hasDot);
    StripNoSpace(n);
    assert Unitless(n + unit, "crore", "cr") == n;
    ParseNumeral(intPart, frac, hasDot);
    CroreValue(n + unit, Decimal(intPart, frac));
  }

  /** A text naming crore whose rest parses as `v` is worth `v` hundred lakh. */
  lemma CroreValue(text: string, v: real)
    requires Contains(text, "cr")
    requires ParseDecimal(Unitless(text, "crore", "cr")) == Some(v)
    ensures PriceOfText(text) == Ok(v * 100.0)
  {
  }

  /**
   * A numeral followed by "cr" or "crore", with or without a space, is read
   * as that many crore, i.e. one hundred times as many lakh.
   */
  lemma PriceInCrore(intPart: string, frac: string, hasDot: bool, spaced: bool, unit: string)
    requires AllDigits(intPart) && AllDigits(frac) && |intPart| > 0
    requires !hasDot ==> frac == ""
    requires unit in ["cr", "crore"]
    ensures PriceToNumber(StrCell(Numeral(intPart, frac, hasDot) + (if spaced then " " else "") + unit))
         == Ok(Decimal(intPart, frac) * 100.0)
  {
    PriceText(intPart, frac, hasDot, spaced, unit);
    CroreText(intPart, frac, hasDot, unit);
  }

  /** No "c" means no "cr" and no "crore". */
  lemma NoCrore(text: string)
    requires 'c' !in text
    ensures !Contains(text, "cr") && !Contains(text, "crore")
  {
    forall i: nat | i <= |text|
      ensures !HasAt(text, i, "cr") && !HasAt(text, i, "crore")
    {
      if i + 2 <= |text| {
        assert text[i..i + 2][0] == text[i] && text[i] in text;
      }
      if i + 5 <= |text| {
        assert text[i..i + 5][0] == text[i] && text[i] in text;
      }
    }
  }

  /** No "l" means no "lakh". */
  lemma NoLakh(text: string)
    requires 'l' !in text
    ensures !Contains(text, "lakh")
  {
    forall i: nat | i <= |text|
      ensures !HasAt(text, i, "lakh")
    {
      if i + 4 <= |text| {
        assert text[i..i + 4][0] == text[i] && text[i] in text;
      }
    }
  }

  /** A numeral followed by "lakh" names no crore, and removing "lakh" and "L" leaves the numeral. */
  lemma LakhRemoved(n: string)
    requires forall k :: 0 <= k < |n| ==> (IsDigit(n[k]) || n[k] == '.')
    ensures Lower(n + "lakh") == n + "lakh"
    ensures !Contains(n + "lakh", "cr") && !Contains(n + "lakh", "crore") && Contains(n + "lakh", "lakh")
    ensures RemoveAll(RemoveAll(n + "lakh", "lakh"), "L") == n
  {
    var text := n + "lakh";
    assert 'c' !in n && 'c' !in "lakh";
    NoCrore(text);
    NumeralUntouched(n, "lakh");
    NumeralUntouched(n, "L");
    LowerAppend(n, "lakh");
    assert Lower("lakh") == "lakh";
    assert HasAt(text, |n|, "lakh");
    RemoveSelf("lakh");
    assert RemoveAll(text, "lakh") == n + RemoveAll("lakh", "lakh");
    assert RemoveAll(n + "", "L") == n + RemoveAll("", "L");
    assert n + "" == n;
  }

  /** A numeral directly followed by "lakh" converts to its value. */
  lemma LakhText(intPart: string, frac: string, hasDot: bool)
    requires AllDigits(intPart) && AllDigits(frac) && |intPart| > 0
    requires !hasDot ==> frac == ""
    ensures PriceOfText(Numeral(intPart, frac, hasDot) + "lakh") == Ok(Decimal(intPart, frac))
  {
    var n := Numeral(intPart, frac, hasDot);
    NumeralChars(intPart, frac, hasDot);
    LakhRemoved(n);
    NumeralEnds(intPart, frac, hasDot);
    StripNoSpace(n);
    assert Unitless(n + "lakh", "lakh", "L") == n;
    ParseNumeral(intPart, frac, hasDot);
  }

  /** A numeral followed by "lakh", with or without a space, is read as that many lakh. */
  lemma PriceInLakh(intPart: string, frac: string, hasDot: bool, spaced: bool)
    requires AllDigits(intPart) && AllDigits(frac) && |intPart| > 0
    requires !hasDot ==> frac == ""
    ensures PriceToNumber(StrCell(Numeral(intPart, frac, hasDot) + (if spaced then " " else "") + "lakh"))
         == Ok(Decimal(intPart, frac))
  {
    PriceText(intPart, frac, hasDot, spaced, "lakh");
    LakhText(intPart, frac, hasDot);
  }

  /** A numeral without a unit converts to its value. */
  lemma BareText(intPart: string, frac: string, hasDot: bool)
    requires AllDigits(intPart) && AllDigits(frac) && |intPart| > 0
    requires !hasDot ==> frac == ""
    ensures PriceOfText(Numeral(intPart, frac, hasDot)) == Ok(Decimal(intPart, frac))
  {
    var n := Numeral(intPart, frac, hasDot);
    NumeralChars(intPart, frac, hasDot);
    NoCrore(n);
    NoLakh(n);
    ParseNumeral(intPart, frac, hasDot);
  }

  /** A bare numeral is its own value. */
  lemma PriceBare(intPart: string, frac: string, hasDot: bool)
    requires AllDigits(intPart) && AllDigits(frac) && |intPart| > 0
    requires !hasDot ==> frac == ""
    ensures PriceToNumber(StrCell(Numeral(intPart, frac, hasDot))) == Ok(Decimal(intPart, frac))
  {
    var n := Numeral(intPart, frac, hasDot);
    NumeralChars(intPart, frac, hasDot);
    NumeralUntouched(n, " ");
    assert RemoveAll(n + "", " ") == n + RemoveAll("", " ");
    assert n + "" == n;
    BareText(intPart, frac, hasDot);
  }

  /** A cell naming crore but holding no number fails to convert. */
  lemma PriceBroken()
    ensures PriceToNumber(StrCell("cr")).Err?
  {
    assert HasAt("cr", 0, "cr");
    assert Lower("cr") == "cr";
    assert RemoveAll("cr", " ") == "cr";
    assert !HasAt("cr", 0, "crore");
    assert !HasAt("r", 0, "crore");
    assert RemoveAll("cr", "crore") == "cr";
    RemoveSelf("cr");
    assert Strip("") == "";
  }

  // ---------------------------------------------------------------------
  // Free-text query parsing (`search`).

  /** The filters of a structured search; absent ones are `None`. */
  datatype Filters = Filters(location: Option<string>, bhk: Option<int>, maxPrice: Option<real>, propType: Option<string>)

  /** The known cities, in the order they are looked for. */
  const Cities: seq<string> := ["noida", "gurgaon", "gurugram", "delhi", "mumbai", "pune", "bangalore", "greater noida"]

  /** `next((loc for loc in cities if loc in q), None)` */
  function FirstCity(q: string, cities: seq<string>): Option<string> {
    if cities == [] then None
    else if Contains(q, cities[0]) then Some(cities[0])
    else FirstCity(q, cities[1..])
  }

  /** A unit counted in crore, a hundred lakh; any other counts one lakh. */
  predicate InCrore(unit: string) {
    Contains(unit, "cr") || Contains(unit, "crore")
  }

  /** The bedroom count of the query: the digits before "bhk". */
  function BhkOf(q: string): Option<int> {
    match SearchStoreBhk(q)
    case None => None
    case Some(ds) => Some(DigitsValue(ds))
  }

  /** The price bound of the query, in lakh. */
  function MaxPriceOf(q: string): Option<real> {
    match SearchStorePrice(q)
    case None => None
    case Some(m) =>
      match ParseDecimal(m.0)
      case None => None
      case Some(v) => Some(Scale(v, m.1))
  }

  /** `float(value) * (100 if crore else 1)` */
  function Scale(v: real, unit: string): real {
    if InCrore(unit) then v * 100.0 else v
  }

  /** The property type: villa first, then flat or apartment, then plot. */
  function TypeOf(q: string): Option<string> {
    if Contains(q, "villa") then Some("villa")
    else if Contains(q, "flat") || Contains(q, "apartment") then Some("apartment")
    else if Contains(q, "plot") then Some("plot")
    else None
  }

  /** `search`'s parsing, on the lower-cased query. */
  function ParseQuery(query: string): Filters {
    var q := Lower(query);
    Filters(FirstCity(q, Cities), BhkOf(q), MaxPriceOf(q), TypeOf(q))
  }

  /** The parse ignores case. */
  lemma ParseQueryIgnoresCase(query: string)
    ensures ParseQuery(Lower(query)) == ParseQuery(query)
  {
    LowerIdempotent(query);
  }

  /** The city found is the first of the list that the query contains; none when it contains none. */
  lemma {:induction false} FirstCitySpec(q: string, cities: seq<string>)
    ensures FirstCity(q, cities).None? <==> forall k :: 0 <= k < |cities| ==> !Contains(q, cities[k])
    ensures FirstCity(q, cities).Some? ==>
      exists i :: 0 <= i < |cities| && cities[i] == FirstCity(q, cities).value && Contains(q, cities[i])
               && forall k :: 0 <= k < i ==> !Contains(q, cities[k])
  {
    if cities != [] && !Contains(q, cities[0]) {
      FirstCitySpec(q, cities[1..]);
      assert forall k :: 1 <= k < |cities| ==> cities[k] == cities[1..][k - 1];
      if FirstCity(q, cities).Some? {
        var i :| 0 <= i < |cities[1..]| && cities[1..][i] == FirstCity(q, cities).value && Contains(q, cities[1..][i])
                 && forall k :: 0 <= k < i ==> !Contains(q, cities[1..][k]);
        assert cities[i + 1] == cities[1..][i];
      }
    }
  }

  /** "greater noida" contains "noida", which comes first: such a query is placed in Noida. */
  lemma GreaterNoidaIsNoida(query: string)
    requires Contains(Lower(query), "greater noida")
    ensures ParseQuery(query).location == Some("noida")
  {
    assert HasAt("greater noida", 8, "noida");
    ContainsInfix(Lower(query), "greater noida", "noida", 8);
  }

  /** Crore counts a hundred, lakh one. */
  lemma UnitScales()
    ensures InCrore("cr") && InCrore("crore") && !InCrore("lakh")
  {
    assert HasAt("cr", 0, "cr");
    assert HasAt("crore", 0, "cr");
    NoCrore("lakh");
  }

  /** A price bound is there exactly when the price pattern matched. */
  lemma MaxPriceFound(q: string)
    ensures MaxPriceOf(q).Some? <==> SearchStorePrice(q).Some?
  {
    if SearchStorePrice(q).Some? {
      StorePriceParses(q);
    }
  }

  /** The bound is the matched number times one hundred for crore and times one for lakh. */
  lemma MaxPriceValue(q: string, number: string, unit: string)
    requires SearchStorePrice(q) == Some((number, unit))
    ensures ParseDecimal(number).Some?
    ensures unit == "lakh" ==> MaxPriceOf(q) == Some(ParseDecimal(number).value)
    ensures unit != "lakh" ==> MaxPriceOf(q) == Some(ParseDecimal(number).value * 100.0)
  {
    StorePriceParses(q);
    var v := ParseDecimal(number).value;
    assert MaxPriceOf(q) == Some(Scale(v, unit));
    assert unit == "lakh" || unit == "crore" || unit == "cr";
    ScaleUnits(v);
  }

  /** Scaling by each unit of the pattern. */
  lemma ScaleUnits(v: real)
    ensures Scale(v, "lakh") == v && Scale(v, "crore") == v * 100.0 && Scale(v, "cr") == v * 100.0
  {
    UnitScales();
  }

  /** The bedroom count is there exactly when the pattern matched, and is the value of its digits. */
  lemma BhkParsed(query: string)
    ensures ParseQuery(query).bhk.Some? <==> SearchStoreBhk(Lower(query)).Some?
    ensures ParseQuery(query).bhk.Some? ==>
      ParseQuery(query).bhk.value >= 0 && ParseQuery(query).bhk.value == DigitsValue(SearchStoreBhk(Lower(query)).value)
  {
  }

  /** Villa beats flat and apartment, which beat plot; the type is one of three or none. */
  lemma TypePriority(q: string)
    ensures TypeOf(q) in {None, Some("villa"), Some("apartment"), Some("plot")}
    ensures Contains(q, "villa") <==> TypeOf(q) == Some("villa")
    ensures TypeOf(q) == Some("apartment") <==> !Contains(q, "villa") && (Contains(q, "flat") || Contains(q, "apartment"))
    ensures TypeOf(q).None? <==> !Contains(q, "villa") && !Contains(q, "flat") && !Contains(q, "apartment") && !Contains(q, "plot")
  {
  }

  // ---------------------------------------------------------------------
  // Which filters are on: Python's truth value of each argument.

  predicate LocationOn(f: Filters) { f.location.Some? && f.location.value != "" }
  predicate BhkOn(f: Filters) { f.bhk.Some? && f.bhk.value != 0 }
  predicate TypeOn(f: Filters) { f.propType.Some? && f.propType.value != "" }
  predicate PriceOn(f: Filters) { f.maxPrice.Some? && f.maxPrice.value != 0.0 }

  predicate AnyOn(f: Filters) { LocationOn(f) || BhkOn(f) || TypeOn(f) || PriceOn(f) }

  // ---------------------------------------------------------------------
  // The SQL branch of `search_properties`.

  datatype SqlParam = SqlText(s: string) | SqlInt(n: int) | SqlReal(r: real)

  const BaseQuery: string := "SELECT * FROM properties WHERE 1=1"
  const Placeholder: string := "%s"

  const LocationClause: string := " AND location LIKE "
  const BhkClause: string := " AND bhk = "
  const TypeClause: string := " AND type LIKE "
  const PriceClause: string := " AND price_value <= "

  /** The text with a clause and its placeholder appended when the filter is on. */
  function WithClause(q: string, on: bool, clause: string): string {
    if on then q + clause + Placeholder else q
  }

  /** The query text: one placeholder clause per active filter, in a fixed order. */
  function SqlTextOf(f: Filters): string {
    WithClause(WithClause(WithClause(WithClause(BaseQuery,
      LocationOn(f), LocationClause), BhkOn(f), BhkClause), TypeOn(f), TypeClause), PriceOn(f), PriceClause)
  }

  /** The parameters, in the order of their clauses. */
  function SqlParamsOf(f: Filters): seq<SqlParam> {
    (if LocationOn(f) then [SqlText("%" + f.location.value + "%")] else [])
    + (if BhkOn(f) then [SqlInt(f.bhk.value)] else [])
    + (if TypeOn(f) then [SqlText("%" + f.propType.value + "%")] else [])
    + (if PriceOn(f) then [SqlReal(f.maxPrice.value)] else [])
  }

  /** A clause without `%` adds one placeholder when it is on, and none when it is off. */
  lemma ClausePlaceholder(q: string, on: bool, clause: string)
    requires '%' !in clause
    ensures Count(WithClause(q, on, clause), '%') == Count(q, '%') + (if on then 1 else 0)
  {
    if on {
      CountAppend(q + clause, Placeholder, '%');
      CountAppend(q, clause, '%');
      CountAbsent(clause, '%');
      assert Count(Placeholder, '%') == 1;
    }
  }

  /** The base query holds no `%`. */
  lemma BaseNoPercent()
    ensures Count(BaseQuery, '%') == 0
  {
    assert '%' !in BaseQuery;
    CountAbsent(BaseQuery, '%');
  }

  /** Nor do the clauses. */
  lemma ClausesNoPercent()
    ensures '%' !in LocationClause && '%' !in BhkClause && '%' !in TypeClause && '%' !in PriceClause
  {
  }

  /** The text holds exactly one placeholder per parameter. */
  lemma SqlPlaceholders(f: Filters)
    ensures Count(SqlTextOf(f), '%') == |SqlParamsOf(f)|
  {
    BaseNoPercent();
    ClausesNoPercent();
    var q1 := WithClause(BaseQuery, LocationOn(f), LocationClause);
    var q2 := WithClause(q1, BhkOn(f), BhkClause);
    var q3 := WithClause(q2, TypeOn(f), TypeClause);
    ClausePlaceholder(BaseQuery, LocationOn(f), LocationClause);
    ClausePlaceholder(q1, BhkOn(f), BhkClause);
    ClausePlaceholder(q2, TypeOn(f), TypeClause);
    ClausePlaceholder(q3, PriceOn(f), PriceClause);
  }

  /** The SQL builder: grows the text and the parameter list clause by clause. */
  method BuildSql(f: Filters) returns (query: string, params: seq<SqlParam>)
    ensures query == SqlTextOf(f) && params == SqlParamsOf(f)
  {
    query := BaseQuery;
    params := [];
    if LocationOn(f) {
      query := query + LocationClause + Placeholder;
      params := params + [SqlText("%" + f.location.value + "%")];
    }
    if BhkOn(f) {
      query := query + BhkClause + Placeholder;
      params := params + [SqlInt(f.bhk.value)];
    }
    if TypeOn(f) {
      query := query + TypeClause + Placeholder;
      params := params + [SqlText("%" + f.propType.value + "%")];
    }
    if PriceOn(f) {
      query := query + PriceClause + Placeholder;
      params := params + [SqlReal(f.maxPrice.value)];
    }
  }

  /** One parameter per active filter; with none active the query selects every row. */
  lemma SqlParamCount(f: Filters)
    ensures |SqlParamsOf(f)| == (if LocationOn(f) then 1 else 0) + (if BhkOn(f) then 1 else 0)
                               + (if TypeOn(f) then 1 else 0) + (if PriceOn(f) then 1 else 0)
    ensures !AnyOn(f) ==> SqlTextOf(f) == BaseQuery && SqlParamsOf(f) == []
  {
  }

  // ---------------------------------------------------------------------
  // `_filter_df` over the listing table.

  /** A listing row: the columns the filters read; a missing value is `None`. */
  datatype Row = Row(location: Option<string>, bhk: Option<int>, kind: Option<string>, price: Cell)

  /** `str.contains(pat, case=False, na=False)` on one cell. */
  predicate CellContains(cell: Option<string>, pat: string) {
    cell.Some? && Contains(Lower(cell.value), Lower(pat))
  }

  /** Each filter as a condition on a row; a filter that is off lets every row through. */
  predicate LocationPass(f: Filters, row: Row) { LocationOn(f) ==> CellContains(row.location, f.location.value) }
  predicate BhkPass(f: Filters, row: Row) { BhkOn(f) ==> row.bhk == Some(f.bhk.value) }
  predicate TypePass(f: Filters, row: Row) { TypeOn(f) ==> CellContains(row.kind, f.propType.value) }
  predicate PricePass(f: Filters, row: Row) {
    PriceOn(f) ==> PriceToNumber(row.price).Ok? && PriceToNumber(row.price).value <= f.maxPrice.value
  }

  /** A row that every active filter accepts. */
  predicate Matches(f: Filters, row: Row) {
    LocationPass(f, row) && BhkPass(f, row) && TypePass(f, row) && PricePass(f, row)
  }

  /** The filters as row conditions, for `Where`. */
  function LocationFilter(f: Filters): Row -> bool { (row: Row) => LocationPass(f, row) }
  function BhkFilter(f: Filters): Row -> bool { (row: Row) => BhkPass(f, row) }
  function TypeFilter(f: Filters): Row -> bool { (row: Row) => TypePass(f, row) }
  function PriceFilter(f: Filters): Row -> bool { (row: Row) => PricePass(f, row) }
  function PreFilter(f: Filters): Row -> bool { (row: Row) => LocationPass(f, row) && BhkPass(f, row) && TypePass(f, row) }
  function MatchFilter(f: Filters): Row -> bool { (row: Row) => Matches(f, row) }

  /**
   * The rows left after the location, bedroom and type filters; each filter
   * that is on narrows the rows in turn, one that is off leaves them.
   */
  function Prefiltered(rows: seq<Row>, f: Filters): seq<Row> {
    var r1 := if LocationOn(f) then Where(rows, LocationFilter(f)) else rows;
    var r2 := if BhkOn(f) then Where(r1, BhkFilter(f)) else r1;
    if TypeOn(f) then Where(r2, TypeFilter(f)) else r2
  }

  /** The first conversion error among the rows, if any. */
  function FirstPriceError(rows: seq<Row>): Option<string> {
    if rows == [] then None
    else if PriceToNumber(rows[0].price).Err? then Some(PriceToNumber(rows[0].price).error)
    else FirstPriceError(rows[1..])
  }

  /**
   * What `_filter_df` returns. The price column is converted for the rows
   * the other filters left, so a bad price cell elsewhere does no harm; with
   * no active filter the result is empty.
   */
  function FilterRows(rows: seq<Row>, f: Filters): Result<seq<Row>> {
    var r3 := Prefiltered(rows, f);
    if PriceOn(f) then
      match FirstPriceError(r3)
      case Some(e) => Err(e)
      case None => Ok(Where(r3, PriceFilter(f)))
    else if AnyOn(f) then Ok(r3)
    else Ok([])
  }

  /** `result["price"].apply(_price_to_number)`: the converted column, or the first error. */
  method ConvertPrices(rows: seq<Row>) returns (r: Result<seq<real>>)
    ensures FirstPriceError(rows).Some? <==> r.Err?
    ensures r.Err? ==> r.error == FirstPriceError(rows).value
    ensures r.Ok? ==> |r.value| == |rows| && forall k :: 0 <= k < |rows| ==> PriceToNumber(rows[k].price) == Ok(r.value[k])
  {
    var values: seq<real> := [];
    var i := 0;
    while i < |rows|
      invariant 0 <= i <= |rows|
      invariant |values| == i
      invariant forall k :: 0 <= k < i ==> PriceToNumber(rows[k].price) == Ok(values[k])
      invariant FirstPriceError(rows) == FirstPriceError(rows[i..])
    {
      var v := PriceToNumber(rows[i].price);
      if v.Err? {
        return Err(v.error);
      }
      assert rows[i..][1..] == rows[i + 1..];
      values := values + [v.value];
      i := i + 1;
    }
    return Ok(values);
  }

  /** `result[result["price_num"] <= max_price]`: the rows whose converted price is within the bound. */
  method KeepAtMost(rows: seq<Row>, values: seq<real>, f: Filters) returns (kept: seq<Row>)
    requires PriceOn(f)
    requires |values| == |rows|
    requires forall k :: 0 <= k < |rows| ==> PriceToNumber(rows[k].price) == Ok(values[k])
    ensures kept == Where(rows, PriceFilter(f))
  {
    kept := [];
    var i := 0;
    while i < |rows|
      invariant 0 <= i <= |rows|
      invariant kept == Where(rows[..i], PriceFilter(f))
    {
      assert rows[..i + 1][..i] == rows[..i];
      if values[i] <= f.maxPrice.value {
        kept := kept + [rows[i]];
      }
      i := i + 1;
    }
    assert rows[..i] == rows;
  }

  /** `_filter_df`: each active filter narrows `result` in turn and raises the flag. */
  method FilterDf(rows: seq<Row>, f: Filters) returns (r: Result<seq<Row>>)
    ensures r == FilterRows(rows, f)
  {
    var result := rows;
    var flag := false;
    if LocationOn(f) {
      result := Where(result, LocationFilter(f));
      flag := true;
    }
    if BhkOn(f) {
      result := Where(result, BhkFilter(f));
      flag := true;
    }
    if TypeOn(f) {
      result := Where(result, TypeFilter(f));
      flag := true;
    }
    if PriceOn(f) {
      var prices := ConvertPrices(result);
      if prices.Err? {
        return Err(prices.error);
      }
      result := KeepAtMost(result, prices.value, f);
      flag := true;
    }
    if !flag {
      result := [];
    }
    return Ok(result);
  }

  /**
   * Three selections made in turn, each only when its switch is on, select
   * the rows meeting all three conditions, provided a condition whose
   * switch is off holds everywhere.
   */
  lemma WhereSteps(xs: seq<Row>, p: Row -> bool, onP: bool, q: Row -> bool, onQ: bool, r: Row -> bool, onR: bool, all: Row -> bool)
    requires !onP ==> forall x :: p(x)
    requires !onQ ==> forall x :: q(x)
    requires !onR ==> forall x :: r(x)
    requires forall x :: all(x) == (p(x) && q(x) && r(x))
    ensures var r1 := if onP then Where(xs, p) else xs;
      var r2 := if onQ then Where(r1, q) else r1;
      (if onR then Where(r2, r) else r2) == Where(xs, all)
  {
    var r1 := if onP then Where(xs, p) else xs;
    assert r1 == Where(xs, p) by {
      if !onP { WhereAll(xs, p); }
    }
    var r2 := if onQ then Where(r1, q) else r1;
    assert r2 == Where(r1, q) by {
      if !onQ { WhereAll(r1, q); }
    }
    var r3 := if onR then Where(r2, r) else r2;
    assert r3 == Where(r2, r) by {
      if !onR { WhereAll(r2, r); }
    }
    var pq := (x: Row) => p(x) && q(x);
    WhereWhere(xs, p, q, pq);
    WhereWhere(xs, pq, r, all);
  }

  /** The three non-price filters together select the rows passing all three. */
  lemma PrefilteredSpec(rows: seq<Row>, f: Filters)
    ensures Prefiltered(rows, f) == Where(rows, PreFilter(f))
  {
    WhereSteps(rows, LocationFilter(f), LocationOn(f), BhkFilter(f), BhkOn(f), TypeFilter(f), TypeOn(f), PreFilter(f));
  }

  /** The first error is reported exactly when some row has a price that does not convert. */
  lemma {:induction false} FirstPriceErrorSpec(rows: seq<Row>)
    ensures FirstPriceError(rows).None? <==> forall k :: 0 <= k < |rows| ==> PriceToNumber(rows[k].price).Ok?
  {
    if rows != [] {
      FirstPriceErrorSpec(rows[1..]);
      assert forall k :: 1 <= k < |rows| ==> rows[k] == rows[1..][k - 1];
    }
  }

  /** With no active filter the result is empty. */
  lemma FilterRowsNoFilter(rows: seq<Row>, f: Filters)
    requires !AnyOn(f)
    ensures FilterRows(rows, f) == Ok([])
  {
  }

  /**
   * The search fails exactly when the price filter is on and a row accepted
   * by the location, bedroom and type filters has a price that does not
   * convert; rows the other filters dropped are never converted.
   */
  lemma FilterRowsError(rows: seq<Row>, f: Filters)
    ensures FilterRows(rows, f).Err? <==>
      PriceOn(f) && exists row :: row in Prefiltered(rows, f) && PriceToNumber(row.price).Err?
  {
    var r3 := Prefiltered(rows, f);
    FirstPriceErrorSpec(r3);
    if PriceOn(f) && FirstPriceError(r3).Some? {
      var k :| 0 <= k < |r3| && PriceToNumber(r3[k].price).Err?;
      assert r3[k] in r3;
    }
  }

  /** A search that does not fail holds exactly the rows every active filter accepts, in table order. */
  lemma FilterRowsMatches(rows: seq<Row>, f: Filters)
    requires AnyOn(f) && FilterRows(rows, f).Ok?
    ensures FilterRows(rows, f).value == Where(rows, MatchFilter(f))
  {
    PrefilteredSpec(rows, f);
    if PriceOn(f) {
      WhereWhere(rows, PreFilter(f), PriceFilter(f), MatchFilter(f));
    } else {
      WhereSame(rows, PreFilter(f), MatchFilter(f));
    }
  }

  /** Every row of a result is in the table and accepted by every active filter. */
  lemma FilterRowsSound(rows: seq<Row>, f: Filters)
    requires AnyOn(f) && FilterRows(rows, f).Ok?
    ensures Subsequence(FilterRows(rows, f).value, rows)
    ensures forall row :: row in FilterRows(rows, f).value <==> row in rows && Matches(f, row)
  {
    FilterRowsMatches(rows, f);
    WhereSpec(rows, MatchFilter(f));
  }

  // ---------------------------------------------------------------------
  // `search`: parse, then run the structured search.

  /** The table search: its filters are what the query names. */
  function SearchTable(query: string, rows: seq<Row>): Result<seq<Row>> {
    FilterRows(rows, ParseQuery(query))
  }

  /** A query naming no city, bedroom count, price or type finds nothing. */
  lemma SearchWithoutFiltersIsEmpty(query: string, rows: seq<Row>)
    requires !AnyOn(ParseQuery(query))
    ensures SearchTable(query, rows) == Ok([])
  {
    FilterRowsNoFilter(rows, ParseQuery(query));
  }
}
