/**
 * Character classes and string operations with the meaning Python gives them,
 * restricted to what the modelled code relies on.  Case mapping is ASCII only.
 */
module Text {
  import opened Outcomes

  /** `str.isspace()`: the characters `strip()` removes and the regex class `\s` matches. */
  predicate IsSpace(c: char) {
    c == ' ' || ('\t' <= c <= '\r') || ('\U{1C}' <= c <= '\U{1F}')
    || c == '\U{85}' || c == '\U{A0}' || c == '\U{1680}' || ('\U{2000}' <= c <= '\U{200A}')
    || c == '\U{2028}' || c == '\U{2029}' || c == '\U{202F}' || c == '\U{205F}' || c == '\U{3000}'
  }

  predicate IsDigit(c: char) { '0' <= c <= '9' }

  predicate IsLowerLetter(c: char) { 'a' <= c <= 'z' }

  predicate IsUpperLetter(c: char) { 'A' <= c <= 'Z' }

  /** The regex class `\w` on ASCII: what `\b` separates from everything else. */
  predicate IsWordChar(c: char) { IsDigit(c) || IsLowerLetter(c) || IsUpperLetter(c) || c == '_' }

  function LowerChar(c: char): char {
    if IsUpperLetter(c) then (c as int + 32) as char else c
  }

  function UpperChar(c: char): char {
    if IsLowerLetter(c) then (c as int - 32) as char else c
  }

  /** `str.lower()` */
  function Lower(s: string): (r: string)
    ensures |r| == |s|
    ensures forall i :: 0 <= i < |s| ==> r[i] == LowerChar(s[i])
  {
    seq(|s|, i requires 0 <= i < |s| => LowerChar(s[i]))
  }

  /** `str.upper()` */
  function Upper(s: string): (r: string)
    ensures |r| == |s|
    ensures forall i :: 0 <= i < |s| ==> r[i] == UpperChar(s[i])
  {
    seq(|s|, i requires 0 <= i < |s| => UpperChar(s[i]))
  }

  /** `str.capitalize()`: first character upper-cased, the rest lower-cased. */
  function Capitalize(s: string): (r: string)
    ensures |r| == |s|
  {
    if s == [] then [] else [UpperChar(s[0])] + Lower(s[1..])
  }

  lemma LowerIdempotent(s: string)
    ensures Lower(Lower(s)) == Lower(s)
  {
  }

  lemma LowerAppend(a: string, b: string)
    ensures Lower(a + b) == Lower(a) + Lower(b)
  {
  }

  /** `p` occurs in `s` at index `i`. */
  predicate HasAt(s: string, i: nat, p: string) {
    i + |p| <= |s| && s[i..i + |p|] == p
  }

  /** `p` occurs at index `i` of `s` ignoring ASCII case; `p` is given in lower case. */
  predicate HasAtFolded(s: string, i: nat, p: string) {
    i + |p| <= |s| && Lower(s[i..i + |p|]) == p
  }

  /** Python's `p in s`. */
  predicate Contains(s: string, p: string) {
    exists i: nat :: i <= |s| && HasAt(s, i, p)
  }

  /** `s.startswith(p)` */
  predicate StartsWith(s: string, p: string) {
    HasAt(s, 0, p)
  }

  lemma ContainsWitness(s: string, p: string, i: nat)
    requires HasAt(s, i, p)
    ensures Contains(s, p)
  {
  }

  /** Whatever contains a string contains each part of it. */
  lemma ContainsInfix(s: string, p: string, q: string, j: nat)
    requires Contains(s, p)
    requires HasAt(p, j, q)
    ensures Contains(s, q)
  {
    var i: nat :| i <= |s| && HasAt(s, i, p);
    forall k | 0 <= k < |q|
      ensures s[i + j + k] == q[k]
    {
      assert q[k] == p[j + k];
      assert p[j + k] == s[i + j + k];
    }
    assert s[i + j..i + j + |q|] == q;
    ContainsWitness(s, q, i + j);
  }

  /** The end of the whitespace run of `s` that starts at `i`. */
  function SpaceRunEnd(s: string, i: nat): (r: nat)
    requires i <= |s|
    ensures i <= r <= |s|
    decreases |s| - i
  {
    if i < |s| && IsSpace(s[i]) then SpaceRunEnd(s, i + 1) else i
  }

  /** The start of the whitespace run of `s` that ends at `j`. */
  function SpaceRunStart(s: string, j: nat): (r: nat)
    requires j <= |s|
    ensures r <= j
  {
    if j > 0 && IsSpace(s[j - 1]) then SpaceRunStart(s, j - 1) else j
  }

  /** Leading whitespace removed (`lstrip()`): a suffix of `s`. */
  function TrimStart(s: string): string {
    s[SpaceRunEnd(s, 0)..]
  }

  /** Trailing whitespace removed (`rstrip()`): a prefix of `s`. */
  function TrimEnd(s: string): string {
    s[..SpaceRunStart(s, |s|)]
  }

  /** A whitespace run is whitespace, up to a character that is not. */
  lemma {:induction false} SpaceRunEndCut(s: string, i: nat)
    requires i <= |s|
    ensures SpaceRunEnd(s, i) == |s| || !IsSpace(s[SpaceRunEnd(s, i)])
    ensures forall k :: i <= k < SpaceRunEnd(s, i) ==> IsSpace(s[k])
    decreases |s| - i
  {
    if i < |s| && IsSpace(s[i]) {
      SpaceRunEndCut(s, i + 1);
    }
  }

  lemma {:induction false} SpaceRunStartCut(s: string, j: nat)
    requires j <= |s|
    ensures SpaceRunStart(s, j) == 0 || !IsSpace(s[SpaceRunStart(s, j) - 1])
    ensures forall k :: SpaceRunStart(s, j) <= k < j ==> IsSpace(s[k])
  {
    if j > 0 && IsSpace(s[j - 1]) {
      SpaceRunStartCut(s, j - 1);
    }
  }

  /** `lstrip()` cuts away whitespace only, up to a character that is not whitespace. */
  lemma TrimStartCut(s: string)
    ensures TrimStart(s) == [] || !IsSpace(TrimStart(s)[0])
    ensures forall i :: 0 <= i < |s| - |TrimStart(s)| ==> IsSpace(s[i])
  {
    SpaceRunEndCut(s, 0);
  }

  /** `rstrip()` cuts away whitespace only, back to a character that is not whitespace. */
  lemma TrimEndCut(s: string)
    ensures TrimEnd(s) == [] || !IsSpace(TrimEnd(s)[|TrimEnd(s)| - 1])
    ensures forall i :: |TrimEnd(s)| <= i < |s| ==> IsSpace(s[i])
  {
    SpaceRunStartCut(s, |s|);
  }

  /** Neither end of `s` is whitespace. */
  predicate Trimmed(s: string) {
    s == [] || (!IsSpace(s[0]) && !IsSpace(s[|s| - 1]))
  }

  /** `str.strip()`: a slice of `s`. */
  function Strip(s: string): (r: string)
    ensures |r| <= |s|
  {
    TrimEnd(TrimStart(s))
  }

  /** Neither end of a stripped string is whitespace. */
  lemma StripTrimmed(s: string)
    ensures Trimmed(Strip(s))
  {
    var t := TrimStart(s);
    TrimStartCut(s);
    TrimEndCut(t);
    var r := TrimEnd(t);
    assert r != [] ==> r[0] == t[0];
  }

  /** `strip()` keeps every non-whitespace character, so it yields "" only for blank strings. */
  lemma StripKeeps(s: string, i: nat)
    requires i < |s| && !IsSpace(s[i])
    ensures |Strip(s)| > 0
  {
    var t := TrimStart(s);
    TrimStartCut(s);
    TrimEndCut(t);
    assert t[i - (|s| - |t|)] == s[i];
  }

  lemma StripNoSpace(s: string)
    requires s == [] || (!IsSpace(s[0]) && !IsSpace(s[|s| - 1]))
    ensures Strip(s) == s
  {
  }

  /** `sep.join(xs)` */
  function Join(xs: seq<string>, sep: string): string {
    if |xs| == 0 then "" else if |xs| == 1 then xs[0] else xs[0] + sep + Join(xs[1..], sep)
  }

  /** Joining a list that holds a non-empty string gives a non-empty string. */
  lemma {:induction false} JoinNonEmpty(xs: seq<string>, sep: string)
    requires exists k :: 0 <= k < |xs| && xs[k] != ""
    ensures Join(xs, sep) != ""
  {
    if |xs| > 1 && xs[0] == "" {
      var k :| 0 <= k < |xs| && xs[k] != "";
      assert xs[1..][k - 1] == xs[k];
      JoinNonEmpty(xs[1..], sep);
    }
  }

  /** `s.count(c)`: the number of occurrences of `c` in `s`. */
  function Count(s: string, c: char): nat {
    if s == [] then 0 else (if s[0] == c then 1 else 0) + Count(s[1..], c)
  }

  lemma {:induction false} CountAppend(a: string, b: string, c: char)
    ensures Count(a + b, c) == Count(a, c) + Count(b, c)
  {
    if a != [] {
      assert (a + b)[1..] == a[1..] + b;
      CountAppend(a[1..], b, c);
    } else {
      assert a + b == b;
    }
  }

  /** A character that does not occur is counted zero times. */
  lemma {:induction false} CountAbsent(s: string, c: char)
    requires c !in s
    ensures Count(s, c) == 0
  {
    if s != [] {
      assert forall x :: x in s[1..] ==> x in s;
      CountAbsent(s[1..], c);
    }
  }

  /** `s.replace(w, "")`: occurrences of `w` removed left to right, without overlaps. */
  function RemoveAll(s: string, w: string): (r: string)
    requires w != []
    ensures |r| <= |s|
  {
    if s == [] then []
    else if HasAt(s, 0, w) then RemoveAll(s[|w|..], w)
    else [s[0]] + RemoveAll(s[1..], w)
  }

  /** A string that does not start any occurrence of `w` at its head comes through unchanged. */
  lemma {:induction false} RemoveAllNoHead(s: string, w: string)
    requires w != []
    requires forall i :: 0 <= i < |s| ==> s[i] != w[0]
    ensures RemoveAll(s, w) == s
  {
    if s != [] {
      RemoveAllNoHead(s[1..], w);
    }
  }

  /** A prefix that holds no first character of `w` survives, and removal continues behind it. */
  lemma {:induction false} RemoveAllPrefix(d: string, t: string, w: string)
    requires w != []
    requires forall i :: 0 <= i < |d| ==> d[i] != w[0]
    ensures RemoveAll(d + t, w) == d + RemoveAll(t, w)
  {
    if d != [] {
      assert (d + t)[0] == d[0];
      assert (d + t)[1..] == d[1..] + t;
      RemoveAllPrefix(d[1..], t, w);
    } else {
      assert d + t == t;
    }
  }

  /** Removing a single character leaves none of it behind. */
  lemma {:induction false} RemoveAllChar(s: string, c: char)
    ensures forall i :: 0 <= i < |RemoveAll(s, [c])| ==> RemoveAll(s, [c])[i] != c
  {
    if s != [] {
      RemoveAllChar(s[1..], c);
      if !HasAt(s, 0, [c]) {
        assert s[0..1] == [s[0]];
      }
    }
  }

  /** Removing a single character works piece by piece. */
  lemma {:induction false} RemoveAllCharAppend(a: string, b: string, c: char)
    ensures RemoveAll(a + b, [c]) == RemoveAll(a, [c]) + RemoveAll(b, [c])
  {
    if a == [] {
      assert a + b == b;
    } else {
      assert (a + b)[1..] == a[1..] + b;
      assert (a + b)[0..1] == a[0..1];
      RemoveAllCharAppend(a[1..], b, c);
    }
  }

  /** `s.find(c)`: the index of the first `c`, or -1. */
  function Find(s: string, c: char): (r: int)
    ensures -1 <= r < |s|
    ensures r >= 0 ==> s[r] == c
    ensures forall k :: 0 <= k < |s| && (r == -1 || k < r) ==> s[k] != c
  {
    var i := IndexOf(s, c);
    if i == |s| then -1 else i
  }

  /** `s.rfind(c)`: the index of the last `c`, or -1. */
  function RFind(s: string, c: char): (r: int)
    ensures -1 <= r < |s|
    ensures r >= 0 ==> s[r] == c
    ensures forall k :: 0 <= k < |s| && r < k ==> s[k] != c
  {
    if s == [] then -1 else if s[|s| - 1] == c then |s| - 1 else RFind(s[..|s| - 1], c)
  }

  predicate AllDigits(s: string) {
    forall i :: 0 <= i < |s| ==> IsDigit(s[i])
  }

  function DigitValue(c: char): nat
    requires IsDigit(c)
  {
    c as int - '0' as int
  }

  /** The value of a decimal numeral, most significant digit first. */
  function DigitsValue(ds: string): nat
    requires AllDigits(ds)
  {
    if ds == [] then 0 else DigitsValue(ds[..|ds| - 1]) * 10 + DigitValue(ds[|ds| - 1])
  }

  function Pow10(n: nat): (r: nat)
    ensures r >= 1
  {
    if n == 0 then 1 else 10 * Pow10(n - 1)
  }

  /** Index of the first `c` in `s`, or `|s|` when there is none. */
  function IndexOf(s: string, c: char): (r: nat)
    ensures r <= |s|
    ensures r < |s| ==> s[r] == c
    ensures forall i :: 0 <= i < r ==> s[i] != c
  {
    if s == [] then 0 else if s[0] == c then 0 else 1 + IndexOf(s[1..], c)
  }

  /** The value of `int.frac`, where either part may be empty but not both. */
  function Decimal(intPart: string, frac: string): real
    requires AllDigits(intPart) && AllDigits(frac)
  {
    DigitsValue(intPart) as real + DigitsValue(frac) as real / Pow10(|frac|) as real
  }

  /**
   * Python's `float(s)` on plain decimal notation: surrounding whitespace, an
   * optional sign, digits with at most one point, at least one digit.
   */
  function ParseDecimal(s: string): Option<real> {
    var t := Strip(s);
    if t != [] && t[0] == '-' then
      match ParseUnsigned(t[1..])
      case None => None
      case Some(v) => Some(-v)
    else if t != [] && t[0] == '+' then ParseUnsigned(t[1..])
    else ParseUnsigned(t)
  }

  /** Digits with at most one point and at least one digit, without sign or whitespace. */
  function ParseUnsigned(body: string): Option<real> {
    var dot := IndexOf(body, '.');
    var intPart := body[..dot];
    var frac := if dot < |body| then body[dot + 1..] else "";
    if AllDigits(intPart) && AllDigits(frac) && |intPart| + |frac| > 0 then Some(Decimal(intPart, frac))
    else None
  }

  /** A numeral `int` or `int.frac` parses to its value. */
  lemma ParseNumeral(intPart: string, frac: string, hasDot: bool)
    requires AllDigits(intPart) && AllDigits(frac) && |intPart| > 0
    requires !hasDot ==> frac == ""
    ensures ParseDecimal(intPart + (if hasDot then "." + frac else "")) == Some(Decimal(intPart, frac))
  {
    var s := intPart + (if hasDot then "." + frac else "");
    NumeralEnds(intPart, frac, hasDot);
    StripNoSpace(s);
    assert Strip(s) == s;
    assert ParseDecimal(s) == ParseUnsigned(s);
    ParseUnsignedNumeral(intPart, frac, hasDot);
  }

  lemma NumeralEnds(intPart: string, frac: string, hasDot: bool)
    requires AllDigits(intPart) && AllDigits(frac) && |intPart| > 0
    requires !hasDot ==> frac == ""
    ensures var s := intPart + (if hasDot then "." + frac else "");
      IsDigit(s[0]) && !IsSpace(s[|s| - 1])
  {
    var s := intPart + (if hasDot then "." + frac else "");
    assert s[0] == intPart[0];
    if hasDot && frac == [] { assert s[|s| - 1] == '.'; }
    else if hasDot { assert s[|s| - 1] == frac[|frac| - 1]; }
    else { assert s[|s| - 1] == intPart[|intPart| - 1]; }
  }

  lemma ParseUnsignedNumeral(intPart: string, frac: string, hasDot: bool)
    requires AllDigits(intPart) && AllDigits(frac) && |intPart| > 0
    requires !hasDot ==> frac == ""
    ensures ParseUnsigned(intPart + (if hasDot then "." + frac else "")) == Some(Decimal(intPart, frac))
  {
    NumeralPoint(intPart, frac, hasDot);
  }

  lemma NumeralPoint(intPart: string, frac: string, hasDot: bool)
    requires AllDigits(intPart) && AllDigits(frac)
    requires !hasDot ==> frac == ""
    ensures var s := intPart + (if hasDot then "." + frac else "");
      IndexOf(s, '.') == |intPart| && s[..|intPart|] == intPart
      && (if |intPart| < |s| then s[|intPart| + 1..] else "") == frac
  {
    var s := intPart + (if hasDot then "." + frac else "");
    assert forall i :: 0 <= i < |intPart| ==> s[i] == intPart[i] && IsDigit(s[i]);
    if hasDot {
      assert s[|intPart|] == '.';
      assert s[|intPart| + 1..] == frac;
    } else {
      assert s == intPart;
    }
    IndexOfFirst(s, '.', |intPart|);
  }

  lemma IndexOfFirst(s: string, c: char, k: nat)
    requires k <= |s|
    requires forall i :: 0 <= i < k ==> s[i] != c
    requires k < |s| ==> s[k] == c
    ensures IndexOf(s, c) == k
  {
  }
}
