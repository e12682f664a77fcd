/**
 * JavaScript's `Number(s)` and `parseInt(s)` on decimal input, and the
 * stock-input conversion `value === '' ? 0 : parseInt(value) || 0` that the
 * single-record form and the bulk-add editor share.
 */
module JsNumbers {
  import opened Wrappers
  import opened Text

  /** The rational number `digits / 10^scale`; every decimal literal denotes one. */
  datatype Decimal = Decimal(digits: int, scale: nat)

  predicate IsNegative(d: Decimal) {
    d.digits < 0
  }

  function Pow10(n: nat): (p: nat)
    ensures p >= 1
  {
    if n == 0 then 1 else 10 * Pow10(n - 1)
  }

  /** `Math.floor` of the number: the greatest integer `r` with `r <= digits / 10^scale`. */
  function Floor(d: Decimal): (r: int)
    ensures r * Pow10(d.scale) <= d.digits < (r + 1) * Pow10(d.scale)
    ensures d.digits >= 0 ==> 0 <= r <= d.digits
    ensures d.digits < 0 ==> d.digits <= r < 0
    ensures d.scale == 0 ==> r == d.digits
    decreases d.scale
  {
    // Euclidean division by ten rounds towards minus infinity, one decimal place at a time.
    if d.scale == 0 then d.digits
    else
      var q := d.digits / 10;
      var r := Floor(Decimal(q, d.scale - 1));
      FloorStep(r, Pow10(d.scale - 1), q, d.digits);
      r
  }

  /** Dropping one more decimal place keeps the floor: if `r` is the floor of `q / p` and `q` is
      the floor of `x / 10`, then `r` is the floor of `x / (10 * p)`. */
  lemma FloorStep(r: int, p: nat, q: int, x: int)
    requires p >= 1
    requires r * p <= q < (r + 1) * p
    requires 10 * q <= x < 10 * q + 10
    ensures r * (10 * p) <= x < (r + 1) * (10 * p)
  {
    assert r * (10 * p) == 10 * (r * p);
    assert (r + 1) * (10 * p) == 10 * ((r + 1) * p);
    assert q + 1 <= (r + 1) * p;
  }

  /** An unsigned decimal literal: digits, optionally a point and more digits, at least one digit. */
  function UnsignedDecimal(t: string): (r: Option<Decimal>)
    ensures r.Some? ==> r.value.digits >= 0 && t != []
  {
    var k := IndexOf(t, '.');
    var whole := t[..k];
    var frac := if k < |t| then t[k + 1..] else [];
    if |whole| + |frac| > 0 && AllDigits(whole) && AllDigits(frac) then
      assert AllDigits(whole + frac);
      Some(Decimal(DigitsValue(whole + frac), |frac|))
    else
      None
  }

  /** `Number(s)`; `None` is `NaN`. */
  function ToNumber(s: string): (r: Option<Decimal>)
    ensures IsBlank(s) ==> r == Some(Decimal(0, 0))
    ensures r.Some? && IsNegative(r.value) ==> Trim(s) != [] && Trim(s)[0] == '-'
  {
    TrimFacts(s);
    var t := Trim(s);
    if t == [] then Some(Decimal(0, 0))
    else if t[0] == '-' then
      match UnsignedDecimal(t[1..])
      case Some(d) => Some(Decimal(-d.digits, d.scale))
      case None => None
    else if t[0] == '+' then UnsignedDecimal(t[1..])
    else UnsignedDecimal(t)
  }

  /** A plain run of decimal digits is the number it spells. */
  lemma ToNumberOfDigits(s: string)
    requires s != [] && AllDigits(s)
    ensures ToNumber(s) == Some(Decimal(DigitsValue(s), 0))
  {
    assert Trim(s) == s by {
      assert IsDigit(s[0]) && IsDigit(s[|s| - 1]);
      TrimOfTrimmed(s);
    }
    assert s[0] != '-' && s[0] != '+';
    assert UnsignedDecimal(s) == Some(Decimal(DigitsValue(s), 0)) by {
      assert IndexOf(s, '.') == |s| by {
        assert forall i :: 0 <= i < |s| ==> s[i] != '.';
      }
      assert s[..|s|] + [] == s;
    }
  }

  /** The decimal rendering of a natural number reads back as that number. */
  lemma ToNumberOfNat(n: nat)
    ensures ToNumber(NatToString(n)) == Some(Decimal(n, 0))
  {
    ToNumberOfDigits(NatToString(n));
    NatToStringRoundTrip(n);
  }

  /** Length of the run of decimal digits at the start of `s`. */
  function DigitPrefix(s: string): (k: nat)
    ensures k <= |s|
    ensures AllDigits(s[..k])
    ensures k < |s| ==> !IsDigit(s[k])
  {
    if s == [] || !IsDigit(s[0]) then 0
    else
      var k := 1 + DigitPrefix(s[1..]);
      assert s[..k] == [s[0]] + s[1..][..k - 1];
      k
  }

  /** `parseInt(s)` in base ten; `None` is `NaN`. */
  function ParseInt(s: string): (r: Option<int>)
    ensures r.Some? && r.value < 0 ==> '-' in s
  {
    var t := s[LeadingSpaces(s)..];
    var signed := t != [] && (t[0] == '-' || t[0] == '+');
    var u := if signed then t[1..] else t;
    var k := DigitPrefix(u);
    if k == 0 then None
    else
      var v: int := DigitsValue(u[..k]);
      assert t[0] == '-' ==> t[0] in s;
      Some(if t[0] == '-' then -v else v)
  }

  /** The stock input's `onChange` conversion: empty is 0, otherwise `parseInt`, and `NaN` (or 0) is 0. */
  function StockInput(value: string): (stock: int)
    ensures value == "" ==> stock == 0
    ensures ParseInt(value).None? ==> stock == 0
    ensures value != "" && ParseInt(value).Some? ==> stock == ParseInt(value).value
  {
    if value == "" then 0 else ParseInt(value).GetOr(0)
  }

  /** Typing a natural number into a stock field yields that number. */
  lemma StockInputOfNat(n: nat)
    ensures StockInput(NatToString(n)) == n
  {
    var s := NatToString(n);
    ParseIntOfDigits(s, []);
    assert s + [] == s;
    NatToStringRoundTrip(n);
  }

  /** Typing a minus sign before a positive number yields a negative stock, which validation must reject. */
  lemma StockInputOfNegative(n: nat)
    requires n > 0
    ensures StockInput("-" + NatToString(n)) == -(n as int)
  {
    NegativeDigits(NatToString(n));
    NatToStringRoundTrip(n);
  }

  /** `parseInt` of a minus sign followed by digits is the negated digit value. */
  lemma NegativeDigits(d: string)
    requires d != [] && AllDigits(d)
    ensures ParseInt("-" + d) == Some(-(DigitsValue(d) as int))
  {
    var s := "-" + d;
    assert s[0] == '-' && !IsSpace('-');
    assert LeadingSpaces(s) == 0;
    assert s[0..] == s && s[1..] == d;
    DigitPrefixOfDigits(d);
    assert d[..|d|] == d;
  }

  /** The digit prefix of a run of digits is all of it. */
  lemma DigitPrefixOfDigits(d: string)
    requires AllDigits(d)
    ensures DigitPrefix(d) == |d|
  {
  }

  /** `parseInt` reads a run of digits followed by anything but a digit as the digits' value. */
  lemma ParseIntOfDigits(d: string, rest: string)
    requires d != [] && AllDigits(d)
    requires rest == [] || !IsDigit(rest[0])
    ensures ParseInt(d + rest) == Some(DigitsValue(d))
  {
    var s := d + rest;
    assert s[0] == d[0] && IsDigit(s[0]);
    assert LeadingSpaces(s) == 0;
    assert s[0..] == s;
    var k := DigitPrefix(s);
    assert forall j :: 0 <= j < |d| ==> s[j] == d[j];
    assert forall j :: 0 <= j < k ==> s[..k][j] == s[j];
    assert |d| < |s| ==> !IsDigit(s[|d|]);
    assert s[..|d|] == d;
  }

  /** `parseInt` reads back a rendered natural number that is followed by anything but a digit. */
  lemma ParseIntOfRendered(n: nat, rest: string)
    requires rest == [] || !IsDigit(rest[0])
    ensures ParseInt(NatToString(n) + rest) == Some(n)
  {
    ParseIntOfDigits(NatToString(n), rest);
    NatToStringRoundTrip(n);
  }
}
