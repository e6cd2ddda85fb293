/** Printers for whole numbers and for finite decimals, and the round trips of values that have only these. */
module JsonDecimals {
  import opened Basics
  import opened JsonTexts
  import opened JsonSyntax
  import opened JsonParsers
  import opened JsonPrinters

  // ----- digits -----

  function DigitsOf(n: nat): (digits: Text)
    ensures digits != [] && AllDigits(digits)
  {
    if n < 10 then [ZERO + n] else DigitsOf(n / 10) + [ZERO + n % 10]
  }

  lemma {:induction false} DigitsRoundTrip(n: nat)
    ensures DigitsValue(DigitsOf(n)) == n && (DigitsOf(n)[0] == ZERO ==> n == 0 && |DigitsOf(n)| == 1)
  {
    if n < 10 {
      assert [ZERO + n][..0] == [];
    } else {
      DigitsRoundTrip(n / 10);
      assert DigitsOf(n)[..|DigitsOf(n)| - 1] == DigitsOf(n / 10);
    }
  }

  /** The last `places` digits of a number, with leading zeros. */
  function Padded(n: nat, places: nat): (digits: Text)
    ensures |digits| == places && AllDigits(digits)
  {
    if places == 0 then [] else Padded(n / 10, places - 1) + [ZERO + n % 10]
  }

  lemma {:induction false} PaddedRoundTrip(n: nat, places: nat)
    requires n < Power10(places)
    ensures DigitsValue(Padded(n, places)) == n
  {
    if places > 0 {
      PaddedRoundTrip(n / 10, places - 1);
      assert Padded(n, places)[..places - 1] == Padded(n / 10, places - 1);
    }
  }

  // ----- whole numbers -----

  predicate IsWhole(x: real) {
    x.Floor as real == x
  }

  function WholeToken(x: real): Number {
    var n := x.Floor;
    Number(n < 0, DigitsOf(if n < 0 then -n else n), [], [], [])
  }

  /** Every whole number is printed faithfully. */
  lemma WholeFaithful(x: real)
    requires IsWhole(x)
    ensures Faithful(WholeToken, x)
  {
    var n := x.Floor;
    DigitsRoundTrip(if n < 0 then -n else n);
    assert DigitsValue([]) == 0 && Power10(0) == 1;
    SimpleValue(WholeToken(x));
    NoFraction(WholeToken(x));
  }

  lemma NoFraction(n: Number)
    requires WellFormed(n) && n.fraction == []
    ensures Mantissa(n) == DigitsValue(n.whole) as real
  {
    assert DigitsValue([]) == 0 && Power10(0) == 1;
  }

  /** A value with whole numbers is read back exactly when it is within the limits. */
  lemma WholeRoundTrip(value: Value, limit: nat)
    requires Formed(value) && Numbers(value, IsWhole)
    ensures ParseText(Print(WholeToken, value), limit) == Parsed(value) <==> WithinLimits(WholeToken, value, limit)
  {
    forall x | IsWhole(x) ensures Faithfully(WholeToken)(x) {
      WholeFaithful(x);
    }
    NumbersImply(value, IsWhole, Faithfully(WholeToken));
    PrintThenParse(WholeToken, value, limit);
  }

  // ----- finite decimals -----

  function Scaled(x: real, unit: nat): real {
    x * unit as real
  }

  /** The number has at most `places` decimal places. */
  ghost predicate HasPlaces(x: real, places: nat) {
    IsWhole(Scaled(x, Power10(places)))
  }

  ghost predicate IsDecimal(x: real) {
    exists places :: HasPlaces(x, places)
  }

  function Magnitude(n: int): nat {
    if n < 0 then -n else n
  }

  function Quotient(n: nat, unit: nat): nat
    requires unit > 0
  {
    n / unit
  }

  function Rest(n: nat, unit: nat): (rest: nat)
    requires unit > 0
    ensures rest < unit
  {
    n % unit
  }

  /** The number scaled / 10^places. */
  function PlacedNumber(scaled: int, places: nat): Number {
    var n, unit := Magnitude(scaled), Power10(places);
    Number(scaled < 0, DigitsOf(Quotient(n, unit)), Padded(Rest(n, unit), places), [], [])
  }

  function PlacedToken(x: real, places: nat): Number {
    PlacedNumber(Scaled(x, Power10(places)).Floor, places)
  }

  /** The exact decimal form. */
  ghost function DecimalToken(x: real): Number {
    if IsDecimal(x) then
      var places: nat :| HasPlaces(x, places);
      PlacedToken(x, places)
    else WholeToken(x)
  }

  lemma QuotientAndRest(n: nat, unit: nat)
    requires unit > 0
    ensures Quotient(n, unit) as real + Rest(n, unit) as real / unit as real == n as real / unit as real
  {
    var q, r := Quotient(n, unit), Rest(n, unit);
    assert n == unit * q + r;
    assert n as real == unit as real * q as real + r as real;
    SumQuotient(q as real, r as real, unit as real);
  }

  lemma SumQuotient(q: real, r: real, unit: real)
    requires unit > 0.0
    ensures (unit * q + r) / unit == q + r / unit
  {
  }

  lemma ScaledBack(x: real, unit: nat)
    requires unit > 0
    ensures Scaled(x, unit) / unit as real == x
  {
  }

  lemma NegativeQuotient(n: real, unit: real)
    requires unit > 0.0
    ensures (-n) / unit == -(n / unit)
  {
  }

  lemma PlacedForm(scaled: int, places: nat)
    ensures var token, n, unit := PlacedNumber(scaled, places), Magnitude(scaled), Power10(places);
      && WellFormed(token) && |token.fraction| == places
      && DigitsValue(token.whole) == Quotient(n, unit) && DigitsValue(token.fraction) == Rest(n, unit)
  {
    var n, unit := Magnitude(scaled), Power10(places);
    DigitsRoundTrip(Quotient(n, unit));
    PaddedRoundTrip(Rest(n, unit), places);
  }

  /** The value of a token without an exponent. */
  lemma SimpleValue(n: Number)
    requires WellFormed(n) && n.exponent == []
    ensures NumberValue(n) == if n.negative then -Mantissa(n) else Mantissa(n)
  {
    assert DigitsValue([]) == 0 && Power10(0) == 1;
    assert Product(Mantissa(n), 1.0) == Mantissa(n);
  }

  lemma PlacedValue(scaled: int, places: nat)
    ensures WellFormed(PlacedNumber(scaled, places))
    ensures NumberValue(PlacedNumber(scaled, places)) == scaled as real / Power10(places) as real
  {
    var token, n, unit := PlacedNumber(scaled, places), Magnitude(scaled), Power10(places);
    PlacedForm(scaled, places);
    SimpleValue(token);
    QuotientAndRest(n, unit);
    NegativeQuotient(n as real, unit as real);
  }

  lemma PlacedFaithful(x: real, places: nat)
    requires HasPlaces(x, places)
    ensures WellFormed(PlacedToken(x, places)) && NumberValue(PlacedToken(x, places)) == x
  {
    PlacedValue(Scaled(x, Power10(places)).Floor, places);
    ScaledBack(x, Power10(places));
  }

  /** Every finite decimal is printed faithfully. */
  lemma DecimalFaithful(x: real)
    requires IsDecimal(x)
    ensures Faithful(DecimalToken, x)
  {
    var places: nat :| HasPlaces(x, places) && DecimalToken(x) == PlacedToken(x, places);
    PlacedFaithful(x, places);
  }

  /** A value with finite decimals is read back exactly when it is within the limits. */
  lemma DecimalRoundTrip(value: Value, limit: nat)
    requires Formed(value) && Numbers(value, x => IsDecimal(x))
    ensures ParseText(Print(DecimalToken, value), limit) == Parsed(value) <==> WithinLimits(DecimalToken, value, limit)
  {
    forall x | IsDecimal(x) ensures Faithfully(DecimalToken)(x) {
      DecimalFaithful(x);
    }
    NumbersImply(value, x => IsDecimal(x), Faithfully(DecimalToken));
    PrintThenParse(DecimalToken, value, limit);
  }

  function Power2(n: nat): (p: nat)
    ensures p > 0
  {
    if n == 0 then 1 else 2 * Power2(n - 1)
  }

  lemma FiveTimes(x: real)
    requires IsWhole(x)
    ensures IsWhole(5.0 * x)
  {
    assert (5 * x.Floor) as real == 5.0 * x;
  }

  lemma HalfScaled(x: real, unit: nat)
    ensures Scaled(x / 2.0, 10 * unit) == 5.0 * Scaled(x, unit)
  {
    assert (10 * unit) as real == 10.0 * unit as real;
  }

  /** Halving adds one decimal place. */
  lemma HalfIsDecimal(x: real)
    requires IsDecimal(x)
    ensures IsDecimal(x / 2.0)
  {
    var places: nat :| HasPlaces(x, places);
    FiveTimes(Scaled(x, Power10(places)));
    HalfScaled(x, Power10(places));
    assert Power10(places + 1) == 10 * Power10(places);
    assert HasPlaces(x / 2.0, places + 1);
  }

  lemma TwiceScaled(x: real, unit: nat)
    ensures Scaled(2.0 * x, unit) == Scaled(x, 2 * unit) && (2.0 * x) / 2.0 == x
  {
    assert (2 * unit) as real == 2.0 * unit as real;
  }

  /** Every binary fraction, so every float64, is a finite decimal. */
  lemma {:induction false} BinaryIsDecimal(x: real, bits: nat)
    requires IsWhole(Scaled(x, Power2(bits)))
    ensures IsDecimal(x)
    decreases bits
  {
    if bits == 0 {
      assert Power10(0) == 1 == Power2(0);
      assert HasPlaces(x, 0);
    } else {
      assert Power2(bits) == 2 * Power2(bits - 1);
      TwiceScaled(x, Power2(bits - 1));
      BinaryIsDecimal(2.0 * x, bits - 1);
      HalfIsDecimal(2.0 * x);
    }
  }
}
