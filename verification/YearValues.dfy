/**
 `f"{value:g}"` on year values (`encode_amendment_value`, `agent/schemas.py`).

 The format keeps six significant digits. An encoded value is represented by the number it denotes,
 so encoding is `ToSixDigits` and decoding (`float(...)`) is the identity.
 */
module YearValues {

  const MAX_YEARS := 60.0

  predicate IsYears(y: real) {
    0.0 <= y <= MAX_YEARS
  }

  /** 10 to the number of decimals that six significant digits leave after the point. */
  function Scale(y: real): (scale: real)
    ensures scale > 0.0
  {
    if y >= 10.0 then 10000.0
    else if y >= 1.0 then 100000.0
    else if y >= 0.1 then 1000000.0
    else if y >= 0.01 then 10000000.0
    else if y >= 0.001 then 100000000.0
    else 1000000000.0
  }

  /** Round to an integer, ties to even. */
  function RoundHalfEven(x: real): (n: int)
    ensures n as real - 0.5 <= x <= n as real + 0.5
  {
    var below := x.Floor;
    var rest := x - below as real;
    if rest < 0.5 then below
    else if rest > 0.5 then below + 1
    else if below % 2 == 0 then below
    else below + 1
  }

  function ToSixDigits(y: real): real {
    RoundHalfEven(y * Scale(y)) as real / Scale(y)
  }

  /** Six significant digits already hold the value: scaled, it is an integer. */
  predicate HasSixDigits(y: real) {
    (y * Scale(y)).Floor as real == y * Scale(y)
  }

  /** `:g` writes a positive value below 0.0001 with an exponent, which the amendment schema refuses. */
  predicate WrittenWithoutExponent(y: real) {
    y == 0.0 || y >= 0.0001
  }

  lemma {:induction false} RoundsInPlace(n: int, x: real)
    requires x == n as real
    ensures RoundHalfEven(x) == n && x.Floor == n
  {
  }

  lemma {:induction false} QuotientIs(a: real, scale: real, y: real)
    requires scale > 0.0
    ensures a / scale == y <==> a == y * scale
  {
    assert a / scale * scale == a;
    if a == y * scale {
      assert (a / scale - y) * scale == 0.0;
    }
  }

  /** Decoding an encoded value gives it back if and only if six significant digits hold it. */
  lemma {:induction false} EncodingRoundTripsIff(y: real)
    requires IsYears(y)
    ensures ToSixDigits(y) == y <==> HasSixDigits(y)
  {
    var scaled := y * Scale(y);
    QuotientIs(RoundHalfEven(scaled) as real, Scale(y), y);
    RoundsToItselfIff(scaled);
  }

  lemma {:induction false} RoundsToItselfIff(x: real)
    ensures RoundHalfEven(x) as real == x <==> x.Floor as real == x
  {
    if x.Floor as real == x {
      RoundsInPlace(x.Floor, x);
    }
  }

  /** One decade of the scale, with its power of ten as a constant `s`. */
  lemma {:induction false} CanonicalInDecade(y: real, n: int, e: real)
    requires IsYears(y) && WrittenWithoutExponent(y)
    requires n == RoundHalfEven(y * Scale(y)) && e == n as real / Scale(y)
    ensures IsYears(e) && WrittenWithoutExponent(e) && HasSixDigits(e)
  {
    if y >= 10.0 {
      InDecade(y, n, e);
    } else if y >= 1.0 {
      assert e * 100000.0 == n as real;
      assert 100000 <= n <= 1000000;
      if n == 1000000 { RoundsInPlace(100000, e * 10000.0); } else { RoundsInPlace(n, e * 100000.0); }
    } else if y >= 0.1 {
      assert e * 1000000.0 == n as real;
      assert 100000 <= n <= 1000000;
      if n == 1000000 { RoundsInPlace(100000, e * 100000.0); } else { RoundsInPlace(n, e * 1000000.0); }
    } else if y >= 0.01 {
      assert e * 10000000.0 == n as real;
      assert 100000 <= n <= 1000000;
      if n == 1000000 { RoundsInPlace(100000, e * 1000000.0); } else { RoundsInPlace(n, e * 10000000.0); }
    } else if y >= 0.001 {
      assert e * 100000000.0 == n as real;
      assert 100000 <= n <= 1000000;
      if n == 1000000 { RoundsInPlace(100000, e * 10000000.0); } else { RoundsInPlace(n, e * 100000000.0); }
    } else {
      assert e * 1000000000.0 == n as real;
      assert 0 <= n <= 1000000;
      if n == 1000000 { RoundsInPlace(100000, e * 100000000.0); } else { RoundsInPlace(n, e * 1000000000.0); }
    }
  }

  lemma {:induction false} InDecade(y: real, n: int, e: real)
    requires 10.0 <= y <= MAX_YEARS && n == RoundHalfEven(y * 10000.0) && e == n as real / 10000.0
    ensures 10.0 <= e <= MAX_YEARS && (e * 10000.0).Floor as real == e * 10000.0
  {
    assert e * 10000.0 == n as real;
    assert 100000 <= n <= 600000;
    RoundsInPlace(n, e * 10000.0);
  }

  /** An encoded value is canonical: encoding it again changes nothing, and it stays in range. */
  lemma {:induction false} EncodedIsCanonical(y: real, e: real)
    requires IsYears(y) && WrittenWithoutExponent(y) && e == ToSixDigits(y)
    ensures IsYears(e) && WrittenWithoutExponent(e) && HasSixDigits(e) && ToSixDigits(e) == e
  {
    CanonicalStep(y, e);
    EncodingRoundTripsIff(e);
  }

  lemma {:induction false} CanonicalStep(y: real, e: real)
    requires IsYears(y) && WrittenWithoutExponent(y) && e == ToSixDigits(y)
    ensures IsYears(e) && WrittenWithoutExponent(e) && HasSixDigits(e)
  {
    CanonicalInDecade(y, RoundHalfEven(y * Scale(y)), e);
  }

  /** Six digits: the scaled value has exactly six before the point. */
  lemma {:induction false} ScaledToSixDigits(y: real)
    requires 0.0001 <= y <= MAX_YEARS
    ensures 100000.0 <= y * Scale(y) < 1000000.0
  {
  }

  /** Whatever is not an integer rounds to the nearest one, and a value half-way between two to the even one. */
  lemma {:induction false} RoundsToNearest(x: real, n: int)
    ensures Distance(RoundHalfEven(x) as real, x) <= Distance(n as real, x)
    ensures Distance(RoundHalfEven(x) as real, x) == 0.5 ==> RoundHalfEven(x) % 2 == 0
  {
    var k := RoundHalfEven(x);
    if n < k { assert n as real <= k as real - 1.0; }
    if n > k { assert n as real >= k as real + 1.0; }
  }

  /** Of all values with those six digits the encoded one is the nearest: no integer at the same scale is nearer. */
  lemma {:induction false} EncodedIsNearest(y: real, n: int)
    requires 0.0001 <= y <= MAX_YEARS
    ensures var scale := Scale(y);
      && 100000.0 <= y * scale < 1000000.0
      && ToSixDigits(y) * scale == RoundHalfEven(y * scale) as real
      && Distance(ToSixDigits(y) * scale, y * scale) <= Distance(n as real, y * scale)
      && (Distance(ToSixDigits(y) * scale, y * scale) == 0.5 ==> (ToSixDigits(y) * scale).Floor % 2 == 0)
  {
    ScaledToSixDigits(y);
    var scaled := y * Scale(y);
    QuotientIs(RoundHalfEven(scaled) as real, Scale(y), ToSixDigits(y));
    RoundsToNearest(scaled, n);
  }

  function Distance(a: real, b: real): real {
    if a < b then b - a else a - b
  }
}
