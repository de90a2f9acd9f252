/** src/qualor/workspace/versioning.py: the canonical form of a decimal inside an opportunity digest. */
module DecimalProjection {

  /** A finite decimal as the source's `as_tuple` gives it: sign, digits and exponent. */
  datatype Decimal = Decimal(negative: bool, digits: seq<nat>, exponent: int)

  ghost predicate DigitsOnly(digits: seq<nat>) {
    forall i :: 0 <= i < |digits| ==> digits[i] <= 9
  }

  /** No leading zero, except in the single digit of a zero. */
  ghost predicate Valid(d: Decimal) {
    |d.digits| > 0 && DigitsOnly(d.digits) && (|d.digits| > 1 ==> d.digits[0] != 0)
  }

  predicate IsZero(d: Decimal) { forall i :: 0 <= i < |d.digits| ==> d.digits[i] == 0 }

  // ----- values

  function Power(n: nat): (p: nat)
    ensures p >= 1
  {
    if n == 0 then 1 else 10 * Power(n - 1)
  }

  function Coefficient(digits: seq<nat>): nat {
    if digits == [] then 0 else 10 * Coefficient(digits[..|digits| - 1]) + digits[|digits| - 1]
  }

  /** The coefficient written with the lower exponent `floor`. */
  function Scaled(d: Decimal, floor: int): int
    requires floor <= d.exponent
  {
    (if d.negative then -1 else 1) * (Coefficient(d.digits) * Power(d.exponent - floor))
  }

  /** The two decimals are the same number: their coefficients agree at a common exponent. */
  ghost predicate SameNumber(a: Decimal, b: Decimal) {
    var floor := if a.exponent <= b.exponent then a.exponent else b.exponent;
    Scaled(a, floor) == Scaled(b, floor)
  }

  // ----- the projection

  function Stripped(d: Decimal): Decimal
    decreases |d.digits|
  {
    if d.digits != [] && d.digits[|d.digits| - 1] == 0
    then Stripped(Decimal(d.negative, d.digits[..|d.digits| - 1], d.exponent + 1))
    else d
  }

  function Projection(d: Decimal): Decimal {
    if IsZero(d) then Decimal(false, [0], 0)
    else
      var s := Stripped(d);
      s.(digits := if s.digits == [] then [0] else s.digits)
  }

  method Project(d: Decimal) returns (p: Decimal)
    ensures p == Projection(d)
  {
    if IsZero(d) {
      return Decimal(false, [0], 0);
    }
    var digits, exponent := d.digits, d.exponent;
    while digits != [] && digits[|digits| - 1] == 0
      invariant Stripped(Decimal(d.negative, digits, exponent)) == Stripped(d)
      decreases |digits|
    {
      digits, exponent := digits[..|digits| - 1], exponent + 1;
    }
    p := Decimal(d.negative, if digits == [] then [0] else digits, exponent);
  }

  // ----- stripping keeps the number

  lemma {:induction false} PowerAdds(m: nat, n: nat)
    ensures Power(m + n) == Power(m) * Power(n)
  {
    if m > 0 {
      PowerAdds(m - 1, n);
      assert Power(m + n) == 10 * Power(m - 1 + n);
    }
  }

  lemma Associates(x: int, y: int, z: int)
    ensures x * (y * z) == (x * y) * z
  {
  }

  lemma PowerSplits(c: int, m: nat, n: nat)
    ensures c * Power(m + n) == c * Power(m) * Power(n)
  {
    PowerAdds(m, n);
    Associates(c, Power(m), Power(n));
  }

  lemma TenOut(c: int, p: int, q: int)
    requires q == 10 * p
    ensures c * q == 10 * (c * p)
  {
    Associates(c, 10, p);
    Associates(10, c, p);
  }

  lemma TenTimes(x: int)
    ensures (10 * x) % 10 == 0
  {
  }

  lemma {:induction false} CoefficientZero(digits: seq<nat>)
    ensures Coefficient(digits) == 0 <==> forall i :: 0 <= i < |digits| ==> digits[i] == 0
  {
    if digits != [] {
      var n := |digits| - 1;
      CoefficientZero(digits[..n]);
      if Coefficient(digits) == 0 {
        forall i | 0 <= i < |digits| ensures digits[i] == 0 {
          if i < n { assert digits[..n][i] == 0; }
        }
      }
    }
  }

  lemma {:induction false} StripKeeps(d: Decimal)
    ensures var s := Stripped(d);
            && s.negative == d.negative && s.exponent >= d.exponent
            && s.digits <= d.digits && (s.digits != [] ==> s.digits[|s.digits| - 1] != 0)
            && Coefficient(d.digits) == Coefficient(s.digits) * Power(s.exponent - d.exponent)
    decreases |d.digits|
  {
    if d.digits != [] && d.digits[|d.digits| - 1] == 0 {
      var shorter := Decimal(d.negative, d.digits[..|d.digits| - 1], d.exponent + 1);
      StripKeeps(shorter);
      var s := Stripped(d);
      var k := s.exponent - d.exponent;
      TenOut(Coefficient(s.digits), Power(k - 1), Power(k));
    }
  }

  lemma {:induction false} StripShape(d: Decimal)
    ensures var s := Stripped(d);
            && s.digits <= d.digits && (s.digits != [] ==> s.digits[|s.digits| - 1] != 0)
            && (Coefficient(d.digits) != 0 ==> Coefficient(s.digits) != 0)
    decreases |d.digits|
  {
    if d.digits != [] && d.digits[|d.digits| - 1] == 0 {
      StripShape(Decimal(d.negative, d.digits[..|d.digits| - 1], d.exponent + 1));
    }
  }

  // ----- canonical forms are determined by their number

  lemma EndsIn(x: int, d: nat)
    requires d <= 9
    ensures (10 * x + d) % 10 == d
  {
  }

  lemma LastDigit(digits: seq<nat>)
    requires DigitsOnly(digits) && digits != []
    ensures Coefficient(digits) % 10 == digits[|digits| - 1]
  {
    EndsIn(Coefficient(digits[..|digits| - 1]), digits[|digits| - 1]);
  }

  lemma {:induction false} DigitsDetermined(a: seq<nat>, b: seq<nat>)
    requires DigitsOnly(a) && DigitsOnly(b)
    requires (|a| > 0 ==> a[0] != 0) && (|b| > 0 ==> b[0] != 0)
    requires Coefficient(a) == Coefficient(b)
    ensures a == b
  {
    LeadingNonzero(a);
    LeadingNonzero(b);
    if a != [] && b != [] {
      var m, n := |a| - 1, |b| - 1;
      LastDigit(a);
      LastDigit(b);
      DigitsDetermined(a[..m], b[..n]);
      assert a == a[..m] + [a[m]] && b == b[..n] + [b[n]];
    }
  }

  lemma LeadingNonzero(digits: seq<nat>)
    requires |digits| > 0 ==> digits[0] != 0
    ensures Coefficient(digits) == 0 <==> digits == []
  {
    CoefficientZero(digits);
    if digits != [] {
      assert digits[0] != 0;
    }
  }

  lemma TensEndInZero(c: int, p: int, q: int)
    requires q == 10 * p
    ensures (c * q) % 10 == 0
  {
    TenOut(c, p, q);
    TenTimes(c * p);
  }

  /** Of two equal canonical forms neither has the larger exponent. */
  lemma ExponentDetermined(a: seq<nat>, b: seq<nat>, k: nat)
    requires DigitsOnly(a) && a != [] && a[|a| - 1] != 0
    requires Coefficient(a) == Coefficient(b) * Power(k)
    ensures k == 0
  {
    LastDigit(a);
    if k > 0 {
      TensEndInZero(Coefficient(b), Power(k - 1), Power(k));
    }
  }

  /** A canonical form: no leading and no trailing zero. */
  ghost predicate Canonical(d: Decimal) {
    && DigitsOnly(d.digits) && d.digits != []
    && d.digits[0] != 0 && d.digits[|d.digits| - 1] != 0
  }

  lemma CanonicalDetermined(a: Decimal, b: Decimal)
    requires Canonical(a) && Canonical(b) && SameNumber(a, b)
    ensures a == b
  {
    CoefficientZero(a.digits);
    CoefficientZero(b.digits);
    var ca, cb := Coefficient(a.digits), Coefficient(b.digits);
    assert ca > 0 && cb > 0;
    if a.exponent <= b.exponent {
      PositiveProduct(cb, Power(b.exponent - a.exponent));
      assert Power(0) == 1;
      assert ca == cb * Power(b.exponent - a.exponent);
      ExponentDetermined(a.digits, b.digits, b.exponent - a.exponent);
    } else {
      PositiveProduct(ca, Power(a.exponent - b.exponent));
      assert Power(0) == 1;
      assert cb == ca * Power(a.exponent - b.exponent);
      ExponentDetermined(b.digits, a.digits, a.exponent - b.exponent);
    }
    DigitsDetermined(a.digits, b.digits);
  }

  lemma PositiveProduct(x: int, y: int)
    requires x > 0 && y > 0
    ensures x * y > 0
  {
  }

  lemma ProjectionShape(d: Decimal)
    requires Valid(d)
    ensures IsZero(d) <==> Coefficient(d.digits) == 0
    ensures !IsZero(d) ==> Projection(d) == Stripped(d) && Canonical(Projection(d))
  {
    CoefficientZero(d.digits);
    if !IsZero(d) {
      StripShape(d);
      StrippedCanonical(d, Stripped(d));
    }
  }

  lemma StrippedCanonical(d: Decimal, s: Decimal)
    requires Valid(d) && Coefficient(d.digits) != 0 && Coefficient(s.digits) != 0
    requires s.digits <= d.digits && (s.digits != [] ==> s.digits[|s.digits| - 1] != 0)
    ensures Canonical(s)
  {
    assert s.digits[0] == d.digits[0];
    if |d.digits| == 1 {
      CoefficientZero(d.digits);
    }
  }

  /** A scaled coefficient at a lower exponent is the original one times a power of ten. */
  lemma Rescale(d: Decimal, high: int, low: int)
    requires low <= high <= d.exponent
    ensures Scaled(d, low) == Scaled(d, high) * Power(high - low)
  {
    PowerSplits(Coefficient(d.digits), d.exponent - high, high - low);
    if d.negative {
      Associates(-1, Coefficient(d.digits) * Power(d.exponent - high), Power(high - low));
    }
  }

  lemma CancelPower(x: int, y: int, p: nat)
    requires p >= 1
    ensures x * p == y * p <==> x == y
  {
    if x != y {
      NonzeroProduct(x - y, p);
      assert (x - y) * p == x * p - y * p;
    }
  }

  lemma NonzeroProduct(x: int, y: int)
    requires x != 0 && y != 0
    ensures x * y != 0
  {
  }

  /** Equality of numbers may be read at any common exponent. */
  lemma SameAtAnyFloor(a: Decimal, b: Decimal, floor: int)
    requires floor <= a.exponent && floor <= b.exponent
    ensures SameNumber(a, b) <==> Scaled(a, floor) == Scaled(b, floor)
  {
    var top := if a.exponent <= b.exponent then a.exponent else b.exponent;
    Rescale(a, top, floor);
    Rescale(b, top, floor);
    CancelPower(Scaled(a, top), Scaled(b, top), Power(top - floor));
  }

  /** The stripped decimal is the same number. */
  lemma StripSameNumber(d: Decimal, floor: int)
    requires floor <= d.exponent
    ensures Stripped(d).exponent >= d.exponent
    ensures Scaled(Stripped(d), floor) == Scaled(d, floor)
  {
    StripKeeps(d);
    var s := Stripped(d);
    PowerSplits(Coefficient(s.digits), s.exponent - d.exponent, d.exponent - floor);
  }

  /** Two decimals get one projection exactly when they are the same number, zero of either sign included. */
  lemma ProjectionCanonical(a: Decimal, b: Decimal)
    requires Valid(a) && Valid(b)
    ensures Projection(a) == Projection(b) <==> SameNumber(a, b)
  {
    ProjectionShape(a);
    ProjectionShape(b);
    var floor := if a.exponent <= b.exponent then a.exponent else b.exponent;
    var pa, pb := Projection(a), Projection(b);
    if IsZero(a) || IsZero(b) {
      ZeroCase(a, b, floor);
    } else {
      StripSameNumber(a, floor);
      StripSameNumber(b, floor);
      SameAtAnyFloor(pa, pb, floor);
      if SameNumber(a, b) {
        CanonicalDetermined(pa, pb);
      }
    }
  }

  /** A zero has the scaled coefficient zero and the projection of a positive zero; nothing else has either. */
  lemma ZeroCase(a: Decimal, b: Decimal, floor: int)
    requires Valid(a) && Valid(b) && (IsZero(a) || IsZero(b))
    requires floor == if a.exponent <= b.exponent then a.exponent else b.exponent
    ensures Projection(a) == Projection(b) <==> Scaled(a, floor) == Scaled(b, floor)
  {
    ProjectionShape(a);
    ProjectionShape(b);
    ScaledZero(a, floor);
    ScaledZero(b, floor);
  }

  lemma ScaledZero(d: Decimal, floor: int)
    requires floor <= d.exponent
    ensures Scaled(d, floor) == 0 <==> Coefficient(d.digits) == 0
  {
    if Coefficient(d.digits) > 0 {
      PositiveProduct(Coefficient(d.digits), Power(d.exponent - floor));
    }
  }
}
