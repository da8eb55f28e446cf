/**
 * Double-precision division and rounding, as far as page counts need it:
 * int(math.Ceil(float64(total) / float64(limit))) of app/models/pagination.go.
 * Any rounding to nearest is allowed (IEEE 754-2019 section 4.3.1), whatever it
 * does with ties. Exponents are unbounded; the numbers here stay far inside
 * the normal range.
 */
module FloatCeiling {

  /** 2^53: significands are at most this large. */
  const LIMIT53: int := 0x20_0000_0000_0000

  function Pow2(n: nat): (p: nat)
    ensures p >= 1
  {
    if n == 0 then 1 else 2 * Pow2(n - 1)
  }

  /** x is a significand times a power of two. */
  ghost predicate IsFloat(x: real) {
    exists m: int, n: nat :: -LIMIT53 <= m <= LIMIT53 && IsScaled(x, m, n)
  }

  predicate IsScaled(x: real, m: int, n: nat) {
    x * Pow2(n) as real == m as real || x == (m * Pow2(n)) as real
  }

  function Abs(x: real): real {
    if x < 0.0 then -x else x
  }

  /** y is a result of rounding x to nearest. */
  ghost predicate Rounds(x: real, y: real) {
    IsFloat(y) && forall z :: IsFloat(z) ==> Abs(x - y) <= Abs(x - z)
  }

  function Ceil(x: real): int {
    -((-x).Floor)
  }

  /** The integer ceiling of total / limit. */
  function CeilDiv(total: int, limit: int): int
    requires limit >= 1
  {
    (total + limit - 1) / limit
  }

  lemma SmallIntsAreFloats(n: int)
    requires -LIMIT53 <= n <= LIMIT53
    ensures IsFloat(n as real)
  {
    assert Pow2(0) == 1;
    assert IsScaled(n as real, n, 0);
  }

  /** Rounding never crosses a representable number. */
  lemma RoundingIsMonotone(x: real, y: real, z: real)
    requires Rounds(x, y) && IsFloat(z)
    ensures x <= z ==> y <= z
    ensures z <= x ==> z <= y
  {
  }

  lemma RoundingIsExactOnInts(n: int, y: real)
    requires -LIMIT53 <= n <= LIMIT53 && Rounds(n as real, y)
    ensures y == n as real
  {
    SmallIntsAreFloats(n);
    RoundingIsMonotone(n as real, y, n as real);
  }

  lemma UnitFractionsAreFloats(n: nat)
    ensures IsFloat(1.0 / Pow2(n) as real)
  {
    assert IsScaled(1.0 / Pow2(n) as real, 1, n);
  }

  /** A positive quotient does not round to zero. */
  lemma PositiveStaysPositive(x: real, y: real, n: nat)
    requires Rounds(x, y) && x * Pow2(n) as real >= 1.0
    ensures y > 0.0
  {
    UnitFractionsAreFloats(n);
    Reciprocal(x, Pow2(n) as real);
    RoundingIsMonotone(x, y, 1.0 / Pow2(n) as real);
  }

  lemma Reciprocal(x: real, p: real)
    requires p > 0.0 && x * p >= 1.0
    ensures 0.0 < 1.0 / p <= x
  {
  }

  /** Scales k into the top binade of 53-bit significands. */
  lemma {:induction false} TopBinade(k: int, d: nat) returns (n: nat)
    requires k >= 1 && k * Pow2(d) < LIMIT53
    ensures LIMIT53 <= 2 * k * Pow2(n) && k * Pow2(n) < LIMIT53
    decreases LIMIT53 - k * Pow2(d)
  {
    if 2 * k * Pow2(d) >= LIMIT53 {
      n := d;
    } else {
      assert k * Pow2(d + 1) == 2 * k * Pow2(d);
      assert k * Pow2(d) >= 1;
      n := TopBinade(k, d + 1);
    }
  }

  /** The representable number next to k, one unit in the last place up. */
  lemma SuccessorIsFloat(k: int, n: nat)
    requires k >= 1 && k * Pow2(n) < LIMIT53
    ensures IsFloat(k as real + 1.0 / Pow2(n) as real)
  {
    MulGrows(k, Pow2(n));
    OneUnitUp(k, Pow2(n));
    FractionIsFloat(k as real + 1.0 / Pow2(n) as real, k * Pow2(n) + 1, n);
  }

  lemma FractionIsFloat(x: real, m: int, n: nat)
    requires x * Pow2(n) as real == m as real && -LIMIT53 <= m <= LIMIT53
    ensures IsFloat(x)
  {
    assert IsScaled(x, m, n);
  }

  lemma OneUnitUp(k: int, p: int)
    requires p >= 1
    ensures (k as real + 1.0 / p as real) * p as real == (k * p + 1) as real
  {
    QuotientTimesDivisor(1.0, p as real);
    Distribute(k as real, 1.0 / p as real, p as real);
    IntegerTimes(k, p);
  }

  lemma Distribute(a: real, b: real, p: real)
    ensures (a + b) * p == a * p + b * p
  {
  }

  lemma IntegerTimes(k: int, p: int)
    ensures k as real * p as real == (k * p) as real
  {
  }

  lemma {:induction false} PowersGrow(n: nat)
    ensures Pow2(n) >= n
  {
    if n != 0 {
      PowersGrow(n - 1);
    }
  }

  lemma Cancel(a: int, b: int, k: int)
    requires k >= 1 && a * k < b * k
    ensures a < b
  {
  }

  lemma CancelReal(a: real, b: real, k: real)
    requires k > 0.0 && a * k < b * k
    ensures a < b
  {
  }

  /** In the top binade a unit in the last place is less than twice 1/limit. */
  lemma UnitIsShort(total: int, limit: int, k: int, p: int)
    requires k >= 1 && k * limit < total < LIMIT53 <= 2 * k * p
    ensures limit < 2 * p
  {
    assert limit * k < (2 * p) * k;
    Cancel(limit, 2 * p, k);
  }

  lemma QuotientTimesDivisor(a: real, b: real)
    requires b > 0.0
    ensures (a / b) * b == a
  {
  }

  lemma Scale(a: real, b: real, k: real)
    requires k > 0.0 && a < b
    ensures a * k < b * k
  {
  }

  /** k + 1/p is nearer to total/limit than k is. */
  lemma StepIsTooLong(total: int, limit: int, k: int, p: int)
    requires limit >= 1 && p >= 1 && k * limit < total && limit < 2 * p
    ensures var x := total as real / limit as real;
      x > k as real && x - k as real > (k as real + 1.0 / p as real) - x
  {
    var x := total as real / limit as real;
    var gap, unit := x - k as real, 1.0 / p as real;
    QuotientTimesDivisor(total as real, limit as real);
    QuotientTimesDivisor(1.0, p as real);
    assert gap * limit as real == total as real - k as real * limit as real == (total - k * limit) as real;
    CancelReal(0.0, gap, limit as real);
    Scale(limit as real, (2 * p) as real, gap);
    assert unit * p as real < (2.0 * gap) * p as real;
    CancelReal(unit, 2.0 * gap, p as real);
  }

  lemma NearestIsAbove(x: real, q: real, k: real, z: real)
    requires Rounds(x, q) && IsFloat(k) && IsFloat(z)
    requires k < x && k < z && x - k > z - x
    ensures q > k
  {
    RoundingIsMonotone(x, q, k);
    RoundingIsMonotone(x, q, z);
    assert Abs(x - q) <= Abs(x - z);
  }

  lemma UnitIsPositive(p: int)
    requires p >= 1
    ensures 1.0 / p as real > 0.0
  {
  }

  /**
   * A quotient strictly above the integer k does not round down to k: it is at
   * least 1/limit above k, and half a unit in the last place is less than that.
   */
  lemma RemainderIsNotRoundedAway(total: int, limit: int, k: int, q: real)
    requires 1 <= limit && 1 <= k < LIMIT53 && k * limit < total < LIMIT53
    requires Rounds(total as real / limit as real, q)
    ensures q > k as real
  {
    assert k * Pow2(0) == k;
    var n := TopBinade(k, 0);
    UnitIsShort(total, limit, k, Pow2(n));
    StepIsTooLong(total, limit, k, Pow2(n));
    SuccessorIsFloat(k, n);
    SmallIntsAreFloats(k);
    UnitIsPositive(Pow2(n));
    NearestIsAbove(total as real / limit as real, q, k as real, k as real + 1.0 / Pow2(n) as real);
  }

  lemma QuotientOfPositives(total: int, divisor: real)
    requires total >= 1 && divisor >= 1.0
    ensures total as real / divisor > 0.0
    ensures (total as real / divisor) * divisor == total as real
  {
  }

  lemma PositiveQuotientStaysPositive(total: int, divisor: real, bound: nat, q: real)
    requires total >= 1 && 1.0 <= divisor <= bound as real
    requires Rounds(total as real / divisor, q)
    ensures q > 0.0
  {
    var x := total as real / divisor;
    QuotientOfPositives(total, divisor);
    PowersGrow(bound);
    assert x * Pow2(bound) as real >= x * divisor;
    PositiveStaysPositive(x, q, bound);
  }

  /** The quotient stays at or below every integer that bounds it. */
  lemma AboveIsKept(total: int, limit: int, n: int, q: real)
    requires limit >= 1 && 0 <= n <= LIMIT53 && total <= n * limit
    requires Rounds(total as real / limit as real, q)
    ensures q <= n as real
  {
    SmallIntsAreFloats(n);
    QuotientIsBounded(total as real, limit as real, n as real);
    RoundingIsMonotone(total as real / limit as real, q, n as real);
  }

  lemma BelowOneIsKept(total: int, divisor: real, q: real)
    requires divisor > 0.0 && total as real <= divisor
    requires Rounds(total as real / divisor, q)
    ensures q <= 1.0
  {
    SmallIntsAreFloats(1);
    QuotientIsBounded(total as real, divisor, 1.0);
    RoundingIsMonotone(total as real / divisor, q, 1.0);
  }

  lemma QuotientIsBounded(a: real, b: real, n: real)
    requires b > 0.0 && a <= n * b
    ensures a / b <= n
  {
    QuotientTimesDivisor(a, b);
    if n < a / b {
      Scale(n, a / b, b);
    }
  }

  lemma CeilBetween(q: real, n: int)
    requires (n - 1) as real < q <= n as real
    ensures Ceil(q) == n
  {
  }

  lemma DivMod(a: int, limit: int)
    requires limit >= 1
    ensures a == (a / limit) * limit + a % limit && 0 <= a % limit < limit
  {
  }

  lemma CeilDivBounds(total: int, limit: int)
    requires total >= 0 && limit >= 1
    ensures var n := CeilDiv(total, limit);
      0 <= n && (n - 1) * limit < total <= n * limit
  {
    var n := CeilDiv(total, limit);
    DivMod(total + limit - 1, limit);
    assert (n - 1) * limit == n * limit - limit;
    Cancel(-1, n, limit);
  }

  /**
   * One page or none suffices exactly for totals up to the limit; otherwise there
   * are at most as many pages as rows.
   */
  lemma FewPages(total: int, limit: int)
    requires total >= 0 && limit >= 1
    ensures var n := CeilDiv(total, limit);
      (total == 0 <==> n == 0) && (1 <= total <= limit <==> n == 1) && n <= total
  {
    var n := CeilDiv(total, limit);
    CeilDivBounds(total, limit);
    if total == 0 {
      Cancel(n - 1, 0, limit);
    } else {
      Cancel(0, n, limit);
      MulGrows(n - 1, limit);
      if total <= limit {
        Cancel(n - 1, 1, limit);
      }
    }
  }

  lemma MulGrows(a: int, b: int)
    requires a >= 0 && b >= 1
    ensures a <= a * b
  {
  }

  lemma ExactForSmallLimits(total: int, limit: int, q: real)
    requires 0 <= total < LIMIT53 && 1 <= limit
    requires Rounds(total as real / limit as real, q)
    ensures Ceil(q) == CeilDiv(total, limit)
  {
    var n := CeilDiv(total, limit);
    CeilDivBounds(total, limit);
    FewPages(total, limit);
    AboveIsKept(total, limit, n, q);
    if n == 0 {
      ZeroIsKept(limit as real, q);
    } else if n == 1 {
      PositiveQuotientStaysPositive(total, limit as real, limit, q);
    } else {
      RemainderIsNotRoundedAway(total, limit, n - 1, q);
    }
    CeilBetween(q, n);
  }

  lemma ExactForLargeLimits(total: int, limit: int, limitF: real, q: real)
    requires 0 <= total < LIMIT53 < limit && limitF != 0.0 && Rounds(limit as real, limitF)
    requires Rounds(total as real / limitF, q)
    ensures Ceil(q) == CeilDiv(total, limit)
  {
    FewPages(total, limit);
    SmallIntsAreFloats(LIMIT53);
    RoundingIsMonotone(limit as real, limitF, LIMIT53 as real);
    if total == 0 {
      ZeroIsKept(limitF, q);
      CeilBetween(q, 0);
    } else {
      BelowOneIsKept(total, limitF, q);
      LargeLimitStaysBounded(limit, limitF);
      PositiveQuotientStaysPositive(total, limitF, 2 * limit, q);
      CeilBetween(q, 1);
    }
  }

  /**
   * The page count computed in floating point is the exact integer ceiling, for
   * every total below 2^53 and every limit.
   */
  lemma CeilingIsExact(total: int, limit: int, totalF: real, limitF: real, q: real)
    requires 0 <= total < LIMIT53 && 1 <= limit
    requires Rounds(total as real, totalF) && Rounds(limit as real, limitF)
    requires limitF != 0.0 && Rounds(totalF / limitF, q)
    ensures Ceil(q) == CeilDiv(total, limit)
  {
    RoundingIsExactOnInts(total, totalF);
    if limit <= LIMIT53 {
      RoundingIsExactOnInts(limit, limitF);
      ExactForSmallLimits(total, limit, q);
    } else {
      ExactForLargeLimits(total, limit, limitF, q);
    }
  }

  lemma ZeroIsKept(divisor: real, q: real)
    requires divisor >= 1.0 && Rounds(0.0 / divisor, q)
    ensures q == 0.0
  {
    SmallIntsAreFloats(0);
    RoundingIsMonotone(0.0 / divisor, q, 0.0);
  }

  /** Rounding at most doubles: zero would be nearer than anything beyond. */
  lemma LargeLimitStaysBounded(limit: int, limitF: real)
    requires limit >= 1 && Rounds(limit as real, limitF)
    ensures limitF <= (2 * limit) as real
  {
    SmallIntsAreFloats(0);
    assert Abs(limit as real - limitF) <= Abs(limit as real - 0.0);
  }

  /** Above 2^53 only even integers are representable. */
  lemma NothingJustAbove(x: real)
    requires IsFloat(x) && x > LIMIT53 as real
    ensures x >= (LIMIT53 + 2) as real
  {
    var m: int, n: nat :| -LIMIT53 <= m <= LIMIT53 && IsScaled(x, m, n);
    assert x * Pow2(n) as real >= x;
    assert n != 0 && x == (m * Pow2(n)) as real;
    assert m * Pow2(n) == 2 * (m * Pow2(n - 1));
  }

  /** The bound on the total is needed: float64 cannot represent 2^53 + 1. */
  lemma CeilingFailsAboveTheBound(totalF: real, q: real)
    requires Rounds((LIMIT53 + 1) as real, totalF) && Rounds(totalF / 1.0, q)
    ensures Ceil(q) != CeilDiv(LIMIT53 + 1, 1)
  {
    if q > LIMIT53 as real {
      NothingJustAbove(q);
    }
  }

  /** Such roundings exist: a tie may fall on the lower side. */
  lemma TieRoundsDown()
    ensures Rounds((LIMIT53 + 1) as real, LIMIT53 as real) && Rounds(LIMIT53 as real / 1.0, LIMIT53 as real)
  {
    SmallIntsAreFloats(LIMIT53);
    forall z | IsFloat(z) ensures Abs((LIMIT53 + 1) as real - LIMIT53 as real) <= Abs((LIMIT53 + 1) as real - z) {
      if z > LIMIT53 as real {
        NothingJustAbove(z);
      }
    }
  }

  // ---- Roundings exist ---------------------------------------------------------------

  const LIMIT52: int := 0x10_0000_0000_0000

  /** x * 2^n by doubling. */
  function Up(x: real, n: nat): real {
    if n == 0 then x else 2.0 * Up(x, n - 1)
  }

  function UpInt(a: int, n: nat): int {
    if n == 0 then a else 2 * UpInt(a, n - 1)
  }

  lemma {:induction false} UpIsTimes(x: real, n: nat)
    ensures Up(x, n) == x * Pow2(n) as real
  {
    if n != 0 {
      UpIsTimes(x, n - 1);
      Doubles(x, Pow2(n - 1), Pow2(n));
    }
  }

  lemma Doubles(x: real, p: int, q: int)
    requires q == 2 * p
    ensures x * q as real == 2.0 * (x * p as real)
  {
  }

  lemma {:induction false} UpOfInt(a: int, n: nat)
    ensures Up(a as real, n) == UpInt(a, n) as real
  {
    if n != 0 {
      UpOfInt(a, n - 1);
    }
  }

  lemma {:induction false} UpAdds(x: real, a: nat, b: nat)
    ensures Up(Up(x, a), b) == Up(x, a + b)
  {
    if b != 0 {
      UpAdds(x, a, b - 1);
    }
  }

  lemma {:induction false} UpIsMonotone(a: real, b: real, n: nat)
    ensures a <= b <==> Up(a, n) <= Up(b, n)
  {
    if n != 0 {
      UpIsMonotone(a, b, n - 1);
    }
  }

  lemma {:induction false} UpDoubles(x: real, n: nat)
    requires x > 0.0 && n >= 1
    ensures Up(x, n) >= 2.0 * x
  {
    if n > 1 {
      UpDoubles(x, n - 1);
    }
  }

  /** Scales x up until its integer part has 53 bits. */
  lemma {:induction false} ScaleUp(x: real, d: nat, bound: nat) returns (n: nat)
    requires Up(x, d) < LIMIT53 as real && d <= bound && Up(x, bound) >= LIMIT52 as real
    ensures LIMIT52 as real <= Up(x, n) < LIMIT53 as real
    decreases bound - d
  {
    if Up(x, d) >= LIMIT52 as real {
      n := d;
    } else {
      n := ScaleUp(x, d + 1, bound);
    }
  }

  lemma SomeBound(x: real) returns (bound: nat)
    requires x > 0.0
    ensures Up(x, bound) >= LIMIT52 as real
  {
    var ratio := LIMIT52 as real / x;
    QuotientTimesDivisor(LIMIT52 as real, x);
    assert ratio >= 0.0;
    bound := ratio.Floor + 1;
    PowersGrow(bound);
    UpIsTimes(x, bound);
    AtLeast(ratio, Pow2(bound) as real, x);
  }

  lemma AtLeast(a: real, b: real, x: real)
    requires x > 0.0 && a <= b
    ensures a * x <= x * b
  {
  }

  predicate Outside(v: real, m: int) {
    v <= m as real || v >= (m + 1) as real
  }

  /** No integer lies strictly between m and m + 1. */
  lemma NoIntegerBetween(k: int, m: int)
    ensures Outside(k as real, m)
  {
    if k <= m {
      assert k as real <= m as real;
    } else {
      assert k as real >= (m + 1) as real;
    }
  }

  /** A float is an integer, or an integer of 53 bits is a multiple of it. */
  lemma FloatForms(z: real) returns (whole: bool, a: int, k: int, e: nat)
    requires IsFloat(z)
    ensures whole ==> z == a as real
    ensures !whole ==> k <= LIMIT53 && Up(z, e) == k as real
  {
    k, e :| -LIMIT53 <= k <= LIMIT53 && IsScaled(z, k, e);
    whole, a := ScaledForms(z, k, e);
  }

  lemma ScaledForms(z: real, k: int, e: nat) returns (whole: bool, a: int)
    requires IsScaled(z, k, e)
    ensures if whole then z == a as real else Up(z, e) == k as real
  {
    UpIsTimes(z, e);
    whole := z * Pow2(e) as real != k as real;
    a := k * Pow2(e);
  }

  /** With 53 bits, neighbouring significands have no representable number between them. */
  lemma NoFloatBetween(z: real, m: int, n: nat)
    requires IsFloat(z) && m >= LIMIT52
    ensures Outside(Up(z, n), m)
  {
    var whole, a, k, e := FloatForms(z);
    if whole {
      NoWholeBetween(a, m, n);
    } else {
      NoFractionBetween(z, k, e, m, n);
    }
  }

  lemma NoWholeBetween(a: int, m: int, n: nat)
    ensures Outside(Up(a as real, n), m)
  {
    UpOfInt(a, n);
    NoIntegerBetween(UpInt(a, n), m);
  }

  lemma NoFractionBetween(z: real, k: int, e: nat, m: int, n: nat)
    requires Up(z, e) == k as real && k <= LIMIT53 && m >= LIMIT52
    ensures Outside(Up(z, n), m)
  {
    if e <= n {
      UpAdds(z, e, n - e);
      UpOfInt(k, n - e);
      NoIntegerBetween(UpInt(k, n - e), m);
    } else if Up(z, n) > m as real {
      UpAdds(z, n, e - n);
      UpDoubles(Up(z, n), e - n);
    }
  }

  lemma Scaled(m: int, n: nat) returns (x: real)
    requires -LIMIT53 <= m <= LIMIT53
    ensures Up(x, n) == m as real && IsFloat(x)
  {
    x := m as real / Pow2(n) as real;
    QuotientTimesDivisor(m as real, Pow2(n) as real);
    UpIsTimes(x, n);
    assert IsScaled(x, m, n);
  }

  lemma Neighbours(x: real, m: int, n: nat) returns (lo: real, hi: real)
    requires LIMIT52 <= m < LIMIT53 && m as real <= Up(x, n) < (m + 1) as real
    ensures IsFloat(lo) && IsFloat(hi) && lo <= x <= hi
    ensures forall z :: IsFloat(z) ==> z <= lo || z >= hi
  {
    lo := Scaled(m, n);
    hi := Scaled(m + 1, n);
    UpIsMonotone(lo, x, n);
    UpIsMonotone(x, hi, n);
    forall z | IsFloat(z) ensures z <= lo || z >= hi {
      NoFloatBetween(z, m, n);
      UpIsMonotone(z, lo, n);
      UpIsMonotone(hi, z, n);
    }
  }

  /** x lies between two floats that leave no room for a third; the nearer one is a rounding. */
  lemma NearerNeighbour(x: real, lo: real, hi: real) returns (y: real)
    requires IsFloat(lo) && IsFloat(hi) && lo <= x <= hi
    requires forall z :: IsFloat(z) ==> z <= lo || z >= hi
    ensures Rounds(x, y)
  {
    y := if x - lo <= hi - x then lo else hi;
  }

  /** Every real number from 0 up to 2^53 has a rounding. */
  lemma RoundingExists(x: real) returns (y: real)
    requires 0.0 <= x <= LIMIT53 as real
    ensures Rounds(x, y)
  {
    if x == 0.0 || x == LIMIT53 as real {
      SmallIntsAreFloats(0);
      SmallIntsAreFloats(LIMIT53);
      y := x;
    } else {
      var bound := SomeBound(x);
      var n := ScaleUp(x, 0, bound);
      var lo, hi := Neighbours(x, Up(x, n).Floor, n);
      y := NearerNeighbour(x, lo, hi);
    }
  }

  /** So the page count is always computed from some quotient. */
  lemma QuotientExists(total: int, limit: int) returns (q: real)
    requires 0 <= total < LIMIT53 && 1 <= limit <= LIMIT53
    ensures Rounds(total as real, total as real) && Rounds(limit as real, limit as real)
    ensures Rounds(total as real / limit as real, q)
  {
    SmallIntsAreFloats(total);
    SmallIntsAreFloats(limit);
    var x := total as real / limit as real;
    QuotientIsNatural(total as real, limit as real);
    q := RoundingExists(x);
  }

  lemma QuotientIsNatural(a: real, b: real)
    requires a >= 0.0 && b >= 1.0
    ensures 0.0 <= a / b <= a
  {
    QuotientTimesDivisor(a, b);
    FactorIsNatural(a / b, b);
    QuotientIsBounded(a, b, a);
  }

  lemma FactorIsNatural(x: real, b: real)
    requires b > 0.0 && x * b >= 0.0
    ensures x >= 0.0
  {
  }
}
