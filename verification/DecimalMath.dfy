/**
  The fixed-point money type: `units * 10^-scale` with 64-bit units, wide intermediates
  and repeated rounding by ten until the value fits again.

  Values at different scales are compared after lifting them to one common scale `s`:
  `At(d, s)` is the value in units of 10^-s.
 */
module DecimalMath {
  import opened Wrappers

  const INT64_MAX: int := 0x7fff_ffff_ffff_ffff
  const INT64_MIN: int := -0x8000_0000_0000_0000
  const INT128_MAX: int := 0x7fff_ffff_ffff_ffff_ffff_ffff_ffff_ffff
  const INT128_MIN: int := -0x8000_0000_0000_0000_0000_0000_0000_0000

  predicate FitsInt64(x: int) { INT64_MIN <= x <= INT64_MAX }

  predicate FitsInt128(x: int) { INT128_MIN <= x <= INT128_MAX }

  type Int64 = x: int | FitsInt64(x)

  datatype Decimal = Decimal(units: Int64, scale: nat)

  function Abs(x: int): nat { if x < 0 then -x else x }

  function Max(a: nat, b: nat): nat { if a < b then b else a }

  function Pow10(p: nat): (r: nat)
    ensures r >= 1
  {
    if p == 0 then 1 else 10 * Pow10(p - 1)
  }

  lemma {:induction false} Pow10Add(a: nat, b: nat)
    ensures Pow10(a + b) == Pow10(a) * Pow10(b)
  {
    if a > 0 {
      Pow10Add(a - 1, b);
      calc {
        Pow10(a + b);
        10 * Pow10(a - 1 + b);
        10 * (Pow10(a - 1) * Pow10(b));
        10 * Pow10(a - 1) * Pow10(b);
      }
    }
  }

  /** `Pow10` as the loop computes it; a negative exponent gives 1. */
  method Pow10Wide(p: int) returns (r: int)
    ensures r == Pow10(if p < 0 then 0 else p)
  {
    r := 1;
    var i := 0;
    while i < p
      invariant 0 <= i && (i <= p || i == 0)
      invariant r == Pow10(i)
    {
      r := r * 10;
      i := i + 1;
    }
  }

  // -------------------------------------------------------------- rounding

  /** Division by ten, halves away from zero; the quotients here are of non-negative numbers. */
  function RoundDiv10(value: int): int {
    if value < 0 then -((-value + 5) / 10) else (value + 5) / 10
  }

  lemma RoundDiv10Nearest(v: int)
    ensures Abs(10 * RoundDiv10(v) - v) <= 5
    ensures RoundDiv10(10 * v) == v
    ensures RoundDiv10(-v) == -RoundDiv10(v)
  {
  }

  lemma RoundDiv10Ordered(u: int, v: int)
    requires u <= v
    ensures RoundDiv10(u) <= RoundDiv10(v)
  {
  }

  function Clamp(x: int): Int64 {
    if x > INT64_MAX then INT64_MAX else if x < INT64_MIN then INT64_MIN else x
  }

  function Normalize(units: int, scale: nat): (d: Decimal)
    ensures d.scale <= scale
    decreases scale
  {
    if !FitsInt64(units) && scale > 0 then Normalize(RoundDiv10(units), scale - 1)
    else Decimal(Clamp(units), scale)
  }

  method NormalizeWide(units: int, scale: nat) returns (d: Decimal)
    ensures d == Normalize(units, scale)
  {
    var u, s := units, scale;
    while (u > INT64_MAX || u < INT64_MIN) && s > 0
      invariant Normalize(u, s) == Normalize(units, scale)
      decreases s
    {
      u := RoundDiv10(u);
      s := s - 1;
    }
    if u > INT64_MAX {
      u := INT64_MAX;
    } else if u < INT64_MIN {
      u := INT64_MIN;
    }
    d := Decimal(u, s);
  }

  /** The value of `d` counted in units of 10^-s. */
  function At(d: Decimal, s: nat): int
    requires d.scale <= s
  {
    d.units * Pow10(s - d.scale)
  }

  lemma AtOwnScale(d: Decimal)
    ensures At(d, d.scale) == d.units
  {
    assert Pow10(0) == 1;
  }

  lemma AtLift(d: Decimal, s: nat, k: nat)
    requires d.scale <= s
    ensures At(d, s + k) == At(d, s) * Pow10(k)
  {
    var p, q := Pow10(s - d.scale), Pow10(k);
    Pow10Add(s - d.scale, k);
    assert s + k - d.scale == s - d.scale + k;
    Associate(d.units, p, q);
  }

  lemma Associate(x: int, p: int, q: int)
    ensures x * (p * q) == x * p * q
  {
  }

  lemma OrderLifts(x: int, y: int, p: nat)
    requires p >= 1
    ensures x <= y <==> x * p <= y * p
    ensures x < y <==> x * p < y * p
    ensures x == y <==> x * p == y * p
  {
    if x < y {
      assert (y - x) * p >= 1;
      assert (y - x) * p == y * p - x * p;
    }
    if y < x {
      assert (x - y) * p >= 1;
      assert (x - y) * p == x * p - y * p;
    }
  }

  /** Normalisation keeps order, even when the two sides stop at different scales. */
  lemma {:induction false} NormalizeOrdered(u: int, v: int, s: nat)
    requires u <= v
    ensures At(Normalize(u, s), s) <= At(Normalize(v, s), s)
    decreases s, 1
  {
    hide At;
    if FitsInt64(u) { AtOwnScale(Decimal(u, s)); }
    if FitsInt64(v) { AtOwnScale(Decimal(v, s)); }
    if s == 0 {
      AtOwnScale(Normalize(u, s));
      AtOwnScale(Normalize(v, s));
    } else if !FitsInt64(u) && !FitsInt64(v) {
      RoundDiv10Ordered(u, v);
      NormalizeOrdered(RoundDiv10(u), RoundDiv10(v), s - 1);
      StepDown(u, s);
      StepDown(v, s);
    } else if !FitsInt64(v) {
      StepsAbove(v, s, INT64_MAX + 1);
    } else if !FitsInt64(u) {
      StepsBelow(u, s, INT64_MIN - 1);
    }
  }

  lemma StepsAbove(v: int, s: nat, edge: int)
    requires s > 0 && edge == INT64_MAX + 1 && v >= edge
    ensures At(Normalize(v, s), s) > INT64_MAX
    decreases s, 0
  {
    hide At;
    RoundDiv10Ordered(edge, v);
    NormalizeOrdered(RoundDiv10(edge), RoundDiv10(v), s - 1);
    AtOwnScale(Decimal(RoundDiv10(edge), s - 1));
    StepDown(v, s);
  }

  lemma StepsBelow(u: int, s: nat, edge: int)
    requires s > 0 && edge == INT64_MIN - 1 && u <= edge
    ensures At(Normalize(u, s), s) < INT64_MIN
    decreases s, 0
  {
    hide At;
    RoundDiv10Ordered(u, edge);
    NormalizeOrdered(RoundDiv10(u), RoundDiv10(edge), s - 1);
    AtOwnScale(Decimal(RoundDiv10(edge), s - 1));
    StepDown(u, s);
  }

  /** One rounding step seen from the scale above. */
  lemma StepDown(u: int, s: nat)
    requires !FitsInt64(u) && s > 0
    ensures At(Normalize(u, s), s) == 10 * At(Normalize(RoundDiv10(u), s - 1), s - 1)
  {
    AtLift(Normalize(RoundDiv10(u), s - 1), s - 1, 1);
    assert Pow10(1) == 10;
  }

  /** Writing the same number with more zero digits does not change the result's value. */
  lemma {:induction false} NormalizeLift(u: int, s: nat, k: nat)
    ensures At(Normalize(u * Pow10(k), s + k), s + k) == At(Normalize(u, s), s) * Pow10(k)
    decreases k
  {
    hide At;
    if k > 0 {
      var v := u * Pow10(k - 1);
      NormalizeLift(u, s, k - 1);
      LiftOnce(v, s + k - 1);
      Tenfold(u, Pow10(k - 1));
      Tenfold(At(Normalize(u, s), s), Pow10(k - 1));
    }
  }

  lemma Tenfold(x: int, p: int)
    ensures x * (10 * p) == 10 * (x * p)
  {
  }

  lemma LiftOnce(v: int, s: nat)
    ensures At(Normalize(10 * v, s + 1), s + 1) == 10 * At(Normalize(v, s), s)
  {
    assert Pow10(1) == 10;
    if FitsInt64(10 * v) {
      assert Normalize(10 * v, s + 1) == Decimal(10 * v, s + 1);
      assert Normalize(v, s) == Decimal(v, s);
      assert Pow10(0) == 1;
    } else {
      StepDown(10 * v, s + 1);
      RoundDiv10Nearest(v);
    }
  }

  // ------------------------------------------------------------ operations

  function Align(d: Decimal, target: nat): int {
    if target <= d.scale then d.units else d.units * Pow10(target - d.scale)
  }

  function Add(a: Decimal, b: Decimal): Decimal {
    var scale := Max(a.scale, b.scale);
    Normalize(Align(a, scale) + Align(b, scale), scale)
  }

  function Sub(a: Decimal, b: Decimal): Decimal {
    var scale := Max(a.scale, b.scale);
    Normalize(Align(a, scale) - Align(b, scale), scale)
  }

  function Mul(a: Decimal, b: Decimal): Decimal {
    Normalize(a.units * b.units, a.scale + b.scale)
  }

  function Cmp(a: Decimal, b: Decimal): int {
    var scale := Max(a.scale, b.scale);
    var lhs, rhs := Align(a, scale), Align(b, scale);
    if lhs < rhs then -1 else if lhs > rhs then 1 else 0
  }

  function MinOf(a: Decimal, b: Decimal): Decimal { if Cmp(a, b) <= 0 then a else b }

  function MaxOf(a: Decimal, b: Decimal): Decimal { if Cmp(a, b) >= 0 then a else b }

  /** `Cmp` is the order of the values, at whatever common scale they are written. */
  lemma CmpIsOrder(a: Decimal, b: Decimal, s: nat)
    requires Max(a.scale, b.scale) <= s
    ensures Cmp(a, b) <= 0 <==> At(a, s) <= At(b, s)
    ensures Cmp(a, b) >= 0 <==> At(a, s) >= At(b, s)
    ensures Cmp(a, b) == 0 <==> At(a, s) == At(b, s)
  {
    var m := Max(a.scale, b.scale);
    AtLift(a, m, s - m);
    AtLift(b, m, s - m);
    AlignIsAt(a, m);
    AlignIsAt(b, m);
    OrderLifts(At(a, m), At(b, m), Pow10(s - m));
  }

  lemma AlignIsAt(d: Decimal, s: nat)
    requires d.scale <= s
    ensures Align(d, s) == At(d, s)
  {
    assert Pow10(0) == 1;
  }

  /** Comparison is transitive across three different scales. */
  lemma CmpTransitive(a: Decimal, b: Decimal, c: Decimal)
    requires Cmp(a, b) <= 0 && Cmp(b, c) <= 0
    ensures Cmp(a, c) <= 0
    ensures Cmp(a, c) == 0 <==> Cmp(a, b) == 0 && Cmp(b, c) == 0
  {
    var s := a.scale + b.scale + c.scale;
    CmpIsOrder(a, b, s);
    CmpIsOrder(b, c, s);
    CmpIsOrder(a, c, s);
  }

  lemma Distribute(x: int, y: int, p: int)
    ensures (x + y) * p == x * p + y * p && (x - y) * p == x * p - y * p
  {
  }

  /** A sum seen from any scale at least as fine as both operands. */
  lemma AddAt(a: Decimal, b: Decimal, s: nat)
    requires Max(a.scale, b.scale) <= s
    ensures Add(a, b).scale <= s
    ensures At(Add(a, b), s) == At(Normalize(At(a, s) + At(b, s), s), s)
  {
    hide At, Normalize, Align;
    var m := Max(a.scale, b.scale);
    var k := s - m;
    AlignIsAt(a, m);
    AlignIsAt(b, m);
    AtLift(a, m, k);
    AtLift(b, m, k);
    Distribute(At(a, m), At(b, m), Pow10(k));
    NormalizeLift(At(a, m) + At(b, m), m, k);
    AtLift(Add(a, b), m, k);
  }

  lemma SubAt(a: Decimal, b: Decimal, s: nat)
    requires Max(a.scale, b.scale) <= s
    ensures Sub(a, b).scale <= s
    ensures At(Sub(a, b), s) == At(Normalize(At(a, s) - At(b, s), s), s)
  {
    hide At, Normalize, Align;
    var m := Max(a.scale, b.scale);
    var k := s - m;
    AlignIsAt(a, m);
    AlignIsAt(b, m);
    AtLift(a, m, k);
    AtLift(b, m, k);
    Distribute(At(a, m), At(b, m), Pow10(k));
    NormalizeLift(At(a, m) - At(b, m), m, k);
    AtLift(Sub(a, b), m, k);
  }

  /** Adding the same amount, or subtracting it, keeps order: any scales, saturation included. */
  lemma AddSubKeepOrder(a: Decimal, b: Decimal, c: Decimal)
    requires Cmp(a, b) <= 0
    ensures Cmp(Add(a, c), Add(b, c)) <= 0
    ensures Cmp(Sub(a, c), Sub(b, c)) <= 0
    ensures Cmp(Sub(c, b), Sub(c, a)) <= 0
  {
    hide At, Add, Sub, Cmp, Normalize;
    var s := a.scale + b.scale + c.scale;
    CmpIsOrder(a, b, s);
    AddAt(a, c, s);
    AddAt(b, c, s);
    SubAt(a, c, s);
    SubAt(b, c, s);
    SubAt(c, a, s);
    SubAt(c, b, s);
    NormalizeOrdered(At(a, s) + At(c, s), At(b, s) + At(c, s), s);
    NormalizeOrdered(At(a, s) - At(c, s), At(b, s) - At(c, s), s);
    NormalizeOrdered(At(c, s) - At(b, s), At(c, s) - At(a, s), s);
    CmpIsOrder(Add(a, c), Add(b, c), s);
    CmpIsOrder(Sub(a, c), Sub(b, c), s);
    CmpIsOrder(Sub(c, b), Sub(c, a), s);
  }

  /** A value equal in `Cmp` may replace another everywhere: results are equal in `Cmp` too. */
  lemma EqualOperandsEqualSums(a: Decimal, b: Decimal, c: Decimal)
    requires Cmp(a, b) == 0
    ensures Cmp(Add(a, c), Add(b, c)) == 0
    ensures Cmp(Sub(a, c), Sub(b, c)) == 0
  {
    var s := a.scale + b.scale + c.scale;
    CmpIsOrder(a, b, s);
    AddAt(a, c, s);
    AddAt(b, c, s);
    SubAt(a, c, s);
    SubAt(b, c, s);
    CmpIsOrder(Add(a, c), Add(b, c), s);
    CmpIsOrder(Sub(a, c), Sub(b, c), s);
  }

  lemma MinMaxPick(a: Decimal, b: Decimal, s: nat)
    requires Max(a.scale, b.scale) <= s
    ensures var lo, hi := MinOf(a, b), MaxOf(a, b);
            && At(lo, s) <= At(a, s) <= At(hi, s)
            && At(lo, s) <= At(b, s) <= At(hi, s)
            && At(lo, s) + At(hi, s) == At(a, s) + At(b, s)
  {
    CmpIsOrder(a, b, s);
  }

  // --------------------------------------------------------- rounding error

  /** Largest magnitude that `s` rounding steps bring down to at most `m`. */
  function Reach(m: nat, s: nat): nat {
    if s == 0 then m else 10 * Reach(m, s - 1) + 4
  }

  lemma {:induction false} ReachClosedForm(m: nat, s: nat)
    ensures 9 * Reach(m, s) == (9 * m + 4) * Pow10(s) - 4
  {
    if s > 0 { ReachClosedForm(m, s - 1); }
  }

  /** The result is clamped, rather than rounded. */
  predicate Saturates(u: int, s: nat)
    decreases s
  {
    if FitsInt64(u) then false
    else if s == 0 then true
    else Saturates(RoundDiv10(u), s - 1)
  }

  /** Exactly which inputs saturate, and to which end. */
  lemma {:induction false} SaturationThreshold(u: int, s: nat)
    ensures Saturates(u, s) <==> u > Reach(INT64_MAX, s) || u < -(Reach(-INT64_MIN, s) as int)
    ensures u > Reach(INT64_MAX, s) ==> Normalize(u, s) == Decimal(INT64_MAX, 0)
    ensures u < -(Reach(-INT64_MIN, s) as int) ==> Normalize(u, s) == Decimal(INT64_MIN, 0)
    decreases s
  {
    ReachGrows(INT64_MAX, s);
    ReachGrows(-INT64_MIN, s);
    if !FitsInt64(u) && s > 0 {
      SaturationThreshold(RoundDiv10(u), s - 1);
    }
  }

  lemma {:induction false} ReachGrows(m: nat, s: nat)
    ensures Reach(m, s) >= m
  {
    if s > 0 { ReachGrows(m, s - 1); }
  }

  /** Twice rounded is off by at most 5 + 50 + ... : less than 5/9 of a unit of the result. */
  lemma {:induction false} NormalizeError(u: int, s: nat)
    requires !Saturates(u, s)
    ensures var d := Normalize(u, s);
            9 * Abs(At(d, s) - u) <= 5 * (Pow10(s - d.scale) - 1)
    decreases s
  {
    assert Pow10(0) == 1;
    if !FitsInt64(u) {
      var v := RoundDiv10(u);
      NormalizeError(v, s - 1);
      StepDown(u, s);
      RoundDiv10Nearest(u);
    }
  }

  /** A result that fits is returned unchanged; otherwise the error is below 5/9 ulp. */
  ghost predicate RoundedFrom(d: Decimal, u: int, s: nat) {
    && d.scale <= s
    && (FitsInt64(u) ==> d == Decimal(u, s))
    && (!Saturates(u, s) ==> 9 * Abs(At(d, s) - u) < 5 * Pow10(s - d.scale))
    && (Saturates(u, s) ==> d == Decimal(if u > 0 then INT64_MAX else INT64_MIN, 0))
  }

  lemma NormalizeRounds(u: int, s: nat)
    ensures RoundedFrom(Normalize(u, s), u, s)
  {
    SaturationThreshold(u, s);
    if !Saturates(u, s) { NormalizeError(u, s); }
  }

  /** Sum, difference and product are the exact result, rounded. */
  lemma AddSubMulRound(a: Decimal, b: Decimal)
    ensures var s := Max(a.scale, b.scale);
            && RoundedFrom(Add(a, b), At(a, s) + At(b, s), s)
            && RoundedFrom(Sub(a, b), At(a, s) - At(b, s), s)
    ensures RoundedFrom(Mul(a, b), a.units * b.units, a.scale + b.scale)
  {
    var s := Max(a.scale, b.scale);
    AlignIsAt(a, s);
    AlignIsAt(b, s);
    NormalizeRounds(At(a, s) + At(b, s), s);
    NormalizeRounds(At(a, s) - At(b, s), s);
    NormalizeRounds(a.units * b.units, a.scale + b.scale);
  }

  /** Half a unit is not a bound: 100..0.45 rounds to 100..0.5 and then to 100..1. */
  lemma HalfUlpIsExceeded()
    ensures Normalize(1_000_000_000_000_000_000_45, 2) == Decimal(1_000_000_000_000_000_001, 0)
    ensures 2 * (At(Normalize(1_000_000_000_000_000_000_45, 2), 2) - 1_000_000_000_000_000_000_45) > Pow10(2)
  {
    assert RoundDiv10(1_000_000_000_000_000_000_45) == 10_000_000_000_000_000_005;
    assert RoundDiv10(10_000_000_000_000_000_005) == 1_000_000_000_000_000_001;
    assert Pow10(2) == 10 * Pow10(1) == 100;
  }

  /** `k` rounding steps in a row. */
  function RoundedTimes(u: int, k: nat): int
    decreases k
  {
    if k == 0 then u else RoundedTimes(RoundDiv10(u), k - 1)
  }

  lemma {:induction false} NormalizeIsRounding(u: int, s: nat)
    requires !Saturates(u, s)
    ensures Normalize(u, s).units == RoundedTimes(u, s - Normalize(u, s).scale)
    decreases s
  {
    if !FitsInt64(u) { NormalizeIsRounding(RoundDiv10(u), s - 1); }
  }

  lemma {:induction false} RoundedNegates(u: int, k: nat)
    ensures RoundedTimes(-u, k) == -RoundedTimes(u, k)
    decreases k
  {
    if k > 0 {
      RoundDiv10Nearest(u);
      RoundedNegates(RoundDiv10(u), k - 1);
    }
  }

  /** A power of ten leaves one when divided by nine. */
  lemma {:induction false} NinesAndOne(k: nat) returns (w: nat)
    ensures Pow10(k) == 9 * w + 1
  {
    if k == 0 {
      w := 0;
    } else {
      var x := NinesAndOne(k - 1);
      w := 10 * x + 1;
    }
  }

  lemma OneStep(x: int, r: nat)
    requires x >= 0
    ensures RoundDiv10(10 * x + r) == x + r / 10 + (if r % 10 >= 5 then 1 else 0)
  {
  }

  /** `v` followed by `k` zero digits. */
  function Shifted(v: int, k: nat): int { v * Pow10(k) }

  lemma ShiftedOnce(v: int, k: nat)
    requires k > 0
    ensures Shifted(v, k) == 10 * Shifted(v, k - 1)
    ensures Shifted(v + 1, k) == Shifted(v, k) + Pow10(k)
    ensures Shifted(v + 1, k - 1) == Shifted(v, k - 1) + Pow10(k - 1)
    ensures v >= 0 ==> Shifted(v, k - 1) >= 0
  {
    Tenfold(v, Pow10(k - 1));
    Distribute(v, 1, Pow10(k));
    Distribute(v, 1, Pow10(k - 1));
  }

  /**
    A run of roundings carries into the kept digits exactly when the dropped ones are
    more than 44..4; `w` is 11..1.
   */
  lemma {:induction false} CarryAfterRun(v: nat, r: nat, k: nat, w: nat)
    requires r < Pow10(k) && Pow10(k) == 9 * w + 1
    ensures RoundedTimes(Shifted(v, k) + r, k) == if r > 4 * w then v + 1 else v
    decreases k
  {
    if k == 0 {
      assert Pow10(0) == 1;
    } else {
      Pow10Step(k);
      ShiftedOnce(v, k);
      var x := NinesAndOne(k - 1);
      var up: nat := if r % 10 >= 5 then 1 else 0;
      var next := r / 10 + up;
      OneStep(Shifted(v, k - 1), r);
      CarryStep(x, r / 10, r % 10, up);
      hide RoundDiv10, Pow10, Shifted;
      RunOnce(Shifted(v, k) + r, Shifted(v, k - 1) + next, k);
      hide RoundedTimes;
      if next == Pow10(k - 1) {
        CarryAfterRun(v + 1, 0, k - 1, x);
      } else {
        CarryAfterRun(v, next, k - 1, x);
      }
    }
  }

  lemma RunOnce(u: int, next: int, k: nat)
    requires k > 0 && RoundDiv10(u) == next
    ensures RoundedTimes(u, k) == RoundedTimes(next, k - 1)
  {
  }

  /** One more dropped digit lengthens the threshold by one four. */
  lemma CarryStep(x: nat, q: nat, e: nat, up: nat)
    requires e < 10 && up == (if e >= 5 then 1 else 0) && q < 9 * x + 1
    ensures q + up <= 9 * x + 1
    ensures q + up > 4 * x <==> 10 * q + e > 4 * (10 * x + 1)
  {
  }

  lemma Pow10Step(k: nat)
    requires k > 0
    ensures Pow10(k) == 10 * Pow10(k - 1)
  {
  }

  lemma SplitBy(u: nat, p: nat) returns (v: nat, r: nat)
    requires p > 0
    ensures u == v * p + r && r < p && r == u % p
  {
    v, r := u / p, u % p;
    DivModSum(u, p);
  }

  lemma SignedError(u: int, c: int, p: nat)
    ensures Abs((if u < 0 then -c else c) * p - u) == Abs(c * p - Abs(u))
  {
    assert -c * p == -(c * p);
  }

  lemma CarriedError(v: nat, r: nat, p: nat, w: nat, c: nat)
    requires p == 9 * w + 1 && r < p && (p == 1 || p >= 10) && c == if r > 4 * w then v + 1 else v
    ensures 2 * Abs(c * p - (v * p + r)) <= p <==> (9 * r < 4 * p + 5 || 2 * r >= p)
  {
    assert (v + 1) * p == v * p + p;
  }

  /**
    Exactly when repeated rounding meets half a unit of the result: the dropped digits stay
    below 44..45, where the run starts to carry, or are at least one half.
   */
  lemma HalfUnitIff(u: int, s: nat)
    requires !Saturates(u, s)
    ensures var d := Normalize(u, s);
            var p := Pow10(s - d.scale);
            var r := Abs(u) % p;
            2 * Abs(At(d, s) - u) <= p <==> (9 * r < 4 * p + 5 || 2 * r >= p)
  {
    var d := Normalize(u, s);
    var k: nat := s - d.scale;
    var p := Pow10(k);
    NormalizeIsRounding(u, s);
    RoundedNegates(Abs(u), k);
    hide Normalize, RoundedTimes, Saturates;
    var v, r := SplitBy(Abs(u), p);
    var w := NinesAndOne(k);
    CarryAfterRun(v, r, k, w);
    var c := RoundedTimes(Abs(u), k);
    SignedError(u, c, p);
    TenOrMore(k);
    CarriedError(v, r, p, w, c);
  }

  /** The number of dropped digits from the amount alone: the fewest that do not saturate. */
  lemma {:induction false} DigitsDropped(u: int, s: nat, k: nat)
    requires k <= s && !Saturates(u, k) && (k > 0 ==> Saturates(u, k - 1))
    ensures !Saturates(u, s) && Normalize(u, s).scale == s - k
    decreases k
  {
    if k > 0 { DigitsDropped(RoundDiv10(u), s - 1, k - 1); }
  }

  /** So for any amount the half-unit condition can be read off before rounding. */
  lemma HalfUnitOfAmountIff(u: int, s: nat, k: nat)
    requires k <= s && !Saturates(u, k) && (k > 0 ==> Saturates(u, k - 1))
    ensures var p, r := Pow10(k), Abs(u) % Pow10(k);
            2 * Abs(At(Normalize(u, s), s) - u) <= p <==> (9 * r < 4 * p + 5 || 2 * r >= p)
  {
    DigitsDropped(u, s, k);
    HalfUnitIff(u, s);
    hide Normalize, Saturates, Pow10;
  }

  lemma TenOrMore(k: nat)
    ensures Pow10(k) == 1 || Pow10(k) >= 10
  {
  }

  /** Subtracting what was added gives the first operand back, unless the sum was rounded. */
  lemma SubUndoesAdd(a: Decimal, b: Decimal)
    requires var s := Max(a.scale, b.scale); FitsInt64(At(a, s) + At(b, s))
    ensures Cmp(Sub(Add(a, b), b), a) == 0
  {
    var s := Max(a.scale, b.scale);
    AddSubMulRound(a, b);
    assert Pow10(0) == 1;
    assert At(Add(a, b), s) == At(a, s) + At(b, s);
    SubAt(Add(a, b), b, s);
    var k := s - a.scale;
    NormalizeLift(a.units, a.scale, k);
    assert Normalize(a.units, a.scale) == a;
    CmpIsOrder(Sub(Add(a, b), b), a, s);
  }

  // --------------------------------------------------------------- division

  /** `num/den` to the nearest integer, halves away from zero. */
  function RoundQuotient(num: int, den: int): int
    requires den != 0
  {
    var q: int := RoundMagnitude(Abs(num), Abs(den));
    if (num < 0) != (den < 0) then -q else q
  }

  function RoundMagnitude(n: nat, d: nat): nat
    requires d > 0
  {
    if 2 * (n % d) >= d then n / d + 1 else n / d
  }

  /** Division with an explicit result scale; dividing by zero is the division's exception. */
  function Div(a: Decimal, b: Decimal, scale: nat): Option<Decimal> {
    if b.units == 0 then None
    else
      var k := scale - a.scale + b.scale;
      var num := if k >= 0 then a.units * Pow10(k) else a.units;
      var den := if k >= 0 then b.units else b.units * Pow10(-k);
      assert den != 0 by { if k < 0 { OrderLifts(b.units, 0, Pow10(-k)); } }
      Some(Normalize(RoundQuotient(num, den), scale))
  }

  method Divide(a: Decimal, b: Decimal, resultScale: nat) returns (r: Option<Decimal>)
    ensures r == Div(a, b, resultScale)
  {
    if b.units == 0 {
      return None;
    }
    var k := resultScale - a.scale + b.scale;
    var num: int, den: int := a.units, b.units;
    if k >= 0 {
      var p := Pow10Wide(k);
      num := num * p;
    } else {
      var p := Pow10Wide(-k);
      OrderLifts(b.units, 0, p);
      den := den * p;
    }
    var negative := (num < 0) != (den < 0);
    var absNum, absDen := if num < 0 then -num else num, if den < 0 then -den else den;
    var quotient, remainder := absNum / absDen, absNum % absDen;
    if 2 * remainder >= absDen {
      quotient := quotient + 1;
    }
    var d := NormalizeWide(if negative then -quotient else quotient, resultScale);
    r := Some(d);
  }

  lemma RoundQuotientNearest(num: int, den: int)
    requires den != 0
    ensures 2 * Abs(RoundQuotient(num, den) * den - num) <= Abs(den)
  {
    NearestMagnitude(Abs(num), Abs(den));
    SignedProduct(num, den, RoundMagnitude(Abs(num), Abs(den)), Abs(num), Abs(den));
  }

  lemma NearestMagnitude(n: nat, d: nat)
    requires d > 0
    ensures var q: int := RoundMagnitude(n, d); 2 * Abs(q * d - n) <= d
  {
    var w, m := n / d, n % d;
    DivModSum(n, d);
    hide RoundMagnitude;
    if 2 * m >= d {
      assert RoundMagnitude(n, d) == w + 1 by { RoundMagnitudeIs(n, d); }
      assert (w + 1) * d == w * d + d;
    } else {
      assert RoundMagnitude(n, d) == w by { RoundMagnitudeIs(n, d); }
    }
  }

  lemma RoundMagnitudeIs(n: nat, d: nat)
    requires d > 0
    ensures RoundMagnitude(n, d) == if 2 * (n % d) >= d then n / d + 1 else n / d
  {
  }

  lemma DivModSum(n: nat, d: nat)
    requires d > 0
    ensures n == n / d * d + n % d && n % d < d
  {
  }

  lemma SignedProduct(num: int, den: int, q: int, n: int, d: int)
    requires den != 0 && n == Abs(num) && d == Abs(den)
    ensures var r := if (num < 0) != (den < 0) then -q else q;
            r * den - num == if num < 0 then -(q * d - n) else q * d - n
  {
    if den < 0 { assert q * -d == -(q * d) && -q * -d == q * d; }
    else { assert -q * d == -(q * d); }
  }

  /** The fraction the code divides is `a/b * 10^scale`: both cross products share one factor. */
  lemma DivFraction(a: Decimal, b: Decimal, scale: nat) returns (num: int, den: int, c: nat)
    requires b.units != 0
    ensures den != 0 && c >= 1
    ensures Div(a, b, scale) == Some(Normalize(RoundQuotient(num, den), scale))
    ensures (num < 0 <==> a.units < 0) && (num > 0 <==> a.units > 0) && (den < 0 <==> b.units < 0)
    ensures a.units * Pow10(scale + b.scale) == num * c
    ensures b.units * Pow10(a.scale) == den * c
    ensures a.scale == scale + b.scale ==> num == a.units && den == b.units
  {
    var k := scale - a.scale + b.scale;
    if k >= 0 {
      num, den, c := a.units * Pow10(k), b.units, Pow10(a.scale);
      Pow10Add(k, a.scale);
      Associate(a.units, Pow10(k), Pow10(a.scale));
      assert k + a.scale == scale + b.scale;
      OrderLifts(a.units, 0, Pow10(k));
      OrderLifts(0, a.units, Pow10(k));
    } else {
      num, den, c := a.units, b.units * Pow10(-k), Pow10(scale + b.scale);
      Pow10Add(-k, scale + b.scale);
      Associate(b.units, Pow10(-k), Pow10(scale + b.scale));
      assert -k + (scale + b.scale) == a.scale;
      OrderLifts(b.units, 0, Pow10(-k));
    }
    assert Pow10(0) == 1;
  }

  lemma TwoRoundings(at: int, q: int, num: int, den: int, p: nat)
    requires den != 0 && 2 * Abs(q * den - num) <= Abs(den) && 9 * Abs(at - q) <= 5 * (p - 1)
    ensures 9 * Abs(at * den - num) < 5 * p * Abs(den)
  {
    var e, d := Abs(at - q), Abs(den);
    Distribute(at, q, den);
    AbsProduct(at - q, den);
    ScaledError(e, d, p);
    var x, y, f := at * den, q * den, (at - q) * den;
    assert x - num == f + (y - num);
  }

  lemma ScaledError(e: nat, d: nat, p: nat)
    requires 9 * e <= 5 * (p - 1)
    ensures 9 * (e * d) <= 5 * p * d - 5 * d
  {
    if d > 0 {
      OrderLifts(9 * e, 5 * p - 5, d);
      Associate(9, e, d);
      Distribute(5 * p, 5, d);
    }
  }

  lemma AbsProduct(x: int, y: int)
    ensures Abs(x * y) == Abs(x) * Abs(y)
  {
    if x < 0 { assert -x * y == -(x * y); }
    if y < 0 { assert x * -y == -(x * y); }
    if x < 0 && y < 0 { assert -x * -y == x * y; }
  }

  /** Half a unit beyond the last quotient that rounds into range, on either side. */
  predicate Overflows(num: int, den: int, scale: nat) {
    2 * Abs(num) >= (2 * Reach(if (num < 0) == (den < 0) then INT64_MAX else -INT64_MIN, scale) + 1) * Abs(den)
  }

  lemma MagnitudeReaches(n: nat, d: nat, m: nat)
    requires d > 0
    ensures RoundMagnitude(n, d) > m <==> 2 * n >= (2 * m + 1) * d
  {
    var q := RoundMagnitude(n, d);
    MagnitudeBounds(n, d);
    hide RoundMagnitude;
    assert (2 * m + 1) * d == 2 * (m * d) + d;
    if q > m {
      OrderLifts(m + 1, q, d);
      assert (m + 1) * d == m * d + d;
    } else {
      OrderLifts(q, m, d);
    }
  }

  lemma MagnitudeBounds(n: nat, d: nat)
    requires d > 0
    ensures 2 * (RoundMagnitude(n, d) * d) - d <= 2 * n < 2 * (RoundMagnitude(n, d) * d) + d
  {
    var w, m := n / d, n % d;
    DivModSum(n, d);
    RoundMagnitudeIs(n, d);
    hide RoundMagnitude;
    assert (w + 1) * d == w * d + d;
  }

  /** The rounded quotient saturates exactly when the exact one is out of reach. */
  lemma QuotientSaturates(num: int, den: int, scale: nat)
    requires den != 0
    ensures Saturates(RoundQuotient(num, den), scale) <==> Overflows(num, den, scale)
    ensures Overflows(num, den, scale) ==>
              Normalize(RoundQuotient(num, den), scale)
              == Decimal(if (num < 0) == (den < 0) then INT64_MAX else INT64_MIN, 0)
  {
    SaturationThreshold(RoundQuotient(num, den), scale);
    MagnitudeReaches(Abs(num), Abs(den), Reach(INT64_MAX, scale));
    MagnitudeReaches(Abs(num), Abs(den), Reach(-INT64_MIN, scale));
    ReachGrows(INT64_MAX, scale);
    ReachGrows(-INT64_MIN, scale);
    hide RoundMagnitude, Saturates, Normalize, Reach;
  }

  lemma OverflowsScaled(num: int, den: int, c: nat, n: int, e: int, scale: nat)
    requires c >= 1 && n == num * c && e == den * c
    ensures Overflows(n, e, scale) <==> Overflows(num, den, scale)
  {
    var r := 2 * Reach(if (num < 0) == (den < 0) then INT64_MAX else -INT64_MIN, scale) + 1;
    OrderLifts(num, 0, c);
    OrderLifts(den, 0, c);
    AbsProduct(num, c);
    AbsProduct(den, c);
    Associate(r, Abs(den), c);
    Associate(2, Abs(num), c);
    OrderLifts(r * Abs(den), 2 * Abs(num), c);
    hide Reach;
  }

  /** `d` is within 5/9 of one of its units of `num/den`, counted in units of 10^-scale. */
  predicate NearFraction(d: Decimal, scale: nat, num: int, den: int)
    requires d.scale <= scale
  {
    9 * Abs(At(d, scale) * den - num) < 5 * Pow10(scale - d.scale) * Abs(den)
  }

  /**
    Division rounds twice, to the asked scale and then to fit, and still stays within
    5/9 of a unit of the exact quotient at the scale it returns.  It saturates, to the end
    of the right sign, exactly when the exact quotient is out of range.
   */
  lemma DivError(a: Decimal, b: Decimal, scale: nat)
    ensures Div(a, b, scale) == None <==> b.units == 0
    ensures b.units != 0 ==>
              var d := Div(a, b, scale).value;
              var num, den := a.units * Pow10(scale + b.scale), b.units * Pow10(a.scale);
              && d.scale <= scale
              && (!Overflows(num, den, scale) ==> NearFraction(d, scale, num, den))
              && (Overflows(num, den, scale) ==>
                    d == Decimal(if (a.units < 0) == (b.units < 0) then INT64_MAX else INT64_MIN, 0))
  {
    if b.units != 0 {
      var num, den, c := DivFraction(a, b, scale);
      var n, e := a.units * Pow10(scale + b.scale), b.units * Pow10(a.scale);
      hide Overflows, Normalize, RoundQuotient, Saturates, Div, NearFraction, Pow10;
      QuotientSaturates(num, den, scale);
      OverflowsScaled(num, den, c, n, e, scale);
      if !Saturates(RoundQuotient(num, den), scale) { QuotientError(num, den, c, n, e, scale); }
    }
    DivByZero(a, b, scale);
  }

  lemma DivByZero(a: Decimal, b: Decimal, scale: nat)
    ensures Div(a, b, scale) == None <==> b.units == 0
  {
  }

  lemma QuotientError(num: int, den: int, c: nat, n: int, e: int, scale: nat)
    requires den != 0 && c >= 1 && !Saturates(RoundQuotient(num, den), scale)
    requires n == num * c && e == den * c
    ensures NearFraction(Normalize(RoundQuotient(num, den), scale), scale, n, e)
  {
    var q := RoundQuotient(num, den);
    var d := Normalize(q, scale);
    RoundQuotientNearest(num, den);
    NormalizeError(q, scale);
    var p := Pow10(scale - d.scale);
    hide Normalize, RoundQuotient, Saturates, Pow10, At;
    TwoRoundings(At(d, scale), q, num, den, p);
    CommonFactor(At(d, scale), num, den, c, p);
  }

  lemma CommonFactor(at: int, num: int, den: int, c: nat, p: nat)
    requires c >= 1 && 9 * Abs(at * den - num) < 5 * p * Abs(den)
    ensures 9 * Abs(at * (den * c) - num * c) < 5 * p * Abs(den * c)
  {
    var e := at * den - num;
    Associate(at, den, c);
    Distribute(at * den, num, c);
    assert at * (den * c) - num * c == e * c;
    AbsProduct(e, c);
    AbsProduct(den, c);
    StrictFactor(Abs(e), Abs(den), p, c);
  }

  lemma StrictFactor(e: nat, d: nat, p: nat, c: nat)
    requires c >= 1 && 9 * e < 5 * p * d
    ensures 9 * (e * c) < 5 * p * (d * c)
  {
    OrderLifts(9 * e, 5 * p * d, c);
    Associate(9, e, c);
    Associate(5 * p, d, c);
  }

  /** Dividing a product that fits by one factor returns the other, digit for digit. */
  lemma DivUndoesMul(a: Decimal, b: Decimal)
    requires b.units != 0 && FitsInt64(a.units * b.units)
    ensures Div(Mul(a, b), b, a.scale) == Some(a)
  {
    var m := Mul(a, b);
    assert m == Decimal(a.units * b.units, a.scale + b.scale);
    var num, den, c := DivFraction(m, b, a.scale);
    QuotientOfProduct(a.units, b.units);
  }

  lemma QuotientOfProduct(x: int, y: int)
    requires y != 0
    ensures RoundQuotient(x * y, y) == x
  {
    RoundQuotientNearest(x * y, y);
    hide RoundQuotient;
    NoWholeUnitOff(RoundQuotient(x * y, y), x, y);
  }

  lemma NoWholeUnitOff(r: int, x: int, y: int)
    requires y != 0 && 2 * Abs(r * y - x * y) <= Abs(y)
    ensures r == x
  {
    Distribute(r, x, y);
    AbsProduct(r - x, y);
    if Abs(r - x) >= 1 { AtLeastOnce(Abs(r - x), Abs(y)); }
  }

  lemma AtLeastOnce(e: nat, d: nat)
    requires e >= 1
    ensures e * d >= d
  {
    MulOrdered(1, e, d);
  }

  // ------------------------------------------------------ 128-bit headroom

  lemma Pow10Table()
    ensures Pow10(19) == 10_000_000_000_000_000_000
    ensures Pow10(20) == 100_000_000_000_000_000_000
  {
    Pow10Add(10, 9);
    Pow10Add(10, 10);
  }

  lemma {:induction false} Pow10Ordered(a: nat, b: nat)
    requires a <= b
    ensures Pow10(a) <= Pow10(b)
  {
    if a < b { Pow10Ordered(a, b - 1); }
  }

  /** While scales differ by at most 19, every intermediate of every operation fits 128 bits. */
  lemma IntermediatesFitInt128(a: Decimal, b: Decimal, k: nat)
    requires k <= 19 && Abs(a.scale - b.scale) <= 19
    ensures var s := Max(a.scale, b.scale);
            var sum, difference := Align(a, s) + Align(b, s), Align(a, s) - Align(b, s);
            && FitsInt128(Align(a, s)) && FitsInt128(Align(b, s))
            && FitsInt128(Abs(sum) + 5) && FitsInt128(Abs(difference) + 5)
    ensures FitsInt128(Abs(a.units * b.units) + 5)
    ensures FitsInt128(a.units * Pow10(k))
    ensures b.units != 0 ==> FitsInt128(2 * (Abs(a.units * Pow10(k)) % Abs(b.units)))
    ensures b.units * Pow10(k) != 0 ==> FitsInt128(2 * (Abs(a.units) % Abs(b.units * Pow10(k))))
  {
    var s := Max(a.scale, b.scale);
    assert Pow10(0) == 1;
    WideProduct(a.units, s - a.scale);
    WideProduct(b.units, s - b.scale);
    WideProduct(a.units, k);
    SquareFits(a.units, b.units);
    var x, y := a.units * Pow10(k), b.units * Pow10(k);
    if y != 0 { RemainderBelow(Abs(a.units), Abs(y)); }
    if b.units != 0 { RemainderBelow(Abs(x), Abs(b.units)); }
  }

  lemma SquareFits(x: Int64, y: Int64)
    ensures Abs(x * y) <= 0x8000_0000_0000_0000 * 0x8000_0000_0000_0000
  {
    AbsProduct(x, y);
    var p: nat, q: nat, m := Abs(x), Abs(y), 0x8000_0000_0000_0000;
    assert FitsInt64(x) && FitsInt64(y);
    MulOrdered(p, m, q);
    MulOrdered(q, m, m);
  }

  lemma MulOrdered(x: nat, y: nat, c: nat)
    requires x <= y
    ensures x * c <= y * c && c * x <= c * y
  {
    if c > 0 { OrderLifts(x, y, c); }
  }

  lemma RemainderBelow(x: nat, y: nat)
    requires y > 0
    ensures x % y <= x && x % y < y
  {
  }

  lemma WideProduct(u: Int64, k: nat)
    requires k <= 19
    ensures Abs(u * Pow10(k)) <= 0x8000_0000_0000_0000 * 10_000_000_000_000_000_000
  {
    var m := 0x8000_0000_0000_0000;
    assert FitsInt64(u);
    Pow10Table();
    Pow10Ordered(k, 19);
    AbsProduct(u, Pow10(k));
    MulOrdered(Abs(u), m, Pow10(k));
    MulOrdered(Pow10(k), Pow10(19), m);
  }

  /** Nineteen digits of alignment are safe for every amount, and twenty are not. */
  lemma AlignmentFitsIff(k: nat)
    ensures (forall d: Decimal :: FitsInt128(Align(d, d.scale + k))) <==> k <= 19
  {
    if k <= 19 {
      forall d: Decimal ensures FitsInt128(Align(d, d.scale + k)) {
        WideProduct(d.units, k);
        assert Pow10(0) == 1;
      }
    } else {
      Pow10Table();
      Pow10Ordered(20, k);
      MulOrdered(Pow10(20), Pow10(k), INT64_MAX);
      var d := Decimal(INT64_MAX, 0);
      assert !FitsInt128(Align(d, d.scale + k));
    }
  }
}
