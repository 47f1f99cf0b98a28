/** `liquidity_floor.rs`: the market-creation EMA and the funding floor read off it. */
module LiquidityFloor {
  import opened Numbers

  const HALF_LIFE: nat := 86_400
  const TWO_HALVES: nat := 172_800
  const INCREMENT: U64 := 1_000_000_000

  function Pow2(n: nat): (p: nat)
    ensures p >= 1
  {
    if n == 0 then 1 else 2 * Pow2(n - 1)
  }

  /** `i64::saturating_sub`. */
  function SaturatingSub(a: I64, b: I64): I64 {
    Max(I64_MIN, Min(I64_MAX, a - b))
  }

  /** Whole halvings, then a linear step across the current half-life. */
  function Interpolate(base: nat, rem: nat): (d: nat)
    requires rem <= TWO_HALVES
    ensures d <= base
  {
    MulLe(TWO_HALVES - rem, TWO_HALVES, base);
    Distribute(TWO_HALVES, base, 1);
    QuotientLe(base * (TWO_HALVES - rem), TWO_HALVES, base);
    base * (TWO_HALVES - rem) / TWO_HALVES
  }

  function Decayed(ema: U64, elapsed: nat): (d: U64)
    ensures d <= ema
  {
    var whole := elapsed / HALF_LIFE;
    if whole >= 64 then 0 else Interpolate(Div(ema, Pow2(whole)), elapsed % HALF_LIFE)
  }

  function DecayMarketEma(ema: U64, lastUnix: I64, now: I64): (d: U64)
    ensures d <= ema
  {
    if ema == 0 then 0 else
    var elapsed := SaturatingSub(now, lastUnix);
    if elapsed <= 0 then ema else Decayed(ema, elapsed)
  }

  function BumpedMarketEma(decayed: U64): U64 {
    Min(decayed + INCREMENT, U64_MAX)
  }

  lemma RampBelow(height: nat, pos: nat, span: nat)
    requires 0 < span && pos <= span
    ensures 0 <= height * pos && height * pos / span <= height
  {
    MulLe(0, height, pos);
    MulLe(pos, span, height);
    Distribute(span, height, 1);
    QuotientLe(height * pos, span, height);
  }

  function FundingFloor(ema: U64, threshold: U64, cap: U64, base: U64, max: U64): U64 {
    if max <= base || cap <= threshold || ema <= threshold then base
    else if ema >= cap then max
    else
      RampBelow(max - base, ema - threshold, cap - threshold);
      base + Div((max - base) * (ema - threshold), cap - threshold)
  }

  // ---- powers of two ----

  lemma {:induction false} Pow2Add(a: nat, b: nat)
    ensures Pow2(a + b) == Pow2(a) * Pow2(b)
  {
    if a == 0 {
    } else {
      Pow2Add(a - 1, b);
      Regroup2(Pow2(a - 1), Pow2(b));
    }
  }

  lemma Regroup2(a: nat, b: nat)
    ensures (2 * a) * b == 2 * (a * b)
  {
  }

  lemma {:induction false} Pow2Monotone(a: nat, b: nat)
    requires a <= b
    ensures Pow2(a) <= Pow2(b)
  {
    if a < b {
      Pow2Monotone(a, b - 1);
    }
  }

  lemma Pow2Of16()
    ensures Pow2(16) == 0x1_0000
  {
    assert Pow2(4) == 16;
    Pow2Add(4, 4);
    assert Pow2(8) == 256;
    Pow2Add(8, 8);
  }

  lemma Pow2Of64()
    ensures Pow2(64) == U64_MAX + 1
  {
    Pow2Of16();
    Pow2Add(16, 16);
    assert Pow2(32) == 0x1_0000_0000;
    Pow2Add(32, 32);
  }

  /** The 64-halving cut-off is exact: shifting a u64 that far leaves nothing. */
  lemma DecayedUniform(ema: U64, elapsed: nat)
    ensures Decayed(ema, elapsed) == Interpolate(Div(ema, Pow2(elapsed / HALF_LIFE)), elapsed % HALF_LIFE)
  {
    var whole := elapsed / HALF_LIFE;
    if whole >= 64 {
      Pow2Of64();
      Pow2Monotone(64, whole);
      QuotientLe(ema, Pow2(whole), 0);
    }
  }

  /** Whole half-lives halve exactly, as often as they elapse. */
  lemma HalvesPerHalfLife(ema: U64, k: nat)
    ensures Decayed(ema, k * HALF_LIFE) == Div(ema, Pow2(k))
  {
    var base := Div(ema, Pow2(k));
    assert k * HALF_LIFE / HALF_LIFE == k && k * HALF_LIFE % HALF_LIFE == 0;
    DecayedUniform(ema, k * HALF_LIFE);
    QuotientGe(base * TWO_HALVES, TWO_HALVES, base);
  }

  // ---- monotonicity ----

  lemma InterpolateMonotone(b1: nat, b2: nat, r1: nat, r2: nat)
    requires b1 <= b2 && r2 <= r1 <= TWO_HALVES
    ensures Interpolate(b1, r1) <= Interpolate(b2, r2)
  {
    MulLe(b1, b2, TWO_HALVES - r1);
    MulLe(TWO_HALVES - r1, TWO_HALVES - r2, b2);
    QuotientMonotone(b1 * (TWO_HALVES - r1), b2 * (TWO_HALVES - r2), TWO_HALVES);
  }

  lemma DecayMonotoneInEma(e1: U64, e2: U64, elapsed: nat)
    requires e1 <= e2
    ensures Decayed(e1, elapsed) <= Decayed(e2, elapsed)
  {
    QuotientMonotone(e1, e2, Pow2(elapsed / HALF_LIFE));
    DecayedUniform(e1, elapsed);
    DecayedUniform(e2, elapsed);
    InterpolateMonotone(Div(e1, Pow2(elapsed / HALF_LIFE)), Div(e2, Pow2(elapsed / HALF_LIFE)),
                        elapsed % HALF_LIFE, elapsed % HALF_LIFE);
  }

  lemma HalvingAcross(ema: nat, w1: nat, w2: nat)
    requires w1 < w2
    ensures Div(ema, Pow2(w2)) * 2 <= Div(ema, Pow2(w1))
  {
    var p1 := Pow2(w1);
    Pow2Add(w1 + 1, w2 - w1 - 1);
    var q := Div(ema, Pow2(w2));
    FloorBounds(ema, Pow2(w2));
    assert q * 2 * p1 <= ema by {
      Pow2Monotone(w1 + 1, w2);
      assert Pow2(w1 + 1) == 2 * p1;
      MulLe(2 * p1, Pow2(w2), q);
      Swap(q, 2, p1);
    }
    QuotientGe(ema, p1, q * 2);
  }

  lemma AcrossHalfLife(b1: nat, b2: nat, r1: nat, r2: nat)
    requires 2 * b2 <= b1 && r1 < HALF_LIFE && r2 < HALF_LIFE
    ensures Interpolate(b2, r2) <= Interpolate(b1, r1)
  {
    // b1*(2H - r1)/(2H) >= b1*H/(2H) >= b2
    MulLe(HALF_LIFE, TWO_HALVES - r1, b1);
    MulLe(2 * b2, b1, HALF_LIFE);
    assert b2 * TWO_HALVES == (2 * b2) * HALF_LIFE;
    QuotientGe(b1 * (TWO_HALVES - r1), TWO_HALVES, b2);
  }

  /** More time never leaves a larger EMA, across half-life boundaries and the cut-off included. */
  lemma DecayAntitoneInTime(ema: U64, t1: nat, t2: nat)
    requires t1 <= t2
    ensures Decayed(ema, t2) <= Decayed(ema, t1)
  {
    DecayedUniform(ema, t1);
    DecayedUniform(ema, t2);
    var w1, w2 := t1 / HALF_LIFE, t2 / HALF_LIFE;
    if w1 == w2 {
      InterpolateMonotone(Div(ema, Pow2(w1)), Div(ema, Pow2(w1)), t2 % HALF_LIFE, t1 % HALF_LIFE);
    } else {
      HalvingAcross(ema, w1, w2);
      AcrossHalfLife(Div(ema, Pow2(w1)), Div(ema, Pow2(w2)), t1 % HALF_LIFE, t2 % HALF_LIFE);
    }
  }

  // ---- splitting an idle period ----

  /** Both floors of one decay together drop less than two units of the exact value. */
  lemma DecayBracket(ema: nat, w: nat, r: nat, d: nat)
    requires r < HALF_LIFE && d == Interpolate(Div(ema, Pow2(w)), r)
    ensures d * TWO_HALVES * Pow2(w) <= ema * (TWO_HALVES - r) < (d + 2) * TWO_HALVES * Pow2(w)
  {
    var p := Pow2(w);
    var q := Div(ema, p);
    var a := TWO_HALVES - r;
    FloorBounds(ema, p);
    FloorBounds(q * a, TWO_HALVES);
    BracketArithmetic(ema, p, q, a, d);
  }

  lemma BracketArithmetic(e: nat, p: nat, q: nat, a: nat, d: nat)
    requires p > 0 && 0 < a <= TWO_HALVES
    requires q * p <= e < q * p + p
    requires d * TWO_HALVES <= q * a < d * TWO_HALVES + TWO_HALVES
    ensures d * TWO_HALVES * p <= e * a < (d + 2) * TWO_HALVES * p
  {
    MulLe(d * TWO_HALVES, q * a, p);
    MulLe(q * p, e, a);
    Swap(a, q, p);
    assert (q * p) * a == (q * a) * p by { Swap(a, q, p); Swap(p, q, a); }
    assert d * TWO_HALVES * p <= e * a;
    MulLt(e, q * p + p, a);
    Distribute(a, q * p, p);
    MulLe(q * a + a, (d + 2) * TWO_HALVES, p);
    Distribute(p, q * a, a);
  }

  /** X stands for the single-step factor; a1*a2 for the two-step factor. */
  lemma SplitFactorsWithin(r1: nat, r2: nat)
    requires r1 < HALF_LIFE && r2 < HALF_LIFE && r1 + r2 < HALF_LIFE
    ensures (TWO_HALVES - r1 - r2) * TWO_HALVES <= (TWO_HALVES - r1) * (TWO_HALVES - r2)
    ensures 8 * ((TWO_HALVES - r1) * (TWO_HALVES - r2)) <= 9 * ((TWO_HALVES - r1 - r2) * TWO_HALVES)
  {
    var s := r1 + r2;
    MulLe(0, r1, r2);
    FourProducts(r1, r2);
    MulLe(s, HALF_LIFE, s);
    assert s * s <= HALF_LIFE * s;
    assert (TWO_HALVES - r1) * (TWO_HALVES - r2) == TWO_HALVES * TWO_HALVES - TWO_HALVES * s + r1 * r2;
  }

  lemma FourProducts(a: int, b: int)
    ensures 4 * (a * b) <= (a + b) * (a + b)
  {
    assert (a + b) * (a + b) - 4 * (a * b) == (a - b) * (a - b);
  }

  lemma SplitFactorsAcross(r1: nat, r2: nat)
    requires r1 < HALF_LIFE && r2 < HALF_LIFE && r1 + r2 >= HALF_LIFE
    ensures (TWO_HALVES + HALF_LIFE - r1 - r2) * HALF_LIFE <= (TWO_HALVES - r1) * (TWO_HALVES - r2)
    ensures 8 * ((TWO_HALVES - r1) * (TWO_HALVES - r2)) <= 9 * ((TWO_HALVES + HALF_LIFE - r1 - r2) * HALF_LIFE)
  {
    var p, q := HALF_LIFE - r1, HALF_LIFE - r2;
    var s := p + q;
    MulLe(0, p, q);
    FourProducts(p, q);
    MulLe(s, HALF_LIFE, s);
    assert s * s <= HALF_LIFE * s;
    assert (HALF_LIFE + p) * (HALF_LIFE + q) == HALF_LIFE * HALF_LIFE + HALF_LIFE * s + p * q;
  }

  /** One decay over s + t, bracketed with the factor x that the two-step factor compares to. */
  ghost predicate Brackets(ema: nat, x: nat, p: nat, d: nat) {
    d * TWO_HALVES * TWO_HALVES * p <= ema * x < (d + 2) * TWO_HALVES * TWO_HALVES * p
  }

  lemma BracketsScale(ema: nat, a: nat, p: nat, d: nat)
    requires d * TWO_HALVES * p <= ema * a < (d + 2) * TWO_HALVES * p
    ensures Brackets(ema, a * TWO_HALVES, p, d)
  {
    Swap(ema, a, TWO_HALVES);
    assert ema * (a * TWO_HALVES) == (ema * a) * TWO_HALVES by { Swap(TWO_HALVES, ema, a); }
    assert d * TWO_HALVES * TWO_HALVES * p == (d * TWO_HALVES * p) * TWO_HALVES by {
      Swap(TWO_HALVES, d * TWO_HALVES, p);
    }
    assert (d + 2) * TWO_HALVES * TWO_HALVES * p == ((d + 2) * TWO_HALVES * p) * TWO_HALVES by {
      Swap(TWO_HALVES, (d + 2) * TWO_HALVES, p);
    }
  }

  lemma BracketsScaleHalf(ema: nat, a: nat, p: nat, d: nat)
    requires d * TWO_HALVES * (2 * p) <= ema * a < (d + 2) * TWO_HALVES * (2 * p)
    ensures Brackets(ema, a * HALF_LIFE, p, d)
  {
    assert ema * (a * HALF_LIFE) == (ema * a) * HALF_LIFE by { Swap(HALF_LIFE, ema, a); }
    assert d * TWO_HALVES * TWO_HALVES * p == (d * TWO_HALVES * (2 * p)) * HALF_LIFE by {
      Swap(HALF_LIFE, d * TWO_HALVES, 2 * p);
    }
    assert (d + 2) * TWO_HALVES * TWO_HALVES * p == ((d + 2) * TWO_HALVES * (2 * p)) * HALF_LIFE by {
      Swap(HALF_LIFE, (d + 2) * TWO_HALVES, 2 * p);
    }
  }

  /** One step of the lower chain: e decays to within two units of e1. */
  lemma LowerFirst(e: nat, u: nat, a1: nat, a2: nat, x: nat, e1: nat)
    requires 0 < a2 && x <= a1 * a2 && e * a1 < (e1 + 2) * u
    ensures e * x < u * ((e1 + 2) * a2)
  {
    MulLe(x, a1 * a2, e);
    Swap(e, a1, a2);
    MulLt(e * a1, (e1 + 2) * u, a2);
    Swap(e1 + 2, u, a2);
  }

  lemma LowerSecond(u: nat, a2: nat, e1: nat, e2: nat)
    requires a2 <= u && e1 * a2 < (e2 + 2) * u
    ensures (e1 + 2) * a2 <= (e2 + 4) * u
  {
    Distribute(a2, e1, 2);
    Distribute(u, e2 + 2, 2);
  }

  lemma LowerChain(e: nat, u1: nat, u2: nat, a1: nat, a2: nat, x: nat, e1: nat, e2: nat, d: nat)
    requires 0 < u1 && 0 < a2 <= u2 && x <= a1 * a2
    requires e * a1 < (e1 + 2) * u1 && e1 * a2 < (e2 + 2) * u2 && d * (u1 * u2) <= e * x
    ensures d <= e2 + 3
  {
    LowerFirst(e, u1, a1, a2, x, e1);
    LowerSecond(u2, a2, e1, e2);
    MulLe((e1 + 2) * a2, (e2 + 4) * u2, u1);
    Swap(u1, e2 + 4, u2);
    MulLePositive(u1, u2);
    CancelLt(d, e2 + 4, u1 * u2);
  }

  lemma SplitLower(e: nat, p1: nat, p2: nat, a1: nat, a2: nat, x: nat, e1: nat, e2: nat, d: nat)
    requires p1 > 0 && p2 > 0 && 0 < a2 <= TWO_HALVES && x <= a1 * a2
    requires e * a1 < (e1 + 2) * TWO_HALVES * p1
    requires e1 * a2 < (e2 + 2) * TWO_HALVES * p2
    requires Brackets(e, x, p1 * p2, d)
    ensures d <= e2 + 3
  {
    Swap(e1 + 2, TWO_HALVES, p1);
    Swap(e2 + 2, TWO_HALVES, p2);
    UnitsProduct(p1, p2, d);
    LowerChain(e, TWO_HALVES * p1, TWO_HALVES * p2, a1, a2, x, e1, e2, d);
  }

  lemma UnitsProduct(p1: nat, p2: nat, d: nat)
    ensures d * TWO_HALVES * TWO_HALVES * (p1 * p2) == d * ((TWO_HALVES * p1) * (TWO_HALVES * p2))
  {
    var p := p1 * p2;
    assert (TWO_HALVES * p1) * (TWO_HALVES * p2) == TWO_HALVES * (TWO_HALVES * p) by {
      Swap(TWO_HALVES * p1, TWO_HALVES, p2);
      Swap(p1, TWO_HALVES, p2);
    }
    assert d * TWO_HALVES * TWO_HALVES * p == d * (TWO_HALVES * (TWO_HALVES * p)) by {
      Swap(d * TWO_HALVES, TWO_HALVES, p);
      Swap(d, TWO_HALVES, TWO_HALVES * p);
    }
  }

  lemma UpperProduct(e: nat, u1: nat, u2: nat, a1: nat, a2: nat, e1: nat, e2: nat)
    requires e1 * u1 <= e * a1 && e2 * u2 <= e1 * a2
    ensures e2 * (u1 * u2) <= e * (a1 * a2)
  {
    MulLe(e2 * u2, e1 * a2, u1);
    MulLe(e1 * u1, e * a1, a2);
    Swap(e2, u1, u2);
    Swap(u1, e1, a2);
    Swap(e1, u1, a2);
    Swap(e, a1, a2);
  }

  lemma UpperChain(e: nat, u: nat, a: nat, x: nat, e2: nat, d: nat)
    requires 0 < u && 8 * a <= 9 * x && e2 * u <= e * a && e * x < (d + 2) * u
    ensures 8 * e2 <= 9 * d + 17
  {
    MulLe(8 * a, 9 * x, e);
    Swap(e, 8, a);
    Swap(e, 9, x);
    Swap(8, e2, u);
    Swap(9, d + 2, u);
    CancelLt(8 * e2, 9 * (d + 2), u);
  }

  lemma SplitUpper(e: nat, p1: nat, p2: nat, a1: nat, a2: nat, x: nat, e1: nat, e2: nat, d: nat)
    requires p1 > 0 && p2 > 0 && 8 * (a1 * a2) <= 9 * x
    requires e1 * TWO_HALVES * p1 <= e * a1
    requires e2 * TWO_HALVES * p2 <= e1 * a2
    requires Brackets(e, x, p1 * p2, d)
    ensures 8 * e2 <= 9 * d + 17
  {
    var u1, u2 := TWO_HALVES * p1, TWO_HALVES * p2;
    Swap(e1, TWO_HALVES, p1);
    Swap(e2, TWO_HALVES, p2);
    UpperProduct(e, u1, u2, a1, a2, e1, e2);
    UnitsProduct(p1, p2, d + 2);
    MulLePositive(u1, u2);
    UpperChain(e, u1 * u2, a1 * a2, x, e2, d);
  }

  lemma SplitFrom(e: nat, w1: nat, w2: nat, r1: nat, r2: nat, x: nat, e1: nat, e2: nat, d: nat)
    requires r1 < HALF_LIFE && r2 < HALF_LIFE
    requires e1 == Interpolate(Div(e, Pow2(w1)), r1) && e2 == Interpolate(Div(e1, Pow2(w2)), r2)
    requires Brackets(e, x, Pow2(w1) * Pow2(w2), d)
    requires x <= (TWO_HALVES - r1) * (TWO_HALVES - r2) && 8 * ((TWO_HALVES - r1) * (TWO_HALVES - r2)) <= 9 * x
    ensures d <= e2 + 3 && 8 * e2 <= 9 * d + 17
  {
    DecayBracket(e, w1, r1, e1);
    DecayBracket(e1, w2, r2, e2);
    SplitLower(e, Pow2(w1), Pow2(w2), TWO_HALVES - r1, TWO_HALVES - r2, x, e1, e2, d);
    SplitUpper(e, Pow2(w1), Pow2(w2), TWO_HALVES - r1, TWO_HALVES - r2, x, e1, e2, d);
  }

  /** Splitting an idle period in two is additive up to 3 units below, and 1/8 plus 17/8 above. */
  lemma SplitDecayAlmostAdditive(e: U64, s: nat, t: nat)
    ensures Decayed(e, s + t) <= Decayed(Decayed(e, s), t) + 3
    ensures 8 * Decayed(Decayed(e, s), t) <= 9 * Decayed(e, s + t) + 17
  {
    var w1, w2, r1, r2 := s / HALF_LIFE, t / HALF_LIFE, s % HALF_LIFE, t % HALF_LIFE;
    var e1 := Decayed(e, s);
    var e2, d := Decayed(e1, t), Decayed(e, s + t);
    DecayedUniform(e, s);
    DecayedUniform(e1, t);
    DecayedUniform(e, s + t);
    Pow2Add(w1, w2);
    if r1 + r2 < HALF_LIFE {
      assert (s + t) / HALF_LIFE == w1 + w2 && (s + t) % HALF_LIFE == r1 + r2;
      DecayBracket(e, w1 + w2, r1 + r2, d);
      BracketsScale(e, TWO_HALVES - r1 - r2, Pow2(w1 + w2), d);
      SplitFactorsWithin(r1, r2);
      SplitFrom(e, w1, w2, r1, r2, (TWO_HALVES - r1 - r2) * TWO_HALVES, e1, e2, d);
    } else {
      assert (s + t) / HALF_LIFE == w1 + w2 + 1 && (s + t) % HALF_LIFE == r1 + r2 - HALF_LIFE;
      DecayBracket(e, w1 + w2 + 1, r1 + r2 - HALF_LIFE, d);
      BracketsScaleHalf(e, TWO_HALVES + HALF_LIFE - r1 - r2, Pow2(w1 + w2), d);
      SplitFactorsAcross(r1, r2);
      SplitFrom(e, w1, w2, r1, r2, (TWO_HALVES + HALF_LIFE - r1 - r2) * HALF_LIFE, e1, e2, d);
    }
  }

  lemma SaturationHarmless(e: U64, n: nat)
    ensures Decayed(e, Min(n, I64_MAX)) == Decayed(e, n)
  {
    if n > I64_MAX {
      assert n / HALF_LIFE >= 64 && I64_MAX / HALF_LIFE >= 64;
    }
  }

  lemma DecayByClock(e: U64, lastUnix: I64, now: I64)
    requires lastUnix <= now
    ensures DecayMarketEma(e, lastUnix, now) == Decayed(e, now - lastUnix)
  {
    SaturationHarmless(e, now - lastUnix);
    if now == lastUnix {
      DecayedUniform(e, 0);
      FloorBounds(e * TWO_HALVES, TWO_HALVES);
      QuotientGe(e * TWO_HALVES, TWO_HALVES, e);
    }
  }

  /** The same for the timestamps `create_market` passes, where differences may saturate. */
  lemma SplitDecayByClock(e: U64, lastUnix: I64, mid: I64, now: I64)
    requires lastUnix <= mid <= now
    ensures DecayMarketEma(e, lastUnix, now) <= DecayMarketEma(DecayMarketEma(e, lastUnix, mid), mid, now) + 3
    ensures 8 * DecayMarketEma(DecayMarketEma(e, lastUnix, mid), mid, now) <= 9 * DecayMarketEma(e, lastUnix, now) + 17
  {
    DecayByClock(e, lastUnix, now);
    DecayByClock(e, lastUnix, mid);
    DecayByClock(Decayed(e, mid - lastUnix), mid, now);
    SplitDecayAlmostAdditive(e, mid - lastUnix, now - mid);
  }

  // ---- the EMA over a run of creations ----

  /** The EMA stored after one creation at `now`. */
  function AfterCreation(ema: U64, lastUnix: I64, now: I64): U64 {
    BumpedMarketEma(DecayMarketEma(ema, lastUnix, now))
  }

  /** The EMA stored after creations at the given times, from genesis. */
  function EmaAfter(times: seq<I64>): U64 {
    if |times| == 0 then 0
    else
      var before := times[..|times| - 1];
      AfterCreation(EmaAfter(before), LastOf(before), times[|times| - 1])
  }

  function LastOf(times: seq<I64>): I64 {
    if |times| == 0 then 0 else times[|times| - 1]
  }

  ghost predicate Spaced(times: seq<I64>, gap: nat) {
    forall i :: 0 < i < |times| ==> times[i] - times[i - 1] >= gap
  }

  lemma DecayOverGap(ema: U64, gap: nat)
    requires 0 < gap <= HALF_LIFE
    ensures Decayed(ema, gap) * TWO_HALVES <= ema * (TWO_HALVES - gap)
  {
    if gap < HALF_LIFE {
      assert Pow2(0) == 1;
      FloorBounds(ema * (TWO_HALVES - gap), TWO_HALVES);
    } else {
      assert Pow2(1) == 2;
      FloorBounds(ema, 2);
      MulLe(Div(ema, 2) * 2, ema, HALF_LIFE);
    }
  }

  lemma CreationKeepsBound(ema: U64, lastUnix: I64, now: I64, gap: nat)
    requires 0 < gap <= HALF_LIFE && now - lastUnix >= gap
    requires ema * gap <= TWO_HALVES * INCREMENT
    ensures AfterCreation(ema, lastUnix, now) * gap <= TWO_HALVES * INCREMENT
  {
    var d := DecayMarketEma(ema, lastUnix, now);
    if ema > 0 {
      DecayAntitoneInTime(ema, gap, SaturatingSub(now, lastUnix));
      DecayOverGap(ema, gap);
      BoundArithmetic(ema, d, gap);
    }
    MulLe(BumpedMarketEma(d), d + INCREMENT, gap);
    Distribute(gap, d, INCREMENT);
  }

  lemma BoundArithmetic(ema: nat, d: nat, gap: nat)
    requires gap <= TWO_HALVES && ema * gap <= TWO_HALVES * INCREMENT
    requires exists full: nat :: d <= full && full * TWO_HALVES <= ema * (TWO_HALVES - gap)
    ensures d * gap + INCREMENT * gap <= TWO_HALVES * INCREMENT
  {
    var full: nat :| d <= full && full * TWO_HALVES <= ema * (TWO_HALVES - gap);
    // d*gap*2H <= ema*gap*(2H - gap) <= 2H*INC*(2H - gap)
    MulLe(d, full, TWO_HALVES);
    MulLe(d * TWO_HALVES, ema * (TWO_HALVES - gap), gap);
    MulLe(ema * gap, TWO_HALVES * INCREMENT, TWO_HALVES - gap);
    Swap(gap, ema, TWO_HALVES - gap);
    Swap(gap, d, TWO_HALVES);
    assert (d * gap) * TWO_HALVES <= (INCREMENT * (TWO_HALVES - gap)) * TWO_HALVES by {
      Swap(TWO_HALVES - gap, ema, gap);
      assert (TWO_HALVES * INCREMENT) * (TWO_HALVES - gap) == (INCREMENT * (TWO_HALVES - gap)) * TWO_HALVES;
    }
    CancelLe(d * gap, INCREMENT * (TWO_HALVES - gap), TWO_HALVES);
  }

  /** However long the run, creations at least `gap` apart keep EMA * gap within 2H * INCREMENT. */
  lemma {:induction false} EmaBounded(times: seq<I64>, gap: nat)
    requires 0 < gap <= HALF_LIFE && Spaced(times, gap)
    ensures EmaAfter(times) * gap <= TWO_HALVES * INCREMENT
  {
    if |times| == 0 {
      assert 0 * gap == 0;
    } else {
      var before := times[..|times| - 1];
      EmaBounded(before, gap);
      var now := times[|times| - 1];
      if |before| == 0 {
        assert EmaAfter(times) == INCREMENT;
        MulLe(gap, TWO_HALVES, INCREMENT);
      } else {
        assert now - LastOf(before) >= gap;
        CreationKeepsBound(EmaAfter(before), LastOf(before), now, gap);
      }
    }
  }

  // ---- the funding floor ----

  lemma FloorInRange(ema: U64, threshold: U64, cap: U64, base: U64, max: U64)
    ensures base <= FundingFloor(ema, threshold, cap, base, max) <= Max(base, max)
    ensures ema <= threshold ==> FundingFloor(ema, threshold, cap, base, max) == base
    ensures threshold < cap <= ema ==> FundingFloor(ema, threshold, cap, base, max) == Max(base, max)
  {
    if !(max <= base || cap <= threshold || ema <= threshold || ema >= cap) {
      RampBelow(max - base, ema - threshold, cap - threshold);
    }
  }

  /** On the ramp the floor is the straight line from base to max, rounded down. */
  lemma FloorOnRamp(ema: U64, threshold: U64, cap: U64, base: U64, max: U64)
    requires base < max && threshold < ema < cap
    ensures var up := FundingFloor(ema, threshold, cap, base, max) - base;
            up * (cap - threshold) <= (max - base) * (ema - threshold) < (up + 1) * (cap - threshold)
  {
    RampBelow(max - base, ema - threshold, cap - threshold);
    FloorBounds((max - base) * (ema - threshold), cap - threshold);
  }

  lemma FloorMonotone(e1: U64, e2: U64, threshold: U64, cap: U64, base: U64, max: U64)
    requires e1 <= e2
    ensures FundingFloor(e1, threshold, cap, base, max) <= FundingFloor(e2, threshold, cap, base, max)
  {
    FloorInRange(e1, threshold, cap, base, max);
    FloorInRange(e2, threshold, cap, base, max);
    if !(max <= base || cap <= threshold || e1 <= threshold || e2 >= cap) {
      MulLe(e1 - threshold, e2 - threshold, max - base);
      QuotientMonotone((max - base) * (e1 - threshold), (max - base) * (e2 - threshold), cap - threshold);
    }
  }

  /** The floor `create_market` snapshots: higher for a larger stored EMA, lower the longer the protocol idled. */
  lemma SnapshotMonotone(e1: U64, e2: U64, last: I64, now1: I64, now2: I64,
                         threshold: U64, cap: U64, base: U64, max: U64)
    requires e1 <= e2 && now2 <= now1
    ensures FundingFloor(DecayMarketEma(e1, last, now1), threshold, cap, base, max)
         <= FundingFloor(DecayMarketEma(e2, last, now2), threshold, cap, base, max)
  {
    DecayTimestampsMonotone(e1, e2, last, now1, now2);
    FloorMonotone(DecayMarketEma(e1, last, now1), DecayMarketEma(e2, last, now2), threshold, cap, base, max);
  }

  lemma DecayTimestampsMonotone(e1: U64, e2: U64, last: I64, now1: I64, now2: I64)
    requires e1 <= e2 && now2 <= now1
    ensures DecayMarketEma(e1, last, now1) <= DecayMarketEma(e2, last, now2)
  {
    var t1, t2 := SaturatingSub(now1, last), SaturatingSub(now2, last);
    if e1 > 0 && t1 > 0 && t2 > 0 {
      DecayMonotoneInEma(e1, e2, t1);
      DecayAntitoneInTime(e2, t2, t1);
    }
  }
}
