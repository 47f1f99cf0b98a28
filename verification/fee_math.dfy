/** `collect_fee.rs`: the accrued-fee arithmetic, its totality and its accuracy. */
module FeeMath {
  import opened Numbers
  import opened Outcomes
  import opened State

  const BPS: nat := 10_000

  /** LP tokens to remove as the fee; 0 where the program stamps `fee_collected` and moves nothing. */
  function FeeLp(m: Market, q: Question, pool: Pool): Result<U64>
  {
    if q.denominator == 0 then Err(InvalidAccount) else
    :- Need(pool.supply != 0, InvalidAccount);
    var poolValue :- CheckedPoolValue(q, pool);
    var held :- CheckedMul(m.lpTotal, poolValue);
    FeeOn(m, Div(held, pool.supply))
  }

  function CheckedPoolValue(q: Question, pool: Pool): Result<U128>
    requires q.denominator != 0
  {
    var yesSide :- CheckedMul(pool.base, q.yes);
    var noSide :- CheckedMul(pool.quote, q.no);
    var both :- CheckedAdd(yesSide, noSide);
    Ok(Div(both, q.denominator))
  }

  function FeeOn(m: Market, realizedFull: U128): Result<U64> {
    var accrued := Max(realizedFull - m.totalContributed, 0);
    if accrued == 0 then Ok(0) else
    var gain :- CheckedMul(m.lpTotal, accrued);
    var accruedLp := Div(gain, realizedFull);
    var cut :- CheckedMul(accruedLp, m.feeBps);
    ToU64(Div(cut, BPS))
  }

  // ---- the same quantities without machine widths ----

  /** Payouts `resolve_market` can write: the denominator is the sum of the numerators. */
  predicate PaysOut(q: Question) {
    q == YES_PAYS || q == NO_PAYS || q == HALF_EACH
  }

  function PoolValue(q: Question, pool: Pool): nat
    requires PaysOut(q)
  {
    if q == YES_PAYS then pool.base
    else if q == NO_PAYS then pool.quote
    else (pool.base + pool.quote) / 2
  }

  function RealizedFull(m: Market, q: Question, pool: Pool): nat
    requires PaysOut(q) && pool.supply > 0
  {
    MulLe(0, m.lpTotal, PoolValue(q, pool));
    Div(m.lpTotal * PoolValue(q, pool), pool.supply)
  }

  function Accrued(m: Market, q: Question, pool: Pool): nat
    requires PaysOut(q) && pool.supply > 0
  {
    Max(RealizedFull(m, q, pool) - m.totalContributed, 0)
  }

  function AccruedLp(m: Market, q: Question, pool: Pool): nat
    requires PaysOut(q) && pool.supply > 0
  {
    MulLe(0, m.lpTotal, Accrued(m, q, pool));
    if Accrued(m, q, pool) == 0 then 0
    else Div(m.lpTotal * Accrued(m, q, pool), RealizedFull(m, q, pool))
  }

  /** What must hold of a market about to pay its fee; every reachable one satisfies it. */
  predicate Collectable(m: Market, q: Question, pool: Pool) {
    PaysOut(q) && 0 < m.lpTotal <= pool.supply && m.feeBps <= MAX_FEE_BPS
  }

  lemma PoolValueFits(q: Question, pool: Pool)
    requires PaysOut(q)
    ensures 0 <= PoolValue(q, pool) <= U64_MAX
    ensures pool.base * q.yes + pool.quote * q.no == PoolNumerator(q, pool) <= 2 * U64_MAX
    ensures CheckedPoolValue(q, pool) == Ok(PoolValue(q, pool))
  {
  }

  function PoolNumerator(q: Question, pool: Pool): nat
    requires PaysOut(q)
  {
    if q == YES_PAYS then pool.base else if q == NO_PAYS then pool.quote else pool.base + pool.quote
  }

  lemma RealizedFits(m: Market, q: Question, pool: Pool)
    requires Collectable(m, q, pool)
    ensures 0 <= m.lpTotal * PoolValue(q, pool) <= U128_MAX
    ensures RealizedFull(m, q, pool) <= U64_MAX
    ensures RealizedFull(m, q, pool) * pool.supply <= m.lpTotal * PoolValue(q, pool)
    ensures m.lpTotal * PoolValue(q, pool) < (RealizedFull(m, q, pool) + 1) * pool.supply
  {
    var v := PoolValue(q, pool);
    PoolValueFits(q, pool);
    ProductFitsU128(m.lpTotal, v);
    FloorBounds(m.lpTotal * v, pool.supply);
    MulLe(m.lpTotal, pool.supply, v);
    Distribute(pool.supply, v, 1);
    Distribute(pool.supply, RealizedFull(m, q, pool), 1);
    QuotientLe(m.lpTotal * v, pool.supply, v);
  }

  lemma AccruedLpBounds(m: Market, q: Question, pool: Pool)
    requires Collectable(m, q, pool) && Accrued(m, q, pool) > 0
    ensures 0 <= m.lpTotal * Accrued(m, q, pool) <= U128_MAX
    ensures 0 <= AccruedLp(m, q, pool) <= m.lpTotal
    ensures AccruedLp(m, q, pool) * RealizedFull(m, q, pool) <= m.lpTotal * Accrued(m, q, pool)
    ensures m.lpTotal * Accrued(m, q, pool) < (AccruedLp(m, q, pool) + 1) * RealizedFull(m, q, pool)
  {
    var a, r := Accrued(m, q, pool), RealizedFull(m, q, pool);
    RealizedFits(m, q, pool);
    ProductFitsU128(m.lpTotal, a);
    FloorBounds(m.lpTotal * a, r);
    MulLe(a, r, m.lpTotal);
    Distribute(r, m.lpTotal, 1);
    Distribute(r, AccruedLp(m, q, pool), 1);
    QuotientLe(m.lpTotal * a, r, m.lpTotal);
  }

  function FeeFrom(accruedLp: nat, feeBps: nat): nat {
    MulLe(0, accruedLp, feeBps);
    Div(accruedLp * feeBps, BPS)
  }

  lemma FeeFromBounds(accruedLp: nat, feeBps: nat)
    ensures BPS * FeeFrom(accruedLp, feeBps) <= accruedLp * feeBps < BPS * FeeFrom(accruedLp, feeBps) + BPS
    ensures feeBps <= MAX_FEE_BPS ==> 10 * FeeFrom(accruedLp, feeBps) <= accruedLp
  {
    FloorBounds(accruedLp * feeBps, BPS);
    if feeBps <= MAX_FEE_BPS {
      MulLe(feeBps, MAX_FEE_BPS, accruedLp);
    }
  }

  lemma FeeOnRealized(m: Market, q: Question, pool: Pool)
    requires Collectable(m, q, pool) && RealizedFull(m, q, pool) <= U64_MAX
    ensures FeeOn(m, RealizedFull(m, q, pool)) == Ok(FeeFrom(AccruedLp(m, q, pool), m.feeBps))
    ensures 10 * FeeFrom(AccruedLp(m, q, pool), m.feeBps) <= m.lpTotal
  {
    FeeFromBounds(AccruedLp(m, q, pool), m.feeBps);
    if Accrued(m, q, pool) > 0 {
      AccruedLpBounds(m, q, pool);
      ProductFitsU128(AccruedLp(m, q, pool), m.feeBps);
    }
  }

  /** No u128 or u64 step of the fee computation can overflow or divide by zero, at any u64 reserves and supply. */
  lemma FeeNeverOverflows(m: Market, q: Question, pool: Pool)
    requires Collectable(m, q, pool)
    ensures FeeLp(m, q, pool) == Ok(FeeFrom(AccruedLp(m, q, pool), m.feeBps))
    ensures 10 * FeeFrom(AccruedLp(m, q, pool), m.feeBps) <= m.lpTotal
  {
    PoolValueFits(q, pool);
    RealizedFits(m, q, pool);
    FeeOnRealized(m, q, pool);
  }

  /** The LP left to claimants is still worth at least everything contributed, despite every floor. */
  lemma PrincipalProtected(m: Market, q: Question, pool: Pool, fee: nat)
    requires Collectable(m, q, pool)
    requires FeeLp(m, q, pool) == Ok(fee) && fee > 0
    ensures fee < m.lpTotal
    ensures (m.lpTotal - fee) * PoolValue(q, pool) >= m.totalContributed * pool.supply
  {
    FeeNeverOverflows(m, q, pool);
    RealizedFits(m, q, pool);
    FeeFromBounds(AccruedLp(m, q, pool), m.feeBps);
    if Accrued(m, q, pool) > 0 {
      AccruedLpBounds(m, q, pool);
      PrincipalArithmetic(m.lpTotal, fee, RealizedFull(m, q, pool), m.totalContributed, AccruedLp(m, q, pool),
                          PoolValue(q, pool), pool.supply);
    }
  }

  lemma PrincipalArithmetic(l: nat, fee: nat, r: nat, t: nat, al: nat, p: nat, s: nat)
    requires t < r && fee <= al && fee <= l
    requires al * r <= l * (r - t) && r * s <= l * p
    ensures (l - fee) * p >= t * s
  {
    // (l - fee)*r >= l*t, and l*t*p >= t*r*s; cancel r
    MulLe(fee, al, r);
    Distribute(r, l, fee);
    Distribute(l, r, t);
    assert l * t <= (l - fee) * r;
    MulLe(l * t, (l - fee) * r, p);
    MulLe(r * s, l * p, t);
    Swap(t, r, s);
    Swap(t, l, p);
    Swap(p, l - fee, r);
    Swap(l - fee, p, r);
    Swap(l, t, p);
    assert (t * s) * r <= ((l - fee) * p) * r by {
      assert (t * s) * r == t * (r * s) by { Swap(t, s, r); }
      assert t * (l * p) == (l * t) * p;
      assert ((l - fee) * r) * p == ((l - fee) * p) * r;
    }
    CancelLe(t * s, (l - fee) * p, r);
  }

  /** The fee never exceeds its rate of the accrued value, to within one unit of SOL ... */
  lemma FeeAccurate(m: Market, q: Question, pool: Pool, fee: nat)
    requires Collectable(m, q, pool) && m.feeBps > 0
    requires FeeLp(m, q, pool) == Ok(fee)
    ensures BPS * fee <= m.feeBps * m.lpTotal
    ensures BPS * fee * PoolValue(q, pool) < m.feeBps * (Accrued(m, q, pool) + 1) * pool.supply
  {
    FeeNeverOverflows(m, q, pool);
    if Accrued(m, q, pool) == 0 {
      FeeFromBounds(0, m.feeBps);
      ZeroFee(fee, m.lpTotal, m.feeBps, pool.supply, PoolValue(q, pool));
    } else {
      AccurateFromAccrued(m, q, pool, fee);
    }
  }

  lemma ZeroFee(fee: nat, l: nat, bps: nat, s: nat, p: nat)
    requires bps > 0 && s > 0 && fee == 0
    ensures BPS * fee <= bps * l
    ensures BPS * fee * p < bps * (0 + 1) * s
  {
    MulLePositive(bps, s);
    MulLe(0, bps, l);
  }

  lemma AccurateFromAccrued(m: Market, q: Question, pool: Pool, fee: nat)
    requires Collectable(m, q, pool) && m.feeBps > 0 && Accrued(m, q, pool) > 0
    requires fee == FeeFrom(AccruedLp(m, q, pool), m.feeBps)
    ensures BPS * fee <= m.feeBps * m.lpTotal
    ensures BPS * fee * PoolValue(q, pool) < m.feeBps * (Accrued(m, q, pool) + 1) * pool.supply
  {
    RealizedFits(m, q, pool);
    AccruedLpBounds(m, q, pool);
    var l, r, a, al := m.lpTotal, RealizedFull(m, q, pool), Accrued(m, q, pool), AccruedLp(m, q, pool);
    FeeFromBounds(al, m.feeBps);
    MulLe(al, l, m.feeBps);
    AccuracyArithmetic(l, fee, r, a, al, m.feeBps, PoolValue(q, pool), pool.supply);
  }

  /** ... and falls short of its rate of the accrued LP only by what the two floors drop. */
  lemma FeeNotUndercharged(m: Market, q: Question, pool: Pool, fee: nat)
    requires Collectable(m, q, pool) && Accrued(m, q, pool) > 0
    requires FeeLp(m, q, pool) == Ok(fee)
    ensures m.feeBps * (m.lpTotal * Accrued(m, q, pool)) < (BPS * (fee + 1) + m.feeBps) * RealizedFull(m, q, pool)
  {
    FeeNeverOverflows(m, q, pool);
    AccruedLpBounds(m, q, pool);
    var al := AccruedLp(m, q, pool);
    FeeFromBounds(al, m.feeBps);
    UnderchargeArithmetic(m.lpTotal * Accrued(m, q, pool), fee, RealizedFull(m, q, pool), al, m.feeBps);
  }

  lemma UnderchargeArithmetic(la: nat, fee: nat, r: nat, al: nat, bps: nat)
    requires r > 0 && la < (al + 1) * r && al * bps < BPS * fee + BPS
    ensures bps * la < (BPS * (fee + 1) + bps) * r
  {
    MulLe(la, (al + 1) * r, bps);
    Distribute(bps, al, 1);
    MulLt(bps * (al + 1), BPS * (fee + 1) + bps, r);
    Regroup(bps, al + 1, r);
  }

  lemma AccuracyArithmetic(l: nat, fee: nat, r: nat, a: nat, al: nat, bps: nat, p: nat, s: nat)
    requires 0 < a <= r && bps > 0 && s > 0
    requires BPS * fee <= al * bps && al * r <= l * a && l * p < (r + 1) * s
    ensures BPS * fee * p < bps * (a + 1) * s
  {
    // F*r <= al*bps*r <= bps*(l*a);  F*r*p <= bps*a*(l*p) < bps*a*(r + 1)*s <= bps*(a + 1)*r*s
    var f := BPS * fee;
    var ba := bps * a;
    assert f * r <= ba * l by {
      MulLe(f, al * bps, r);
      MulLe(al * r, l * a, bps);
      assert (al * bps) * r == (al * r) * bps by { Swap(al, bps, r); Swap(bps, al, r); }
      assert (l * a) * bps == ba * l by { Swap(bps, l, a); Swap(l, bps, a); }
    }
    assert (f * p) * r <= ba * (l * p) by {
      MulLe(f * r, ba * l, p);
      Regroup(f, r, p);
      Regroup(ba, l, p);
    }
    assert ba > 0 by { MulLePositive(bps, a); }
    MulLt(l * p, (r + 1) * s, ba);
    assert (f * p) * r < ba * ((r + 1) * s);
    LastStep(bps, a, r, s);
    CancelLt(f * p, bps * (a + 1) * s, r);
  }

  lemma Regroup(x: int, y: int, z: int)
    ensures (x * y) * z == (x * z) * y == x * (y * z)
  {
  }

  lemma LastStep(bps: nat, a: nat, r: nat, s: nat)
    requires 0 < a <= r
    ensures bps * a * ((r + 1) * s) <= bps * (a + 1) * s * r
  {
    Distribute(a, r, 1);
    Distribute(r, a, 1);
    assert a * (r + 1) <= (a + 1) * r;
    var bs := bps * s;
    MulLe(a * (r + 1), (a + 1) * r, bs);
    Regroup(bps, a, (r + 1) * s);
    Regroup(bps, a + 1, s);
    Shuffle(bps, a, r + 1, s);
    Shuffle(bps, a + 1, r, s);
  }

  lemma Shuffle(b: int, a: int, r: int, s: int)
    ensures b * a * (r * s) == (a * r) * (b * s) == b * a * s * r
  {
    Regroup(b, a, s);
    Regroup(b * a, r, s);
    Swap(r, b * a, s);
    Swap(a, r, b);
    Regroup(a * r, b, s);
    Regroup(b * a, s, r);
    assert b * a == a * b;
    assert (a * r) * b == (a * b) * r by { Regroup(a, r, b); }
    assert ((a * r) * b) * s == ((a * b) * r) * s;
  }
}
