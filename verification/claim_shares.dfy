/** `claim_lp.rs`: the two share formulas, when they agree, and what flooring costs the cohort. */
module ClaimShares {
  import opened Numbers
  import opened Outcomes
  import opened State
  import opened MapSums

  function ProRataShare(lpTotal: U64, amount: U64, totalContributed: U64): Result<U64> {
    if totalContributed == 0 then Err(InvalidAccount) else
    var scaled :- CheckedMul(lpTotal, amount);
    ToU64(Div(scaled, totalContributed))
  }

  function GrossLpShare(m: Market, c: Contribution): Result<U64> {
    var scaled :- if m.activationContributed == 0 then Ok(0) else CheckedMul(m.activationLp, c.amount);
    var activation := if m.activationContributed == 0 then 0 else Div(scaled, m.activationContributed);
    var gross :- CheckedAdd(activation, c.lateLp);
    :- Need(m.grossLpTotal != 0, InvalidAccount);
    var share :- CheckedMul(m.lpTotal, gross);
    ToU64(Div(share, m.grossLpTotal))
  }

  /** `marketView.ts`: the client's figure for the same contribution. */
  function ContributorLp(c: Contribution, m: Market): nat {
    (if m.activationContributed > 0 then Portion(m.activationLp, c.amount, m.activationContributed) else 0) + c.lateLp
  }

  /** The share a claimer who is not the last takes. */
  function ShareOf(m: Market, c: Contribution): Result<U64> {
    if m.grossLpTotal == m.activationLp
    then ProRataShare(m.lpTotal, c.amount, m.totalContributed)
    else GrossLpShare(m, c)
  }

  // ---- exact values: no u128 or u64 step overflows for a record inside its market ----

  lemma ProRataExact(lpTotal: U64, amount: U64, totalContributed: U64)
    requires 0 < totalContributed && amount <= totalContributed
    ensures ProRataShare(lpTotal, amount, totalContributed) == Ok(Portion(lpTotal, amount, totalContributed))
    ensures Portion(lpTotal, amount, totalContributed) <= lpTotal
  {
    ProductFitsU128(lpTotal, amount);
    PortionLe(lpTotal, amount, totalContributed);
  }

  lemma GrossExact(m: Market, c: Contribution)
    requires 0 < m.activationContributed && c.amount <= m.activationContributed
    requires 0 < m.grossLpTotal && m.activationLp + c.lateLp <= m.grossLpTotal
    ensures ContributorLp(c, m) <= m.grossLpTotal
    ensures GrossLpShare(m, c) == Ok(Portion(m.lpTotal, ContributorLp(c, m), m.grossLpTotal))
    ensures Portion(m.lpTotal, ContributorLp(c, m), m.grossLpTotal) <= m.lpTotal
  {
    ProductFitsU128(m.activationLp, c.amount);
    PortionLe(m.activationLp, c.amount, m.activationContributed);
    var gross := ContributorLp(c, m);
    ProductFitsU128(m.lpTotal, gross);
    PortionLe(m.lpTotal, gross, m.grossLpTotal);
  }

  // ---- the mixed-cohort formula against the legacy one ----

  /** floor(L * floor(G*a/C) / G) is floor(L*a/C) or one less, and equal when L == G. */
  lemma NestedFloor(l: nat, g: nat, a: nat, c: nat)
    requires 0 < c && 0 < g && l <= g
    ensures Portion(l, a, c) - 1 <= Portion(l, Portion(g, a, c), g) <= Portion(l, a, c)
    ensures l == g ==> Portion(l, Portion(g, a, c), g) == Portion(l, a, c)
  {
    var x := Portion(g, a, c);
    var y := Portion(l, x, g);
    var z := Portion(l, a, c);
    PortionBounds(g, a, c);
    PortionBounds(l, x, g);
    PortionBounds(l, a, c);
    NestedFloorUpper(l, g, a, c, x, y, z);
    NestedFloorLower(l, g, a, c, x, y, z);
    if l == g {
      QuotientGe(l * x, g, x);
    }
  }

  lemma NestedFloorUpper(l: nat, g: nat, a: nat, c: nat, x: nat, y: nat, z: nat)
    requires 0 < c && 0 < g
    requires c * x <= g * a && g * y <= l * x && l * a < c * z + c
    ensures y <= z
  {
    // g*(c*y) = c*(g*y) <= c*(l*x) = l*(c*x) <= l*(g*a) = g*(l*a) < g*(c*(z + 1))
    MulLe(g * y, l * x, c);
    Swap(c, l, x);
    MulLe(c * x, g * a, l);
    Swap(l, g, a);
    Distribute(c, z, 1);
    MulLt(l * a, c * (z + 1), g);
    Swap(c, g, y);
    CancelTwice(g, c, y, z + 1);
  }

  lemma CancelTwice(g: nat, c: nat, y: nat, z: nat)
    requires 0 < g && 0 < c && g * (c * y) < g * (c * z)
    ensures y < z
  {
    CancelLt(c * y, c * z, g);
    CancelLt(y, z, c);
  }

  lemma NestedFloorLower(l: nat, g: nat, a: nat, c: nat, x: nat, y: nat, z: nat)
    requires 0 < c && 0 < g && l <= g
    requires g * a < c * x + c && l * x < g * y + g && c * z <= l * a
    ensures z <= y + 1
  {
    if l == 0 {
      CancelLe(z, 0, c);
    } else {
      // g*(c*z) <= g*(l*a) = l*(g*a) < l*(c*(x + 1)) = c*(l*x + l) <= c*(g*y + 2*g)
      MulLe(c * z, l * a, g);
      Swap(g, l, a);
      Distribute(c, x, 1);
      MulLt(g * a, c * (x + 1), l);
      Swap(l, c, x + 1);
      Distribute(l, x, 1);
      Distribute(g, y, 2);
      MulLe(l * (x + 1), g * (y + 2), c);
      Swap(c, g, y + 2);
      CancelTwice(g, c, z, y + 2);
    }
  }

  /** When the two floors agree: the remainders dropped on the way, weighed against each other, fall short of a unit. */
  predicate RemaindersFit(l: nat, g: nat, a: nat, c: nat)
    requires 0 < c && 0 < g
  {
    l * (g * a % c) + c * (l * Portion(g, a, c) % g) < c * g
  }

  lemma NestedFloorIff(l: nat, g: nat, a: nat, c: nat)
    requires 0 < c && 0 < g && l <= g
    ensures Portion(l, Portion(g, a, c), g) == Portion(l, a, c) <==> RemaindersFit(l, g, a, c)
  {
    var x := Portion(g, a, c);
    var y, z := Portion(l, x, g), Portion(l, a, c);
    NestedFloor(l, g, a, c);
    PortionBounds(l, a, c);
    RemainderAgainst(l, g, a, c, x, y, z, g * a % c, l * x % g);
  }

  lemma RemainderAgainst(l: nat, g: nat, a: nat, c: nat, x: nat, y: nat, z: nat, r1: nat, r2: nat)
    requires 0 < c && 0 < g && y <= z <= y + 1
    requires g * a == c * x + r1 && l * x == g * y + r2
    requires c * z <= l * a < c * z + c
    ensures y == z <==> l * r1 + c * r2 < c * g
  {
    // g*(l*a) = l*(g*a) = c*(l*x) + l*r1 = c*(g*y) + c*r2 + l*r1, and the same product lies in [c*g*z, c*g*z + c*g)
    Swap(g, l, a);
    Distribute(l, c * x, r1);
    Swap(l, c, x);
    Distribute(c, g * y, r2);
    MulLe(c * z, l * a, g);
    MulLt(l * a, c * z + c, g);
    Distribute(g, c * z, c);
    Swap(g, c, z);
    Swap(c, g, y);
    Swap(c, g, z);
    if z == y + 1 {
      Distribute(c * g, y, 1);
    }
  }

  /** A market nobody joined after activation. */
  predicate ActivationOnly(m: Market) {
    && m.grossLpTotal == m.activationLp && m.totalContributed == m.activationContributed
    && 0 < m.activationContributed && 0 < m.grossLpTotal && m.lpTotal <= m.grossLpTotal
  }

  /** There the mixed-cohort formula pays the legacy share or one unit less, exactly by the remainders, and the same
      while no fee is cut. */
  lemma MixedRefinesLegacy(m: Market, c: Contribution)
    requires ActivationOnly(m) && c.amount <= m.activationContributed && c.lateLp == 0
    ensures var mixed, legacy := GrossLpShare(m, c), ProRataShare(m.lpTotal, c.amount, m.totalContributed);
            && mixed.Ok? && legacy.Ok?
            && mixed.value == legacy.value
               - (if RemaindersFit(m.lpTotal, m.activationLp, c.amount, m.activationContributed) then 0 else 1)
            && (m.lpTotal == m.grossLpTotal ==> mixed.value == legacy.value)
            && mixed.value == Portion(m.lpTotal, ContributorLp(c, m), m.grossLpTotal)
  {
    GrossExact(m, c);
    ProRataExact(m.lpTotal, c.amount, m.totalContributed);
    NestedFloor(m.lpTotal, m.activationLp, c.amount, m.activationContributed);
    NestedFloorIff(m.lpTotal, m.activationLp, c.amount, m.activationContributed);
  }
}
