/** Claiming a whole cohort, one contributor after another, in any order. */
module ClaimOrders {
  import opened Outcomes
  import opened State
  import opened MapSums
  import opened Lifecycle
  import opened Journals
  import opened Preservation
  import opened Liveness

  /** The claims of `order`, in that order; fails if any one of them does. */
  function ClaimAll(b: Book, order: seq<Address>): Result<(Book, seq<nat>)>
    decreases |order|
  {
    if |order| == 0 then Ok((b, []))
    else
      var effect :- DoClaimLp(b, order[0]);
      var (last, rest) :- ClaimAll(effect.book, order[1..]);
      Ok((last, [effect.event.lp] + rest))
  }

  function Total(payouts: seq<nat>): nat {
    if |payouts| == 0 then 0 else payouts[0] + Total(payouts[1..])
  }

  /** Each contributor once, everyone included. */
  ghost predicate Covers(order: seq<Address>, cs: map<Address, Contribution>) {
    && |order| == |cs|
    && (forall i :: 0 <= i < |order| ==> order[i] in cs)
    && (forall i, k :: 0 <= i < k < |order| ==> order[i] != order[k])
  }

  ghost predicate ClaimsOpen(b: Book, j: Journal) {
    Inv(b, j) && (b.market.status == Resolved || b.market.status == Void) && b.market.feeCollected && j.adopted == 0
  }

  /** Floor shares for everyone but the last; the last takes the rest, under 2n units above its own floor share. */
  ghost predicate PaidFairly(b: Book, order: seq<Address>, payouts: seq<nat>, cohort: nat, stray: nat)
    requires |order| > 0 && forall i :: 0 <= i < |order| ==> order[i] in b.contributions
  {
    var n := |order| - 1;
    && |payouts| == |order|
    && (forall i :: 0 <= i < n ==> payouts[i] == ShareValue(b.market, b.contributions[order[i]]))
    && Total(payouts) == b.holdings.lpVault
    && var own := ShareValue(b.market, b.contributions[order[n]]);
       own <= payouts[n] < own + stray + 2 * cohort
  }

  /** b' is b after `who` took `lp` as a claimer who is not the last. */
  predicate ClaimedOne(b: Book, b': Book, who: Address, lp: nat) {
    && who in b.contributions && |b.contributions| > 1
    && DoClaimLp(b, who) == Ok(Live(b', LpClaimed(who, lp)))
    && b'.contributions == b.contributions - {who} && |b'.contributions| == |b.contributions| - 1
    && b'.market == b.market.(openContributions := b'.market.openContributions)
    && b'.holdings.lpVault + lp == b.holdings.lpVault
    && lp == ShareValue(b.market, b.contributions[who])
  }

  lemma OneClaim(b: Book, j: Journal, who: Address) returns (b': Book, j': Journal, lp: nat)
    requires ClaimsOpen(b, j) && who in b.contributions
    ensures DoClaimLp(b, who) == Ok(Live(b', LpClaimed(who, lp))) && j' == Post(j, LpClaimed(who, lp))
    ensures b'.contributions == b.contributions - {who} && |b'.contributions| == |b.contributions| - 1
    ensures b'.market == b.market.(openContributions := b'.market.openContributions)
    ensures b'.holdings.lpVault + lp == b.holdings.lpVault
    ensures if |b.contributions| == 1 then lp == b.holdings.lpVault
            else lp == ShareValue(b.market, b.contributions[who])
    ensures ClaimsOpen(b', j')
  {
    CountAfterDrop(b.contributions, b.contributions - {who}, who);
    CounterIsCount(b, j);
    ClaimEnabled(b, j, who);
    var e := DoClaimLp(b, who).value;
    ClaimShape(b, who);
    b', lp := e.book, e.event.lp;
    j' := Post(j, e.event);
    ClaimInv(b, j, b', j', who, lp);
  }

  lemma CounterIsCount(b: Book, j: Journal)
    requires Inv(b, j) && j.adopted == 0
    ensures b.market.openContributions == |b.contributions|
  {
  }

  lemma LastShare(b: Book, j: Journal, who: Address)
    requires ClaimsOpen(b, j) && who in b.contributions && |b.contributions| == 1
    ensures var own := ShareValue(b.market, b.contributions[who]);
            own <= b.holdings.lpVault < own + j.stray.lpVault + 2 * (|j.exits| + 1)
  {
    var shares := Shares(b.market, b.contributions);
    CounterIsCount(b, j);
    assert shares.Keys == b.contributions.Keys;
    SumSplit(shares, who);
    assert |Without(shares, who).Keys| == 0 by {
      assert Without(shares, who).Keys == shares.Keys - {who};
      assert |shares.Keys| == 1;
    }
    assert Sum(Without(shares, who)) == 0;
    assert ShareTotal(b) == ShareValue(b.market, b.contributions[who]);
  }

  lemma CoversRest(order: seq<Address>, cs: map<Address, Contribution>, cs': map<Address, Contribution>)
    requires Covers(order, cs) && |order| > 0 && cs' == cs - {order[0]} && |cs'| == |cs| - 1
    ensures Covers(order[1..], cs')
    ensures forall i :: 1 <= i < |order| ==> order[i] in cs' && cs'[order[i]] == cs[order[i]]
  {
  }

  lemma PaidFairlyCons(b: Book, b': Book, order: seq<Address>, lp: nat, rest: seq<nat>, cohort: nat, stray: nat)
    requires |order| > 1 && Covers(order, b.contributions)
    requires Covers(order[1..], b'.contributions)
    requires forall i :: 1 <= i < |order| ==>
               order[i] in b'.contributions && b'.contributions[order[i]] == b.contributions[order[i]]
    requires b'.market == b.market.(openContributions := b'.market.openContributions)
    requires lp == ShareValue(b.market, b.contributions[order[0]]) && b'.holdings.lpVault + lp == b.holdings.lpVault
    requires PaidFairly(b', order[1..], rest, cohort, stray)
    ensures PaidFairly(b, order, [lp] + rest, cohort, stray)
  {
    var p := [lp] + rest;
    assert p[1..] == rest;
    forall i | 0 <= i < |order| - 1 ensures p[i] == ShareValue(b.market, b.contributions[order[i]]) {
      if i > 0 {
        assert order[1..][i - 1] == order[i];
        assert rest[i - 1] == ShareValue(b'.market, b'.contributions[order[1..][i - 1]]);
      }
    }
    assert order[1..][|order| - 2] == order[|order| - 1];
  }

  lemma ClaimAllStep(b: Book, order: seq<Address>, b': Book, lp: nat)
    requires |order| > 0 && DoClaimLp(b, order[0]) == Ok(Live(b', LpClaimed(order[0], lp)))
    ensures ClaimAll(b', order[1..]).Ok? ==>
              ClaimAll(b, order) == Ok((ClaimAll(b', order[1..]).value.0, [lp] + ClaimAll(b', order[1..]).value.1))
  {
  }

  ghost predicate AllPaid(b: Book, order: seq<Address>, cohort: nat, stray: nat)
    requires |order| > 0 && forall i :: 0 <= i < |order| ==> order[i] in b.contributions
  {
    && ClaimAll(b, order).Ok?
    && var (b', payouts) := ClaimAll(b, order).value;
       && b'.holdings.lpVault == 0 && b'.market.openContributions == 0
       && PaidFairly(b, order, payouts, cohort, stray)
  }

  lemma OnePaid(b: Book, b': Book, order: seq<Address>, lp: nat, cohort: nat, stray: nat)
    requires |order| == 1 && order[0] in b.contributions
    requires DoClaimLp(b, order[0]) == Ok(Live(b', LpClaimed(order[0], lp)))
    requires lp == b.holdings.lpVault && b'.holdings.lpVault == 0 && b'.market.openContributions == 0
    requires var own := ShareValue(b.market, b.contributions[order[0]]); own <= lp < own + stray + 2 * cohort
    ensures AllPaid(b, order, cohort, stray)
  {
    ClaimAllStep(b, order, b', lp);
    assert ClaimAll(b', order[1..]) == Ok((b', []));
    assert [lp] + [] == [lp] && [lp][1..] == [];
    assert Total([lp]) == lp;
  }

  lemma ClaimLastOne(b: Book, j: Journal, order: seq<Address>)
    requires ClaimsOpen(b, j) && |order| == 1 && Covers(order, b.contributions)
    ensures AllPaid(b, order, |j.exits| + 1, j.stray.lpVault)
  {
    var b', j', lp := OneClaim(b, j, order[0]);
    LastShare(b, j, order[0]);
    CounterIsCount(b', j');
    OnePaid(b, b', order, lp, |j.exits| + 1, j.stray.lpVault);
  }

  lemma AllPaidCons(b: Book, b': Book, order: seq<Address>, lp: nat, cohort: nat, stray: nat)
    requires |order| > 1 && Covers(order, b.contributions) && ClaimedOne(b, b', order[0], lp)
    requires Covers(order[1..], b'.contributions) && AllPaid(b', order[1..], cohort, stray)
    ensures AllPaid(b, order, cohort, stray)
  {
    CoversRest(order, b.contributions, b'.contributions);
    ClaimAllStep(b, order, b', lp);
    PaidFairlyCons(b, b', order, lp, ClaimAll(b', order[1..]).value.1, cohort, stray);
  }

  lemma ClaimPosts(j: Journal, who: Address, lp: nat)
    ensures |Post(j, LpClaimed(who, lp)).exits| == |j.exits| + 1 && Post(j, LpClaimed(who, lp)).stray == j.stray
  {
  }

  lemma FirstOfMany(b: Book, j: Journal, order: seq<Address>) returns (b': Book, j': Journal, lp: nat)
    requires ClaimsOpen(b, j) && |order| > 1 && Covers(order, b.contributions)
    ensures ClaimedOne(b, b', order[0], lp) && ClaimsOpen(b', j') && Covers(order[1..], b'.contributions)
    ensures |j'.exits| == |j.exits| + 1 && j'.stray == j.stray
  {
    b', j', lp := OneClaim(b, j, order[0]);
    ClaimPosts(j, order[0], lp);
    CoversRest(order, b.contributions, b'.contributions);
  }

  /** Every order succeeds, pays everyone fairly and leaves the vault at exactly zero. */
  lemma {:induction false} ClaimsInAnyOrder(b: Book, j: Journal, order: seq<Address>)
    requires ClaimsOpen(b, j) && |order| > 0 && Covers(order, b.contributions)
    ensures AllPaid(b, order, |j.exits| + |order|, j.stray.lpVault)
    decreases |order|
  {
    if |order| == 1 {
      ClaimLastOne(b, j, order);
    } else {
      var b', j', lp := FirstOfMany(b, j, order);
      ClaimsInAnyOrder(b', j', order[1..]);
      AllPaidCons(b, b', order, lp, |j.exits| + |order|, j.stray.lpVault);
    }
  }

  /** Every claim uses up one of the counter, so no more of them can succeed than it holds. */
  lemma {:induction false} ClaimsNeedCounter(b: Book, order: seq<Address>)
    requires ClaimAll(b, order).Ok?
    ensures |order| <= b.market.openContributions
    decreases |order|
  {
    if |order| > 0 {
      ClaimShape(b, order[0]);
      ClaimsNeedCounter(DoClaimLp(b, order[0]).value.book, order[1..]);
    }
  }

  /** A whole cohort can claim, in a given order and so in every order, if and only if the counter missed no record. */
  lemma CohortClaimsIff(b: Book, j: Journal, order: seq<Address>)
    requires Inv(b, j) && (b.market.status == Resolved || b.market.status == Void) && b.market.feeCollected
    requires |order| > 0 && Covers(order, b.contributions)
    ensures ClaimAll(b, order).Ok? <==> j.adopted == 0
  {
    if j.adopted == 0 {
      ClaimsInAnyOrder(b, j, order);
    } else if ClaimAll(b, order).Ok? {
      ClaimsNeedCounter(b, order);
    }
  }

  /** Whoever is not last in either of two orders gets the same LP in both. */
  lemma OrderDoesNotMatter(b: Book, j: Journal, order1: seq<Address>, order2: seq<Address>, i: nat, k: nat)
    requires ClaimsOpen(b, j) && Covers(order1, b.contributions) && Covers(order2, b.contributions)
    requires i < |order1| - 1 && k < |order2| - 1 && order1[i] == order2[k]
    ensures ClaimAll(b, order1).Ok? && ClaimAll(b, order2).Ok?
    ensures var p1, p2 := ClaimAll(b, order1).value.1, ClaimAll(b, order2).value.1;
            |p1| == |order1| && |p2| == |order2| && p1[i] == p2[k]
  {
    ClaimsInAnyOrder(b, j, order1);
    ClaimsInAnyOrder(b, j, order2);
  }
}
