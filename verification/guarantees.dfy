/** What holds after every run of the whole program, market by market. */
module Guarantees {
  import opened Numbers
  import opened State
  import opened MapSums
  import opened ClaimShares
  import opened FeeMath
  import opened Lifecycle
  import opened Journals
  import opened Preservation
  import opened World
  import opened WorldInvariant
  import opened Liveness
  import opened ClaimOrders

  lemma Reachable(ixs: seq<Instruction>, key: MarketKey)
    ensures MarketInv(Run(ixs), key)
  {
    RunValid(ixs);
  }

  // ---- conservation ----

  lemma LpBalance(b: Book, j: Journal, t: Totals, share: nat)
    requires Money(b, j, t, share)
    ensures t.claimed + b.holdings.lpVault + j.feeLp == j.credited + j.stray.lpVault
    ensures !b.market.bound ==> b.holdings.escrow + t.refunded == t.staked + j.stray.escrow
    ensures b.market.bound ==> b.holdings.escrow <= j.stray.escrow
    ensures b.holdings.cyes <= j.stray.cyes && b.holdings.cno <= j.stray.cno
  {
  }

  /** Every LP token ever credited is in the vault, was claimed, or was cut as the fee; strays are the only excess. */
  lemma LpConserved(ixs: seq<Instruction>, key: MarketKey)
    ensures var w, j := Run(ixs).ledger, JournalOf(Run(ixs).log, key);
            && (key in w.markets ==>
                  Claims(j.exits) + w.markets[key].holdings.lpVault + j.feeLp == j.credited + j.stray.lpVault)
            && (key !in w.markets && j.settlements != [] ==>
                  |j.closings| == 1 && Claims(j.exits) + j.closings[0].0 + j.feeLp == j.credited + j.stray.lpVault
                  && j.closings[0].0 <= j.stray.lpVault)
            && (key !in w.markets && j.settlements != [] && j.stray.lpVault == 0 ==>
                  Claims(j.exits) + j.feeLp == j.credited)
  {
    Reachable(ixs, key);
    var w, j := Run(ixs).ledger, JournalOf(Run(ixs).log, key);
    if key in w.markets {
      var b := w.markets[key];
      LpBalance(b, j, TotalsOf(b.contributions, j), ShareTotal(b));
    }
  }

  /** Escrow holds exactly the stakes not yet refunded, and nothing but strays once activated; the transient
      cYES and cNO holders hold nothing but strays. */
  lemma SolConserved(ixs: seq<Instruction>, key: MarketKey)
    requires key in Run(ixs).ledger.markets
    ensures var b, j := Run(ixs).ledger.markets[key], JournalOf(Run(ixs).log, key);
            && (!b.market.bound ==> b.holdings.escrow + Refunds(j.exits) == Sum(j.staked) + j.stray.escrow)
            && (b.market.bound ==> b.holdings.escrow <= j.stray.escrow)
            && b.holdings.cyes <= j.stray.cyes && b.holdings.cno <= j.stray.cno
  {
    Reachable(ixs, key);
    var b, j := Run(ixs).ledger.markets[key], JournalOf(Run(ixs).log, key);
    LpBalance(b, j, TotalsOf(b.contributions, j), ShareTotal(b));
  }

  lemma AccountsAgree(b: Book, j: Journal, t: Totals, share: nat)
    requires Money(b, j, t, share)
    ensures b.market.status == Funding ==> t.amount == b.market.totalContributed
    ensures b.market.status == Active || FeePending(b.market) ==>
              t.amount == b.market.activationContributed && t.late == b.market.grossLpTotal - b.market.activationLp
  {
  }

  /** While records are all there, they add up to the totals the program keeps. */
  lemma RecordsAddUp(ixs: seq<Instruction>, key: MarketKey)
    requires key in Run(ixs).ledger.markets
    ensures var b := Run(ixs).ledger.markets[key];
            && (b.market.status == Funding ==> Sum(Amounts(b.contributions)) == b.market.totalContributed)
            && (b.market.status == Active || FeePending(b.market) ==>
                  && Sum(Amounts(b.contributions)) == b.market.activationContributed
                  && Sum(Lates(b.contributions)) == b.market.grossLpTotal - b.market.activationLp)
  {
    Reachable(ixs, key);
    var b, j := Run(ixs).ledger.markets[key], JournalOf(Run(ixs).log, key);
    AccountsAgree(b, j, TotalsOf(b.contributions, j), ShareTotal(b));
  }

  // ---- the live-record counter ----

  /** The counter is exact if and only if no record was ever stood up in a pre-funded slot. */
  lemma CounterExactIff(ixs: seq<Instruction>, key: MarketKey)
    requires key in Run(ixs).ledger.markets
    ensures var b, j := Run(ixs).ledger.markets[key], JournalOf(Run(ixs).log, key);
            && |b.contributions| == b.market.openContributions + j.adopted
            && (b.market.openContributions == |b.contributions| <==> j.adopted == 0)
  {
    Reachable(ixs, key);
  }

  /** For one call: an exact counter stays exact just when the caller holds a record or the slot is empty. */
  lemma ContributeCountsIff(b: Book, who: Address, amount: U64, wallet: U64, slotFunded: bool)
    requires b.market.openContributions == |b.contributions| && DoContribute(b, who, amount, wallet, slotFunded).Ok?
    ensures var b' := DoContribute(b, who, amount, wallet, slotFunded).value.book;
            b'.market.openContributions == |b'.contributions| <==> (who in b.contributions || !slotFunded)
  {
    var b' := DoContribute(b, who, amount, wallet, slotFunded).value.book;
    CountAfterPut(b.contributions, b'.contributions, who, b'.contributions[who]);
  }

  /** The failing case exists: one lamport sent ahead, and two records count as one. */
  lemma CounterCanMiss()
    ensures var b := Fresh(0, 1, 0, 7, 5);
            var r := DoContribute(b, 8, 3, 3, true);
            r.Ok? && |r.value.book.contributions| == 2 && r.value.book.market.openContributions == 1
  {
    var b := Fresh(0, 1, 0, 7, 5);
    var b' := DoContribute(b, 8, 3, 3, true).value.book;
    assert b.contributions.Keys == {7};
    CountAfterPut(b.contributions, b'.contributions, 8, b'.contributions[8]);
  }

  /** A closed market left behind exactly the records its counter missed; with none missed, everyone got out. */
  lemma NobodyStranded(ixs: seq<Instruction>, key: MarketKey)
    requires key !in Run(ixs).ledger.markets && JournalOf(Run(ixs).log, key) != BLANK
    ensures var j := JournalOf(Run(ixs).log, key);
            && |j.closings| == 1 && j.closings[0].1 == j.adopted
            && (j.adopted == 0 ==> forall who :: who in j.staked || who in j.late ==> Exited(j.exits, who))
  {
    Reachable(ixs, key);
  }

  // ---- exits ----

  predicate ExitsOnce(j: Journal) {
    forall i, k :: 0 <= i < k < |j.exits| ==> j.exits[i].who != j.exits[k].who
  }

  predicate RefundsExact(j: Journal) {
    forall i :: 0 <= i < |j.exits| && j.exits[i].RefundExit? ==> j.exits[i].sol == Get(j.staked, j.exits[i].who)
  }

  predicate OneKindOfExit(j: Journal) {
    || (forall i :: 0 <= i < |j.exits| ==> j.exits[i].RefundExit?)
    || (forall i :: 0 <= i < |j.exits| ==> j.exits[i].LpExit?)
  }

  lemma HistoryExits(b: Book, j: Journal)
    requires History(b, j)
    ensures ExitsOnce(j) && RefundsExact(j) && OneKindOfExit(j)
  {
  }

  lemma ClosedExits(j: Journal)
    requires ClosedInv(j)
    ensures ExitsOnce(j) && RefundsExact(j) && OneKindOfExit(j)
  {
  }

  /** Over any run a contributor leaves a market at most once, by a refund of the exact stake or by an LP claim,
      and a market never pays out both ways. */
  lemma ExitExactlyOnce(ixs: seq<Instruction>, key: MarketKey)
    ensures var j := JournalOf(Run(ixs).log, key); ExitsOnce(j) && RefundsExact(j) && OneKindOfExit(j)
  {
    Reachable(ixs, key);
    var w, j := Run(ixs).ledger, JournalOf(Run(ixs).log, key);
    if key in w.markets {
      HistoryExits(w.markets[key], j);
    } else if j != BLANK {
      ClosedExits(j);
    }
  }

  /** In a reachable cancelled market every refund still owed goes through, in any order, while the counter lasts. */
  lemma RefundsCovered(ixs: seq<Instruction>, key: MarketKey, who: Address)
    requires key in Run(ixs).ledger.markets && Run(ixs).ledger.markets[key].market.status == Cancelled
    requires who in Run(ixs).ledger.markets[key].contributions
    ensures var b, j := Run(ixs).ledger.markets[key], JournalOf(Run(ixs).log, key);
            && (DoRefund(b, who).Ok? <==> b.market.openContributions >= 1)
            && (DoRefund(b, who).Ok? ==> DoRefund(b, who).value.event == Refunded(who, Get(j.staked, who)))
  {
    Reachable(ixs, key);
    var b, j := Run(ixs).ledger.markets[key], JournalOf(Run(ixs).log, key);
    RefundEnabled(b, j, who);
    StakeIsRecord(b, j, who);
  }

  lemma StakeIsRecord(b: Book, j: Journal, who: Address)
    requires History(b, j) && who in b.contributions
    ensures b.contributions[who].amount == Get(j.staked, who)
  {
  }

  /** Every refund of a cancelled and closed market adds up to every stake. */
  lemma {:induction false} RefundsReturnEverything(ixs: seq<Instruction>, key: MarketKey)
    requires var j := JournalOf(Run(ixs).log, key);
             key !in Run(ixs).ledger.markets && j != BLANK && j.settlements == [] && j.adopted == 0
    ensures var j := JournalOf(Run(ixs).log, key); Refunds(j.exits) == Sum(j.staked)
  {
    Reachable(ixs, key);
  }

  // ---- claims ----

  lemma UntouchedVault(b: Book, j: Journal, t: Totals, share: nat)
    requires Money(b, j, t, share) && !b.market.feeCollected
    ensures b.holdings.lpVault == b.market.grossLpTotal + j.stray.lpVault && b.market.lpTotal == b.market.grossLpTotal
    ensures b.market.bound ==> j.exits == []
  {
  }

  /** No LP leaves a market before its fee is settled: until then the vault holds all of it. */
  lemma NoLpLeavesBeforeFee(ixs: seq<Instruction>, key: MarketKey)
    requires key in Run(ixs).ledger.markets && !Run(ixs).ledger.markets[key].market.feeCollected
    ensures var b, j := Run(ixs).ledger.markets[key], JournalOf(Run(ixs).log, key);
            && b.holdings.lpVault == b.market.grossLpTotal + j.stray.lpVault
            && forall i :: 0 <= i < |j.exits| ==> !j.exits[i].LpExit?
  {
    Reachable(ixs, key);
    var b, j := Run(ixs).ledger.markets[key], JournalOf(Run(ixs).log, key);
    UntouchedVault(b, j, TotalsOf(b.contributions, j), ShareTotal(b));
  }

  /** In a reachable settled market any live record is payable, in any order, exactly while the counter lasts. */
  lemma {:induction false} ClaimsCovered(ixs: seq<Instruction>, key: MarketKey, who: Address)
    requires key in Run(ixs).ledger.markets && who in Run(ixs).ledger.markets[key].contributions
    requires var m := Run(ixs).ledger.markets[key].market; (m.status == Resolved || m.status == Void) && m.feeCollected
    ensures var b := Run(ixs).ledger.markets[key];
            && (DoClaimLp(b, who).Ok? <==> b.market.openContributions >= 1)
            && (b.market.openContributions > 1 ==>
                  DoClaimLp(b, who).value.event == LpClaimed(who, ShareValue(b.market, b.contributions[who])))
            && (b.market.openContributions == 1 ==> DoClaimLp(b, who).value.event == LpClaimed(who, b.holdings.lpVault))
  {
    Reachable(ixs, key);
    ClaimEnabled(Run(ixs).ledger.markets[key], JournalOf(Run(ixs).log, key), who);
  }

  /** From any reachable settled market an order of claims by the whole cohort goes through if and only if the counter
      missed no record. Then it pays the same floor shares as every other order and empties the vault, and the last
      claimer gains less than two units for each contributor there ever was, strays apart. */
  lemma {:induction false} AnyClaimOrder(ixs: seq<Instruction>, key: MarketKey, order: seq<Address>)
    requires key in Run(ixs).ledger.markets
    requires var b := Run(ixs).ledger.markets[key];
             && (b.market.status == Resolved || b.market.status == Void) && b.market.feeCollected
             && |order| > 0 && Covers(order, b.contributions)
    ensures var b, j := Run(ixs).ledger.markets[key], JournalOf(Run(ixs).log, key);
            && (ClaimAll(b, order).Ok? <==> j.adopted == 0)
            && (j.adopted == 0 ==>
                  && ClaimAll(b, order).value.0.holdings.lpVault == 0
                  && PaidFairly(b, order, ClaimAll(b, order).value.1, |j.exits| + |order|, j.stray.lpVault))
  {
    Reachable(ixs, key);
    var b, j := Run(ixs).ledger.markets[key], JournalOf(Run(ixs).log, key);
    CohortClaimsIff(b, j, order);
    if j.adopted == 0 {
      ClaimsInAnyOrder(b, j, order);
    }
  }

  lemma LegacyBasis(b: Book, j: Journal, t: Totals, share: nat)
    requires Money(b, j, t, share) && (b.market.status == Resolved || b.market.status == Void) && b.market.feeCollected
    requires b.market.grossLpTotal == b.market.activationLp > 0
    ensures ActivationOnly(b.market) && t.amount <= b.market.activationContributed && t.late == 0
  {
  }

  /** In every reachable market open for claims that nobody joined late, both share formulas are defined for every
      record, and the mixed one pays what the legacy one pays or, exactly when the remainders fill a unit, one less. */
  lemma {:induction false} FormulasAgree(ixs: seq<Instruction>, key: MarketKey, who: Address)
    requires key in Run(ixs).ledger.markets && who in Run(ixs).ledger.markets[key].contributions
    requires var m := Run(ixs).ledger.markets[key].market;
             (m.status == Resolved || m.status == Void) && m.feeCollected && m.grossLpTotal == m.activationLp > 0
    ensures var b := Run(ixs).ledger.markets[key];
            var mixed, legacy := GrossLpShare(b.market, b.contributions[who]),
                                 ProRataShare(b.market.lpTotal, b.contributions[who].amount, b.market.totalContributed);
            && mixed.Ok? && legacy.Ok? && b.market.activationContributed > 0
            && mixed.value == legacy.value - (if RemaindersFit(b.market.lpTotal, b.market.activationLp,
                 b.contributions[who].amount, b.market.activationContributed) then 0 else 1)
            && (JournalOf(Run(ixs).log, key).feeLp == 0 ==> mixed.value == legacy.value)
  {
    Reachable(ixs, key);
    var b, j := Run(ixs).ledger.markets[key], JournalOf(Run(ixs).log, key);
    LegacyBasis(b, j, TotalsOf(b.contributions, j), ShareTotal(b));
    RecordWithinSums(b.contributions, who);
    UncutFee(b, j, TotalsOf(b.contributions, j), ShareTotal(b));
    MixedRefinesLegacy(b.market, b.contributions[who]);
  }

  lemma UncutFee(b: Book, j: Journal, t: Totals, share: nat)
    requires Money(b, j, t, share) && (b.market.status == Resolved || b.market.status == Void) && b.market.feeCollected
    ensures b.market.lpTotal + j.feeLp == b.market.grossLpTotal
  {
  }

  // ---- the fee ----

  /** The fee takes at most a tenth of the LP, leaves every contribution covered, and stays within its rate. */
  predicate FeeSafe(m: Market, q: Question, pool: Pool)
    requires Collectable(m, q, pool)
  {
    FeeLp(m, q, pool).Ok? &&
    var fee := FeeLp(m, q, pool).value;
    && BPS * fee <= m.feeBps * m.lpTotal && 10 * fee <= m.lpTotal
    && (fee > 0 ==> (m.lpTotal - fee) * PoolValue(q, pool) >= m.totalContributed * pool.supply)
    && BPS * fee * PoolValue(q, pool) < m.feeBps * (Accrued(m, q, pool) + 1) * pool.supply
  }

  lemma CollectableIsSafe(m: Market, q: Question, pool: Pool)
    requires Collectable(m, q, pool) && m.feeBps > 0
    ensures FeeSafe(m, q, pool)
  {
    FeeNeverOverflows(m, q, pool);
    var fee := FeeLp(m, q, pool).value;
    FeeAccurate(m, q, pool, fee);
    if fee > 0 {
      PrincipalProtected(m, q, pool, fee);
    }
  }

  /** In every reachable market with its fee pending, whatever the reserves, the arithmetic cannot fail and is safe. */
  lemma FeeAlwaysSafe(ixs: seq<Instruction>, key: MarketKey)
    requires key in Run(ixs).ledger.markets && FeePending(Run(ixs).ledger.markets[key].market)
    ensures var b := Run(ixs).ledger.markets[key];
            Collectable(b.market, b.question, b.pool) && b.market.feeBps > 0 && FeeSafe(b.market, b.question, b.pool)
  {
    Reachable(ixs, key);
    var b := Run(ixs).ledger.markets[key];
    PendingIsCollectable(b, JournalOf(Run(ixs).log, key));
    CollectableIsSafe(b.market, b.question, b.pool);
  }
}
