/** What `collect_fee` cuts: of the event itself, in every reachable state and over whole runs. */
module FeeGuarantees {
  import opened Numbers
  import opened State
  import opened MetaDao
  import opened FeeMath
  import opened Lifecycle
  import opened Journals
  import opened Preservation
  import opened World
  import opened WorldInvariant
  import opened Liveness
  import opened Acceptance

  /** The pool is worth no more to the market than was contributed, to within a unit. */
  predicate NoGain(m: Market, q: Question, pool: Pool)
    requires PaysOut(q)
  {
    m.lpTotal * PoolValue(q, pool) < (m.totalContributed + 1) * pool.supply
  }

  /** A fee the market can be charged: at most a tenth of the LP and at most its rate of it; zero without a gain; with
      one, what is left still covers every contribution, and the fee is its rate of the gain to within the floors, from
      above and from below. */
  predicate FairFee(m: Market, q: Question, pool: Pool, fee: nat)
    requires PaysOut(q) && pool.supply > 0
  {
    && 10 * fee <= m.lpTotal && BPS * fee <= m.feeBps * m.lpTotal
    && (NoGain(m, q, pool) ==> fee == 0)
    && (fee > 0 ==> (m.lpTotal - fee) * PoolValue(q, pool) >= m.totalContributed * pool.supply)
    && BPS * fee * PoolValue(q, pool) < m.feeBps * (Accrued(m, q, pool) + 1) * pool.supply
    && (!NoGain(m, q, pool) ==>
          m.feeBps * (m.lpTotal * Accrued(m, q, pool)) < (BPS * (fee + 1) + m.feeBps) * RealizedFull(m, q, pool))
  }

  lemma NoGainIff(m: Market, q: Question, pool: Pool)
    requires Collectable(m, q, pool)
    ensures NoGain(m, q, pool) <==> Accrued(m, q, pool) == 0
  {
    var realized, worth := RealizedFull(m, q, pool), m.lpTotal * PoolValue(q, pool);
    RealizedFits(m, q, pool);
    if realized <= m.totalContributed {
      MulLe(realized + 1, m.totalContributed + 1, pool.supply);
    } else {
      MulLe(m.totalContributed + 1, realized, pool.supply);
    }
  }

  lemma ExactIsFair(m: Market, q: Question, pool: Pool, fee: nat)
    requires Collectable(m, q, pool) && m.feeBps > 0 && fee == FeeFrom(AccruedLp(m, q, pool), m.feeBps)
    ensures FairFee(m, q, pool, fee)
  {
    FeeNeverOverflows(m, q, pool);
    NoGainIff(m, q, pool);
    FeeAccurate(m, q, pool, fee);
    if fee > 0 {
      PrincipalProtected(m, q, pool, fee);
    }
    if Accrued(m, q, pool) > 0 {
      FeeNotUndercharged(m, q, pool, fee);
    }
  }

  /** The LP a fee crank reports, and takes out of lp_total, the vault and the supply alike, is the exact fee on the
      market's own payout, reserves and supply. */
  predicate Cuts(b: Book, effect: Effect)
    requires PaysOut(b.question) && b.pool.supply > 0
  {
    && effect.Live? && effect.event == FeeCut(ExactFee(b))
    && effect.book.market == b.market.(lpTotal := effect.book.market.lpTotal, feeCollected := true)
    && effect.book.market.lpTotal + ExactFee(b) == b.market.lpTotal
    && effect.book.holdings.lpVault + ExactFee(b) == b.holdings.lpVault
    && effect.book.pool.supply + ExactFee(b) == b.pool.supply
  }

  lemma CutShape(b: Book, at: FeeDestination, u: Unwind)
    requires FeePending(b.market) && Collectable(b.market, b.question, b.pool) && b.market.feeBps > 0
    requires DoCollectFee(b, at, u).Ok?
    ensures Cuts(b, DoCollectFee(b, at, u).value)
  {
    FeeNeverOverflows(b.market, b.question, b.pool);
  }

  lemma CutIsFair(b: Book, j: Journal, at: FeeDestination, u: Unwind)
    requires Inv(b, j) && FeePending(b.market) && DoCollectFee(b, at, u).Ok?
    ensures PaysOut(b.question) && b.pool.supply > 0
    ensures Cuts(b, DoCollectFee(b, at, u).value) && FairFee(b.market, b.question, b.pool, ExactFee(b))
  {
    PendingIsCollectable(b, j);
    PendingFee(b, j);
    CutShape(b, at, u);
    ExactIsFair(b.market, b.question, b.pool, ExactFee(b));
  }

  /** In every reachable state, whatever the reserves and whatever MetaDAO pays out, the fee an accepted crank cuts is
      the exact one and fair. */
  lemma {:induction false} EveryCutFair(ixs: seq<Instruction>, key: MarketKey, at: FeeDestination, u: Unwind)
    requires DoOnMarket(Run(ixs).ledger, key, CollectFee(at, u)).Ok?
    ensures var b := Run(ixs).ledger.markets[key];
            && FeePending(b.market) && PaysOut(b.question) && b.pool.supply > 0
            && Cuts(b, DoCollectFee(b, at, u).value) && FairFee(b.market, b.question, b.pool, ExactFee(b))
  {
    RunValid(ixs);
    var t := Run(ixs);
    assert MarketInv(t, key);
    CollectFeeGates(t.ledger.markets[key], JournalOf(t.log, key), at, u);
    CutIsFair(t.ledger.markets[key], JournalOf(t.log, key), at, u);
  }

  lemma ResolutionShape(b: Book, s: Subject)
    requires DoResolve(b, s).Ok? && !b.market.feeCollected
    ensures var effect := DoResolve(b, s).value;
            && effect.Live? && effect.event.Settled?
            && effect.book.market == b.market.(settled := true, status := effect.book.market.status,
                                               feeCollected := effect.book.market.feeCollected)
            && (effect.book.market.feeCollected <==> b.market.feeBps == 0 || b.market.lpTotal == 0)
            && effect.book.market.status == (if s.status == SubjectResolved then Resolved else Void)
  {
  }

  predicate OpensIff(b: Book, effect: Effect) {
    effect.Live? && (ClaimsBegun(effect.book.market) <==> b.market.feeBps == 0 || b.market.lpTotal == 0)
  }

  lemma SettlingOpens(b: Book, j: Journal, s: Subject)
    requires Inv(b, j) && DoResolve(b, s).Ok?
    ensures OpensIff(b, DoResolve(b, s).value)
  {
    ActiveWhenResolving(b, s);
    NoFeeBefore(b, j, TotalsOf(b.contributions, j), ShareTotal(b));
    ResolutionShape(b, s);
  }

  lemma ResolvesBook(w: Ledger, key: MarketKey)
    requires DoOnMarket(w, key, Resolve).Ok?
    ensures key in w.markets && key.subject in w.subjects && DoResolve(w.markets[key], w.subjects[key.subject]).Ok?
  {
  }

  /** In every reachable state settling a market opens its claims at once if and only if there is nothing to charge. */
  lemma {:induction false} OpensAtOnceIff(ixs: seq<Instruction>, key: MarketKey)
    requires DoOnMarket(Run(ixs).ledger, key, Resolve).Ok?
    ensures var w := Run(ixs).ledger;
            OpensIff(w.markets[key], DoResolve(w.markets[key], w.subjects[key.subject]).value)
  {
    RunValid(ixs);
    var t := Run(ixs);
    ResolvesBook(t.ledger, key);
    assert MarketInv(t, key);
    SettlingOpens(t.ledger.markets[key], JournalOf(t.log, key), t.ledger.subjects[key.subject]);
  }

  lemma ActiveWhenResolving(b: Book, s: Subject)
    requires DoResolve(b, s).Ok?
    ensures b.market.status == Active
  {
  }

  // ---- the fee of a whole run ----

  /** The k-th step of a run was the fee crank of a market, and `fee` a fair fee at that moment. */
  predicate CutAt(ixs: seq<Instruction>, key: MarketKey, k: nat, fee: nat) {
    && k < |ixs| && ixs[k].OnMarket? && ixs[k].key == key && ixs[k].op.CollectFee?
    && key in Run(ixs[..k]).ledger.markets
    && var b := Run(ixs[..k]).ledger.markets[key];
       FeePending(b.market) && PaysOut(b.question) && b.pool.supply > 0 && FairFee(b.market, b.question, b.pool, fee)
  }

  /** A fee was cut, or the market is past its fee though it has a rate and LP to charge. */
  predicate Charged(t: Trace, key: MarketKey) {
    || JournalOf(t.log, key).feeLp > 0
    || (key in t.ledger.markets && PastCharge(t.ledger.markets[key].market))
  }

  predicate PastCharge(m: Market) {
    Chargeable(m) && m.feeCollected
  }

  predicate Chargeable(m: Market) {
    m.feeBps > 0 && m.grossLpTotal > 0
  }

  lemma NoFeeBefore(b: Book, j: Journal, t: Totals, share: nat)
    requires Money(b, j, t, share) && !ClaimsBegun(b.market)
    ensures j.feeLp == 0 && !b.market.feeCollected
    ensures b.market.status == Active ==> b.market.lpTotal == b.market.grossLpTotal
  {
  }

  lemma OnceClaimsBegun(b: Book, s: Subject, op: Op)
    requires ClaimsBegun(b.market) && Apply(b, s, op).Ok?
    ensures op.ClaimLp? || op.Close? || op.Donate? || op.Drift?
  {
  }

  lemma LaterKeepsFee(b: Book, j: Journal, s: Subject, op: Op)
    requires (op.ClaimLp? || op.Close? || op.Donate? || op.Drift?) && Apply(b, s, op).Ok?
    ensures var effect := Apply(b, s, op).value;
            && Post(j, effect.event).feeLp == j.feeLp
            && (effect.Live? ==> effect.book.market.feeBps == b.market.feeBps
                                 && effect.book.market.grossLpTotal == b.market.grossLpTotal
                                 && effect.book.market.feeCollected == b.market.feeCollected)
  {
  }

  lemma EntryKeepsFee(b: Book, j: Journal, s: Subject, op: Op)
    requires (op.Contribute? || op.Activate? || op.AddLate?) && Apply(b, s, op).Ok?
    ensures var effect := Apply(b, s, op).value;
            && Post(j, effect.event).feeLp == j.feeLp
            && (effect.Live? ==> effect.book.market.feeCollected == b.market.feeCollected)
  {
  }

  lemma GivingUpKeepsFee(b: Book, j: Journal, s: Subject, op: Op)
    requires (op.Cancel? || op.Refund?) && Apply(b, s, op).Ok?
    ensures var effect := Apply(b, s, op).value;
            && Post(j, effect.event).feeLp == j.feeLp
            && (effect.Live? ==> effect.book.market.feeCollected == b.market.feeCollected)
  {
  }

  /** Once claims have begun the fee and what it was charged on never change. */
  lemma FeeSettled(b: Book, j: Journal, s: Subject, op: Op)
    requires ClaimsBegun(b.market) && Apply(b, s, op).Ok?
    ensures var effect := Apply(b, s, op).value;
            && Post(j, effect.event).feeLp == j.feeLp
            && (effect.Live? ==> effect.book.market.feeBps == b.market.feeBps
                                 && effect.book.market.grossLpTotal == b.market.grossLpTotal)
  {
    OnceClaimsBegun(b, s, op);
    LaterKeepsFee(b, j, s, op);
  }

  /** Before that, a market passes its fee by the crank, or because there is nothing to charge. */
  lemma FeePassed(b: Book, j: Journal, s: Subject, op: Op)
    requires !b.market.feeCollected && !op.CollectFee? && Apply(b, s, op).Ok?
    requires b.market.status == Active ==> b.market.lpTotal == b.market.grossLpTotal
    ensures var effect := Apply(b, s, op).value;
            && Post(j, effect.event).feeLp == j.feeLp
            && (effect.Live? && effect.book.market.feeCollected ==> !Chargeable(effect.book.market))
  {
    if op.Resolve? {
      ActiveWhenResolving(b, s);
      ResolutionShape(b, s);
    } else if op.Contribute? || op.Activate? || op.AddLate? {
      EntryKeepsFee(b, j, s, op);
    } else if op.Cancel? || op.Refund? {
      GivingUpKeepsFee(b, j, s, op);
    } else {
      LaterKeepsFee(b, j, s, op);
    }
  }

  lemma EarlierCut(before: seq<Instruction>, ixs: seq<Instruction>, key: MarketKey, k: nat, fee: nat)
    requires before <= ixs && CutAt(before, key, k, fee)
    ensures CutAt(ixs, key, k, fee)
  {
    assert ixs[..k] == before[..k];
  }

  predicate ChargedAfter(j: Journal, effect: Effect) {
    j.feeLp > 0 || (effect.Live? && PastCharge(effect.book.market))
  }

  /** A charge is final, and only the crank of a pending fee makes one. */
  lemma ChargedOnce(b: Book, j: Journal, s: Subject, op: Op)
    requires Inv(b, j) && Apply(b, s, op).Ok?
    requires ChargedAfter(Post(j, Apply(b, s, op).value.event), Apply(b, s, op).value)
    ensures j.feeLp > 0 || PastCharge(b.market) ==> Post(j, Apply(b, s, op).value.event).feeLp == j.feeLp
    ensures !(j.feeLp > 0 || PastCharge(b.market)) ==> op.CollectFee? && FeePending(b.market) && j.feeLp == 0
  {
    if ClaimsBegun(b.market) {
      FeeSettled(b, j, s, op);
    } else {
      NoFeeBefore(b, j, TotalsOf(b.contributions, j), ShareTotal(b));
      if !op.CollectFee? {
        FeePassed(b, j, s, op);
      } else {
        CollectFeeGates(b, j, op.destination, op.unwind);
      }
    }
  }

  lemma EffectJournal(t: Trace, key: MarketKey, effect: Effect)
    ensures JournalOf(AfterEffect(t, key, effect).log, key) == Post(JournalOf(t.log, key), effect.event)
    ensures Charged(AfterEffect(t, key, effect), key) ==>
              ChargedAfter(Post(JournalOf(t.log, key), effect.event), effect)
  {
    JournalOfStep(t.log, Happened(key, effect.event), key);
  }

  lemma ChargedStep(t: Trace, key: MarketKey, op: Op)
    requires MarketInv(t, key) && DoOnMarket(t.ledger, key, op).Ok?
    requires Charged(Next(t, OnMarket(key, op)), key)
    ensures Charged(t, key) ==> JournalOf(Next(t, OnMarket(key, op)).log, key).feeLp == JournalOf(t.log, key).feeLp
    ensures !Charged(t, key) ==>
              op.CollectFee? && FeePending(t.ledger.markets[key].market) && JournalOf(t.log, key).feeLp == 0
  {
    var b, s := t.ledger.markets[key], t.ledger.subjects[key.subject];
    MarketNext(t, key, op);
    EffectJournal(t, key, Apply(b, s, op).value);
    ChargedOnce(b, JournalOf(t.log, key), s, op);
  }

  lemma CutPosts(t: Trace, key: MarketKey, at: FeeDestination, u: Unwind, fee: nat)
    requires DoOnMarket(t.ledger, key, CollectFee(at, u)).Ok?
    requires DoCollectFee(t.ledger.markets[key], at, u).value.event == FeeCut(fee)
    ensures JournalOf(Next(t, OnMarket(key, CollectFee(at, u))).log, key).feeLp == JournalOf(t.log, key).feeLp + fee
  {
    MarketNext(t, key, CollectFee(at, u));
    JournalOfStep(t.log, Happened(key, FeeCut(fee)), key);
  }

  lemma CutNow(t: Trace, key: MarketKey, at: FeeDestination, u: Unwind)
    requires MarketInv(t, key) && DoOnMarket(t.ledger, key, CollectFee(at, u)).Ok?
    requires FeePending(t.ledger.markets[key].market) && JournalOf(t.log, key).feeLp == 0
    ensures var b := t.ledger.markets[key];
            && PaysOut(b.question) && b.pool.supply > 0
            && FairFee(b.market, b.question, b.pool,
                       JournalOf(Next(t, OnMarket(key, CollectFee(at, u))).log, key).feeLp)
  {
    var b := t.ledger.markets[key];
    CutIsFair(b, JournalOf(t.log, key), at, u);
    CutPosts(t, key, at, u, ExactFee(b));
  }

  lemma NotCreatedCharged(t: Trace, ix: Instruction)
    requires ix.CreateMarket? && Valid(t) && Execute(t.ledger, ix).Ok?
    ensures !Charged(Next(t, ix), ix.key)
  {
    assert MarketInv(t, ix.key);
    assert JournalOf(t.log, ix.key) == BLANK;
    JournalOfStep(t.log, Execute(t.ledger, ix).value.1, ix.key);
  }

  /** Over every run: whatever fee a market was charged in all, zero included, was fair at the crank that charged it. */
  lemma {:induction false} FeeWasFair(ixs: seq<Instruction>, key: MarketKey)
    requires Charged(Run(ixs), key)
    ensures exists k: nat :: CutAt(ixs, key, k, JournalOf(Run(ixs).log, key).feeLp)
    decreases |ixs|, 0
  {
    if |ixs| > 0 {
      var n := |ixs| - 1;
      var before, ix, t := ixs[..n], ixs[n], Run(ixs[..n]);
      RunValid(before);
      if !Concerns(ix, key) {
        Untouched(t, ix, key);
        StillFair(before, ixs, key);
      } else if Execute(t.ledger, ix).Err? {
        RefusedNext(t, ix);
        StillFair(before, ixs, key);
      } else if ix.CreateMarket? {
        NotCreatedCharged(t, ix);
      } else {
        assert MarketInv(t, key);
        ChargedStep(t, key, ix.op);
        if Charged(t, key) {
          StillFair(before, ixs, key);
        } else {
          CutNow(t, key, ix.op.destination, ix.op.unwind);
          assert CutAt(ixs, key, n, JournalOf(Run(ixs).log, key).feeLp);
        }
      }
    }
  }

  lemma {:induction false} StillFair(before: seq<Instruction>, ixs: seq<Instruction>, key: MarketKey)
    requires before <= ixs && Charged(Run(before), key)
    requires JournalOf(Run(ixs).log, key).feeLp == JournalOf(Run(before).log, key).feeLp
    ensures exists k: nat :: CutAt(ixs, key, k, JournalOf(Run(ixs).log, key).feeLp)
    decreases |before|, 1
  {
    FeeWasFair(before, key);
    var k: nat :| CutAt(before, key, k, JournalOf(Run(before).log, key).feeLp);
    EarlierCut(before, ixs, key, k, JournalOf(Run(before).log, key).feeLp);
  }
}
