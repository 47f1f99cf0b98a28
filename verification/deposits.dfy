/** Two promises about money coming in: a market goes live only once it has raised its floor, and nothing can be added
    once the outcome is known. */
module Deposits {
  import opened State
  import opened Lifecycle
  import opened Journals
  import opened World
  import opened WorldInvariant
  import opened RegistryGuarantees

  // ---- the funding floor ----

  /** Whatever was split into the pool at activation had reached the market's floor. */
  predicate Funded(m: Market) {
    m.bound ==> m.activationContributed >= m.minLiquidity
  }

  lemma StepFunded(b: Book, s: Subject, op: Op)
    requires Funded(b.market) && Apply(b, s, op).Ok? && Apply(b, s, op).value.Live?
    ensures Funded(Apply(b, s, op).value.book.market)
  {
    ApplyKeepsTerms(b, s, op);
    if op.Activate? {
      ActivationFunded(b, s, op);
    } else {
      BasisKept(b, s, op);
    }
  }

  lemma ActivationFunded(b: Book, s: Subject, op: Op)
    requires op.Activate? && Apply(b, s, op).Ok?
    ensures Apply(b, s, op).value.Live? && Funded(Apply(b, s, op).value.book.market)
  {
  }

  predicate SameBasis(m: Market, m': Market) {
    m'.bound == m.bound && m'.activationContributed == m.activationContributed
  }

  lemma EntryBasis(b: Book, s: Subject, op: Op)
    requires (op.Contribute? || op.Cancel? || op.AddLate?) && Apply(b, s, op).Ok? && Apply(b, s, op).value.Live?
    ensures SameBasis(b.market, Apply(b, s, op).value.book.market)
  {
  }

  lemma WindingBasis(b: Book, s: Subject, op: Op)
    requires op.Refund? || op.Resolve? || op.CollectFee? || op.ClaimLp?
    requires Apply(b, s, op).Ok? && Apply(b, s, op).value.Live?
    ensures SameBasis(b.market, Apply(b, s, op).value.book.market)
  {
  }

  /** Only activation binds a market or touches its claim basis. */
  lemma BasisKept(b: Book, s: Subject, op: Op)
    requires !op.Activate? && Apply(b, s, op).Ok? && Apply(b, s, op).value.Live?
    ensures SameBasis(b.market, Apply(b, s, op).value.book.market)
  {
    if op.Contribute? || op.Cancel? || op.AddLate? {
      EntryBasis(b, s, op);
    } else if op.Refund? || op.Resolve? || op.CollectFee? || op.ClaimLp? {
      WindingBasis(b, s, op);
    }
  }

  predicate FundedAt(t: Trace, key: MarketKey) {
    key in t.ledger.markets ==> Funded(t.ledger.markets[key].market)
  }

  lemma NextFunded(t: Trace, ix: Instruction, key: MarketKey)
    requires Valid(t) && FundedAt(t, key)
    ensures FundedAt(Next(t, ix), key)
  {
    if !Concerns(ix, key) {
      Untouched(t, ix, key);
    } else if Execute(t.ledger, ix).Err? {
      RefusedNext(t, ix);
    } else if ix.OnMarket? {
      var b, s := t.ledger.markets[key], t.ledger.subjects[key.subject];
      MarketNext(t, key, ix.op);
      if Apply(b, s, ix.op).value.Live? {
        StepFunded(b, s, ix.op);
      }
    }
  }

  /** In every reachable market that was ever activated, the stake that went live had reached the floor. */
  lemma {:induction false} LiveMeansFunded(ixs: seq<Instruction>, key: MarketKey)
    ensures FundedAt(Run(ixs), key)
  {
    if |ixs| > 0 {
      var before := ixs[..|ixs| - 1];
      LiveMeansFunded(before, key);
      RunValid(before);
      NextFunded(Run(before), ixs[|ixs| - 1], key);
    }
  }

  // ---- nothing enters once the outcome is known ----

  /** The deposits of j and j' are the same, stakes included once a market is past Funding. */
  predicate SameDeposits(j: Journal, j': Journal, live: bool) {
    && j'.late == j.late && j'.lateSol == j.lateSol && j'.credited == j.credited
    && (live ==> j'.staked == j.staked)
  }

  predicate PastFunding(w: Ledger, key: MarketKey) {
    key in w.markets ==> w.markets[key].market.status != Funding
  }

  /** Under an ended Subject a step takes no deposit, except stakes while a market is still Funding, and never returns
      it there. */
  lemma EndedStep(b: Book, j: Journal, s: Subject, op: Op)
    requires s.IsTerminal() && Apply(b, s, op).Ok?
    ensures var effect := Apply(b, s, op).value;
            && SameDeposits(j, Post(j, effect.event), b.market.status != Funding)
            && (b.market.status != Funding && effect.Live? ==> effect.book.market.status != Funding)
  {
    if op.Contribute? || op.Activate? || op.AddLate? || op.Cancel? {
      EntryUnderEnded(b, j, s, op);
    } else {
      ExitUnderEnded(b, j, s, op);
    }
  }

  lemma EntryUnderEnded(b: Book, j: Journal, s: Subject, op: Op)
    requires s.IsTerminal() && Apply(b, s, op).Ok? && (op.Contribute? || op.Activate? || op.AddLate? || op.Cancel?)
    ensures (op.Contribute? || op.Cancel?) && b.market.status == Funding
    ensures SameDeposits(j, Post(j, Apply(b, s, op).value.event), false)
  {
  }

  predicate NothingComesIn(b: Book, j: Journal, effect: Effect) {
    && SameDeposits(j, Post(j, effect.event), true)
    && (b.market.status != Funding && effect.Live? ==> effect.book.market.status != Funding)
  }

  lemma SettlingTakesNothing(b: Book, j: Journal, s: Subject, op: Op)
    requires (op.Resolve? || op.CollectFee?) && Apply(b, s, op).Ok?
    ensures NothingComesIn(b, j, Apply(b, s, op).value)
  {
  }

  lemma ClosingTakesNothing(b: Book, j: Journal, s: Subject)
    requires Apply(b, s, Close).Ok?
    ensures NothingComesIn(b, j, Apply(b, s, Close).value)
  {
  }

  lemma LeavingTakesNothing(b: Book, j: Journal, s: Subject, op: Op)
    requires (op.Refund? || op.ClaimLp?) && Apply(b, s, op).Ok?
    ensures NothingComesIn(b, j, Apply(b, s, op).value)
  {
  }

  lemma ExitUnderEnded(b: Book, j: Journal, s: Subject, op: Op)
    requires Apply(b, s, op).Ok? && !op.Contribute? && !op.Activate? && !op.AddLate? && !op.Cancel?
    ensures NothingComesIn(b, j, Apply(b, s, op).value)
  {
    if op.Resolve? || op.CollectFee? {
      SettlingTakesNothing(b, j, s, op);
    } else if op.Refund? || op.ClaimLp? {
      LeavingTakesNothing(b, j, s, op);
    } else if op.Close? {
      ClosingTakesNothing(b, j, s);
    }
  }

  lemma EndedNext(t: Trace, ix: Instruction, key: MarketKey)
    requires Valid(t) && key.subject in t.ledger.subjects && t.ledger.subjects[key.subject].IsTerminal()
    ensures var t', past := Next(t, ix), PastFunding(t.ledger, key);
            && SameDeposits(JournalOf(t.log, key), JournalOf(t'.log, key), past)
            && (past ==> PastFunding(t'.ledger, key))
  {
    if !Concerns(ix, key) {
      Untouched(t, ix, key);
    } else if Execute(t.ledger, ix).Err? {
      RefusedNext(t, ix);
    } else if ix.OnMarket? {
      var b, s, j := t.ledger.markets[key], t.ledger.subjects[key.subject], JournalOf(t.log, key);
      EndedStep(b, j, s, ix.op);
      MarketNext(t, key, ix.op);
      JournalOfStep(t.log, Happened(key, Apply(b, s, ix.op).value.event), key);
    }
  }

  lemma {:induction false} EndedAlong(t: Trace, more: seq<Instruction>, key: MarketKey)
    requires Valid(t) && key.subject in t.ledger.subjects && t.ledger.subjects[key.subject].IsTerminal()
    ensures var t', past := RunFrom(t, more), PastFunding(t.ledger, key);
            && SameDeposits(JournalOf(t.log, key), JournalOf(t'.log, key), past)
            && (past ==> PastFunding(t'.ledger, key))
  {
    if |more| > 0 {
      var before := more[..|more| - 1];
      EndedAlong(t, before, key);
      RunFromValid(t, before);
      SubjectGrowsAlong(t, before, key.subject);
      EndedNext(RunFrom(t, before), more[|more| - 1], key);
    }
  }

  /** Once a Subject has ended, in every continuation each of its markets keeps the late deposits and the LP it has,
      and, unless it is still Funding, the stakes it has. */
  lemma DepositsStop(ixs: seq<Instruction>, more: seq<Instruction>, key: MarketKey)
    requires key.subject in Run(ixs).ledger.subjects && Run(ixs).ledger.subjects[key.subject].IsTerminal()
    ensures var j, j' := JournalOf(Run(ixs).log, key), JournalOf(Run(ixs + more).log, key);
            SameDeposits(j, j', PastFunding(Run(ixs).ledger, key))
  {
    RunValid(ixs);
    EndedAlong(Run(ixs), more, key);
    RunFromConcat(Trace(GENESIS, []), ixs, more);
  }
}
