/** When each market instruction is accepted, what a refusal means, and what an accepted one records: said of the
    accounts and the arguments alone, for every reachable state. */
module Acceptance {
  import opened Numbers
  import opened Outcomes
  import opened State
  import opened MetaDao
  import opened FeeMath
  import opened Lifecycle
  import opened Journals
  import opened Preservation
  import opened World
  import opened WorldInvariant
  import opened Liveness
  import opened Resolution

  // ---- the gates ----

  /** MetaDAO takes these amounts: within what the market offers and holds, in full if the pool is empty, with the new
      LP and the reserves still u64. */
  predicate FillAdmitted(b: Book, offered: nat, quoteAmount: nat, maxBase: nat, minLp: nat, f: Fill) {
    var h, p := b.holdings, b.pool;
    && f.baseIn <= maxBase && f.baseIn <= h.cyes + offered
    && f.quoteIn <= quoteAmount && f.quoteIn <= h.cno + offered
    && minLp <= f.lpOut
    && (p.base == 0 && p.quote == 0 ==> f.baseIn == maxBase && f.quoteIn == quoteAmount)
    && p.base + f.baseIn <= U64_MAX && p.quote + f.quoteIn <= U64_MAX && p.supply + f.lpOut <= U64_MAX
  }

  /** A contributor already has a record, or one more can be counted. */
  predicate CanCount(b: Book, who: Address) {
    who in b.contributions || b.market.openContributions < U16_MAX
  }

  predicate ContributeAdmitted(b: Book, who: Address, amount: U64, wallet: U64, slotFunded: bool) {
    && b.market.status == Funding && 0 < amount <= wallet
    && b.holdings.escrow + amount <= U64_MAX && b.market.totalContributed + amount <= U64_MAX
    && (slotFunded || CanCount(b, who))
  }

  predicate ActivateAdmitted(b: Book, s: Subject, f: Fill) {
    && b.market.status == Funding && b.market.minLiquidity <= b.market.totalContributed && s.status == Open
    && b.pool.base == 0 && b.pool.quote == 0
    && f.baseIn == b.market.totalContributed && f.quoteIn == b.market.totalContributed
    && b.pool.supply + f.lpOut <= U64_MAX
  }

  predicate AddLateAdmitted(b: Book, s: Subject, who: Address, amount: U64, quoteAmount: U64, maxBase: U64, minLp: U64,
                            wallet: U64, slotFunded: bool, f: Fill)
  {
    && b.market.status == Active && s.status == Open && 0 < amount <= wallet
    && b.holdings.escrow + amount <= U64_MAX
    && b.holdings.cyes + amount <= U64_MAX && b.holdings.cno + amount <= U64_MAX
    && FillAdmitted(b, amount, quoteAmount, maxBase, minLp, f) && 0 < f.lpOut
    && (who in b.contributions || (!slotFunded && b.market.openContributions < U16_MAX))
    && b.market.totalContributed + amount <= U64_MAX
  }

  /** The fee the exact arithmetic comes to. */
  function ExactFee(b: Book): nat
    requires PaysOut(b.question) && b.pool.supply > 0
  {
    FeeFrom(AccruedLp(b.market, b.question, b.pool), b.market.feeBps)
  }

  predicate CollectFeeAdmitted(b: Book, at: FeeDestination, u: Unwind) {
    && FeePending(b.market) && at.IsLive()
    && PaysOut(b.question) && b.pool.supply > 0
    && (ExactFee(b) == 0 || UnwindFits(b, u))
  }

  predicate Admitted(b: Book, s: Subject, op: Op) {
    var m := b.market;
    match op
    case Contribute(who, amount, wallet, slotFunded) => ContributeAdmitted(b, who, amount, wallet, slotFunded)
    case Cancel => m.status == Funding && s.status != Open
    case Refund(who) => m.status == Cancelled && who in b.contributions && m.openContributions > 0
    case Activate(f) => ActivateAdmitted(b, s, f)
    case AddLate(who, amount, quoteAmount, maxBase, minLp, wallet, slotFunded, f) =>
      AddLateAdmitted(b, s, who, amount, quoteAmount, maxBase, minLp, wallet, slotFunded, f)
    case Resolve => m.status == Active && s.status != Open
    case CollectFee(at, u) => CollectFeeAdmitted(b, at, u)
    case ClaimLp(who) => ClaimsBegun(m) && who in b.contributions && m.openContributions > 0
    case Close => (m.status == Cancelled || ClaimsBegun(m)) && m.openContributions == 0
    case Donate(to, amount) =>
      && (to == Escrow || m.bound)
      && (match to
          case Escrow => b.holdings.escrow + amount <= U64_MAX
          case Cyes => b.holdings.cyes + amount <= U64_MAX
          case Cno => b.holdings.cno + amount <= U64_MAX
          case LpVault => b.holdings.lpVault + amount <= b.pool.supply)
    case Drift(pool) => b.holdings.lpVault <= pool.supply
  }

  // ---- accepted if and only if admitted ----

  lemma FundingFacts(b: Book, j: Journal, t: Totals, share: nat)
    requires Money(b, j, t, share) && b.market.status == Funding
    ensures t.amount == b.market.totalContributed <= b.holdings.escrow
    ensures b.holdings.cyes == b.holdings.cno == b.holdings.lpVault == 0 && b.question == UNRESOLVED
    ensures !b.market.settled && !b.market.feeCollected && !b.market.bound
  {
  }

  lemma ActiveFacts(b: Book, j: Journal, t: Totals, share: nat)
    requires Money(b, j, t, share) && b.market.status == Active
    ensures b.market.lpTotal == b.market.grossLpTotal <= b.holdings.lpVault <= b.pool.supply
    ensures t.late <= b.market.grossLpTotal && b.question == UNRESOLVED
    ensures !b.market.settled && !b.market.feeCollected && b.market.bound
  {
  }

  lemma ContributeIff(b: Book, j: Journal, who: Address, amount: U64, wallet: U64, slotFunded: bool)
    requires Inv(b, j)
    ensures DoContribute(b, who, amount, wallet, slotFunded).Ok? <==>
              ContributeAdmitted(b, who, amount, wallet, slotFunded)
  {
    if b.market.status == Funding {
      FundingFacts(b, j, TotalsOf(b.contributions, j), ShareTotal(b));
      if who in b.contributions {
        RecordWithinSums(b.contributions, who);
      }
      ContributeGates(b, who, amount, wallet, slotFunded);
    }
  }

  lemma ContributeGates(b: Book, who: Address, amount: U64, wallet: U64, slotFunded: bool)
    requires b.market.status == Funding && RecordOf(b, who).amount <= b.market.totalContributed
    ensures DoContribute(b, who, amount, wallet, slotFunded).Ok? <==>
              ContributeAdmitted(b, who, amount, wallet, slotFunded)
  {
  }

  lemma ActivateIff(b: Book, j: Journal, s: Subject, f: Fill)
    requires Inv(b, j)
    ensures DoActivate(b, s, f).Ok? <==> ActivateAdmitted(b, s, f)
  {
    if b.market.status == Funding {
      FundingFacts(b, j, TotalsOf(b.contributions, j), ShareTotal(b));
      ActivateGates(b, s, f);
    }
  }

  lemma ActivateGates(b: Book, s: Subject, f: Fill)
    requires b.market.status == Funding && b.market.totalContributed <= b.holdings.escrow
    requires b.holdings.cyes == b.holdings.cno == b.holdings.lpVault == 0
    ensures DoActivate(b, s, f).Ok? <==> ActivateAdmitted(b, s, f)
  {
  }

  lemma PoolLateIff(h: Holdings, p: Pool, amount: U64, quoteAmount: U64, maxBase: U64, minLp: U64, wallet: U64, f: Fill,
                    b: Book)
    requires h == b.holdings && p == b.pool && h.lpVault <= p.supply
    ensures PoolLate(h, p, amount, quoteAmount, maxBase, minLp, wallet, f).Ok? <==>
              && amount <= wallet && h.escrow + amount <= U64_MAX
              && h.cyes + amount <= U64_MAX && h.cno + amount <= U64_MAX
              && FillAdmitted(b, amount, quoteAmount, maxBase, minLp, f) && 0 < f.lpOut
    ensures PoolLate(h, p, amount, quoteAmount, maxBase, minLp, wallet, f).Ok? ==>
              PoolLate(h, p, amount, quoteAmount, maxBase, minLp, wallet, f).value.2 == f.lpOut
              && h.lpVault + f.lpOut <= U64_MAX
  {
  }

  lemma AddLateIff(b: Book, j: Journal, s: Subject, who: Address, amount: U64, quoteAmount: U64, maxBase: U64,
                   minLp: U64, wallet: U64, slotFunded: bool, f: Fill)
    requires Inv(b, j)
    ensures DoAddLate(b, s, who, amount, quoteAmount, maxBase, minLp, wallet, slotFunded, f).Ok?
       <==> AddLateAdmitted(b, s, who, amount, quoteAmount, maxBase, minLp, wallet, slotFunded, f)
  {
    if b.market.status == Active {
      ActiveFacts(b, j, TotalsOf(b.contributions, j), ShareTotal(b));
      if who in b.contributions {
        RecordWithinSums(b.contributions, who);
      }
      AddLateGates(b, s, who, amount, quoteAmount, maxBase, minLp, wallet, slotFunded, f);
    }
  }

  lemma AddLateGates(b: Book, s: Subject, who: Address, amount: U64, quoteAmount: U64, maxBase: U64, minLp: U64,
                     wallet: U64, slotFunded: bool, f: Fill)
    requires b.market.status == Active && RecordOf(b, who).lateLp <= b.market.grossLpTotal
    requires b.market.lpTotal == b.market.grossLpTotal <= b.holdings.lpVault <= b.pool.supply
    ensures DoAddLate(b, s, who, amount, quoteAmount, maxBase, minLp, wallet, slotFunded, f).Ok?
       <==> AddLateAdmitted(b, s, who, amount, quoteAmount, maxBase, minLp, wallet, slotFunded, f)
  {
    PoolLateIff(b.holdings, b.pool, amount, quoteAmount, maxBase, minLp, wallet, f, b);
  }

  lemma ResolveIff(b: Book, j: Journal, s: Subject)
    requires Inv(b, j) && GoodSubject(s)
    ensures DoResolve(b, s).Ok? <==> b.market.status == Active && s.status != Open
  {
    if b.market.status == Active && s.status != Open {
      ResolveEnabled(b, j, s);
    }
  }

  lemma SettledFlag(b: Book, j: Journal, t: Totals, share: nat)
    requires Money(b, j, t, share) && b.market.feeCollected
    ensures b.market.status == Resolved || b.market.status == Void
  {
  }

  /** A pending fee: live destination, and amounts that fit if there is anything to cut. */
  lemma CollectFeeGates(b: Book, j: Journal, at: FeeDestination, u: Unwind)
    requires Inv(b, j)
    ensures DoCollectFee(b, at, u).Ok? <==> CollectFeeAdmitted(b, at, u)
  {
    if FeePending(b.market) {
      PendingIsCollectable(b, j);
      PendingFee(b, j);
      FeeNeverOverflows(b.market, b.question, b.pool);
      PendingVault(b, j, TotalsOf(b.contributions, j), ShareTotal(b));
      UnwindGates(b, at, u, ExactFee(b));
    } else if b.market.feeCollected {
      SettledFlag(b, j, TotalsOf(b.contributions, j), ShareTotal(b));
    }
  }

  lemma PendingVault(b: Book, j: Journal, t: Totals, share: nat)
    requires Money(b, j, t, share) && FeePending(b.market)
    ensures b.market.lpTotal <= b.holdings.lpVault <= b.pool.supply && b.question.denominator != 0
  {
  }

  lemma UnwindGates(b: Book, at: FeeDestination, u: Unwind, fee: nat)
    requires FeePending(b.market) && b.market.feeBps > 0 && 0 < b.market.lpTotal <= b.holdings.lpVault <= b.pool.supply
    requires b.question.denominator != 0 && fee <= b.market.lpTotal && FeeLp(b.market, b.question, b.pool) == Ok(fee)
    ensures DoCollectFee(b, at, u).Ok? <==> at.IsLive() && (fee == 0 || UnwindFits(b, u))
  {
    var removed := RemoveLiquidity(b.holdings, b.pool, fee, u);
    if at.IsLive() && fee > 0 && removed.Ok? {
      assert Redeem(removed.value.0, b.question, u).Ok? <==> b.holdings.escrow + u.paid <= U64_MAX;
    }
  }

  lemma ClaimIff(b: Book, j: Journal, who: Address)
    requires Inv(b, j)
    ensures DoClaimLp(b, who).Ok? <==> ClaimsBegun(b.market) && who in b.contributions && b.market.openContributions > 0
  {
    if b.market.feeCollected {
      SettledFlag(b, j, TotalsOf(b.contributions, j), ShareTotal(b));
      if who in b.contributions {
        ClaimEnabled(b, j, who);
      }
    }
  }

  lemma RefundIff(b: Book, j: Journal, who: Address)
    requires Inv(b, j)
    ensures DoRefund(b, who).Ok? <==>
              b.market.status == Cancelled && who in b.contributions && b.market.openContributions > 0
  {
    if b.market.status == Cancelled && who in b.contributions {
      RefundEnabled(b, j, who);
    }
  }

  lemma CloseIff(b: Book, j: Journal)
    requires Inv(b, j)
    ensures DoClose(b).Ok? <==>
              (b.market.status == Cancelled || ClaimsBegun(b.market)) && b.market.openContributions == 0
  {
    CloseFacts(b, j, TotalsOf(b.contributions, j), ShareTotal(b));
  }

  lemma CloseFacts(b: Book, j: Journal, t: Totals, share: nat)
    requires Money(b, j, t, share)
    ensures b.market.status == Cancelled ==> !b.market.bound
    ensures b.market.status == Resolved || b.market.status == Void ==> b.market.bound
  {
  }

  lemma EntryIff(b: Book, j: Journal, s: Subject, op: Op)
    requires Inv(b, j) && (op.Contribute? || op.Activate? || op.AddLate?)
    ensures Apply(b, s, op).Ok? <==> Admitted(b, s, op)
  {
    match op
    case Contribute(who, amount, wallet, slotFunded) => ContributeIff(b, j, who, amount, wallet, slotFunded);
    case Activate(f) => ActivateIff(b, j, s, f);
    case AddLate(who, amount, quoteAmount, maxBase, minLp, wallet, slotFunded, f) =>
      AddLateIff(b, j, s, who, amount, quoteAmount, maxBase, minLp, wallet, slotFunded, f);
  }

  lemma EndingIff(b: Book, j: Journal, s: Subject, op: Op)
    requires Inv(b, j) && GoodSubject(s) && (op.Resolve? || op.CollectFee? || op.Close?)
    ensures Apply(b, s, op).Ok? <==> Admitted(b, s, op)
  {
    match op
    case Resolve => ResolveIff(b, j, s);
    case CollectFee(at, u) => CollectFeeGates(b, j, at, u);
    case Close => CloseIff(b, j);
  }

  lemma ExitIff(b: Book, j: Journal, s: Subject, op: Op)
    requires Inv(b, j) && (op.Refund? || op.ClaimLp?)
    ensures Apply(b, s, op).Ok? <==> Admitted(b, s, op)
  {
    if op.Refund? {
      RefundIff(b, j, op.who);
    } else {
      ClaimIff(b, j, op.who);
    }
  }

  lemma OutsideIff(b: Book, s: Subject, op: Op)
    requires op.Cancel? || op.Donate? || op.Drift?
    ensures Apply(b, s, op).Ok? <==> Admitted(b, s, op)
  {
  }

  lemma AppliesIff(b: Book, j: Journal, s: Subject, op: Op)
    requires Inv(b, j) && GoodSubject(s)
    ensures Apply(b, s, op).Ok? <==> Admitted(b, s, op)
  {
    if op.Contribute? || op.Activate? || op.AddLate? {
      EntryIff(b, j, s, op);
    } else if op.Resolve? || op.CollectFee? || op.Close? {
      EndingIff(b, j, s, op);
    } else if op.Refund? || op.ClaimLp? {
      ExitIff(b, j, s, op);
    } else {
      OutsideIff(b, s, op);
    }
  }

  lemma OnMarketOk(w: Ledger, key: MarketKey, op: Op)
    ensures Execute(w, OnMarket(key, op)).Ok? <==>
              key in w.markets && key.subject in w.subjects && Apply(w.markets[key], w.subjects[key.subject], op).Ok?
  {
  }

  lemma ReachableIff(t: Trace, key: MarketKey, op: Op)
    requires Valid(t) && key in t.ledger.markets && key.subject in t.ledger.subjects
    ensures var b, s := t.ledger.markets[key], t.ledger.subjects[key.subject];
            Apply(b, s, op).Ok? <==> Admitted(b, s, op)
  {
    assert MarketInv(t, key);
    assert GoodSubject(t.ledger.subjects[key.subject]);
    AppliesIff(t.ledger.markets[key], JournalOf(t.log, key), t.ledger.subjects[key.subject], op);
  }

  /** In every reachable state a market instruction is accepted if and only if the market exists and admits it. */
  lemma {:induction false} AcceptedIff(ixs: seq<Instruction>, key: MarketKey, op: Op)
    ensures var w := Run(ixs).ledger;
            Execute(w, OnMarket(key, op)).Ok? <==>
              key in w.markets && key.subject in w.subjects && Admitted(w.markets[key], w.subjects[key.subject], op)
  {
    RunValid(ixs);
    var w := Run(ixs).ledger;
    OnMarketOk(w, key, op);
    if key in w.markets && key.subject in w.subjects {
      ReachableIff(Run(ixs), key, op);
    }
  }

  // ---- what a refusal means ----

  /** The fact each of the program's own errors reports. */
  predicate Cause(e: Error, b: Book, s: Subject, op: Op) {
    var m := b.market;
    match e
    case ZeroAmount => (op.Contribute? || op.AddLate?) && op.amount == 0
    case NotFunding => m.status != Funding
    case OracleNotTerminal => s.status == Open
    case OracleResolved => s.status != Open && (op.Activate? || op.AddLate?)
    case NotCancelled => m.status != Cancelled
    case NotFunded => m.totalContributed < m.minLiquidity && op.Activate?
    case PoolNotEmpty => b.pool.base != 0 || b.pool.quote != 0
    case NotActive => if op.CollectFee? then m.status != Resolved && m.status != Void else m.status != Active
    case AlreadySettled => (m.settled && op.Resolve?) || (m.feeCollected && op.CollectFee?)
    case FeeNotCollected => !m.feeCollected && (op.ClaimLp? || op.Close?)
    case ContributionsOpen => m.openContributions > 0 && op.Close?
    case NotSettled => m.status == Funding || m.status == Active
    case WrongMint => op.CollectFee? && op.destination == OnOtherMint
    case ArithmeticOverflow => true
    case TransferFailed => true
    case CpiFailed => true
    case InvalidAccount => true
    case _ => false
  }

  lemma EntryRefused(b: Book, s: Subject, op: Op)
    requires (op.Contribute? || op.Activate? || op.Cancel?) && Apply(b, s, op).Err?
    ensures Cause(Apply(b, s, op).error, b, s, op)
  {
  }

  lemma LateRefused(b: Book, s: Subject, op: Op)
    requires op.AddLate? && Apply(b, s, op).Err?
    ensures Cause(Apply(b, s, op).error, b, s, op)
  {
  }

  lemma SettlementRefused(b: Book, s: Subject, op: Op)
    requires (op.Resolve? || op.CollectFee? || op.Close?) && Apply(b, s, op).Err?
    ensures Cause(Apply(b, s, op).error, b, s, op)
  {
  }

  lemma ExitRefused(b: Book, s: Subject, op: Op)
    requires (op.Refund? || op.ClaimLp?) && Apply(b, s, op).Err?
    ensures Cause(Apply(b, s, op).error, b, s, op)
  {
  }

  /** A refused instruction reports something that is so. */
  lemma RefusalIsTrue(b: Book, s: Subject, op: Op)
    requires Apply(b, s, op).Err?
    ensures Cause(Apply(b, s, op).error, b, s, op)
  {
    if op.Contribute? || op.Activate? || op.Cancel? {
      EntryRefused(b, s, op);
    } else if op.AddLate? {
      LateRefused(b, s, op);
    } else if op.Resolve? || op.CollectFee? || op.Close? {
      SettlementRefused(b, s, op);
    } else if op.Refund? || op.ClaimLp? {
      ExitRefused(b, s, op);
    }
  }

  /** The same for the instructions on Config, Subjects and the registry. */
  ghost predicate LedgerCause(e: Error, w: Ledger, ix: Instruction) {
    match ix
    case InitConfig(isUpgradeAuthority, _, terms, destinationOk) =>
      || (e == Unauthorized && !isUpgradeAuthority) || (e == InvalidFee && terms.feeBps > 1000)
      || (e == AlreadyInitialized && w.config.Initialized?) || (e == InvalidAccount && !destinationOk)
    case UpdateConfig(signer, terms, destinationOk) =>
      || (e == InvalidAccount && (w.config.NoConfig? || !destinationOk)) || (e == InvalidFee && terms.feeBps > 1000)
      || (e == Unauthorized && w.config.Initialized? && signer != w.config.config.authority)
    case CreateSubject(nonce, optionsCount) =>
      (e == InvalidOutcome && optionsCount < 2) || (e == AlreadyInitialized && nonce in w.subjects)
    case Callback(nonce, identitySigned, payload) =>
      || (e == InvalidAiResponse && forall v: U8 :: !Answers(w, nonce, identitySigned, payload, v))
      || (e == Unauthorized && !identitySigned) || (e == InvalidAccount && nonce !in w.subjects)
      || (e == AlreadySettled && nonce in w.subjects && w.subjects[nonce].status != Open)
    case CreateMarket(key, _, seed, wallet, _) =>
      || (e == InvalidAccount && (w.config.NoConfig? || key.subject !in w.subjects || key in w.markets))
      || (e == ZeroAmount && seed == 0) || (e == TransferFailed && seed > wallet)
      || (e == InvalidOutcome && key.subject in w.subjects && key.outcome >= w.subjects[key.subject].optionsCount)
      || (e == OracleResolved && key.subject in w.subjects && w.subjects[key.subject].status != Open)
    case OnMarket(_, _) => true
    case VoidSubject(_) => true
  }

  lemma AnswerAccepted(w: Ledger, nonce: U64, identitySigned: bool, payload: seq<U8>, v: U8)
    requires Answers(w, nonce, identitySigned, payload, v) && GoodSubject(w.subjects[nonce])
    ensures DoCallback(w, nonce, identitySigned, payload).Ok?
  {
    AnswersIff(w, nonce, identitySigned, payload, v);
  }

  lemma NothingAnswered(w: Ledger, nonce: U64, identitySigned: bool, payload: seq<U8>)
    requires nonce in w.subjects ==> GoodSubject(w.subjects[nonce])
    requires DoCallback(w, nonce, identitySigned, payload).Err?
    ensures forall v: U8 :: !Answers(w, nonce, identitySigned, payload, v)
  {
    forall v: U8 | Answers(w, nonce, identitySigned, payload, v)
      ensures DoCallback(w, nonce, identitySigned, payload).Ok?
    {
      AnswerAccepted(w, nonce, identitySigned, payload, v);
    }
  }

  lemma CallbackErrors(w: Ledger, nonce: U64, identitySigned: bool, payload: seq<U8>)
    requires nonce in w.subjects ==> GoodSubject(w.subjects[nonce])
    requires DoCallback(w, nonce, identitySigned, payload).Err?
    ensures var e := DoCallback(w, nonce, identitySigned, payload).error;
            || e == InvalidAiResponse || (e == Unauthorized && !identitySigned)
            || (e == InvalidAccount && nonce !in w.subjects)
            || (e == AlreadySettled && nonce in w.subjects && w.subjects[nonce].status != Open)
  {
  }

  lemma CallbackRefused(w: Ledger, ix: Instruction)
    requires ix.Callback? && Execute(w, ix).Err?
    requires ix.nonce in w.subjects ==> GoodSubject(w.subjects[ix.nonce])
    ensures LedgerCause(Execute(w, ix).error, w, ix)
  {
    NothingAnswered(w, ix.nonce, ix.identitySigned, ix.payload);
    CallbackErrors(w, ix.nonce, ix.identitySigned, ix.payload);
  }

  lemma LedgerRefused(w: Ledger, ix: Instruction)
    requires !ix.Callback? && Execute(w, ix).Err?
    ensures LedgerCause(Execute(w, ix).error, w, ix)
  {
  }

  /** In every reachable state what such an instruction is refused for is so. */
  lemma {:induction false} LedgerRefusalIsTrue(ixs: seq<Instruction>, ix: Instruction)
    requires Execute(Run(ixs).ledger, ix).Err?
    ensures LedgerCause(Execute(Run(ixs).ledger, ix).error, Run(ixs).ledger, ix)
  {
    RunValid(ixs);
    if ix.Callback? {
      CallbackRefused(Run(ixs).ledger, ix);
    } else {
      LedgerRefused(Run(ixs).ledger, ix);
    }
  }

  // ---- what an accepted instruction records ----

  predicate Grown(p: Pool, p': Pool, f: Fill) {
    p'.base == p.base + f.baseIn && p'.quote == p.quote + f.quoteIn && p'.supply == p.supply + f.lpOut
  }

  /** The event names the caller and the amounts of the call, and liquidity moves by what MetaDAO took and minted. */
  predicate Tells(b: Book, op: Op, effect: Effect) {
    match op
    case Contribute(who, amount, _, _) =>
      effect.event.Contributed? && effect.event.who == who && effect.event.sol == amount
    case Cancel => effect.event == WasCancelled
    case Refund(who) => effect.event.Refunded? && effect.event.who == who
    case Activate(f) =>
      effect.Live? && effect.event == Activated(f.lpOut)
      && Grown(Pool(0, 0, b.pool.supply), effect.book.pool, f)
    case AddLate(who, amount, _, _, _, _, _, f) =>
      effect.Live? && effect.event == LiquidityAdded(who, amount, f.lpOut)
      && Grown(b.pool, effect.book.pool, f)
    case Resolve => effect.event.Settled?
    case CollectFee(_, _) => effect.event.FeeCut?
    case ClaimLp(who) => effect.event.LpClaimed? && effect.event.who == who
    case Close => effect.event == Closed(b.holdings.lpVault, |b.contributions|)
    case Donate(to, amount) => effect.event == Donated(to, amount)
    case Drift(pool) => effect == Live(b.(pool := pool), Drifted)
  }

  lemma LiquidityTells(b: Book, s: Subject, op: Op)
    requires (op.Activate? || op.AddLate?) && Apply(b, s, op).Ok? && (op.Activate? ==> b.holdings.lpVault == 0)
    ensures Tells(b, op, Apply(b, s, op).value)
  {
  }

  lemma OthersTell(b: Book, s: Subject, op: Op)
    requires !op.Activate? && !op.AddLate? && Apply(b, s, op).Ok?
    ensures Tells(b, op, Apply(b, s, op).value)
  {
  }

  /** In every reachable state an accepted instruction records exactly what was asked. */
  lemma EffectTells(ixs: seq<Instruction>, key: MarketKey, op: Op)
    requires DoOnMarket(Run(ixs).ledger, key, op).Ok?
    ensures var w := Run(ixs).ledger;
            Tells(w.markets[key], op, Apply(w.markets[key], w.subjects[key.subject], op).value)
  {
    RunValid(ixs);
    var t := Run(ixs);
    var b, s := t.ledger.markets[key], t.ledger.subjects[key.subject];
    assert MarketInv(t, key);
    if op.Activate? {
      ActivateIff(b, JournalOf(t.log, key), s, op.fill);
      FundingFacts(b, JournalOf(t.log, key), TotalsOf(b.contributions, JournalOf(t.log, key)), ShareTotal(b));
    }
    if op.Activate? || op.AddLate? {
      LiquidityTells(b, s, op);
    } else {
      OthersTell(b, s, op);
    }
  }
}
