/** Whether a market can be wound down: once its Subject is terminal, permissionless cranks take any reachable market
    to closed, except while a fee is due and its destination is not a live token account. */
module Liveness {
  import opened Numbers
  import opened Outcomes
  import opened State
  import opened MapSums
  import opened MetaDao
  import opened FeeMath
  import opened Lifecycle
  import opened Journals
  import opened Preservation
  import opened World
  import opened WorldInvariant

  /** The instructions anyone may send to wind a market down. */
  predicate IsCrank(op: Op) {
    op.Cancel? || op.Refund? || op.Resolve? || op.CollectFee? || op.ClaimLp? || op.Close?
  }

  predicate FeePending(m: Market) {
    (m.status == Resolved || m.status == Void) && !m.feeCollected
  }

  /** A fee crank stands between this market and its claims, now or once it is resolved. */
  predicate FeeDue(m: Market) {
    FeePending(m) || (m.status == Active && m.feeBps > 0 && m.lpTotal > 0)
  }

  /** An upper bound on the cranks still needed. */
  function Measure(m: Market): nat {
    m.openContributions + 1 + if m.status == Active then 2 else if m.status == Funding || FeePending(m) then 1 else 0
  }

  /** What MetaDAO returns for the fee slice stays within the reserves and within u64 balances. */
  predicate UnwindFits(b: Book, u: Unwind) {
    && u.baseOut <= b.pool.base && u.quoteOut <= b.pool.quote
    && b.holdings.cyes + u.baseOut <= U64_MAX && b.holdings.cno + u.quoteOut <= U64_MAX
    && b.holdings.escrow + u.paid <= U64_MAX
  }

  /** The next crank for a market: `who` is any contributor still holding a record, `at` what stands at the fee
      destination, `u` what MetaDAO returns for the fee slice. */
  function NextCrank(m: Market, who: Address, at: FeeDestination, u: Unwind): Op {
    match m.status
    case Funding => Cancel
    case Active => Resolve
    case Cancelled => if m.openContributions > 0 then Refund(who) else Close
    case _ => if !m.feeCollected then CollectFee(at, u) else if m.openContributions > 0 then ClaimLp(who) else Close
  }

  // ---- each crank is enabled ----

  lemma RefundEnabled(b: Book, j: Journal, who: Address)
    requires Inv(b, j) && b.market.status == Cancelled && who in b.contributions
    ensures DoRefund(b, who).Ok? <==> b.market.openContributions >= 1
  {
    RecordWithinSums(b.contributions, who);
  }

  lemma ShareWithinTotal(b: Book, who: Address)
    requires who in b.contributions
    ensures ShareValue(b.market, b.contributions[who]) <= ShareTotal(b)
  {
    TermLeSum(Shares(b.market, b.contributions), who);
  }

  /** Any live record can be claimed, in any order, as long as the counter has not run out. */
  lemma ClaimEnabled(b: Book, j: Journal, who: Address)
    requires Inv(b, j) && (b.market.status == Resolved || b.market.status == Void) && b.market.feeCollected
    requires who in b.contributions
    ensures DoClaimLp(b, who).Ok? <==> b.market.openContributions >= 1
    ensures b.market.openContributions > 1 ==>
              DoClaimLp(b, who).value.event == LpClaimed(who, ShareValue(b.market, b.contributions[who]))
    ensures b.market.openContributions == 1 ==> DoClaimLp(b, who).value.event == LpClaimed(who, b.holdings.lpVault)
  {
    ShareIsValue(b, j, who);
    ShareWithinTotal(b, who);
  }

  lemma ResolveEnabled(b: Book, j: Journal, s: Subject)
    requires Inv(b, j) && b.market.status == Active && GoodSubject(s) && s.IsTerminal()
    ensures DoResolve(b, s).Ok?
  {
    assert Verdict(b, s).Ok? && PayoutFits(Verdict(b, s).value.0, Verdict(b, s).value.1);
  }

  /** A pending fee can be collected if and only if its destination is live. */
  lemma CollectFeeIff(b: Book, j: Journal, at: FeeDestination, u: Unwind)
    requires Inv(b, j) && FeePending(b.market) && (at.IsLive() ==> UnwindFits(b, u))
    ensures DoCollectFee(b, at, u).Ok? <==> at.IsLive()
    ensures !at.IsLive() ==> DoCollectFee(b, at, u) == Err(if at.OnOtherMint? then WrongMint else InvalidAccount)
  {
    PendingIsCollectable(b, j);
    PendingFee(b, j);
    if at.IsLive() {
      FeeNeverOverflows(b.market, b.question, b.pool);
      CollectFeeCpis(b, u, FeeLp(b.market, b.question, b.pool).value, TotalsOf(b.contributions, j), j, ShareTotal(b));
    }
  }

  lemma PendingFee(b: Book, j: Journal)
    requires Inv(b, j) && FeePending(b.market)
    ensures b.market.feeBps > 0 && b.market.lpTotal > 0 && b.market.bound
  {
  }

  lemma CollectFeeCpis(b: Book, u: Unwind, fee: U64, t: Totals, j: Journal, share: nat)
    requires Money(b, j, t, share) && FeePending(b.market) && UnwindFits(b, u) && fee <= b.market.lpTotal
    ensures RemoveLiquidity(b.holdings, b.pool, fee, u).Ok?
    ensures Redeem(RemoveLiquidity(b.holdings, b.pool, fee, u).value.0, b.question, u).Ok?
  {
  }

  lemma CloseEnabled(b: Book, j: Journal)
    requires Inv(b, j) && (b.market.status == Cancelled || (b.market.feeCollected && b.market.status != Active))
    requires b.market.openContributions == 0
    ensures DoClose(b).Ok?
  {
  }

  lemma CancelledEnabled(b: Book, j: Journal, who: Address)
    requires Inv(b, j) && b.market.status == Cancelled && (b.market.openContributions > 0 ==> who in b.contributions)
    ensures if b.market.openContributions > 0 then DoRefund(b, who).Ok? else DoClose(b).Ok?
  {
    if b.market.openContributions > 0 {
      RefundEnabled(b, j, who);
    } else {
      CloseEnabled(b, j);
    }
  }

  lemma SettledEnabled(b: Book, j: Journal, who: Address)
    requires Inv(b, j) && (b.market.status == Resolved || b.market.status == Void) && b.market.feeCollected
    requires b.market.openContributions > 0 ==> who in b.contributions
    ensures if b.market.openContributions > 0 then DoClaimLp(b, who).Ok? else DoClose(b).Ok?
  {
    if b.market.openContributions > 0 {
      ClaimEnabled(b, j, who);
    } else {
      CloseEnabled(b, j);
    }
  }

  lemma EndedCrankApplies(b: Book, s: Subject, who: Address, at: FeeDestination, u: Unwind)
    requires Ended(b.market.status)
    requires FeePending(b.market) ==> (DoCollectFee(b, at, u).Ok? <==> at.IsLive())
    requires !FeePending(b.market) ==>
               if b.market.openContributions == 0 then DoClose(b).Ok?
               else if b.market.status == Cancelled then DoRefund(b, who).Ok? else DoClaimLp(b, who).Ok?
    ensures Apply(b, s, NextCrank(b.market, who, at, u)).Ok? <==> at.IsLive() || !FeePending(b.market)
  {
  }

  lemma EndedCrankEnabled(b: Book, j: Journal, s: Subject, who: Address, at: FeeDestination, u: Unwind)
    requires Inv(b, j) && Ended(b.market.status)
    requires b.market.openContributions > 0 ==> who in b.contributions
    requires at.IsLive() && FeePending(b.market) ==> UnwindFits(b, u)
    ensures Apply(b, s, NextCrank(b.market, who, at, u)).Ok? <==> at.IsLive() || !FeePending(b.market)
  {
    if b.market.status == Cancelled {
      CancelledEnabled(b, j, who);
    } else if b.market.feeCollected {
      SettledEnabled(b, j, who);
    } else {
      CollectFeeIff(b, j, at, u);
    }
    EndedCrankApplies(b, s, who, at, u);
  }

  lemma FundingCrankEnabled(b: Book, s: Subject, who: Address, at: FeeDestination, u: Unwind)
    requires b.market.status == Funding && s.IsTerminal()
    ensures Apply(b, s, NextCrank(b.market, who, at, u)).Ok?
  {
  }

  lemma ActiveCrankEnabled(b: Book, s: Subject, who: Address, at: FeeDestination, u: Unwind)
    requires b.market.status == Active && DoResolve(b, s).Ok?
    ensures Apply(b, s, NextCrank(b.market, who, at, u)).Ok?
  {
  }

  /** In every reachable market whose Subject has ended, the next crank succeeds if and only if it is not a fee crank
      towards a dead destination. */
  lemma NextCrankEnabled(b: Book, j: Journal, s: Subject, who: Address, at: FeeDestination, u: Unwind)
    requires Inv(b, j) && GoodSubject(s) && s.IsTerminal()
    requires b.market.openContributions > 0 ==> who in b.contributions
    requires at.IsLive() && FeePending(b.market) ==> UnwindFits(b, u)
    ensures IsCrank(NextCrank(b.market, who, at, u))
    ensures Apply(b, s, NextCrank(b.market, who, at, u)).Ok? <==> at.IsLive() || !FeePending(b.market)
  {
    if b.market.status == Funding {
      FundingCrankEnabled(b, s, who, at, u);
    } else if b.market.status == Active {
      ResolveEnabled(b, j, s);
      ActiveCrankEnabled(b, s, who, at, u);
    } else {
      EndedCrankEnabled(b, j, s, who, at, u);
    }
  }

  // ---- each crank makes progress ----

  lemma ExitsProgress(b: Book, s: Subject, op: Op)
    requires (op.Refund? || op.ClaimLp?) && Apply(b, s, op).Ok?
    ensures var e := Apply(b, s, op).value; e.Live? && Measure(e.book.market) < Measure(b.market)
  {
    if op.Refund? {
      RefundShape(b, op.who);
    } else {
      ClaimShape(b, op.who);
    }
  }

  lemma StatusesProgress(b: Book, s: Subject, op: Op)
    requires (op.Cancel? || op.Resolve? || op.CollectFee?) && Apply(b, s, op).Ok?
    ensures var e := Apply(b, s, op).value; e.Live? && Measure(e.book.market) < Measure(b.market)
  {
    if op.CollectFee? {
      CollectFeeShape(b, op.destination, op.unwind);
    } else if op.Resolve? {
      ResolveShape(b, s);
    }
  }

  /** Any crank that succeeds, whatever its arguments, brings the market strictly closer to closed. */
  lemma EveryCrankProgresses(b: Book, j: Journal, s: Subject, op: Op)
    requires Inv(b, j) && IsCrank(op) && Apply(b, s, op).Ok?
    ensures match Apply(b, s, op).value
            case Live(b', _) => Measure(b'.market) < Measure(b.market)
            case Gone(_) => op == Close && Measure(b.market) == 1
  {
    if op.Close? {
      CloseMeasure(b, j);
    } else if op.Refund? || op.ClaimLp? {
      ExitsProgress(b, s, op);
    } else {
      StatusesProgress(b, s, op);
    }
  }

  lemma CloseMeasure(b: Book, j: Journal)
    requires Inv(b, j) && DoClose(b).Ok?
    ensures Measure(b.market) == 1
  {
  }

  lemma SomeoneLeft(b: Book, j: Journal) returns (who: Address)
    requires Inv(b, j)
    ensures b.market.openContributions > 0 ==> who in b.contributions
  {
    who := 0;
    if b.market.openContributions > 0 {
      assert b.contributions != map[];
      who :| who in b.contributions;
    }
  }

  // ---- a due fee and a dead destination ----

  /** Cranks on one market, sent while its fee destination is live or dead. */
  predicate CranksOn(ixs: seq<Instruction>, key: MarketKey, at: FeeDestination) {
    forall i :: 0 <= i < |ixs| ==>
      && ixs[i].OnMarket? && ixs[i].key == key && IsCrank(ixs[i].op)
      && (ixs[i].op.CollectFee? ==> ixs[i].op.destination == at)
  }

  /** With a dead destination the only crank a market with a due fee admits is its resolution. */
  lemma DeadStep(b: Book, j: Journal, s: Subject, op: Op)
    requires Inv(b, j) && FeeDue(b.market)
    requires IsCrank(op) && (op.CollectFee? ==> !op.destination.IsLive()) && Apply(b, s, op).Ok?
    ensures b.market.status == Active
    ensures Apply(b, s, op).value.Live? && FeePending(Apply(b, s, op).value.book.market)
  {
    if b.market.status == Active {
      ActiveNotCollected(b, j);
      DeadActive(b, s, op);
    } else {
      PendingFee(b, j);
      DeadPending(b, s, op);
    }
  }

  lemma DeadActive(b: Book, s: Subject, op: Op)
    requires b.market.status == Active && FeeDue(b.market) && !b.market.feeCollected
    requires IsCrank(op) && Apply(b, s, op).Ok?
    ensures Apply(b, s, op).value.Live? && FeePending(Apply(b, s, op).value.book.market)
  {
    if op.Resolve? {
      ResolveShape(b, s);
    }
  }

  lemma DeadPending(b: Book, s: Subject, op: Op)
    requires FeePending(b.market) && b.market.feeBps > 0 && b.market.lpTotal > 0 && b.market.bound
    requires IsCrank(op) && (op.CollectFee? ==> !op.destination.IsLive())
    ensures Apply(b, s, op).Err?
  {
  }

  predicate Due(t: Trace, key: MarketKey) {
    key in t.ledger.markets && FeeDue(t.ledger.markets[key].market)
  }

  lemma DeadNext(t: Trace, key: MarketKey, op: Op)
    requires Valid(t) && Due(t, key) && IsCrank(op) && (op.CollectFee? ==> !op.destination.IsLive())
    ensures Due(Next(t, OnMarket(key, op)), key)
    ensures FeePending(t.ledger.markets[key].market) ==> Next(t, OnMarket(key, op)) == t
  {
    assert MarketInv(t, key);
    var b, s := t.ledger.markets[key], t.ledger.subjects[key.subject];
    MarketNext(t, key, op);
    if Apply(b, s, op).Ok? {
      DeadStep(b, JournalOf(t.log, key), s, op);
    }
  }

  /** However many cranks are sent, a fee due towards a dead destination stays due, and a pending one freezes
      everything. */
  lemma {:induction false} DeadStaysDue(t: Trace, key: MarketKey, at: FeeDestination, cranks: seq<Instruction>)
    requires Valid(t) && Due(t, key) && CranksOn(cranks, key, at) && !at.IsLive()
    ensures Due(RunFrom(t, cranks), key)
    ensures FeePending(t.ledger.markets[key].market) ==> RunFrom(t, cranks) == t
  {
    if |cranks| > 0 {
      var before, last := cranks[..|cranks| - 1], cranks[|cranks| - 1];
      DeadStaysDue(t, key, at, before);
      RunFromValid(t, before);
      DeadNext(RunFrom(t, before), key, last.op);
    }
  }

  // ---- the whole wind-down ----

  lemma {:induction false} RunFromCons(t: Trace, ix: Instruction, rest: seq<Instruction>)
    ensures RunFrom(t, [ix] + rest) == RunFrom(Next(t, ix), rest)
  {
    var all := [ix] + rest;
    if |rest| == 0 {
      assert all[..0] == [] && all[0] == ix;
    } else {
      RunFromCons(t, ix, rest[..|rest| - 1]);
      assert all[..|all| - 1] == [ix] + rest[..|rest| - 1];
    }
  }

  /** What MetaDAO returns does not depend on who asks. */
  predicate Unwinding(ixs: seq<Instruction>, u: Unwind) {
    forall i :: 0 <= i < |ixs| ==> ixs[i].OnMarket? && (ixs[i].op.CollectFee? ==> ixs[i].op.unwind == u)
  }

  /** A market whose Subject has ended. */
  predicate Orphaned(t: Trace, key: MarketKey) {
    key in t.ledger.markets && key.subject in t.ledger.subjects && t.ledger.subjects[key.subject].IsTerminal()
  }

  /** The fee crank, if one is due, meets a live destination and amounts that fit. */
  predicate FeePassable(b: Book, at: FeeDestination, u: Unwind) {
    FeeDue(b.market) ==> at.IsLive() && UnwindFits(b, u)
  }

  predicate NearerToClosed(b: Book, s: Subject, op: Op, at: FeeDestination, u: Unwind) {
    && IsCrank(op) && (op.CollectFee? ==> op.destination == at && op.unwind == u)
    && Apply(b, s, op).Ok?
    && match Apply(b, s, op).value
       case Gone(_) => true
       case Live(b', _) => Measure(b'.market) < Measure(b.market) && FeePassable(b', at, u)
  }

  lemma CrankKeepsPassable(b: Book, s: Subject, op: Op, at: FeeDestination, u: Unwind)
    requires IsCrank(op) && Apply(b, s, op).Ok? && Apply(b, s, op).value.Live?
    requires FeePassable(b, at, u) && (b.market.status == Active ==> !b.market.feeCollected)
    ensures FeePassable(Apply(b, s, op).value.book, at, u)
  {
    if op.CollectFee? {
      CollectFeeShape(b, op.destination, op.unwind);
    } else if op.Resolve? {
      ResolveShape(b, s);
    }
  }

  /** One crank on one market: it succeeds, and either closes the market or brings it nearer to closed. */
  lemma CrankBook(b: Book, j: Journal, s: Subject, at: FeeDestination, u: Unwind) returns (op: Op)
    requires Inv(b, j) && GoodSubject(s) && s.IsTerminal() && FeePassable(b, at, u)
    ensures NearerToClosed(b, s, op, at, u)
  {
    var who := SomeoneLeft(b, j);
    op := NextCrank(b.market, who, at, u);
    NextCrankEnabled(b, j, s, who, at, u);
    EveryCrankProgresses(b, j, s, op);
    if b.market.status == Active {
      ActiveNotCollected(b, j);
    }
    if Apply(b, s, op).value.Live? {
      CrankKeepsPassable(b, s, op, at, u);
    }
  }

  lemma CrankTrace(t: Trace, key: MarketKey, at: FeeDestination, u: Unwind) returns (op: Op)
    requires Valid(t) && Orphaned(t, key) && FeePassable(t.ledger.markets[key], at, u)
    ensures NearerToClosed(t.ledger.markets[key], t.ledger.subjects[key.subject], op, at, u)
  {
    assert MarketInv(t, key);
    op := CrankBook(t.ledger.markets[key], JournalOf(t.log, key), t.ledger.subjects[key.subject], at, u);
  }

  lemma CrankOnce(t: Trace, t': Trace, key: MarketKey, op: Op, at: FeeDestination, u: Unwind)
    requires Orphaned(t, key) && t' == Next(t, OnMarket(key, op))
    requires NearerToClosed(t.ledger.markets[key], t.ledger.subjects[key.subject], op, at, u)
    ensures key in t'.ledger.markets ==>
              && Orphaned(t', key) && FeePassable(t'.ledger.markets[key], at, u)
              && Measure(t'.ledger.markets[key].market) < Measure(t.ledger.markets[key].market)
  {
  }

  lemma {:induction false} WindDown(t: Trace, key: MarketKey, at: FeeDestination, u: Unwind)
    returns (cranks: seq<Instruction>)
    requires Valid(t) && Orphaned(t, key) && FeePassable(t.ledger.markets[key], at, u)
    ensures CranksOn(cranks, key, at) && Unwinding(cranks, u)
    ensures |cranks| <= Measure(t.ledger.markets[key].market)
    ensures key !in RunFrom(t, cranks).ledger.markets
    decreases Measure(t.ledger.markets[key].market)
  {
    var op := CrankTrace(t, key, at, u);
    var ix := OnMarket(key, op);
    NextValid(t, ix);
    CrankOnce(t, Next(t, ix), key, op, at, u);
    var rest: seq<Instruction> := [];
    if key in Next(t, ix).ledger.markets {
      rest := WindDown(Next(t, ix), key, at, u);
    }
    cranks := [ix] + rest;
    RunFromCons(t, ix, rest);
  }

  predicate Closes(t: Trace, key: MarketKey, cranks: seq<Instruction>) {
    key !in RunFrom(t, cranks).ledger.markets
  }

  /** Whatever the state of the fee destination: from any reachable trace in which a market's Subject has ended, at most
      open_contributions + 3 cranks close it if and only if its destination is live or no fee is due; and if not, no
      number of cranks does. */
  lemma {:induction false} ClosableIff(ixs: seq<Instruction>, key: MarketKey, at: FeeDestination, u: Unwind)
    requires Orphaned(Run(ixs), key)
    requires var b := Run(ixs).ledger.markets[key]; at.IsLive() && FeeDue(b.market) ==> UnwindFits(b, u)
    ensures var m := Run(ixs).ledger.markets[key].market;
            && (at.IsLive() || !FeeDue(m) <==>
                  exists cranks: seq<Instruction> ::
                    && CranksOn(cranks, key, at) && Unwinding(cranks, u)
                    && |cranks| <= m.openContributions + 3 && Closes(Run(ixs), key, cranks))
            && (at.IsLive() || !FeeDue(m) <==>
                  exists cranks: seq<Instruction> :: CranksOn(cranks, key, at) && Closes(Run(ixs), key, cranks))
  {
    RunValid(ixs);
    var t := Run(ixs);
    if at.IsLive() || !FeeDue(t.ledger.markets[key].market) {
      var cranks := WindDown(t, key, at, u);
      assert Closes(t, key, cranks);
    } else {
      forall cranks: seq<Instruction> | CranksOn(cranks, key, at) ensures !Closes(t, key, cranks) {
        DeadStaysDue(t, key, at, cranks);
      }
    }
  }

  /** While a fee is pending and its destination dead, no crank changes anything at all. */
  lemma DeadFreezes(ixs: seq<Instruction>, key: MarketKey, at: FeeDestination, cranks: seq<Instruction>)
    requires key in Run(ixs).ledger.markets && FeePending(Run(ixs).ledger.markets[key].market)
    requires CranksOn(cranks, key, at) && !at.IsLive()
    ensures RunFrom(Run(ixs), cranks) == Run(ixs)
  {
    RunValid(ixs);
    DeadStaysDue(Run(ixs), key, at, cranks);
  }
}
