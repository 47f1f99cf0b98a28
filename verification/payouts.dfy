/** What each claim paid, over whole runs: a figure fixed by the deposits and the fee, whatever happens between
    claims. */
module Payouts {
  import opened State
  import opened MapSums
  import opened Lifecycle
  import opened Journals
  import opened Preservation
  import opened World
  import opened WorldInvariant

  function Less(a: nat, b: nat): nat {
    if b <= a then a - b else 0
  }

  /** A contributor's floor share, told from the history alone: what they staked and added, what everyone did, all the
      LP credited and the fee cut from it. */
  ghost function FloorShare(j: Journal, who: Address): nat {
    var staked, late := Sum(j.staked), Sum(j.late);
    var left := Less(j.credited, j.feeLp);
    if late == 0 then
      if staked + j.lateSol == 0 then 0 else Portion(left, Get(j.staked, who), staked + j.lateSol)
    else if staked == 0 || j.credited == 0 then 0
    else Portion(left, Portion(Less(j.credited, late), Get(j.staked, who), staked) + Get(j.late, who), j.credited)
  }

  /** Every LP exit paid the floor share, except one that may have swept the vault: the last, with nobody left to
      count. */
  ghost predicate Priced(j: Journal, open: nat) {
    forall i :: 0 <= i < |j.exits| && j.exits[i].LpExit? && (i < |j.exits| - 1 || open >= 1) ==>
      j.exits[i].lp == FloorShare(j, j.exits[i].who)
  }

  // ---- the floor share of the accounts is that of the history ----

  lemma ShareMatches(b: Book, j: Journal, t: Totals, share: nat, who: Address)
    requires ClaimsInv(b, j, t, share) && who in b.contributions
    requires t.staked == Sum(j.staked) && t.lateEver == Sum(j.late)
    requires b.contributions[who].amount == Get(j.staked, who) && b.contributions[who].lateLp == Get(j.late, who)
    ensures ShareValue(b.market, b.contributions[who]) == FloorShare(j, who)
  {
  }

  lemma RecordMatches(b: Book, j: Journal, who: Address)
    requires History(b, j) && who in b.contributions
    ensures b.contributions[who].amount == Get(j.staked, who) && b.contributions[who].lateLp == Get(j.late, who)
  {
  }

  lemma ClaimPaysFloor(b: Book, j: Journal, b': Book, who: Address, lp: nat)
    requires Inv(b, j) && ClaimsBegun(b.market) && ClaimedFrom(b, b', who, lp) && b'.market.openContributions >= 1
    ensures lp == FloorShare(j, who)
  {
    RecordMatches(b, j, who);
    ShareIsValue(b, j, who);
    ShareMatches(b, j, TotalsOf(b.contributions, j), ShareTotal(b), who);
  }

  // ---- one market, one step ----

  predicate SameBasis(j: Journal, j': Journal) {
    && j'.staked == j.staked && j'.late == j.late && j'.lateSol == j.lateSol
    && j'.credited == j.credited && j'.feeLp == j.feeLp
  }

  lemma SameFloors(j: Journal, j': Journal, who: Address)
    requires SameBasis(j, j')
    ensures FloorShare(j', who) == FloorShare(j, who)
  {
  }

  lemma PricedKept(j: Journal, j': Journal, open: nat)
    requires Priced(j, open) && SameBasis(j, j') && j'.exits == j.exits
    ensures Priced(j', open)
  {
    forall i | 0 <= i < |j.exits| ensures FloorShare(j', j.exits[i].who) == FloorShare(j, j.exits[i].who) {
      SameFloors(j, j', j.exits[i].who);
    }
  }

  lemma PricedClaim(j: Journal, open: nat, who: Address, lp: nat)
    requires Priced(j, open) && open >= 1 && (open > 1 ==> lp == FloorShare(j, who))
    ensures Priced(Post(j, LpClaimed(who, lp)), open - 1)
  {
    var j' := Post(j, LpClaimed(who, lp));
    forall i | 0 <= i < |j'.exits| ensures FloorShare(j', j'.exits[i].who) == FloorShare(j, j'.exits[i].who) {
      SameFloors(j, j', j'.exits[i].who);
    }
  }

  /** Once claims have begun, besides claims only closing and the outside world can still touch the market. */
  lemma BasisFrozen(b: Book, j: Journal, s: Subject, op: Op)
    requires ClaimsBegun(b.market) && Apply(b, s, op).Ok? && !op.ClaimLp?
    ensures var effect := Apply(b, s, op).value;
            && SameBasis(j, Post(j, effect.event)) && Post(j, effect.event).exits == j.exits
            && (if effect.Live? then effect.book.market == b.market else b.market.openContributions == 0)
  {
  }

  lemma OnlyClaimsClaim(b: Book, s: Subject, op: Op)
    requires Apply(b, s, op).Ok? && !op.ClaimLp?
    ensures !Apply(b, s, op).value.event.LpClaimed?
  {
  }

  lemma ExitsAfter(j: Journal, e: Event)
    requires !e.LpClaimed?
    ensures Post(j, e).exits == if e.Refunded? then j.exits + [RefundExit(e.who, e.sol)] else j.exits
  {
  }

  predicate NoClaims(j: Journal) {
    forall i :: 0 <= i < |j.exits| ==> !j.exits[i].LpExit?
  }

  lemma NobodyClaimed(b: Book, j: Journal)
    requires History(b, j) && !ClaimsBegun(b.market)
    ensures NoClaims(j)
  {
  }

  function OpenAfter(effect: Effect): nat {
    if effect.Live? then effect.book.market.openContributions else 0
  }

  lemma ClaimStepPriced(b: Book, j: Journal, who: Address)
    requires Inv(b, j) && Priced(j, b.market.openContributions) && DoClaimLp(b, who).Ok?
    ensures var effect := DoClaimLp(b, who).value; Priced(Post(j, effect.event), OpenAfter(effect))
  {
    var effect := DoClaimLp(b, who).value;
    ClaimShape(b, who);
    if b.market.status == Active {
      ActiveNotCollected(b, j);
    } else {
      if b.market.openContributions > 1 {
        ClaimPaysFloor(b, j, effect.book, who, effect.event.lp);
      }
      PricedClaim(j, b.market.openContributions, who, effect.event.lp);
    }
  }

  lemma StepPriced(b: Book, j: Journal, s: Subject, op: Op)
    requires Inv(b, j) && Priced(j, b.market.openContributions) && Apply(b, s, op).Ok?
    ensures var effect := Apply(b, s, op).value; Priced(Post(j, effect.event), OpenAfter(effect))
  {
    var effect := Apply(b, s, op).value;
    if op.ClaimLp? {
      ClaimStepPriced(b, j, op.who);
    } else if ClaimsBegun(b.market) {
      BasisFrozen(b, j, s, op);
      PricedKept(j, Post(j, effect.event), OpenAfter(effect));
    } else {
      NobodyClaimed(b, j);
      OnlyClaimsClaim(b, s, op);
      ExitsAfter(j, effect.event);
      assert NoClaims(Post(j, effect.event));
    }
  }

  // ---- whole runs ----

  function OpenAt(w: Ledger, key: MarketKey): nat {
    if key in w.markets then w.markets[key].market.openContributions else 0
  }

  ghost predicate PricedTrace(t: Trace, key: MarketKey) {
    Priced(JournalOf(t.log, key), OpenAt(t.ledger, key))
  }

  lemma TouchedPriced(t: Trace, key: MarketKey, op: Op)
    requires MarketInv(t, key) && PricedTrace(t, key) && DoOnMarket(t.ledger, key, op).Ok?
    ensures PricedTrace(Next(t, OnMarket(key, op)), key)
  {
    var b, s := t.ledger.markets[key], t.ledger.subjects[key.subject];
    MarketNext(t, key, op);
    StepPriced(b, JournalOf(t.log, key), s, op);
    JournalOfStep(t.log, Happened(key, Apply(b, s, op).value.event), key);
  }

  lemma CreatedPriced(t: Trace, ix: Instruction)
    requires ix.CreateMarket? && Valid(t) && PricedTrace(t, ix.key) && Execute(t.ledger, ix).Ok?
    ensures PricedTrace(Next(t, ix), ix.key)
  {
    assert MarketInv(t, ix.key);
    assert JournalOf(t.log, ix.key) == BLANK;
    JournalOfStep(t.log, Execute(t.ledger, ix).value.1, ix.key);
  }

  lemma NextPriced(t: Trace, ix: Instruction, key: MarketKey)
    requires Valid(t) && PricedTrace(t, key)
    ensures PricedTrace(Next(t, ix), key)
  {
    if (ix.OnMarket? || ix.CreateMarket?) && ix.key == key {
      if Execute(t.ledger, ix).Ok? {
        assert MarketInv(t, key);
        if ix.OnMarket? {
          TouchedPriced(t, key, ix.op);
        } else {
          CreatedPriced(t, ix);
        }
      }
    } else {
      Untouched(t, ix, key);
    }
  }

  lemma {:induction false} RunPriced(ixs: seq<Instruction>, key: MarketKey)
    ensures PricedTrace(Run(ixs), key)
  {
    if |ixs| == 0 {
      assert JournalOf([], key) == BLANK;
    } else {
      var before := ixs[..|ixs| - 1];
      RunPriced(before, key);
      RunValid(before);
      NextPriced(Run(before), ixs[|ixs| - 1], key);
    }
  }

  /** Over every run, whatever swaps, donations and other markets' business come between claims: each claim but the one
      that empties a market paid exactly the claimer's floor share of all LP credited less the fee. */
  lemma {:induction false} EveryClaimPriced(ixs: seq<Instruction>, key: MarketKey, i: nat)
    requires var t := Run(ixs);
             && i < |JournalOf(t.log, key).exits| && JournalOf(t.log, key).exits[i].LpExit?
             && (i == |JournalOf(t.log, key).exits| - 1 ==>
                   key in t.ledger.markets && t.ledger.markets[key].market.openContributions >= 1)
    ensures var j := JournalOf(Run(ixs).log, key); j.exits[i].lp == FloorShare(j, j.exits[i].who)
  {
    RunPriced(ixs, key);
  }
}
