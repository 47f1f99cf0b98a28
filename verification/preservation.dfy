/** Every successful step of a market keeps its accounts and its history in agreement. */
module Preservation {
  import opened Numbers
  import opened Outcomes
  import opened State
  import opened MapSums
  import opened MetaDao
  import opened ClaimShares
  import opened FeeMath
  import opened Lifecycle
  import opened Journals

  type Records = map<Address, Contribution>

  // ---- how the totals move ----

  lemma WeightsAfterPut(cs: Records, cs': Records, who: Address, c: Contribution)
    requires cs' == cs[who := c]
    ensures Amounts(cs') == Amounts(cs)[who := c.amount]
    ensures Lates(cs') == Lates(cs)[who := c.lateLp]
    ensures who in cs <==> who in Amounts(cs)
    ensures who in cs <==> who in Lates(cs)
  {
  }

  lemma CountAfterPut(cs: Records, cs': Records, who: Address, c: Contribution)
    requires cs' == cs[who := c]
    ensures |cs'| == |cs| + (if who in cs then 0 else 1)
  {
    assert cs'.Keys == cs.Keys + {who};
  }

  lemma SumsAfterPut(cs: Records, cs': Records, who: Address, c: Contribution)
    requires cs' == cs[who := c]
    ensures Sum(Amounts(cs')) == Sum(Amounts(cs)) + c.amount - (if who in cs then cs[who].amount else 0)
    ensures Sum(Lates(cs')) == Sum(Lates(cs)) + c.lateLp - (if who in cs then cs[who].lateLp else 0)
  {
    WeightsAfterPut(cs, cs', who, c);
    SumInsert(Amounts(cs), who, c.amount);
    SumInsert(Lates(cs), who, c.lateLp);
  }

  lemma SumRaise(m: map<Address, nat>, m': map<Address, nat>, who: Address, extra: nat)
    requires m' == m[who := Get(m, who) + extra]
    ensures Sum(m') == Sum(m) + extra
  {
    SumInsert(m, who, Get(m, who) + extra);
  }

  lemma CountAfterDrop(cs: Records, cs': Records, who: Address)
    requires who in cs && cs' == cs - {who}
    ensures |cs'| == |cs| - 1
  {
    assert cs'.Keys == cs.Keys - {who};
  }

  lemma WeightsAfterDrop(m: Market, cs: Records, cs': Records, who: Address)
    requires who in cs && cs' == cs - {who}
    ensures who in Amounts(cs) && Amounts(cs') == Without(Amounts(cs), who)
    ensures who in Lates(cs) && Lates(cs') == Without(Lates(cs), who)
    ensures who in Shares(m, cs) && Shares(m, cs') == Without(Shares(m, cs), who)
  {
  }

  lemma SumsAfterDrop(m: Market, cs: Records, cs': Records, who: Address)
    requires who in cs && cs' == cs - {who}
    ensures Sum(Amounts(cs)) == Sum(Amounts(cs')) + cs[who].amount
    ensures Sum(Lates(cs)) == Sum(Lates(cs')) + cs[who].lateLp
    ensures Sum(Shares(m, cs)) == Sum(Shares(m, cs')) + ShareValue(m, cs[who])
  {
    WeightsAfterDrop(m, cs, cs', who);
    SumSplit(Amounts(cs), who);
    SumSplit(Lates(cs), who);
    SumSplit(Shares(m, cs), who);
  }

  lemma RecordWithinSums(cs: Records, who: Address)
    requires who in cs
    ensures cs[who].amount <= Sum(Amounts(cs)) && cs[who].lateLp <= Sum(Lates(cs))
  {
    TermLeSum(Amounts(cs), who);
    TermLeSum(Lates(cs), who);
  }

  lemma EmptySums(cs: Records)
    requires |cs| == 0
    ensures Sum(Amounts(cs)) == Sum(Lates(cs)) == 0
  {
    assert Amounts(cs) == map[] == Lates(cs);
  }

  /** Steps that leave every record and every exit alone. */
  lemma SameRecords(b: Book, j: Journal, b': Book, j': Journal)
    requires History(b, j)
    requires b'.contributions == b.contributions && b'.market.feeBps == b.market.feeBps
    requires j'.staked == j.staked && j'.late == j.late && j'.exits == j.exits && j'.closings == j.closings
    requires b'.market == b.market || j.exits == []
    ensures History(b', j') && TotalsOf(b'.contributions, j') == TotalsOf(b.contributions, j)
  {
  }

  // ---- opening ----

  lemma FreshTotals(cs: Records, j: Journal, creator: Address, seed: U64)
    requires cs == map[][creator := Contribution(seed, 0)]
    requires j.staked == map[][creator := seed] && j.late == map[] && j.exits == []
    ensures TotalsOf(cs, j) == Totals(1, seed, 0, seed, 0, 0, 0)
  {
    EmptySums(map[]);
    SumsAfterPut(map[], cs, creator, Contribution(seed, 0));
    CountAfterPut(map[], cs, creator, Contribution(seed, 0));
    SumRaise(map[], j.staked, creator, seed);
  }

  lemma FreshMoney(b: Book, j: Journal, seed: U64, share: nat)
    requires b.market.status == Funding && Unbound(b, j, Totals(1, seed, 0, seed, 0, 0, 0))
    requires j.exits == [] && b.market.totalContributed == seed > 0
    ensures Money(b, j, Totals(1, seed, 0, seed, 0, 0, 0), share)
  {
  }

  lemma FreshKeeps(b: Book, outcome: U8, minLiquidity: U64, feeBps: U16, creator: Address, seed: U64)
    requires seed > 0 && feeBps <= MAX_FEE_BPS && b == Fresh(outcome, minLiquidity, feeBps, creator, seed)
    ensures Inv(b, Post(BLANK, Opened(creator, seed)))
  {
    var j := Post(BLANK, Opened(creator, seed));
    var cs := b.contributions;
    assert cs == map[][creator := Contribution(seed, 0)] && j.staked == map[][creator := seed];
    FreshTotals(cs, j, creator, seed);
    FreshMoney(b, j, seed, ShareTotal(b));
  }

  // ---- funding ----

  function Staked(t: Totals, known: bool, amount: nat): Totals {
    t.(records := t.records + (if known then 0 else 1), amount := t.amount + amount, staked := t.staked + amount)
  }

  lemma ContributeSums(cs: Records, cs': Records, st: map<Address, nat>, st': map<Address, nat>, who: Address,
                       c: Contribution, amount: nat)
    requires c.amount == (if who in cs then cs[who].amount else 0) + amount
    requires c.lateLp == if who in cs then cs[who].lateLp else 0
    requires cs' == cs[who := c] && st' == st[who := Get(st, who) + amount]
    ensures Sum(Amounts(cs')) == Sum(Amounts(cs)) + amount && Sum(Lates(cs')) == Sum(Lates(cs))
    ensures Sum(st') == Sum(st) + amount
    ensures |cs'| == |cs| + (if who in cs then 0 else 1)
  {
    SumsAfterPut(cs, cs', who, c);
    CountAfterPut(cs, cs', who, c);
    SumRaise(st, st', who, amount);
  }

  lemma ContributeTotals(cs: Records, cs': Records, j: Journal, j': Journal, who: Address, c: Contribution, amount: nat)
    requires c.amount == (if who in cs then cs[who].amount else 0) + amount
    requires c.lateLp == if who in cs then cs[who].lateLp else 0
    requires cs' == cs[who := c]
    requires j' == j.(staked := j.staked[who := Get(j.staked, who) + amount], adopted := j'.adopted)
    ensures TotalsOf(cs', j') == Staked(TotalsOf(cs, j), who in cs, amount)
  {
    ContributeSums(cs, cs', j.staked, j'.staked, who, c, amount);
  }

  /** What a successful contribution changed. */
  predicate ContributedTo(b: Book, b': Book, who: Address, amount: nat, adopted: bool) {
    && amount > 0
    && b.market.status == Funding
    && RecordOf(b, who).amount + amount <= U64_MAX
    && b'.contributions == b.contributions[who := RecordOf(b, who).(amount := RecordOf(b, who).amount + amount)]
    && b'.holdings == b.holdings.(escrow := b'.holdings.escrow) && b'.holdings.escrow == b.holdings.escrow + amount
    && b'.pool == b.pool && b'.question == b.question
    && b'.market == b.market.(totalContributed := b'.market.totalContributed,
                              openContributions := b'.market.openContributions)
    && b'.market.totalContributed == b.market.totalContributed + amount
    && b'.market.openContributions == b.market.openContributions + (if who in b.contributions || adopted then 0 else 1)
    && (adopted ==> who !in b.contributions)
  }

  lemma ContributeShape(b: Book, who: Address, amount: U64, wallet: U64, slotFunded: bool)
    requires DoContribute(b, who, amount, wallet, slotFunded).Ok?
    ensures var e := DoContribute(b, who, amount, wallet, slotFunded).value;
            && e.Live? && e.event.Contributed? && e.event == Contributed(who, amount, e.event.adopted)
            && ContributedTo(b, e.book, who, amount, e.event.adopted)
  {
  }

  lemma ContributeHistory(b: Book, j: Journal, b': Book, who: Address, amount: nat, adopted: bool)
    requires History(b, j) && j.exits == [] && ContributedTo(b, b', who, amount, adopted)
    ensures History(b', Post(j, Contributed(who, amount, adopted)))
  {
  }

  lemma ContributeMoney(b: Book, j: Journal, b': Book, who: Address, amount: nat, adopted: bool, t: Totals,
                        share: nat, share': nat)
    requires ContributedTo(b, b', who, amount, adopted)
    requires Money(b, j, t, share) && Counted(b.market, j, t)
    ensures var j', t' := Post(j, Contributed(who, amount, adopted)), Staked(t, who in b.contributions, amount);
            Money(b', j', t', share') && Counted(b'.market, j', t')
  {
  }

  lemma ContributeMoves(b: Book, j: Journal, b': Book, j': Journal, who: Address, amount: nat, adopted: bool)
    requires ContributedTo(b, b', who, amount, adopted) && j' == Post(j, Contributed(who, amount, adopted))
    ensures TotalsOf(b'.contributions, j') == Staked(TotalsOf(b.contributions, j), who in b.contributions, amount)
  {
    ContributeTotals(b.contributions, b'.contributions, j, j', who, b'.contributions[who], amount);
  }

  lemma ContributeInv(b: Book, j: Journal, b': Book, j': Journal, who: Address, amount: nat, adopted: bool)
    requires Inv(b, j) && ContributedTo(b, b', who, amount, adopted) && j' == Post(j, Contributed(who, amount, adopted))
    ensures Inv(b', j')
  {
    ContributeHistory(b, j, b', who, amount, adopted);
    ContributeMoves(b, j, b', j', who, amount, adopted);
    ContributeMoney(b, j, b', who, amount, adopted, TotalsOf(b.contributions, j), ShareTotal(b), ShareTotal(b'));
  }

  lemma CancelMoney(b: Book, j: Journal, s: Subject, t: Totals, share: nat, share': nat)
    requires DoCancel(b, s).Ok?
    requires Money(b, j, t, share) && Counted(b.market, j, t)
    ensures var b' := DoCancel(b, s).value.book; Money(b', j, t, share') && Counted(b'.market, j, t)
  {
  }

  lemma CancelKeeps(b: Book, j: Journal, b': Book, s: Subject)
    requires Inv(b, j) && DoCancel(b, s).Ok? && b' == DoCancel(b, s).value.book
    ensures Inv(b', j)
  {
    CancelMoney(b, j, s, TotalsOf(b.contributions, j), ShareTotal(b), ShareTotal(b'));
  }

  // ---- exits ----

  /** Dropping a record and noting its exit. */
  lemma ExitHistory(b: Book, j: Journal, b': Book, x: Exit)
    requires History(b, j) && x.who in b.contributions
    requires b'.contributions == b.contributions - {x.who}
    requires b'.market == b.market.(openContributions := b'.market.openContributions)
    requires ExitsFit(b.market, j.(exits := [x]))
    ensures History(b', j.(exits := j.exits + [x]))
  {
    var j' := j.(exits := j.exits + [x]);
    assert ExitsFit(b'.market, j') by {
      assert j.(exits := [x]).exits[0] == x;
    }
    forall who | who in j.staked || who in j.late
      ensures who in b'.contributions || Exited(j'.exits, who)
    {
      if who == x.who {
        assert j'.exits[|j.exits|].who == who;
      } else if who !in b.contributions {
        var i :| 0 <= i < |j.exits| && j.exits[i].who == who;
        assert j'.exits[i].who == who;
      }
    }
  }

  function Left(t: Totals, c: Contribution, x: Exit): Totals
    requires t.records >= 1 && t.amount >= c.amount && t.late >= c.lateLp
  {
    t.(records := t.records - 1, amount := t.amount - c.amount, late := t.late - c.lateLp,
       refunded := t.refunded + (if x.RefundExit? then x.sol else 0),
       claimed := t.claimed + (if x.LpExit? then x.lp else 0))
  }

  lemma ExitTotals(m: Market, cs: Records, cs': Records, j: Journal, j': Journal, x: Exit)
    requires x.who in cs && cs' == cs - {x.who} && j' == j.(exits := j.exits + [x])
    ensures var t, c := TotalsOf(cs, j), cs[x.who];
            t.records >= 1 && t.amount >= c.amount && t.late >= c.lateLp && TotalsOf(cs', j') == Left(t, c, x)
    ensures Sum(Shares(m, cs)) == Sum(Shares(m, cs')) + ShareValue(m, cs[x.who])
  {
    SumsAfterDrop(m, cs, cs', x.who);
    CountAfterDrop(cs, cs', x.who);
    PaidOutStep(j.exits, x);
  }

  /** What a successful exit changed. */
  predicate LeftFrom(b: Book, b': Book, who: Address) {
    && who in b.contributions
    && b'.contributions == b.contributions - {who}
    && b'.market == b.market.(openContributions := b'.market.openContributions)
    && b.market.openContributions == b'.market.openContributions + 1
    && b'.pool == b.pool && b'.question == b.question
  }

  predicate RefundedFrom(b: Book, b': Book, who: Address, sol: nat) {
    && LeftFrom(b, b', who)
    && b.market.status == Cancelled && sol == b.contributions[who].amount
    && b'.holdings == b.holdings.(escrow := b'.holdings.escrow) && b.holdings.escrow == b'.holdings.escrow + sol
  }

  lemma RefundShape(b: Book, who: Address)
    requires DoRefund(b, who).Ok?
    ensures var e := DoRefund(b, who).value;
            e.Live? && e.event.Refunded? && e.event.who == who && RefundedFrom(b, e.book, who, e.event.sol)
  {
  }

  lemma RefundMoney(b: Book, j: Journal, b': Book, who: Address, sol: nat, t: Totals, share: nat, share': nat)
    requires RefundedFrom(b, b', who, sol)
    requires t.records >= 1 && t.amount >= b.contributions[who].amount && t.late >= b.contributions[who].lateLp
    requires Money(b, j, t, share) && Counted(b.market, j, t)
    ensures var j', t' := Post(j, Refunded(who, sol)), Left(t, b.contributions[who], RefundExit(who, sol));
            Money(b', j', t', share') && Counted(b'.market, j', t')
  {
  }

  lemma RefundInv(b: Book, j: Journal, b': Book, j': Journal, who: Address, sol: nat)
    requires Inv(b, j) && RefundedFrom(b, b', who, sol) && j' == Post(j, Refunded(who, sol))
    ensures Inv(b', j')
  {
    var cs, cs' := b.contributions, b'.contributions;
    var x := RefundExit(who, sol);
    ExitHistory(b, j, b', x);
    ExitTotals(b.market, cs, cs', j, j', x);
    RefundMoney(b, j, b', who, sol, TotalsOf(cs, j), ShareTotal(b), ShareTotal(b'));
  }

  // ---- going live ----

  /** What a successful activation changed. */
  predicate ActivatedFrom(b: Book, b': Book, lp: nat) {
    && b.market.status == Funding && lp <= U64_MAX && b.holdings.escrow >= b.market.totalContributed
    && b'.contributions == b.contributions && b'.question == b.question
    && b'.market == b.market.(bound := true, lpTotal := lp, activationLp := lp,
                              activationContributed := b.market.totalContributed, grossLpTotal := lp, status := Active)
    && b'.holdings == b.holdings.(escrow := b.holdings.escrow - b.market.totalContributed, lpVault := lp)
    && lp <= b'.pool.supply + b.holdings.lpVault
  }

  lemma ActivateShape(b: Book, s: Subject, fill: Fill)
    requires DoActivate(b, s, fill).Ok?
    ensures var e := DoActivate(b, s, fill).value; e.Live? && e.event.Activated? && ActivatedFrom(b, e.book, e.event.lp)
  {
  }

  lemma ActivateMoney(b: Book, j: Journal, b': Book, lp: nat, t: Totals, share: nat, share': nat)
    requires ActivatedFrom(b, b', lp) && Money(b, j, t, share) && Counted(b.market, j, t)
    ensures Money(b', Post(j, Activated(lp)), t, share') && Counted(b'.market, Post(j, Activated(lp)), t)
  {
  }

  lemma ActivateInv(b: Book, j: Journal, b': Book, j': Journal, lp: nat)
    requires Inv(b, j) && ActivatedFrom(b, b', lp) && j' == Post(j, Activated(lp))
    ensures Inv(b', j')
  {
    SameRecords(b, j, b', j');
    ActivateMoney(b, j, b', lp, TotalsOf(b.contributions, j), ShareTotal(b), ShareTotal(b'));
  }

  function Credited(t: Totals, known: bool, lp: nat): Totals {
    t.(records := t.records + (if known then 0 else 1), late := t.late + lp, lateEver := t.lateEver + lp)
  }

  lemma AddLateSums(cs: Records, cs': Records, lt: map<Address, nat>, lt': map<Address, nat>, who: Address,
                    c: Contribution, lp: nat)
    requires c.amount == (if who in cs then cs[who].amount else 0)
    requires c.lateLp == (if who in cs then cs[who].lateLp else 0) + lp
    requires cs' == cs[who := c] && lt' == lt[who := Get(lt, who) + lp]
    ensures Sum(Amounts(cs')) == Sum(Amounts(cs)) && Sum(Lates(cs')) == Sum(Lates(cs)) + lp
    ensures Sum(lt') == Sum(lt) + lp
    ensures |cs'| == |cs| + (if who in cs then 0 else 1)
  {
    SumsAfterPut(cs, cs', who, c);
    CountAfterPut(cs, cs', who, c);
    SumRaise(lt, lt', who, lp);
  }

  lemma AddLateTotals(cs: Records, cs': Records, j: Journal, j': Journal, who: Address, c: Contribution, lp: nat)
    requires c.amount == (if who in cs then cs[who].amount else 0)
    requires c.lateLp == (if who in cs then cs[who].lateLp else 0) + lp
    requires cs' == cs[who := c]
    requires j'.late == j.late[who := Get(j.late, who) + lp] && j'.staked == j.staked && j'.exits == j.exits
    ensures TotalsOf(cs', j') == Credited(TotalsOf(cs, j), who in cs, lp)
  {
    AddLateSums(cs, cs', j.late, j'.late, who, c, lp);
  }

  /** What a successful late deposit changed. */
  predicate AddedLate(b: Book, b': Book, who: Address, sol: nat, lp: nat) {
    && sol > 0 && lp > 0
    && b.market.status == Active
    && RecordOf(b, who).lateLp + lp <= U64_MAX
    && b'.contributions == b.contributions[who := RecordOf(b, who).(lateLp := RecordOf(b, who).lateLp + lp)]
    && b'.question == b.question
    && b'.holdings == Holdings(b.holdings.escrow, 0, 0, b'.holdings.lpVault)
    && b'.holdings.lpVault == b.holdings.lpVault + lp && b'.pool.supply == b.pool.supply + lp
    && b'.market == b.market.(lpTotal := b'.market.lpTotal, grossLpTotal := b'.market.grossLpTotal,
                              totalContributed := b'.market.totalContributed,
                              openContributions := b'.market.openContributions)
    && b'.market.lpTotal == b.market.lpTotal + lp && b'.market.grossLpTotal == b.market.grossLpTotal + lp
    && b'.market.totalContributed == b.market.totalContributed + sol
    && b'.market.openContributions == b.market.openContributions + (if who in b.contributions then 0 else 1)
  }

  lemma AddLateShape(b: Book, s: Subject, op: Op)
    requires op.AddLate? && Apply(b, s, op).Ok?
    ensures var e := Apply(b, s, op).value;
            && e.Live? && e.event.LiquidityAdded? && e.event == LiquidityAdded(op.who, op.amount, e.event.lp)
            && AddedLate(b, e.book, op.who, op.amount, e.event.lp)
  {
  }

  lemma AddLateHistory(b: Book, j: Journal, b': Book, who: Address, sol: nat, lp: nat)
    requires History(b, j) && j.exits == [] && AddedLate(b, b', who, sol, lp)
    ensures History(b', Post(j, LiquidityAdded(who, sol, lp)))
  {
  }

  lemma AddLateMoney(b: Book, j: Journal, b': Book, who: Address, sol: nat, lp: nat, t: Totals, share: nat, share': nat)
    requires AddedLate(b, b', who, sol, lp) && Money(b, j, t, share) && Counted(b.market, j, t)
    ensures var j', t' := Post(j, LiquidityAdded(who, sol, lp)), Credited(t, who in b.contributions, lp);
            Money(b', j', t', share') && Counted(b'.market, j', t')
  {
  }

  lemma AddLateMoves(b: Book, j: Journal, b': Book, j': Journal, who: Address, sol: nat, lp: nat)
    requires AddedLate(b, b', who, sol, lp) && j' == Post(j, LiquidityAdded(who, sol, lp))
    ensures TotalsOf(b'.contributions, j') == Credited(TotalsOf(b.contributions, j), who in b.contributions, lp)
  {
    AddLateTotals(b.contributions, b'.contributions, j, j', who, b'.contributions[who], lp);
  }

  lemma AddLateInv(b: Book, j: Journal, b': Book, j': Journal, who: Address, sol: nat, lp: nat)
    requires Inv(b, j) && AddedLate(b, b', who, sol, lp) && j' == Post(j, LiquidityAdded(who, sol, lp))
    ensures Inv(b', j')
  {
    ActiveNotCollected(b, j);
    ActiveBasis(b, j, TotalsOf(b.contributions, j), ShareTotal(b));
    AddLateHistory(b, j, b', who, sol, lp);
    AddLateMoves(b, j, b', j', who, sol, lp);
    AddLateMoney(b, j, b', who, sol, lp, TotalsOf(b.contributions, j), ShareTotal(b), ShareTotal(b'));
  }

  // ---- opening claims ----

  /** From n floors over weights that fall short of the whole by at most `gap`, read off the total itself. */
  lemma TotalFromPortions(parts: nat, weights: nat, total: nat, n: nat, whole: nat, gap: nat)
    requires 0 < n && (total <= whole || gap == 0)
    requires 0 < whole && weights <= whole <= weights + gap
    requires PortionsTotal(parts, weights, n, total, whole)
    ensures parts <= total < parts + n + gap
  {
    MulLe(weights, whole, total);
    CancelLe(parts, total, whole);
    // total*whole <= total*weights + total*gap <= whole*parts + (whole - 1)*n + whole*gap
    MulLe(whole, weights + gap, total);
    Distribute(total, weights, gap);
    if gap != 0 {
      MulLe(total, whole, gap);
    }
    Distribute(n, whole, 1);
    Distribute(whole, parts, n);
    Distribute(whole, parts + n, gap);
    CancelLt(total, parts + n + gap, whole);
  }

  lemma CohortNotEmpty(cs: Records)
    requires Sum(Amounts(cs)) > 0
    ensures |cs| > 0
  {
    if |cs| == 0 {
      EmptySums(cs);
    }
  }

  lemma LegacyPortions(m: Market, cs: Records)
    requires m.grossLpTotal == m.activationLp && 0 < m.totalContributed
    ensures Portions(Shares(m, cs), Amounts(cs), m.lpTotal, m.totalContributed)
    ensures |Amounts(cs)| == |cs|
  {
    assert Amounts(cs).Keys == cs.Keys;
  }

  lemma LegacyShares(m: Market, cs: Records)
    requires m.grossLpTotal == m.activationLp && 0 < m.totalContributed == Sum(Amounts(cs))
    ensures Sum(Shares(m, cs)) <= m.lpTotal < Sum(Shares(m, cs)) + |cs|
  {
    CohortNotEmpty(cs);
    LegacyPortions(m, cs);
    PortionsSum(Shares(m, cs), Amounts(cs), m.lpTotal, m.totalContributed);
    TotalFromPortions(Sum(Shares(m, cs)), m.totalContributed, m.lpTotal, |cs|, m.totalContributed, 0);
  }

  function FundingLp(m: Market, cs: Records): map<Address, nat>
    requires m.activationContributed > 0
  {
    map k | k in cs :: Portion(m.activationLp, cs[k].amount, m.activationContributed)
  }

  function GrossLp(m: Market, cs: Records): map<Address, nat> {
    map k | k in cs :: ContributorLp(cs[k], m)
  }

  lemma FundingPortions(m: Market, cs: Records)
    requires m.activationContributed > 0
    ensures Portions(FundingLp(m, cs), Amounts(cs), m.activationLp, m.activationContributed)
    ensures IsSum(GrossLp(m, cs), FundingLp(m, cs), Lates(cs))
    ensures |Amounts(cs)| == |GrossLp(m, cs)| == |cs|
  {
    assert Amounts(cs).Keys == GrossLp(m, cs).Keys == cs.Keys;
  }

  lemma GrossIsFundingPlusLate(m: Market, cs: Records)
    requires m.activationContributed > 0
    ensures Sum(GrossLp(m, cs)) == Sum(FundingLp(m, cs)) + Sum(Lates(cs))
  {
    FundingPortions(m, cs);
    var g, f, l := GrossLp(m, cs), FundingLp(m, cs), Lates(cs);
    assert g.Keys == f.Keys == l.Keys;
    SumOfSums(g, f, l, g.Keys);
  }

  lemma FundingTotal(m: Market, cs: Records)
    requires 0 < m.activationContributed == Sum(Amounts(cs))
    ensures Sum(GrossLp(m, cs)) <= m.activationLp + Sum(Lates(cs)) < Sum(GrossLp(m, cs)) + |cs|
  {
    CohortNotEmpty(cs);
    FundingPortions(m, cs);
    PortionsSum(FundingLp(m, cs), Amounts(cs), m.activationLp, m.activationContributed);
    TotalFromPortions(Sum(FundingLp(m, cs)), m.activationContributed, m.activationLp, |cs|, m.activationContributed, 0);
    GrossIsFundingPlusLate(m, cs);
  }

  lemma MixedPortions(m: Market, cs: Records)
    requires m.grossLpTotal != m.activationLp && m.grossLpTotal > 0
    ensures Portions(Shares(m, cs), GrossLp(m, cs), m.lpTotal, m.grossLpTotal)
    ensures |GrossLp(m, cs)| == |cs|
  {
    assert GrossLp(m, cs).Keys == cs.Keys;
  }

  lemma MixedShares(m: Market, cs: Records)
    requires m.grossLpTotal > m.activationLp && m.lpTotal <= m.grossLpTotal
    requires 0 < m.activationContributed == Sum(Amounts(cs))
    requires Sum(Lates(cs)) + m.activationLp == m.grossLpTotal
    ensures Sum(Shares(m, cs)) <= m.lpTotal < Sum(Shares(m, cs)) + 2 * |cs|
  {
    CohortNotEmpty(cs);
    FundingTotal(m, cs);
    MixedPortions(m, cs);
    PortionsSum(Shares(m, cs), GrossLp(m, cs), m.lpTotal, m.grossLpTotal);
    TotalFromPortions(Sum(Shares(m, cs)), Sum(GrossLp(m, cs)), m.lpTotal, |cs|, m.grossLpTotal, |cs|);
  }

  /** Before anyone leaves, the LP total covers every floor share, with less than 2n units to spare. */
  lemma SharesAgainstTotal(m: Market, cs: Records)
    requires m.lpTotal <= m.grossLpTotal && 0 < m.activationContributed == Sum(Amounts(cs))
    requires Sum(Lates(cs)) + m.activationLp == m.grossLpTotal
    requires m.grossLpTotal == m.activationLp ==> m.totalContributed == m.activationContributed
    ensures Sum(Shares(m, cs)) <= m.lpTotal < Sum(Shares(m, cs)) + 2 * |cs|
  {
    if m.grossLpTotal == m.activationLp {
      LegacyShares(m, cs);
    } else {
      MixedShares(m, cs);
    }
  }

  predicate PayoutFits(q: Question, status: MarketStatus) {
    (status == Resolved && (q == YES_PAYS || q == NO_PAYS)) || (status == Void && q == HALF_EACH)
  }

  /** What a successful resolution changed. */
  predicate ResolvedFrom(b: Book, b': Book) {
    && b.market.status == Active && PayoutFits(b'.question, b'.market.status)
    && b' == b.(market := b'.market, question := b'.question)
    && b'.market == b.market.(settled := true, status := b'.market.status, feeCollected := b'.market.feeCollected)
    && b'.market.feeCollected == (b.market.feeCollected || b.market.feeBps == 0 || b.market.lpTotal == 0)
  }

  lemma ResolveShape(b: Book, s: Subject)
    requires DoResolve(b, s).Ok?
    ensures var e := DoResolve(b, s).value; e.Live? && e.event == Settled(e.book.question) && ResolvedFrom(b, e.book)
  {
  }

  lemma ResolveMoney(b: Book, j: Journal, b': Book, t: Totals, share: nat, share': nat)
    requires ResolvedFrom(b, b') && Money(b, j, t, share) && Counted(b.market, j, t)
    requires share' <= b.market.lpTotal < share' + 2 * t.records
    ensures Money(b', Post(j, Settled(b'.question)), t, share') && Counted(b'.market, Post(j, Settled(b'.question)), t)
  {
  }

  lemma ActiveNotCollected(b: Book, j: Journal)
    requires Inv(b, j) && b.market.status == Active
    ensures !b.market.feeCollected
  {
  }

  lemma ActiveBasis(b: Book, j: Journal, t: Totals, share: nat)
    requires Money(b, j, t, share) && !b.market.feeCollected
    requires b.market.status != Funding && b.market.status != Cancelled
    ensures var m := b.market;
            && j.exits == []
            && m.lpTotal == m.grossLpTotal && 0 < m.activationContributed == t.amount
            && t.late + m.activationLp == m.grossLpTotal
            && (m.grossLpTotal == m.activationLp ==> m.totalContributed == m.activationContributed)
  {
  }

  lemma ResolveFits(b: Book, j: Journal, b': Book)
    requires Inv(b, j) && ResolvedFrom(b, b')
    ensures j.exits == []
    ensures ShareTotal(b') <= b.market.lpTotal < ShareTotal(b') + 2 * |b.contributions|
  {
    ActiveNotCollected(b, j);
    ActiveBasis(b, j, TotalsOf(b.contributions, j), ShareTotal(b));
    SharesAgainstTotal(b'.market, b'.contributions);
  }

  lemma ResolveInv(b: Book, j: Journal, b': Book, j': Journal)
    requires Inv(b, j) && ResolvedFrom(b, b') && j' == Post(j, Settled(b'.question))
    ensures Inv(b', j')
  {
    ResolveFits(b, j, b');
    SameRecords(b, j, b', j');
    ResolveMoney(b, j, b', TotalsOf(b.contributions, j), ShareTotal(b), ShareTotal(b'));
  }

  /** A market with its fee pending meets the conditions under which the fee arithmetic is total. */
  lemma PendingIsCollectable(b: Book, j: Journal)
    requires Inv(b, j) && (b.market.status == Resolved || b.market.status == Void) && !b.market.feeCollected
    ensures Collectable(b.market, b.question, b.pool)
  {
  }

  /** What a successful fee crank changed. */
  predicate FeeCutFrom(b: Book, b': Book, feeLp: nat) {
    && !b.market.feeCollected && (b.market.status == Resolved || b.market.status == Void)
    && b'.contributions == b.contributions && b'.question == b.question
    && feeLp <= b.market.lpTotal && feeLp <= b.holdings.lpVault
    && b'.market == b.market.(lpTotal := b.market.lpTotal - feeLp, feeCollected := true)
    && b'.holdings.lpVault == b.holdings.lpVault - feeLp
    && b'.holdings.escrow <= b.holdings.escrow
    && b'.holdings.cyes <= b.holdings.cyes && b'.holdings.cno <= b.holdings.cno
    && b'.pool.supply == b.pool.supply - feeLp
  }

  lemma CollectFeeShape(b: Book, destination: FeeDestination, unwind: Unwind)
    requires DoCollectFee(b, destination, unwind).Ok?
    ensures var e := DoCollectFee(b, destination, unwind).value;
            e.Live? && e.event.FeeCut? && FeeCutFrom(b, e.book, e.event.lp)
  {
  }

  lemma CollectFeeMoney(b: Book, j: Journal, b': Book, feeLp: nat, t: Totals, share: nat, share': nat)
    requires FeeCutFrom(b, b', feeLp) && Money(b, j, t, share) && Counted(b.market, j, t)
    requires share' <= b'.market.lpTotal < share' + 2 * t.records
    ensures Money(b', Post(j, FeeCut(feeLp)), t, share') && Counted(b'.market, Post(j, FeeCut(feeLp)), t)
  {
  }

  lemma CollectFeeFits(b: Book, j: Journal, b': Book, feeLp: nat)
    requires Inv(b, j) && FeeCutFrom(b, b', feeLp)
    ensures j.exits == []
    ensures ShareTotal(b') <= b'.market.lpTotal < ShareTotal(b') + 2 * |b.contributions|
  {
    ActiveBasis(b, j, TotalsOf(b.contributions, j), ShareTotal(b));
    SharesAgainstTotal(b'.market, b'.contributions);
  }

  lemma CollectFeeInv(b: Book, j: Journal, b': Book, j': Journal, feeLp: nat)
    requires Inv(b, j) && FeeCutFrom(b, b', feeLp) && j' == Post(j, FeeCut(feeLp))
    ensures Inv(b', j')
  {
    CollectFeeFits(b, j, b', feeLp);
    SameRecords(b, j, b', j');
    CollectFeeMoney(b, j, b', feeLp, TotalsOf(b.contributions, j), ShareTotal(b), ShareTotal(b'));
  }

  // ---- claims ----

  /** The share `claim_lp` computes never errs for a live record. */
  lemma ShareIsValue(b: Book, j: Journal, who: Address)
    requires ClaimsInv(b, j, TotalsOf(b.contributions, j), ShareTotal(b)) && who in b.contributions
    ensures ShareOf(b.market, b.contributions[who]) == Ok(ShareValue(b.market, b.contributions[who]))
  {
    var m, c := b.market, b.contributions[who];
    RecordWithinSums(b.contributions, who);
    if m.grossLpTotal == m.activationLp {
      ProRataExact(m.lpTotal, c.amount, m.totalContributed);
    } else {
      GrossExact(m, c);
    }
  }

  lemma SameShares(m: Market, m': Market, cs: Records)
    requires m' == m.(openContributions := m'.openContributions)
    ensures Shares(m', cs) == Shares(m, cs)
  {
  }

  /** What a successful claim changed. */
  predicate ClaimedFrom(b: Book, b': Book, who: Address, lp: nat) {
    && LeftFrom(b, b', who)
    && b.market.feeCollected && b.market.status != Funding && b.market.status != Cancelled
    && b'.holdings == b.holdings.(lpVault := b'.holdings.lpVault) && b.holdings.lpVault == b'.holdings.lpVault + lp
    && Ok(lp) == if b.market.openContributions == 1 then Ok(b.holdings.lpVault)
                 else ShareOf(b.market, b.contributions[who])
  }

  lemma ClaimShape(b: Book, who: Address)
    requires DoClaimLp(b, who).Ok?
    ensures var e := DoClaimLp(b, who).value;
            e.Live? && e.event.LpClaimed? && e.event.who == who && ClaimedFrom(b, e.book, who, e.event.lp)
  {
  }

  lemma ClaimMoney(b: Book, j: Journal, b': Book, who: Address, lp: nat, t: Totals, share: nat, share': nat)
    requires LeftFrom(b, b', who) && b.market.feeCollected && (b.market.status == Resolved || b.market.status == Void)
    requires b'.holdings == b.holdings.(lpVault := b'.holdings.lpVault)
    requires b.holdings.lpVault == b'.holdings.lpVault + lp
    requires Money(b, j, t, share) && Counted(b.market, j, t)
    requires t.records >= 1 && t.amount >= b.contributions[who].amount && t.late >= b.contributions[who].lateLp
    requires if b.market.openContributions == 1 then lp == b.holdings.lpVault else share == share' + lp
    ensures var j', t' := Post(j, LpClaimed(who, lp)), Left(t, b.contributions[who], LpExit(who, lp));
            Money(b', j', t', share') && Counted(b'.market, j', t')
  {
  }

  lemma ShareLeaves(b: Book, j: Journal, b': Book, who: Address, lp: nat)
    requires ClaimsInv(b, j, TotalsOf(b.contributions, j), ShareTotal(b)) && ClaimedFrom(b, b', who, lp)
    ensures if b.market.openContributions == 1 then lp == b.holdings.lpVault else ShareTotal(b) == ShareTotal(b') + lp
  {
    var cs, cs' := b.contributions, b'.contributions;
    ShareIsValue(b, j, who);
    SumsAfterDrop(b.market, cs, cs', who);
    SameShares(b.market, b'.market, cs');
  }

  lemma ClaimTotals(b: Book, j: Journal, b': Book, j': Journal, who: Address, lp: nat)
    requires History(b, j) && ClaimedFrom(b, b', who, lp) && j' == Post(j, LpClaimed(who, lp))
    requires b.market.status == Resolved || b.market.status == Void
    ensures History(b', j')
    ensures var t, c := TotalsOf(b.contributions, j), b.contributions[who];
            t.records >= 1 && t.amount >= c.amount && t.late >= c.lateLp &&
            TotalsOf(b'.contributions, j') == Left(t, c, LpExit(who, lp))
  {
    ExitHistory(b, j, b', LpExit(who, lp));
    ExitTotals(b.market, b.contributions, b'.contributions, j, j', LpExit(who, lp));
  }

  lemma ClaimInv(b: Book, j: Journal, b': Book, j': Journal, who: Address, lp: nat)
    requires Inv(b, j) && (b.market.status == Resolved || b.market.status == Void)
    requires ClaimedFrom(b, b', who, lp) && j' == Post(j, LpClaimed(who, lp))
    ensures Inv(b', j')
  {
    ClaimTotals(b, j, b', j', who, lp);
    ShareLeaves(b, j, b', who, lp);
    ClaimMoney(b, j, b', who, lp, TotalsOf(b.contributions, j), ShareTotal(b), ShareTotal(b'));
  }

  // ---- the world around ----

  /** Whatever arrived is recorded as stray, account by account. */
  predicate Donation(b: Book, b': Book, j: Journal, j': Journal) {
    && b' == b.(holdings := b'.holdings) && j' == j.(stray := j'.stray)
    && b'.holdings.escrow - b.holdings.escrow == j'.stray.escrow - j.stray.escrow >= 0
    && b'.holdings.cyes - b.holdings.cyes == j'.stray.cyes - j.stray.cyes >= 0
    && b'.holdings.cno - b.holdings.cno == j'.stray.cno - j.stray.cno >= 0
    && b'.holdings.lpVault - b.holdings.lpVault == j'.stray.lpVault - j.stray.lpVault >= 0
    && (b'.holdings.lpVault == b.holdings.lpVault || b'.holdings.lpVault <= b.pool.supply)
    && (!b.market.bound ==> b'.holdings == b.holdings.(escrow := b'.holdings.escrow))
  }

  lemma DonateShape(b: Book, j: Journal, to: Account, amount: U64)
    requires DoDonate(b, to, amount).Ok?
    ensures var e := DoDonate(b, to, amount).value; e.Live? && Donation(b, e.book, j, Post(j, e.event))
  {
  }

  lemma DonateMoney(b: Book, j: Journal, b': Book, j': Journal, t: Totals, share: nat)
    requires Donation(b, b', j, j') && Money(b, j, t, share) && Counted(b.market, j, t)
    ensures Money(b', j', t, share) && Counted(b'.market, j', t)
  {
  }

  lemma DonateInv(b: Book, j: Journal, b': Book, j': Journal)
    requires Inv(b, j) && Donation(b, b', j, j')
    ensures Inv(b', j')
  {
    SameRecords(b, j, b', j');
    DonateMoney(b, j, b', j', TotalsOf(b.contributions, j), ShareTotal(b));
  }

  lemma DriftMoney(b: Book, j: Journal, pool: Pool, t: Totals, share: nat)
    requires b.holdings.lpVault <= pool.supply && Money(b, j, t, share)
    ensures Money(b.(pool := pool), j, t, share)
  {
  }

  lemma DriftInv(b: Book, j: Journal, b': Book)
    requires Inv(b, j) && b' == b.(pool := b'.pool) && b.holdings.lpVault <= b'.pool.supply
    ensures Inv(b', j)
  {
    SameRecords(b, j, b', j);
    DriftMoney(b, j, b'.pool, TotalsOf(b.contributions, j), ShareTotal(b));
  }

  lemma CloseLedger(b: Book, j: Journal, t: Totals, share: nat)
    requires DoClose(b).Ok? && Money(b, j, t, share) && Counted(b.market, j, t) && ExitsFit(b.market, j)
    requires t.records == 0 ==> t.amount == 0
    requires t.refunded == Refunds(j.exits) && t.claimed == Claims(j.exits) && t.staked == Sum(j.staked)
    requires t.records == |b.contributions|
    ensures var j' := Post(j, DoClose(b).value.event);
            |j'.closings| == |j.closings| + 1 &&
            (j.closings == [] ==> if j'.settlements == [] then ClosedCancelled(j') else ClosedSettled(j'))
  {
  }

  lemma NoRecordsNoStake(cs: Records, j: Journal)
    ensures TotalsOf(cs, j).records == 0 ==> TotalsOf(cs, j).amount == 0
  {
    if |cs| == 0 {
      EmptySums(cs);
    }
  }

  lemma EveryoneLeft(b: Book, j: Journal)
    requires History(b, j) && |b.contributions| == 0
    ensures forall who :: who in j.staked || who in j.late ==> Exited(j.exits, who)
  {
    assert b.contributions == map[];
  }

  lemma CloseCounts(m: Market, j: Journal, t: Totals, b: Book)
    requires Counted(m, j, t) && m == b.market && DoClose(b).Ok?
    ensures t.records == j.adopted
  {
  }

  lemma ClosedFrom(b: Book, j: Journal, j': Journal)
    requires History(b, j) && j' == j.(closings := j'.closings)
    requires |j'.closings| == 1 && j'.closings[0].1 == |b.contributions| == j.adopted
    requires if j'.settlements == [] then ClosedCancelled(j') else ClosedSettled(j')
    ensures ClosedInv(j')
  {
    if j.adopted == 0 {
      EveryoneLeft(b, j);
    }
  }

  lemma CloseAccounts(b: Book, j: Journal, t: Totals, j': Journal)
    requires DoClose(b).Ok? && j' == Post(j, DoClose(b).value.event) && j.closings == []
    requires t == TotalsOf(b.contributions, j) && Counted(b.market, j, t) && Money(b, j, t, ShareTotal(b))
    requires ExitsFit(b.market, j)
    ensures |j'.closings| == 1 && j'.closings[0].1 == |b.contributions| == j.adopted
    ensures j' == j.(closings := j'.closings)
    ensures if j'.settlements == [] then ClosedCancelled(j') else ClosedSettled(j')
  {
    NoRecordsNoStake(b.contributions, j);
    CloseCounts(b.market, j, t, b);
    CloseLedger(b, j, t, ShareTotal(b));
  }

  lemma CloseCloses(b: Book, j: Journal, j': Journal)
    requires Inv(b, j) && DoClose(b).Ok? && j' == Post(j, DoClose(b).value.event)
    ensures ClosedInv(j')
  {
    CloseAccounts(b, j, TotalsOf(b.contributions, j), j');
    ClosedFrom(b, j, j');
  }

  // ---- the main invariant ----

  ghost predicate Kept(b: Book, j: Journal, s: Subject, op: Op)
    requires Apply(b, s, op).Ok?
  {
    match Apply(b, s, op).value
    case Live(book, event) => Inv(book, Post(j, event))
    case Gone(event) => ClosedInv(Post(j, event))
  }

  lemma FundingStepKeeps(b: Book, j: Journal, s: Subject, op: Op)
    requires Inv(b, j) && Apply(b, s, op).Ok? && (op.Contribute? || op.Cancel? || op.Refund?)
    ensures Kept(b, j, s, op)
  {
    var e := Apply(b, s, op).value;
    var j' := Post(j, e.event);
    match op
    case Contribute(who, amount, wallet, slotFunded) =>
      ContributeShape(b, who, amount, wallet, slotFunded);
      ContributeInv(b, j, e.book, j', who, amount, e.event.adopted);
    case Cancel =>
      CancelKeeps(b, j, e.book, s);
    case Refund(who) =>
      RefundShape(b, who);
      RefundInv(b, j, e.book, j', who, e.event.sol);
  }

  lemma LiveStepKeeps(b: Book, j: Journal, s: Subject, op: Op)
    requires Inv(b, j) && Apply(b, s, op).Ok? && (op.Activate? || op.AddLate? || op.Resolve?)
    ensures Kept(b, j, s, op)
  {
    var e := Apply(b, s, op).value;
    var j' := Post(j, e.event);
    match op
    case Activate(fill) =>
      ActivateShape(b, s, fill);
      ActivateInv(b, j, e.book, j', e.event.lp);
    case AddLate(who, amount, _, _, _, _, _, _) =>
      AddLateShape(b, s, op);
      AddLateInv(b, j, e.book, j', who, amount, e.event.lp);
    case Resolve =>
      ResolveShape(b, s);
      ResolveInv(b, j, e.book, j');
  }

  lemma CollectFeeStepKeeps(b: Book, j: Journal, s: Subject, op: Op)
    requires Inv(b, j) && op.CollectFee? && Apply(b, s, op).Ok?
    ensures Kept(b, j, s, op)
  {
    var e := Apply(b, s, op).value;
    CollectFeeShape(b, op.destination, op.unwind);
    CollectFeeInv(b, j, e.book, Post(j, e.event), e.event.lp);
  }

  lemma ClaimStepKeeps(b: Book, j: Journal, s: Subject, op: Op)
    requires Inv(b, j) && op.ClaimLp? && Apply(b, s, op).Ok?
    ensures Kept(b, j, s, op)
  {
    var e := Apply(b, s, op).value;
    ClaimShape(b, op.who);
    if b.market.status == Active {
      ActiveNotCollected(b, j);
    } else {
      ClaimInv(b, j, e.book, Post(j, e.event), op.who, e.event.lp);
    }
  }

  lemma CloseStepKeeps(b: Book, j: Journal, s: Subject, op: Op)
    requires Inv(b, j) && op.Close? && Apply(b, s, op).Ok?
    ensures Kept(b, j, s, op)
  {
    CloseCloses(b, j, Post(j, Apply(b, s, op).value.event));
  }

  lemma DonateStepKeeps(b: Book, j: Journal, s: Subject, op: Op)
    requires Inv(b, j) && op.Donate? && Apply(b, s, op).Ok?
    ensures Kept(b, j, s, op)
  {
    var e := Apply(b, s, op).value;
    DonateShape(b, j, op.to, op.amount);
    DonateInv(b, j, e.book, Post(j, e.event));
  }

  lemma DriftShape(b: Book, j: Journal, s: Subject, op: Op)
    requires op.Drift? && Apply(b, s, op).Ok?
    ensures Apply(b, s, op) == Ok(Live(b.(pool := op.pool), Drifted)) && b.holdings.lpVault <= op.pool.supply
    ensures Post(j, Drifted) == j
  {
  }

  lemma DriftStepKeeps(b: Book, j: Journal, s: Subject, op: Op)
    requires Inv(b, j) && op.Drift? && Apply(b, s, op).Ok?
    ensures Kept(b, j, s, op)
  {
    DriftShape(b, j, s, op);
    DriftInv(b, j, b.(pool := op.pool));
  }

  /** One step: any instruction, any Subject passed, any behaviour of the outside world. */
  lemma StepKeeps(b: Book, j: Journal, s: Subject, op: Op)
    requires Inv(b, j) && Apply(b, s, op).Ok?
    ensures Kept(b, j, s, op)
  {
    if op.Contribute? || op.Cancel? || op.Refund? {
      FundingStepKeeps(b, j, s, op);
    } else if op.Activate? || op.AddLate? || op.Resolve? {
      LiveStepKeeps(b, j, s, op);
    } else if op.Donate? {
      DonateStepKeeps(b, j, s, op);
    } else if op.Drift? {
      DriftStepKeeps(b, j, s, op);
    } else if op.CollectFee? {
      CollectFeeStepKeeps(b, j, s, op);
    } else if op.ClaimLp? {
      ClaimStepKeeps(b, j, s, op);
    } else {
      CloseStepKeeps(b, j, s, op);
    }
  }
}
