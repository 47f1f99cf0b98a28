/** The history of one market as its observable events tell it, and the invariant tying the accounts to it. */
module Journals {
  import opened State
  import opened MapSums
  import opened ClaimShares
  import opened Lifecycle

  datatype Exit = RefundExit(who: Address, sol: nat) | LpExit(who: Address, lp: nat)

  /** Tokens strangers sent to the market's accounts. */
  datatype Stray = Stray(escrow: nat, cyes: nat, cno: nat, lpVault: nat)

  datatype Journal = Journal(
    staked: map<Address, nat>,     // SOL each contributor put in while Funding
    late: map<Address, nat>,       // LP credited to each later depositor
    lateSol: nat,
    exits: seq<Exit>,
    adopted: nat,                  // records the live counter missed
    credited: nat,                 // LP minted into the vault for the market
    feeLp: nat,
    stray: Stray,
    settlements: seq<Question>,
    closings: seq<(nat, nat)>)     // LP and records left behind by each close

  const BLANK := Journal(map[], map[], 0, [], 0, 0, 0, Stray(0, 0, 0, 0), [], [])

  function Get(m: map<Address, nat>, k: Address): nat {
    if k in m then m[k] else 0
  }

  function Post(j: Journal, e: Event): Journal {
    match e
    case Opened(who, sol) => j.(staked := j.staked[who := Get(j.staked, who) + sol])
    case Contributed(who, sol, adopted) =>
      j.(staked := j.staked[who := Get(j.staked, who) + sol], adopted := j.adopted + if adopted then 1 else 0)
    case WasCancelled => j
    case Refunded(who, sol) => j.(exits := j.exits + [RefundExit(who, sol)])
    case Activated(lp) => j.(credited := j.credited + lp)
    case LiquidityAdded(who, sol, lp) =>
      j.(late := j.late[who := Get(j.late, who) + lp], lateSol := j.lateSol + sol, credited := j.credited + lp)
    case Settled(question) => j.(settlements := j.settlements + [question])
    case FeeCut(lp) => j.(feeLp := j.feeLp + lp)
    case LpClaimed(who, lp) => j.(exits := j.exits + [LpExit(who, lp)])
    case Donated(to, amount) => j.(stray := AddStray(j.stray, to, amount))
    case Drifted => j
    case Closed(lp, records) => j.(closings := j.closings + [(lp, records)])
  }

  function AddStray(s: Stray, to: Account, amount: nat): Stray {
    match to
    case Escrow => s.(escrow := s.escrow + amount)
    case Cyes => s.(cyes := s.cyes + amount)
    case Cno => s.(cno := s.cno + amount)
    case LpVault => s.(lpVault := s.lpVault + amount)
  }

  /** SOL and LP paid out so far. */
  function Refunds(exits: seq<Exit>): nat {
    if |exits| == 0 then 0
    else
      var x := exits[|exits| - 1];
      Refunds(exits[..|exits| - 1]) + if x.RefundExit? then x.sol else 0
  }

  function Claims(exits: seq<Exit>): nat {
    if |exits| == 0 then 0
    else
      var x := exits[|exits| - 1];
      Claims(exits[..|exits| - 1]) + if x.LpExit? then x.lp else 0
  }

  lemma PaidOutStep(exits: seq<Exit>, x: Exit)
    ensures Refunds(exits + [x]) == Refunds(exits) + (if x.RefundExit? then x.sol else 0)
    ensures Claims(exits + [x]) == Claims(exits) + (if x.LpExit? then x.lp else 0)
  {
    assert (exits + [x])[..|exits|] == exits;
  }

  predicate Exited(exits: seq<Exit>, who: Address) {
    exists i :: 0 <= i < |exits| && exits[i].who == who
  }

  // ---- weights of the live records ----

  function Amounts(cs: map<Address, Contribution>): map<Address, nat> {
    map k | k in cs :: cs[k].amount
  }

  function Lates(cs: map<Address, Contribution>): map<Address, nat> {
    map k | k in cs :: cs[k].lateLp
  }

  /** The floor share a claimer who is not the last takes. */
  function ShareValue(m: Market, c: Contribution): nat {
    if m.grossLpTotal == m.activationLp
    then if m.totalContributed == 0 then 0 else Portion(m.lpTotal, c.amount, m.totalContributed)
    else if m.grossLpTotal == 0 then 0 else Portion(m.lpTotal, ContributorLp(c, m), m.grossLpTotal)
  }

  function Shares(m: Market, cs: map<Address, Contribution>): map<Address, nat> {
    map k | k in cs :: ShareValue(m, cs[k])
  }

  /** The sums the money side of the invariant speaks of. */
  datatype Totals = Totals(
    records: nat,      // live records
    amount: nat,       // their stakes
    late: nat,         // their late LP
    staked: nat,       // every stake ever made
    lateEver: nat,     // every late credit ever made
    refunded: nat,
    claimed: nat)

  ghost function TotalsOf(cs: map<Address, Contribution>, j: Journal): Totals {
    Totals(|cs|, Sum(Amounts(cs)), Sum(Lates(cs)), Sum(j.staked), Sum(j.late), Refunds(j.exits), Claims(j.exits))
  }

  /** What every live record would take as a claimer who is not the last. */
  ghost function ShareTotal(b: Book): nat {
    Sum(Shares(b.market, b.contributions))
  }

  predicate ClaimsBegun(m: Market) {
    m.feeCollected && (m.status == Resolved || m.status == Void)
  }

  // ---- the invariant ----

  /** The counter is the number of live records, less the ones it missed; someone has yet to leave or has left. */
  predicate Counted(m: Market, j: Journal, t: Totals) {
    && t.records == m.openContributions + j.adopted
    && m.openContributions + |j.exits| >= 1
  }

  /** Each contributor's record holds exactly what they put in. */
  ghost predicate Recorded(cs: map<Address, Contribution>, j: Journal) {
    && (forall who :: who in cs ==> cs[who].amount == Get(j.staked, who) && cs[who].lateLp == Get(j.late, who))
    && (forall who :: who in cs ==> who in j.staked || who in j.late)
  }

  /** Whoever left is gone and left once, and whoever came is here or left. */
  ghost predicate LeftOnce(cs: map<Address, Contribution>, j: Journal) {
    && (forall who :: who in j.staked || who in j.late ==> who in cs || Exited(j.exits, who))
    && (forall i :: 0 <= i < |j.exits| ==> j.exits[i].who !in cs)
    && (forall i, k :: 0 <= i < k < |j.exits| ==> j.exits[i].who != j.exits[k].who)
  }

  /** Refunds happen only in a cancelled market and return the exact stake; LP leaves only a settled one. */
  ghost predicate ExitsFit(m: Market, j: Journal) {
    forall i :: 0 <= i < |j.exits| ==>
      match j.exits[i]
      case RefundExit(who, sol) => m.status == Cancelled && sol == Get(j.staked, who)
      case LpExit(_, _) => m.feeCollected && (m.status == Resolved || m.status == Void)
  }

  /** Never activated. */
  predicate Unbound(b: Book, j: Journal, t: Totals) {
    var m, h := b.market, b.holdings;
    && !m.bound && !m.settled && !m.feeCollected
    && m.lpTotal == m.activationLp == m.activationContributed == m.grossLpTotal == 0
    && h.cyes == h.cno == h.lpVault == 0
    && b.question == UNRESOLVED
    && j.late == map[] && j.lateSol == j.credited == j.feeLp == 0 && j.settlements == []
    && t.staked == m.totalContributed && t.late == t.lateEver == t.claimed == 0
    && h.escrow == t.amount + j.stray.escrow && j.stray.cyes == j.stray.cno == j.stray.lpVault == 0
  }

  predicate FundingInv(b: Book, j: Journal, t: Totals) {
    Unbound(b, j, t) && j.exits == [] && t.refunded == 0 && 0 < b.market.totalContributed == t.amount
  }

  predicate CancelledInv(b: Book, j: Journal, t: Totals) {
    Unbound(b, j, t) && t.amount + t.refunded == b.market.totalContributed
  }

  /** Activated: the frozen basis agrees with the history, and only strays sit in the transient accounts. */
  predicate Bound(b: Book, j: Journal, t: Totals) {
    var m, h := b.market, b.holdings;
    && m.bound
    && m.grossLpTotal == j.credited
    && t.staked == m.activationContributed > 0
    && t.lateEver + m.activationLp == m.grossLpTotal
    && m.totalContributed == m.activationContributed + j.lateSol
    && (m.grossLpTotal == m.activationLp ==> j.lateSol == 0)
    && h.escrow <= j.stray.escrow && h.cyes <= j.stray.cyes && h.cno <= j.stray.cno
    && h.lpVault <= b.pool.supply
  }

  /** No one has left and no fee was cut: the vault holds all the LP ever credited. */
  predicate Backed(b: Book, j: Journal, t: Totals) {
    var m, h := b.market, b.holdings;
    && !m.feeCollected && j.exits == [] && j.feeLp == t.refunded == t.claimed == 0
    && t.amount == m.activationContributed
    && t.late + m.activationLp == m.grossLpTotal == m.lpTotal
    && h.lpVault == m.grossLpTotal + j.stray.lpVault
  }

  predicate SettledAs(b: Book, j: Journal) {
    && b.market.settled
    && j.settlements == [b.question]
    && (b.market.status == Resolved ==> b.question == YES_PAYS || b.question == NO_PAYS)
    && (b.market.status == Void ==> b.question == HALF_EACH)
  }

  predicate ActiveInv(b: Book, j: Journal, t: Totals) {
    Bound(b, j, t) && Backed(b, j, t) && !b.market.settled && b.question == UNRESOLVED && j.settlements == []
  }

  predicate PendingInv(b: Book, j: Journal, t: Totals) {
    Bound(b, j, t) && Backed(b, j, t) && SettledAs(b, j) && b.market.feeBps > 0 && b.market.lpTotal > 0
  }

  /** What the vault holds is exactly accounted for, and while anyone is still counted it covers every floor
      share, with less than two spare units for each contributor there ever was. */
  predicate Vaulted(b: Book, j: Journal, t: Totals, share: nat) {
    var m, v := b.market, b.holdings.lpVault;
    && m.lpTotal + j.feeLp == m.grossLpTotal
    && t.claimed + v + j.feeLp == j.credited + j.stray.lpVault
    && (m.openContributions >= 1 ==> share <= v < share + j.stray.lpVault + 2 * (|j.exits| + t.records))
    && (m.openContributions == 0 ==> v <= j.stray.lpVault)
  }

  predicate ClaimsInv(b: Book, j: Journal, t: Totals, share: nat) {
    && Bound(b, j, t) && SettledAs(b, j) && Vaulted(b, j, t, share)
    && t.amount <= b.market.activationContributed
    && t.late + b.market.activationLp <= b.market.grossLpTotal
    && t.refunded == 0
  }

  predicate Money(b: Book, j: Journal, t: Totals, share: nat) {
    match b.market.status
    case Funding => FundingInv(b, j, t)
    case Cancelled => CancelledInv(b, j, t)
    case Active => ActiveInv(b, j, t)
    case Resolved => if b.market.feeCollected then ClaimsInv(b, j, t, share) else PendingInv(b, j, t)
    case Void => if b.market.feeCollected then ClaimsInv(b, j, t, share) else PendingInv(b, j, t)
  }

  ghost predicate History(b: Book, j: Journal) {
    && b.market.feeBps <= MAX_FEE_BPS && j.closings == []
    && Recorded(b.contributions, j) && LeftOnce(b.contributions, j) && ExitsFit(b.market, j)
  }

  ghost predicate Inv(b: Book, j: Journal) {
    && History(b, j)
    && Counted(b.market, j, TotalsOf(b.contributions, j))
    && Money(b, j, TotalsOf(b.contributions, j), ShareTotal(b))
  }

  /** What a closed market's history looks like. */
  ghost predicate ClosedInv(j: Journal) {
    && |j.closings| == 1
    && j.closings[0].1 == j.adopted
    && (forall i, k :: 0 <= i < k < |j.exits| ==> j.exits[i].who != j.exits[k].who)
    && (j.adopted == 0 ==> forall who :: who in j.staked || who in j.late ==> Exited(j.exits, who))
    && if j.settlements == [] then ClosedCancelled(j) else ClosedSettled(j)
  }

  ghost predicate ClosedCancelled(j: Journal) {
    && (forall i :: 0 <= i < |j.exits| ==> j.exits[i].RefundExit? && j.exits[i].sol == Get(j.staked, j.exits[i].who))
    && Refunds(j.exits) <= Sum(j.staked)
    && (j.adopted == 0 ==> Refunds(j.exits) == Sum(j.staked))
  }

  ghost predicate ClosedSettled(j: Journal)
    requires |j.closings| == 1
  {
    && |j.settlements| == 1
    && (forall i :: 0 <= i < |j.exits| ==> j.exits[i].LpExit?)
    && Claims(j.exits) + j.closings[0].0 + j.feeLp == j.credited + j.stray.lpVault
    && j.closings[0].0 <= j.stray.lpVault
  }
}
