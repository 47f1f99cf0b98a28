/** What each instruction does to one market, as functions on its accounts; an error leaves everything unchanged. */
module Lifecycle {
  import opened Numbers
  import opened Outcomes
  import opened State
  import opened MetaDao
  import opened ClaimShares
  import opened FeeMath

  /** The token accounts anyone can send tokens to. */
  datatype Account = Escrow | Cyes | Cno | LpVault

  /** What an observer sees of a successful step. */
  datatype Event =
    | Opened(who: Address, sol: nat)
    | Contributed(who: Address, sol: nat, adopted: bool)   // adopted: stands up a record the counter misses
    | WasCancelled
    | Refunded(who: Address, sol: nat)
    | Activated(lp: nat)
    | LiquidityAdded(who: Address, sol: nat, lp: nat)
    | Settled(question: Question)
    | FeeCut(lp: nat)
    | LpClaimed(who: Address, lp: nat)
    | Donated(to: Account, amount: nat)
    | Drifted
    | Closed(strandedLp: nat, strandedRecords: nat)

  datatype Effect = Live(book: Book, event: Event) | Gone(event: Event)

  datatype Op =
    | Contribute(who: Address, amount: U64, wallet: U64, slotFunded: bool)
    | Cancel
    | Refund(who: Address)
    | Activate(fill: Fill)
    | AddLate(who: Address, amount: U64, quoteAmount: U64, maxBase: U64, minLp: U64,
              wallet: U64, slotFunded: bool, fill: Fill)
    | Resolve
    | CollectFee(destination: FeeDestination, unwind: Unwind)
    | ClaimLp(who: Address)
    | Close
    // steps of the world around the program
    | Donate(to: Account, amount: U64)
    | Drift(pool: Pool)

  function Fresh(outcome: U8, minLiquidity: U64, feeBps: U16, creator: Address, seed: U64): Book {
    Book(Market(outcome, minLiquidity, feeBps, seed, 1, Funding, false, false, false, 0, 0, 0, 0),
         map[creator := Contribution(seed, 0)], Holdings(seed, 0, 0, 0), Pool(0, 0, 0), UNRESOLVED)
  }

  function RecordOf(b: Book, who: Address): Contribution {
    if who in b.contributions then b.contributions[who] else Contribution(0, 0)
  }

  /** `record_contribution`: move the SOL, then create or increment; existence is decided by ownership. */
  function RecordContribution(b: Book, who: Address, amount: U64, wallet: U64): Result<Book> {
    if amount == 0 then Err(ZeroAmount) else
    :- Need(amount <= wallet && b.holdings.escrow + amount <= U64_MAX, TransferFailed);
    var c := RecordOf(b, who);
    var staked :- CheckedAdd64(c.amount, amount);
    Ok(b.(contributions := b.contributions[who := c.(amount := staked)],
          holdings := b.holdings.(escrow := b.holdings.escrow + amount)))
  }

  /** `contribute` decides "new" by lamports and data: a live record and a pre-funded slot both look old. */
  predicate LooksNew(b: Book, who: Address, slotFunded: bool) {
    who !in b.contributions && !slotFunded
  }

  function CountOne(m: Market, isNew: bool): Result<Market> {
    if !isNew then Ok(m)
    else if m.openContributions + 1 <= U16_MAX then Ok(m.(openContributions := m.openContributions + 1))
    else Err(ArithmeticOverflow)
  }

  function UncountOne(m: Market): Result<Market> {
    if m.openContributions < 1 then Err(ArithmeticOverflow) else
    Ok(m.(openContributions := m.openContributions - 1))
  }

  function DoContribute(b: Book, who: Address, amount: U64, wallet: U64, slotFunded: bool): Result<Effect> {
    if b.market.status != Funding then Err(NotFunding) else
    var isNew := LooksNew(b, who, slotFunded);
    var recorded :- RecordContribution(b, who, amount, wallet);
    var total :- CheckedAdd64(b.market.totalContributed, amount);
    var m :- CountOne(b.market.(totalContributed := total), isNew);
    Ok(Live(recorded.(market := m), Contributed(who, amount, who !in b.contributions && !isNew)))
  }

  function DoCancel(b: Book, s: Subject): Result<Effect> {
    if b.market.status != Funding then Err(NotFunding) else
    :- Need(s.IsTerminal(), OracleNotTerminal);
    Ok(Live(b.(market := b.market.(status := Cancelled)), WasCancelled))
  }

  function DoRefund(b: Book, who: Address): Result<Effect> {
    if b.market.status != Cancelled then Err(NotCancelled) else
    :- Need(who in b.contributions, InvalidAccount);
    var sol := b.contributions[who].amount;
    :- Need(sol <= b.holdings.escrow, TransferFailed);
    var m :- UncountOne(b.market);
    Ok(Live(b.(market := m, contributions := b.contributions - {who},
               holdings := b.holdings.(escrow := b.holdings.escrow - sol)), Refunded(who, sol)))
  }

  /** Splits the whole of `total_contributed`, seeds the pool with both legs and freezes the claim basis. */
  function DoActivate(b: Book, s: Subject, fill: Fill): Result<Effect> {
    if b.market.status != Funding then Err(NotFunding) else
    :- Need(b.market.totalContributed >= b.market.minLiquidity, NotFunded);
    :- Need(!s.IsTerminal(), OracleResolved);
    :- Need(b.pool.base == 0 && b.pool.quote == 0, PoolNotEmpty);
    var amount := b.market.totalContributed;
    var split :- Split(b.holdings, amount);
    var (h, p) :- AddLiquidity(split, b.pool, amount, amount, 0, fill);
    var lp := h.lpVault;
    Ok(Live(b.(market := b.market.(bound := true, lpTotal := lp, activationLp := lp, activationContributed := amount,
                                   grossLpTotal := lp, status := Active),
               holdings := h, pool := p), Activated(lp)))
  }

  /** The token half of `add_liquidity`: transfer, split, add at the live ratio, return the leftover legs. */
  function PoolLate(h: Holdings, p: Pool, amount: U64, quoteAmount: U64, maxBase: U64, minLp: U64,
                    wallet: U64, fill: Fill)
    : Result<(Holdings, Pool, U64)>
  {
    if amount > wallet || h.escrow + amount > U64_MAX then Err(TransferFailed) else
    var split :- Split(h.(escrow := h.escrow + amount), amount);
    var (h', p') :- AddLiquidity(split, p, quoteAmount, maxBase, minLp, fill);
    :- Need(h'.lpVault != h.lpVault, InvalidAccount);
    Ok((h'.(cyes := 0, cno := 0), p', h'.lpVault - h.lpVault))
  }

  /** `record_late_lp`: a pre-funded slot is neither new nor a record, so loading it fails. */
  function LateRecord(b: Book, who: Address, lpNew: U64, slotFunded: bool): Result<Contribution> {
    if !LooksNew(b, who, slotFunded) && who !in b.contributions then Err(InvalidAccount) else
    var late :- CheckedAdd64(RecordOf(b, who).lateLp, lpNew);
    Ok(RecordOf(b, who).(lateLp := late))
  }

  function CreditLate(m: Market, lpNew: U64, amount: U64, isNew: bool): Result<Market> {
    var lpTotal :- CheckedAdd64(m.lpTotal, lpNew);
    var gross :- CheckedAdd64(m.grossLpTotal, lpNew);
    var total :- CheckedAdd64(m.totalContributed, amount);
    CountOne(m.(lpTotal := lpTotal, grossLpTotal := gross, totalContributed := total), isNew)
  }

  function DoAddLate(b: Book, s: Subject, who: Address, amount: U64, quoteAmount: U64, maxBase: U64, minLp: U64,
                     wallet: U64, slotFunded: bool, fill: Fill): Result<Effect>
  {
    if amount == 0 then Err(ZeroAmount) else
    :- Need(b.market.status == Active, NotActive);
    :- Need(!s.IsTerminal(), OracleResolved);
    var (h, p, lpNew) :- PoolLate(b.holdings, b.pool, amount, quoteAmount, maxBase, minLp, wallet, fill);
    var c :- LateRecord(b, who, lpNew, slotFunded);
    var m :- CreditLate(b.market, lpNew, amount, LooksNew(b, who, slotFunded));
    Ok(Live(b.(market := m, contributions := b.contributions[who := c],
               holdings := h, pool := p), LiquidityAdded(who, amount, lpNew)))
  }

  /** The payout and terminal status a terminal Subject dictates. */
  function Verdict(b: Book, s: Subject): Result<(Question, MarketStatus)>
    requires s.IsTerminal()
  {
    if s.status == SubjectResolved then
      :- Need(s.resolvedOption < s.optionsCount, InvalidAccount);
      Ok((if s.resolvedOption == b.market.outcome then YES_PAYS else NO_PAYS, Resolved))
    else Ok((HALF_EACH, Void))
  }

  function DoResolve(b: Book, s: Subject): Result<Effect> {
    if b.market.settled then Err(AlreadySettled) else
    :- Need(b.market.status == Active, NotActive);
    :- Need(s.IsTerminal(), OracleNotTerminal);
    var (payout, status) :- Verdict(b, s);
    var question :- ResolveQuestion(b.question, payout.yes, payout.no);
    var nothingToCollect := b.market.feeBps == 0 || b.market.lpTotal == 0;
    Ok(Live(b.(market := b.market.(settled := true, status := status,
                                   feeCollected := b.market.feeCollected || nothingToCollect),
               question := question), Settled(question)))
  }

  /** The destination's owner is checked before its mint is read. */
  function CheckDestination(destination: FeeDestination): Guard {
    match destination
    case OnSolMint => Pass
    case OnOtherMint => Fail(WrongMint)
    case NotATokenAccount => Fail(InvalidAccount)
  }

  function DoCollectFee(b: Book, destination: FeeDestination, unwind: Unwind): Result<Effect>
  {
    if b.market.feeCollected then Err(AlreadySettled) else
    :- Need(b.market.status == Resolved || b.market.status == Void, NotActive);
    var stamped := b.(market := b.market.(feeCollected := true));
    if b.market.feeBps == 0 || b.market.lpTotal == 0 then Ok(Live(stamped, FeeCut(0))) else
    :- CheckDestination(destination);
    var feeLp :- FeeLp(b.market, b.question, b.pool);
    if feeLp == 0 then Ok(Live(stamped, FeeCut(0))) else
    var (removed, p) :- RemoveLiquidity(b.holdings, b.pool, feeLp, unwind);
    var redeemed :- Redeem(removed, b.question, unwind);
    :- Need(feeLp <= b.market.lpTotal, ArithmeticOverflow);
    Ok(Live(b.(market := stamped.market.(lpTotal := b.market.lpTotal - feeLp),
               holdings := redeemed.(escrow := 0), pool := p), FeeCut(feeLp)))
  }

  function DoClaimLp(b: Book, who: Address): Result<Effect> {
    if b.market.status != Active && b.market.status != Resolved && b.market.status != Void then Err(NotActive) else
    :- Need(b.market.feeCollected, FeeNotCollected);
    :- Need(who in b.contributions, InvalidAccount);
    var share :- if b.market.openContributions == 1 then Ok(b.holdings.lpVault)
                 else ShareOf(b.market, b.contributions[who]);
    :- Need(share <= b.holdings.lpVault, TransferFailed);
    var m :- UncountOne(b.market);
    Ok(Live(b.(market := m, contributions := b.contributions - {who},
               holdings := b.holdings.(lpVault := b.holdings.lpVault - share)), LpClaimed(who, share)))
  }

  function DoClose(b: Book): Result<Effect> {
    if b.market.status != Resolved && b.market.status != Void && b.market.status != Cancelled then Err(NotSettled) else
    :- Need(b.market.bound ==> b.market.feeCollected, FeeNotCollected);
    :- Need(b.market.openContributions == 0, ContributionsOpen);
    Ok(Gone(Closed(b.holdings.lpVault, |b.contributions|)))
  }

  /** Anyone may send tokens to a market's accounts; the three pool accounts exist only once it is activated. */
  function DoDonate(b: Book, to: Account, amount: U64): Result<Effect> {
    if to != Escrow && !b.market.bound then Err(TransferFailed) else
    match to
    case Escrow =>
      :- Need(b.holdings.escrow + amount <= U64_MAX, TransferFailed);
      Ok(Live(b.(holdings := b.holdings.(escrow := b.holdings.escrow + amount)), Donated(to, amount)))
    case Cyes =>
      :- Need(b.holdings.cyes + amount <= U64_MAX, TransferFailed);
      Ok(Live(b.(holdings := b.holdings.(cyes := b.holdings.cyes + amount)), Donated(to, amount)))
    case Cno =>
      :- Need(b.holdings.cno + amount <= U64_MAX, TransferFailed);
      Ok(Live(b.(holdings := b.holdings.(cno := b.holdings.cno + amount)), Donated(to, amount)))
    case LpVault =>
      :- Need(b.holdings.lpVault + amount <= b.pool.supply, TransferFailed);
      Ok(Live(b.(holdings := b.holdings.(lpVault := b.holdings.lpVault + amount)), Donated(to, amount)))
  }

  /** Swaps and outside liquidity: any reserves and any supply that still covers the market's own LP. */
  function DoDrift(b: Book, pool: Pool): Result<Effect> {
    if b.holdings.lpVault > pool.supply then Err(TransferFailed) else
    Ok(Live(b.(pool := pool), Drifted))
  }

  function Apply(b: Book, s: Subject, op: Op): Result<Effect>
  {
    match op
    case Contribute(who, amount, wallet, slotFunded) => DoContribute(b, who, amount, wallet, slotFunded)
    case Cancel => DoCancel(b, s)
    case Refund(who) => DoRefund(b, who)
    case Activate(fill) => DoActivate(b, s, fill)
    case AddLate(who, amount, quoteAmount, maxBase, minLp, wallet, slotFunded, fill) =>
      DoAddLate(b, s, who, amount, quoteAmount, maxBase, minLp, wallet, slotFunded, fill)
    case Resolve => DoResolve(b, s)
    case CollectFee(destination, unwind) => DoCollectFee(b, destination, unwind)
    case ClaimLp(who) => DoClaimLp(b, who)
    case Close => DoClose(b)
    case Donate(to, amount) => DoDonate(b, to, amount)
    case Drift(pool) => DoDrift(b, pool)
  }
}
