/** The processors of one market, working in place on its accounts step by step as the program does. Each is proved
    against its specification function; what a failed one leaves behind is undone by the runtime (see Program). */
module MarketSites {
  import opened Numbers
  import opened Outcomes
  import opened State
  import opened MetaDao
  import opened ClaimShares
  import opened FeeMath
  import opened Lifecycle

  /** An error is the specified error; a success has the specified event and leaves the specified accounts. */
  predicate Matches(spec: Result<Effect>, r: Result<Event>, after: Book) {
    match spec
    case Err(e) => r == Err(e)
    case Ok(effect) => r == Ok(effect.event) && (effect.Live? ==> after == effect.book)
  }

  class MarketSite {
    var market: Market
    var contributions: map<Address, Contribution>
    var escrow: U64
    var cyes: U64
    var cno: U64
    var lpVault: U64
    var pool: Pool
    var question: Question

    function Tokens(): Holdings
      reads this
    {
      Holdings(escrow, cyes, cno, lpVault)
    }

    function Contents(): Book
      reads this
    {
      Book(market, contributions, Tokens(), pool, question)
    }

    constructor (b: Book)
      ensures Contents() == b
    {
      market, contributions, pool, question := b.market, b.contributions, b.pool, b.question;
      escrow, cyes, cno, lpVault := b.holdings.escrow, b.holdings.cyes, b.holdings.cno, b.holdings.lpVault;
    }

    /** What the runtime does with the accounts of a failed transaction. */
    method Restore(b: Book)
      modifies this
      ensures Contents() == b
    {
      market, contributions, pool, question := b.market, b.contributions, b.pool, b.question;
      escrow, cyes, cno, lpVault := b.holdings.escrow, b.holdings.cyes, b.holdings.cno, b.holdings.lpVault;
    }

    // ---- calls into MetaDAO ----

    method SplitTokens(amount: U64) returns (g: Guard)
      modifies this`escrow, this`cyes, this`cno
      ensures match Split(old(Tokens()), amount) case Ok(h) => g == Pass && Tokens() == h case Err(e) => g == Fail(e)
    {
      if amount > escrow || cyes + amount > U64_MAX || cno + amount > U64_MAX {
        return Fail(CpiFailed);
      }
      escrow := escrow - amount;
      cyes := cyes + amount;
      cno := cno + amount;
      return Pass;
    }

    method AddToPool(quoteAmount: U64, maxBase: U64, minLp: U64, fill: Fill) returns (g: Guard)
      modifies this`cyes, this`cno, this`lpVault, this`pool
      ensures match AddLiquidity(old(Tokens()), old(pool), quoteAmount, maxBase, minLp, fill)
              case Ok(done) => g == Pass && Tokens() == done.0 && pool == done.1
              case Err(e) => g == Fail(e)
    {
      if fill.quoteIn > quoteAmount || fill.baseIn > maxBase || fill.lpOut < minLp {
        return Fail(CpiFailed);
      }
      if pool.base == 0 && pool.quote == 0 && (fill.quoteIn != quoteAmount || fill.baseIn != maxBase) {
        return Fail(CpiFailed);
      }
      if fill.baseIn > cyes || fill.quoteIn > cno
         || pool.base + fill.baseIn > U64_MAX || pool.quote + fill.quoteIn > U64_MAX
         || pool.supply + fill.lpOut > U64_MAX || lpVault + fill.lpOut > U64_MAX {
        return Fail(CpiFailed);
      }
      cyes := cyes - fill.baseIn;
      cno := cno - fill.quoteIn;
      lpVault := lpVault + fill.lpOut;
      pool := Pool(pool.base + fill.baseIn, pool.quote + fill.quoteIn, pool.supply + fill.lpOut);
      return Pass;
    }

    method RemoveFromPool(lp: U64, unwind: Unwind) returns (g: Guard)
      modifies this`cyes, this`cno, this`lpVault, this`pool
      ensures match RemoveLiquidity(old(Tokens()), old(pool), lp, unwind)
              case Ok(done) => g == Pass && Tokens() == done.0 && pool == done.1
              case Err(e) => g == Fail(e)
    {
      if lp > lpVault || lp > pool.supply || unwind.baseOut > pool.base || unwind.quoteOut > pool.quote
         || cyes + unwind.baseOut > U64_MAX || cno + unwind.quoteOut > U64_MAX {
        return Fail(CpiFailed);
      }
      lpVault := lpVault - lp;
      cyes := cyes + unwind.baseOut;
      cno := cno + unwind.quoteOut;
      pool := Pool(pool.base - unwind.baseOut, pool.quote - unwind.quoteOut, pool.supply - lp);
      return Pass;
    }

    method RedeemTokens(unwind: Unwind) returns (g: Guard)
      modifies this`escrow, this`cyes, this`cno
      ensures match Redeem(old(Tokens()), question, unwind)
              case Ok(h) => g == Pass && Tokens() == h
              case Err(e) => g == Fail(e)
    {
      if question.denominator == 0 || escrow + unwind.paid > U64_MAX {
        return Fail(CpiFailed);
      }
      escrow := escrow + unwind.paid;
      cyes := 0;
      cno := 0;
      return Pass;
    }

    // ---- funding ----

    method RecordContribution(who: Address, amount: U64, wallet: U64) returns (g: Guard)
      modifies this`escrow, this`contributions
      ensures match Lifecycle.RecordContribution(old(Contents()), who, amount, wallet)
              case Ok(b) => g == Pass && Contents() == b
              case Err(e) => g == Fail(e)
    {
      if amount == 0 {
        return Fail(ZeroAmount);
      }
      if amount > wallet || escrow + amount > U64_MAX {
        return Fail(TransferFailed);
      }
      escrow := escrow + amount;
      if who !in contributions {
        contributions := contributions[who := Contribution(amount, 0)];
      } else {
        var c := contributions[who];
        if c.amount + amount > U64_MAX {
          return Fail(ArithmeticOverflow);
        }
        c := c.(amount := c.amount + amount);
        contributions := contributions[who := c];
      }
      return Pass;
    }

    method Contribute(who: Address, amount: U64, wallet: U64, slotFunded: bool) returns (r: Result<Event>)
      modifies this
      ensures Matches(DoContribute(old(Contents()), who, amount, wallet, slotFunded), r, Contents())
    {
      if market.status != Funding {
        return Err(NotFunding);
      }
      var hadRecord := who in contributions;
      var createsNew := !hadRecord && !slotFunded;
      :- RecordContribution(who, amount, wallet);
      var m := market;
      if m.totalContributed + amount > U64_MAX {
        return Err(ArithmeticOverflow);
      }
      m := m.(totalContributed := m.totalContributed + amount);
      if createsNew {
        if m.openContributions + 1 > U16_MAX {
          return Err(ArithmeticOverflow);
        }
        m := m.(openContributions := m.openContributions + 1);
      }
      market := m;
      return Ok(Contributed(who, amount, !hadRecord && !createsNew));
    }

    method Cancel(s: Subject) returns (r: Result<Event>)
      modifies this`market
      ensures Matches(DoCancel(old(Contents()), s), r, Contents())
    {
      if market.status != Funding {
        return Err(NotFunding);
      }
      if !s.IsTerminal() {
        return Err(OracleNotTerminal);
      }
      market := market.(status := Cancelled);
      return Ok(WasCancelled);
    }

    method DropRecord(who: Address) returns (g: Guard)
      modifies this`contributions, this`market
      ensures contributions == old(contributions) - {who}
      ensures match UncountOne(old(market)) case Ok(m) => g == Pass && market == m case Err(e) => g == Fail(e)
    {
      contributions := contributions - {who};
      var m := market;
      if m.openContributions < 1 {
        return Fail(ArithmeticOverflow);
      }
      m := m.(openContributions := m.openContributions - 1);
      market := m;
      return Pass;
    }

    method Refund(who: Address) returns (r: Result<Event>)
      modifies this
      ensures Matches(DoRefund(old(Contents()), who), r, Contents())
    {
      if market.status != Cancelled {
        return Err(NotCancelled);
      }
      if who !in contributions {
        return Err(InvalidAccount);
      }
      var sol := contributions[who].amount;
      if sol > escrow {
        return Err(TransferFailed);
      }
      escrow := escrow - sol;
      :- DropRecord(who);
      return Ok(Refunded(who, sol));
    }

    // ---- the active market ----

    method Activate(s: Subject, fill: Fill) returns (r: Result<Event>)
      modifies this
      ensures Matches(DoActivate(old(Contents()), s, fill), r, Contents())
    {
      if market.status != Funding {
        return Err(NotFunding);
      }
      if market.totalContributed < market.minLiquidity {
        return Err(NotFunded);
      }
      if s.IsTerminal() {
        return Err(OracleResolved);
      }
      if pool.base != 0 || pool.quote != 0 {
        return Err(PoolNotEmpty);
      }
      var amount := market.totalContributed;
      :- SplitTokens(amount);
      :- AddToPool(amount, amount, 0, fill);
      var lpTotal := lpVault;
      var m := market;
      m := m.(bound := true);
      m := m.(lpTotal := lpTotal);
      m := m.(activationLp := lpTotal, activationContributed := m.totalContributed, grossLpTotal := lpTotal);
      m := m.(status := Active);
      market := m;
      return Ok(Activated(lpTotal));
    }

    method PoolLate(amount: U64, quoteAmount: U64, maxBase: U64, minLp: U64, wallet: U64, fill: Fill)
      returns (r: Result<U64>)
      modifies this`escrow, this`cyes, this`cno, this`lpVault, this`pool
      ensures match Lifecycle.PoolLate(old(Tokens()), old(pool), amount, quoteAmount, maxBase, minLp, wallet, fill)
              case Ok(done) => r == Ok(done.2) && Tokens() == done.0 && pool == done.1
              case Err(e) => r == Err(e)
    {
      if amount > wallet || escrow + amount > U64_MAX {
        return Err(TransferFailed);
      }
      escrow := escrow + amount;
      :- SplitTokens(amount);
      var lpBefore := lpVault;
      :- AddToPool(quoteAmount, maxBase, minLp, fill);
      var lpNew := lpVault - lpBefore;
      if lpNew == 0 {
        return Err(InvalidAccount);
      }
      // the leftover legs go back to the depositor
      cyes := 0;
      cno := 0;
      return Ok(lpNew);
    }

    method RecordLateLp(who: Address, lpNew: U64, slotFunded: bool) returns (g: Guard)
      modifies this`contributions
      ensures match LateRecord(old(Contents()), who, lpNew, slotFunded)
              case Ok(c) => g == Pass && contributions == old(contributions)[who := c]
              case Err(e) => g == Fail(e)
    {
      if who !in contributions && !slotFunded {
        contributions := contributions[who := Contribution(0, lpNew)];
      } else if who !in contributions {
        return Fail(InvalidAccount);
      } else {
        var c := contributions[who];
        if c.lateLp + lpNew > U64_MAX {
          return Fail(ArithmeticOverflow);
        }
        c := c.(lateLp := c.lateLp + lpNew);
        contributions := contributions[who := c];
      }
      return Pass;
    }

    /** Credits the minted LP and the full split to the market's counters. */
    method CreditLate(lpNew: U64, amount: U64, createsNew: bool) returns (g: Guard)
      modifies this`market
      ensures match Lifecycle.CreditLate(old(market), lpNew, amount, createsNew)
              case Ok(m) => g == Pass && market == m
              case Err(e) => g == Fail(e)
    {
      var m := market;
      if m.lpTotal + lpNew > U64_MAX {
        return Fail(ArithmeticOverflow);
      }
      m := m.(lpTotal := m.lpTotal + lpNew);
      if m.grossLpTotal + lpNew > U64_MAX {
        return Fail(ArithmeticOverflow);
      }
      m := m.(grossLpTotal := m.grossLpTotal + lpNew);
      if m.totalContributed + amount > U64_MAX {
        return Fail(ArithmeticOverflow);
      }
      m := m.(totalContributed := m.totalContributed + amount);
      if createsNew {
        if m.openContributions + 1 > U16_MAX {
          return Fail(ArithmeticOverflow);
        }
        m := m.(openContributions := m.openContributions + 1);
      }
      market := m;
      return Pass;
    }

    method AddLate(s: Subject, who: Address, amount: U64, quoteAmount: U64, maxBase: U64, minLp: U64,
                   wallet: U64, slotFunded: bool, fill: Fill) returns (r: Result<Event>)
      modifies this
      ensures Matches(DoAddLate(old(Contents()), s, who, amount, quoteAmount, maxBase, minLp, wallet, slotFunded, fill),
                      r, Contents())
    {
      if amount == 0 {
        return Err(ZeroAmount);
      }
      if market.status != Active {
        return Err(NotActive);
      }
      if s.IsTerminal() {
        return Err(OracleResolved);
      }
      var lpNew :- PoolLate(amount, quoteAmount, maxBase, minLp, wallet, fill);
      var createsNew := who !in contributions && !slotFunded;
      :- RecordLateLp(who, lpNew, slotFunded);
      :- CreditLate(lpNew, amount, createsNew);
      return Ok(LiquidityAdded(who, amount, lpNew));
    }

    // ---- settlement ----

    method Resolve(s: Subject) returns (r: Result<Event>)
      modifies this
      ensures Matches(DoResolve(old(Contents()), s), r, Contents())
    {
      if market.settled {
        return Err(AlreadySettled);
      }
      if market.status != Active {
        return Err(NotActive);
      }
      var resolved, deadend := s.status == SubjectResolved, s.status == SubjectVoid;
      if !resolved && !deadend {
        return Err(OracleNotTerminal);
      }
      var yes: U32, no: U32, status := 1, 1, Void;
      if resolved {
        if s.resolvedOption >= s.optionsCount {
          return Err(InvalidAccount);
        }
        if s.resolvedOption == market.outcome {
          yes, no := 1, 0;
        } else {
          yes, no := 0, 1;
        }
        status := Resolved;
      }
      if question.denominator != 0 {
        return Err(CpiFailed);
      }
      question := Question(yes, no, yes + no);
      var m := market;
      m := m.(settled := true, status := status);
      if m.feeBps == 0 || m.lpTotal == 0 {
        m := m.(feeCollected := true);
      }
      market := m;
      return Ok(Settled(question));
    }

    /** The accrued-fee arithmetic, in the order of the u128 steps. */
    method AccruedFee() returns (r: Result<U64>)
      ensures r == FeeLp(market, question, pool)
    {
      if question.denominator == 0 || pool.supply == 0 {
        return Err(InvalidAccount);
      }
      var yesSide :- CheckedMul(pool.base, question.yes);
      var noSide :- CheckedMul(pool.quote, question.no);
      var both :- CheckedAdd(yesSide, noSide);
      var held :- CheckedMul(market.lpTotal, Div(both, question.denominator));
      var realizedFull := Div(held, pool.supply);
      var accrued: U128 := Max(realizedFull - market.totalContributed, 0);
      if accrued == 0 {
        return Ok(0);
      }
      var gain :- CheckedMul(market.lpTotal, accrued);
      var cut :- CheckedMul(Div(gain, realizedFull), market.feeBps);
      r := ToU64(Div(cut, BPS));
    }

    method WriteCollected() returns (r: Result<Event>)
      modifies this`market
      ensures r == Ok(FeeCut(0)) && market == old(market).(feeCollected := true)
    {
      market := market.(feeCollected := true);
      return Ok(FeeCut(0));
    }

    method CollectFee(destination: FeeDestination, unwind: Unwind) returns (r: Result<Event>)
      modifies this
      ensures Matches(DoCollectFee(old(Contents()), destination, unwind), r, Contents())
    {
      if market.feeCollected {
        return Err(AlreadySettled);
      }
      if market.status != Resolved && market.status != Void {
        return Err(NotActive);
      }
      if market.feeBps == 0 || market.lpTotal == 0 {
        r := WriteCollected();
        return;
      }
      :- CheckDestination(destination);
      var feeLp :- AccruedFee();
      if feeLp == 0 {
        r := WriteCollected();
        return;
      }
      :- RemoveFromPool(feeLp, unwind);
      :- RedeemTokens(unwind);
      escrow := 0; // the whole balance goes to the fee destination
      var m := market;
      if feeLp > m.lpTotal {
        return Err(ArithmeticOverflow);
      }
      m := m.(lpTotal := m.lpTotal - feeLp);
      m := m.(feeCollected := true);
      market := m;
      return Ok(FeeCut(feeLp));
    }

    method ClaimLp(who: Address) returns (r: Result<Event>)
      modifies this
      ensures Matches(DoClaimLp(old(Contents()), who), r, Contents())
    {
      if market.status != Active && market.status != Resolved && market.status != Void {
        return Err(NotActive);
      }
      if !market.feeCollected {
        return Err(FeeNotCollected);
      }
      if who !in contributions {
        return Err(InvalidAccount);
      }
      var share: U64;
      if market.openContributions == 1 {
        share := lpVault;
      } else if market.grossLpTotal == market.activationLp {
        share :- ProRataShare(market.lpTotal, contributions[who].amount, market.totalContributed);
      } else {
        share :- GrossLpShare(market, contributions[who]);
      }
      if share > 0 {
        if share > lpVault {
          return Err(TransferFailed);
        }
        lpVault := lpVault - share;
      }
      :- DropRecord(who);
      return Ok(LpClaimed(who, share));
    }

    /** The gates of `close_market`; the accounts themselves are reaped by the caller. */
    method Close() returns (r: Result<Event>)
      ensures Matches(DoClose(Contents()), r, Contents())
    {
      if market.status != Resolved && market.status != Void && market.status != Cancelled {
        return Err(NotSettled);
      }
      if market.bound && !market.feeCollected {
        return Err(FeeNotCollected);
      }
      if market.openContributions != 0 {
        return Err(ContributionsOpen);
      }
      return Ok(Closed(lpVault, |contributions|));
    }

    // ---- the world around the program ----

    method Donate(to: Account, amount: U64) returns (r: Result<Event>)
      modifies this
      ensures Matches(DoDonate(old(Contents()), to, amount), r, Contents())
    {
      if to != Escrow && !market.bound {
        return Err(TransferFailed);
      }
      match to {
        case Escrow =>
          :- Need(escrow + amount <= U64_MAX, TransferFailed);
          escrow := escrow + amount;
        case Cyes =>
          :- Need(cyes + amount <= U64_MAX, TransferFailed);
          cyes := cyes + amount;
        case Cno =>
          :- Need(cno + amount <= U64_MAX, TransferFailed);
          cno := cno + amount;
        case LpVault =>
          :- Need(lpVault + amount <= pool.supply, TransferFailed);
          lpVault := lpVault + amount;
      }
      return Ok(Donated(to, amount));
    }

    method Drift(pool': Pool) returns (r: Result<Event>)
      modifies this`pool
      ensures Matches(DoDrift(old(Contents()), pool'), r, Contents())
    {
      if lpVault > pool'.supply {
        return Err(TransferFailed);
      }
      pool := pool';
      return Ok(Drifted);
    }

    method Process(s: Subject, op: Op) returns (r: Result<Event>)
      modifies this
      ensures Matches(Apply(old(Contents()), s, op), r, Contents())
    {
      match op
      case Contribute(who, amount, wallet, slotFunded) => r := Contribute(who, amount, wallet, slotFunded);
      case Cancel => r := Cancel(s);
      case Refund(who) => r := Refund(who);
      case Activate(fill) => r := Activate(s, fill);
      case AddLate(who, amount, quoteAmount, maxBase, minLp, wallet, slotFunded, fill) =>
        r := AddLate(s, who, amount, quoteAmount, maxBase, minLp, wallet, slotFunded, fill);
      case Resolve => r := Resolve(s);
      case CollectFee(destination, unwind) => r := CollectFee(destination, unwind);
      case ClaimLp(who) => r := ClaimLp(who);
      case Close => r := Close();
      case Donate(to, amount) => r := Donate(to, amount);
      case Drift(pool') => r := Drift(pool');
    }
  }
}
