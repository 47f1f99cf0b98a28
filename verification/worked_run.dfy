/** One short run from genesis, reaching the two corners that general statements only bound: a fee nobody can collect,
    and a claim the two share formulas price differently. */
module WorkedRun {
  import opened Numbers
  import opened Outcomes
  import opened State
  import opened MetaDao
  import opened ClaimShares
  import opened FeeMath
  import opened LiquidityFloor
  import opened Lifecycle
  import opened World
  import opened Liveness
  import MapSums
  import GptOracle

  const KEY := MarketKey(0, 0)
  const TERMS := Terms(1, 1000, 0, 0, 0)
  const REPLY: seq<U8> := [1, 0, 0, 0, 48]     // the one-character reply "0"
  const CONFIGURED := Config(0, 1, 1000, 0, 0, 0, 0, 0)
  const BUSY := Config(0, 1, 1000, 0, 0, 0, INCREMENT, 0)
  const NOBODY: map<Address, Contribution> := map[]
  const ALONE := NOBODY[1 := Contribution(1, 0)]
  const BOTH := ALONE[2 := Contribution(2, 0)]

  /** Two contributors stake one and two lamports, the pool mints 20 LP for them, the YES reserve doubles, and outcome 0
      wins. */
  function Step(n: nat): Instruction {
    match n
    case 0 => InitConfig(true, 0, TERMS, true)
    case 1 => CreateSubject(0, 2)
    case 2 => CreateMarket(KEY, 1, 1, 1, 0)
    case 3 => OnMarket(KEY, Contribute(2, 2, 2, false))
    case 4 => OnMarket(KEY, Activate(Fill(3, 3, 20)))
    case 5 => OnMarket(KEY, Drift(Pool(6, 5, 20)))
    case 6 => Callback(0, true, REPLY)
    case 7 => OnMarket(KEY, Resolve)
    case _ => OnMarket(KEY, CollectFee(OnSolMint, Unwind(0, 0, 0)))
  }

  function Steps(n: nat): seq<Instruction> {
    if n == 0 then [] else Steps(n - 1) + [Step(n - 1)]
  }

  function SubjectAt(n: nat): Subject {
    if n <= 6 then Subject(2, Open, OPTION_PENDING) else Subject(2, SubjectResolved, 0)
  }

  function BookAt(n: nat): Book {
    var pending := Market(0, 1, 1000, 3, 2, Resolved, true, true, false, 20, 20, 3, 20);
    if n <= 3 then Fresh(0, 1, 1000, 1, 1)
    else if n == 4 then Book(Fresh(0, 1, 1000, 1, 1).market.(totalContributed := 3, openContributions := 2), BOTH,
                             Holdings(3, 0, 0, 0), Pool(0, 0, 0), UNRESOLVED)
    else if n <= 7 then Book(pending.(status := Active, settled := false), BOTH, Holdings(0, 0, 0, 20),
                             if n == 5 then Pool(3, 3, 20) else Pool(6, 5, 20), UNRESOLVED)
    else if n == 8 then Book(pending, BOTH, Holdings(0, 0, 0, 20), Pool(6, 5, 20), YES_PAYS)
    else Book(pending.(lpTotal := 19, feeCollected := true), BOTH, Holdings(0, 0, 0, 19), Pool(6, 5, 19), YES_PAYS)
  }

  /** The ledger after the first n steps. */
  function LedgerAt(n: nat): Ledger {
    if n == 0 then GENESIS
    else if n == 1 then GENESIS.(config := Initialized(CONFIGURED))
    else if n == 2 then GENESIS.(config := Initialized(CONFIGURED), subjects := map[0 := SubjectAt(n)])
    else Ledger(Initialized(BUSY), map[0 := SubjectAt(n)], map[KEY := BookAt(n)])
  }

  predicate Leads(n: nat) {
    Execute(LedgerAt(n), Step(n)).Ok? && Execute(LedgerAt(n), Step(n)).value.0 == LedgerAt(n + 1)
  }

  lemma SetUp()
    ensures Leads(0) && Leads(1)
  {
    assert GENESIS.subjects[0 := SubjectAt(2)] == map[0 := SubjectAt(2)];
  }

  lemma Creation()
    ensures Leads(2)
  {
    assert AfterCreation(0, 0, 0) == INCREMENT;
    assert SnapshotFloor(CONFIGURED, 0) == 1;
    assert LedgerAt(2).markets[KEY := BookAt(3)] == map[KEY := BookAt(3)];
  }

  /** One effect on the one market. */
  lemma MarketLeads(n: nat, op: Op)
    requires 3 <= n && Step(n) == OnMarket(KEY, op) && SubjectAt(n + 1) == SubjectAt(n)
    requires Apply(BookAt(n), SubjectAt(n), op).Ok? && Apply(BookAt(n), SubjectAt(n), op).value.Live?
    requires Apply(BookAt(n), SubjectAt(n), op).value.book == BookAt(n + 1)
    ensures Leads(n)
  {
    assert LedgerAt(n).markets[KEY := BookAt(n + 1)] == map[KEY := BookAt(n + 1)];
  }

  lemma Staking()
    ensures DoContribute(BookAt(3), 2, 2, 2, false) == Ok(Live(BookAt(4), Contributed(2, 2, false)))
  {
    assert BookAt(3).contributions == ALONE;
  }

  lemma Opening()
    ensures DoActivate(BookAt(4), SubjectAt(4), Fill(3, 3, 20)) == Ok(Live(BookAt(5), Activated(20)))
  {
  }

  lemma Doubling()
    ensures DoDrift(BookAt(5), Pool(6, 5, 20)) == Ok(Live(BookAt(6), Drifted))
  {
  }

  lemma ReplyReads()
    ensures GptOracle.BorshString(REPLY) == Ok([48])
    ensures GptOracle.LlmOption(GptOracle.Chars([48]), 2) == Ok(0)
  {
    var s := GptOracle.Chars([48]);
    assert s == "0";
    GptOracle.PrintedIsRead(0, "");
    assert "0" + "" == "0";
    assert GptOracle.Skip(s, 0, GptOracle.IsWhitespace) == 0 && s[0..] == s;
    assert REPLY[..4] == [1, 0, 0, 0] && REPLY[4..] == [48];
    assert [1, 0, 0, 0][1..] == [0, 0, 0] && [0, 0, 0][1..] == [0, 0] && [0, 0][1..] == [0] && [0][1..] == [];
    assert GptOracle.LittleEndian([0]) == 0 && GptOracle.LittleEndian([0, 0]) == 0;
    assert GptOracle.LittleEndian([0, 0, 0]) == 0;
  }

  lemma Answer()
    ensures Leads(6)
  {
    ReplyReads();
    assert LedgerAt(6).subjects[0 := SubjectAt(7)] == map[0 := SubjectAt(7)];
  }

  lemma Resolving()
    ensures DoResolve(BookAt(7), SubjectAt(7)) == Ok(Live(BookAt(8), Settled(YES_PAYS)))
  {
  }

  /** The pool is worth 6, all of it the market's: a gain of 3 on 3, so half the LP accrued and a tenth of that is
      due. */
  lemma FeeIsOne()
    ensures FeeLp(BookAt(8).market, YES_PAYS, Pool(6, 5, 20)) == Ok(1)
  {
    assert CheckedPoolValue(YES_PAYS, Pool(6, 5, 20)) == Ok(6);
    assert Div(120, 20) == 6 && Div(60, 6) == 10 && Div(10_000, BPS) == 1;
  }

  lemma Cutting()
    ensures DoCollectFee(BookAt(8), OnSolMint, Unwind(0, 0, 0)) == Ok(Live(BookAt(9), FeeCut(1)))
  {
    FeeIsOne();
    var h, u := BookAt(8).holdings, Unwind(0, 0, 0);
    assert RemoveLiquidity(h, Pool(6, 5, 20), 1, u) == Ok((Holdings(0, 0, 0, 19), Pool(6, 5, 19)));
    assert Redeem(Holdings(0, 0, 0, 19), YES_PAYS, u) == Ok(Holdings(0, 0, 0, 19));
  }

  lemma FundingLeads()
    ensures Leads(3)
  {
    Staking();
    MarketLeads(3, Contribute(2, 2, 2, false));
  }

  lemma ActivationLeads()
    ensures Leads(4)
  {
    Opening();
    MarketLeads(4, Activate(Fill(3, 3, 20)));
  }

  lemma DriftLeads()
    ensures Leads(5)
  {
    Doubling();
    MarketLeads(5, Drift(Pool(6, 5, 20)));
  }

  lemma ResolutionLeads()
    ensures Leads(7)
  {
    Resolving();
    MarketLeads(7, Resolve);
  }

  lemma FeeLeads()
    ensures Leads(8)
  {
    Cutting();
    MarketLeads(8, CollectFee(OnSolMint, Unwind(0, 0, 0)));
  }

  lemma EachLeads(n: nat)
    requires n < 9
    ensures Leads(n)
  {
    match n
    case 0 => SetUp();
    case 1 => SetUp();
    case 2 => Creation();
    case 3 => FundingLeads();
    case 4 => ActivationLeads();
    case 5 => DriftLeads();
    case 6 => Answer();
    case 7 => ResolutionLeads();
    case _ => FeeLeads();
  }

  lemma OneMore(ixs: seq<Instruction>, ix: Instruction, w: Ledger)
    requires Run(ixs).ledger == w && Execute(w, ix).Ok?
    ensures Run(ixs + [ix]).ledger == Execute(w, ix).value.0
  {
    assert (ixs + [ix])[..|ixs|] == ixs;
  }

  lemma {:induction false} Reached(n: nat)
    requires n <= 9
    ensures Run(Steps(n)).ledger == LedgerAt(n)
  {
    if n > 0 {
      Reached(n - 1);
      EachLeads(n - 1);
      OneMore(Steps(n - 1), Step(n - 1), LedgerAt(n - 1));
    }
  }

  /** A reachable wedge: after eight steps the fee is due, and while its destination is not a live token account no
      cranks whatever change anything, let alone close the market. */
  lemma WedgedRun(at: FeeDestination, cranks: seq<Instruction>)
    requires CranksOn(cranks, KEY, at) && !at.IsLive()
    ensures Orphaned(Run(Steps(8)), KEY) && FeePending(Run(Steps(8)).ledger.markets[KEY].market)
    ensures RunFrom(Run(Steps(8)), cranks) == Run(Steps(8))
  {
    Reached(8);
    DeadFreezes(Steps(8), KEY, at, cranks);
  }

  /** A reachable claim where the mixed formula pays one unit less: 19 of 20 LP left after the fee, and a stake of one
      lamport in three. The claim pays the legacy figure. */
  lemma MixedCanPayOneLess()
    ensures KEY in Run(Steps(9)).ledger.markets && 1 in Run(Steps(9)).ledger.markets[KEY].contributions
    ensures var b := Run(Steps(9)).ledger.markets[KEY];
            && ProRataShare(b.market.lpTotal, b.contributions[1].amount, b.market.totalContributed) == Ok(6)
            && GrossLpShare(b.market, b.contributions[1]) == Ok(5)
            && DoClaimLp(b, 1).Ok? && DoClaimLp(b, 1).value.event == LpClaimed(1, 6)
  {
    Reached(9);
    assert MapSums.Portion(20, 1, 3) == 6;
  }
}
