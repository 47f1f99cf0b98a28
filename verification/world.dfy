/** The whole program: Config, every Subject and every market, driven by instructions and by the world around. */
module World {
  import opened Numbers
  import opened Outcomes
  import opened State
  import opened LiquidityFloor
  import opened Lifecycle
  import opened Journals
  import GptOracle

  /** One sub-market per outcome of a Subject; a Subject is keyed by its nonce. */
  datatype MarketKey = MarketKey(subject: U64, outcome: U8)

  datatype ConfigSlot = NoConfig | Initialized(config: Config)

  datatype Ledger = Ledger(config: ConfigSlot, subjects: map<U64, Subject>, markets: map<MarketKey, Book>)

  const GENESIS := Ledger(NoConfig, map[], map[])

  /** The shape parameters `init_config` and `update_config` carry. */
  datatype Terms = Terms(minLiquidity: U64, feeBps: U16, emaThreshold: U64, emaCap: U64, minLiquidityMax: U64)

  datatype Instruction =
    | InitConfig(isUpgradeAuthority: bool, authority: Address, terms: Terms, destinationOk: bool)
    | UpdateConfig(signer: Address, terms: Terms, destinationOk: bool)
    | CreateSubject(nonce: U64, optionsCount: U8)
    | Callback(nonce: U64, identitySigned: bool, payload: seq<U8>)
    | CreateMarket(key: MarketKey, creator: Address, seed: U64, wallet: U64, now: I64)
    | OnMarket(key: MarketKey, op: Op)
    | VoidSubject(nonce: U64)        // no instruction of the program does this

  /** What a step leaves in the log. */
  datatype Entry =
    | Quiet
    | Created(key: MarketKey, creator: Address, seed: nat, minLiquidity: U64, feeBps: U16, at: I64)
    | Happened(key: MarketKey, event: Event)

  type Step = Result<(Ledger, Entry)>

  function DoInitConfig(w: Ledger, isUpgradeAuthority: bool, authority: Address, terms: Terms, destinationOk: bool)
    : Step
  {
    if !isUpgradeAuthority then Err(Unauthorized) else
    :- Need(terms.feeBps <= MAX_FEE_BPS, InvalidFee);
    :- Need(w.config.NoConfig?, AlreadyInitialized);
    :- Need(destinationOk, InvalidAccount);
    var c := Config(authority, terms.minLiquidity, terms.feeBps, terms.emaThreshold, terms.emaCap,
                    terms.minLiquidityMax, 0, 0);
    Ok((w.(config := Initialized(c)), Quiet))
  }

  function DoUpdateConfig(w: Ledger, signer: Address, terms: Terms, destinationOk: bool): Step {
    if w.config.NoConfig? then Err(InvalidAccount) else
    :- Need(signer == w.config.config.authority, Unauthorized);
    :- Need(terms.feeBps <= MAX_FEE_BPS, InvalidFee);
    :- Need(destinationOk, InvalidAccount);
    var c := w.config.config.(minLiquidity := terms.minLiquidity, feeBps := terms.feeBps,
                              emaThreshold := terms.emaThreshold, emaCap := terms.emaCap,
                              minLiquidityMax := terms.minLiquidityMax);
    Ok((w.(config := Initialized(c)), Quiet))
  }

  function DoCreateSubject(w: Ledger, nonce: U64, optionsCount: U8): Step {
    if optionsCount < 2 then Err(InvalidOutcome) else
    :- Need(nonce !in w.subjects, AlreadyInitialized);
    Ok((w.(subjects := w.subjects[nonce := Subject(optionsCount, Open, OPTION_PENDING)]), Quiet))
  }

  function DoCallback(w: Ledger, nonce: U64, identitySigned: bool, payload: seq<U8>): Step {
    var response :- GptOracle.BorshString(payload);
    :- Need(identitySigned, Unauthorized);
    :- Need(nonce in w.subjects, InvalidAccount);
    var s := w.subjects[nonce];
    :- Need(s.status == Open && s.resolvedOption == OPTION_PENDING, AlreadySettled);
    var option :- GptOracle.LlmOption(GptOracle.Chars(response), s.optionsCount);
    Ok((w.(subjects := w.subjects[nonce := s.(resolvedOption := option, status := SubjectResolved)]), Quiet))
  }

  function DoVoidSubject(w: Ledger, nonce: U64): Step {
    if nonce !in w.subjects then Err(InvalidAccount) else
    :- Need(w.subjects[nonce].status == Open, AlreadySettled);
    Ok((w.(subjects := w.subjects[nonce := w.subjects[nonce].(status := SubjectVoid)]), Quiet))
  }

  /** The floor a market created now would have to raise. */
  function SnapshotFloor(c: Config, now: I64): U64 {
    FundingFloor(DecayMarketEma(c.creationEma, c.lastCreation, now), c.emaThreshold, c.emaCap,
                 c.minLiquidity, c.minLiquidityMax)
  }

  /** The gates of `create_market` that follow the Config update, in the source's order. */
  function CreationGate(subjects: map<U64, Subject>, taken: set<MarketKey>, key: MarketKey, seed: U64, wallet: U64)
    : Guard
  {
    if key.subject !in subjects then Fail(InvalidAccount)
    else if key.outcome >= subjects[key.subject].optionsCount then Fail(InvalidOutcome)
    else if subjects[key.subject].IsTerminal() then Fail(OracleResolved)
    else if key in taken then Fail(InvalidAccount)
    else if seed > wallet then Fail(TransferFailed)
    else Pass
  }

  function DoCreateMarket(w: Ledger, key: MarketKey, creator: Address, seed: U64, wallet: U64, now: I64): Step {
    if w.config.NoConfig? then Err(InvalidAccount) else
    var c := w.config.config;
    :- Need(seed != 0, ZeroAmount);
    // decay, snapshot the floor off the decayed value, then bump
    var c' := c.(creationEma := AfterCreation(c.creationEma, c.lastCreation, now), lastCreation := now);
    :- CreationGate(w.subjects, w.markets.Keys, key, seed, wallet);
    var floor := SnapshotFloor(c, now);
    Ok((w.(config := Initialized(c'), markets := w.markets[key := Fresh(key.outcome, floor, c.feeBps, creator, seed)]),
        Created(key, creator, seed, floor, c.feeBps, now)))
  }

  function DoOnMarket(w: Ledger, key: MarketKey, op: Op): Step {
    if key !in w.markets || key.subject !in w.subjects then Err(InvalidAccount) else
    var effect :- Apply(w.markets[key], w.subjects[key.subject], op);
    match effect
    case Live(book, event) => Ok((w.(markets := w.markets[key := book]), Happened(key, event)))
    case Gone(event) => Ok((w.(markets := w.markets - {key}), Happened(key, event)))
  }

  function Execute(w: Ledger, ix: Instruction): Step {
    match ix
    case InitConfig(isUpgradeAuthority, authority, terms, destinationOk) =>
      DoInitConfig(w, isUpgradeAuthority, authority, terms, destinationOk)
    case UpdateConfig(signer, terms, destinationOk) => DoUpdateConfig(w, signer, terms, destinationOk)
    case CreateSubject(nonce, optionsCount) => DoCreateSubject(w, nonce, optionsCount)
    case Callback(nonce, identitySigned, payload) => DoCallback(w, nonce, identitySigned, payload)
    case CreateMarket(key, creator, seed, wallet, now) => DoCreateMarket(w, key, creator, seed, wallet, now)
    case OnMarket(key, op) => DoOnMarket(w, key, op)
    case VoidSubject(nonce) => DoVoidSubject(w, nonce)
  }

  // ---- runs ----

  /** A ledger and everything observed so far; a failing instruction changes nothing. */
  datatype Trace = Trace(ledger: Ledger, log: seq<Entry>)

  function Next(t: Trace, ix: Instruction): Trace {
    var r := Execute(t.ledger, ix);
    if r.Ok? then Trace(r.value.0, t.log + [r.value.1]) else t
  }

  function RunFrom(t: Trace, ixs: seq<Instruction>): Trace {
    if |ixs| == 0 then t else Next(RunFrom(t, ixs[..|ixs| - 1]), ixs[|ixs| - 1])
  }

  function Run(ixs: seq<Instruction>): Trace {
    RunFrom(Trace(GENESIS, []), ixs)
  }

  /** One market's history within the log. */
  function JournalOf(log: seq<Entry>, key: MarketKey): Journal {
    if |log| == 0 then BLANK
    else PostEntry(JournalOf(log[..|log| - 1], key), log[|log| - 1], key)
  }

  function PostEntry(j: Journal, e: Entry, key: MarketKey): Journal {
    match e
    case Quiet => j
    case Created(k, creator, seed, _, _, _) => if k == key then Post(j, Opened(creator, seed)) else j
    case Happened(k, event) => if k == key then Post(j, event) else j
  }

  lemma JournalOfStep(log: seq<Entry>, e: Entry, key: MarketKey)
    ensures JournalOf(log + [e], key) == PostEntry(JournalOf(log, key), e, key)
  {
    assert (log + [e])[..|log|] == log;
  }

  // ---- the invariant of every reachable trace ----

  ghost predicate GoodSubject(s: Subject) {
    && s.optionsCount >= 2
    && (s.status == Open ==> s.resolvedOption == OPTION_PENDING)
    && (s.status == SubjectResolved ==> s.resolvedOption < s.optionsCount)
  }

  /** A market belongs to a Subject, and having ended implies that the Subject has. */
  ghost predicate Placed(w: Ledger, key: MarketKey) {
    && key.subject in w.subjects
    && key.outcome < w.subjects[key.subject].optionsCount
    && (key in w.markets ==>
          && w.markets[key].market.outcome == key.outcome
          && (Ended(w.markets[key].market.status) ==> w.subjects[key.subject].IsTerminal()))
  }

  predicate Ended(s: MarketStatus) {
    s == Resolved || s == Void || s == Cancelled
  }

  /** The payout a Subject's resolution dictates for one of its outcomes. */
  function PayoutFor(s: Subject, outcome: U8): Question {
    if s.status == SubjectVoid then HALF_EACH
    else if s.resolvedOption == outcome then YES_PAYS
    else NO_PAYS
  }

  ghost predicate SettlementsFollow(w: Ledger, key: MarketKey, j: Journal) {
    j.settlements != [] ==>
      key.subject in w.subjects && w.subjects[key.subject].IsTerminal() &&
      forall i :: 0 <= i < |j.settlements| ==> j.settlements[i] == PayoutFor(w.subjects[key.subject], key.outcome)
  }

  /** Never opened, open, or closed for good. */
  ghost predicate MarketInv(t: Trace, key: MarketKey) {
    var w, j := t.ledger, JournalOf(t.log, key);
    && SettlementsFollow(w, key, j)
    && if key in w.markets then Placed(w, key) && Inv(w.markets[key], j)
       else j == BLANK || (ClosedInv(j) && Placed(w, key) && w.subjects[key.subject].IsTerminal())
  }

  ghost predicate GoodConfig(w: Ledger) {
    w.config.Initialized? ==> w.config.config.feeBps <= MAX_FEE_BPS
  }

  ghost predicate Valid(t: Trace) {
    && GoodConfig(t.ledger)
    && (t.ledger.config.NoConfig? ==> t.ledger.markets == map[])
    && (forall n :: n in t.ledger.subjects ==> GoodSubject(t.ledger.subjects[n]))
    && (forall key :: MarketInv(t, key))
  }
}
