/** The deployed program: its account store and its instructions as state-changing methods, each an atomic
    transaction that either does exactly what the specification says or leaves every account alone. */
module Programs {
  import opened Numbers
  import opened Outcomes
  import opened State
  import opened LiquidityFloor
  import opened Lifecycle
  import opened World
  import opened MarketSites
  import GptOracle

  class Program {
    var config: ConfigSlot
    var subjects: map<U64, Subject>
    var sites: map<MarketKey, MarketSite>

    /** No two markets share their accounts. */
    ghost predicate Valid()
      reads this
    {
      forall k1, k2 :: k1 in sites && k2 in sites && k1 != k2 ==> sites[k1] != sites[k2]
    }

    ghost function Books(): map<MarketKey, Book>
      reads this`sites, sites.Values
    {
      map k | k in sites :: sites[k].Contents()
    }

    ghost function View(): Ledger
      reads this, sites.Values
    {
      Ledger(config, subjects, Books())
    }

    constructor ()
      ensures Valid() && View() == GENESIS
    {
      config := NoConfig;
      subjects := map[];
      sites := map[];
      new;
      assert Books() == map[];
    }

    method InitConfig(isUpgradeAuthority: bool, authority: Address, terms: Terms, destinationOk: bool)
      returns (r: Result<Entry>)
      requires Valid()
      modifies this`config
      ensures Committed(old(View()), DoInitConfig(old(View()), isUpgradeAuthority, authority, terms, destinationOk),
                        r, View())
    {
      if !isUpgradeAuthority {
        return Err(Unauthorized);
      }
      if terms.feeBps > MAX_FEE_BPS {
        return Err(InvalidFee);
      }
      if config.Initialized? {
        return Err(AlreadyInitialized);
      }
      if !destinationOk {
        return Err(InvalidAccount);
      }
      config := Initialized(Config(authority, terms.minLiquidity, terms.feeBps, terms.emaThreshold, terms.emaCap,
                                   terms.minLiquidityMax, 0, 0));
      return Ok(Quiet);
    }

    method UpdateConfig(signer: Address, terms: Terms, destinationOk: bool) returns (r: Result<Entry>)
      requires Valid()
      modifies this`config
      ensures Committed(old(View()), DoUpdateConfig(old(View()), signer, terms, destinationOk), r, View())
    {
      if config.NoConfig? {
        return Err(InvalidAccount);
      }
      if signer != config.config.authority {
        return Err(Unauthorized);
      }
      if terms.feeBps > MAX_FEE_BPS {
        return Err(InvalidFee);
      }
      if !destinationOk {
        return Err(InvalidAccount);
      }
      var updated := config.config;
      updated := updated.(minLiquidity := terms.minLiquidity);
      updated := updated.(feeBps := terms.feeBps);
      updated := updated.(emaThreshold := terms.emaThreshold, emaCap := terms.emaCap);
      updated := updated.(minLiquidityMax := terms.minLiquidityMax);
      config := Initialized(updated);
      return Ok(Quiet);
    }

    method CreateSubject(nonce: U64, optionsCount: U8) returns (r: Result<Entry>)
      requires Valid()
      modifies this`subjects
      ensures Committed(old(View()), DoCreateSubject(old(View()), nonce, optionsCount), r, View())
    {
      if optionsCount < 2 {
        return Err(InvalidOutcome);
      }
      if nonce in subjects {
        return Err(AlreadyInitialized);
      }
      subjects := subjects[nonce := Subject(optionsCount, Open, OPTION_PENDING)];
      return Ok(Quiet);
    }

    method CallbackFromGpt(nonce: U64, identitySigned: bool, payload: seq<U8>) returns (r: Result<Entry>)
      requires Valid()
      modifies this`subjects
      ensures Committed(old(View()), DoCallback(old(View()), nonce, identitySigned, payload), r, View())
    {
      var response :- GptOracle.BorshString(payload);
      if !identitySigned {
        return Err(Unauthorized);
      }
      if nonce !in subjects {
        return Err(InvalidAccount);
      }
      var subject := subjects[nonce];
      if subject.status != Open || subject.resolvedOption != OPTION_PENDING {
        return Err(AlreadySettled);
      }
      var option :- GptOracle.ParseLlmOption(GptOracle.Chars(response), subject.optionsCount);
      subject := subject.(resolvedOption := option);
      subject := subject.(status := SubjectResolved);
      subjects := subjects[nonce := subject];
      return Ok(Quiet);
    }

    /** Not an instruction: the world declares a Subject void. */
    method VoidSubject(nonce: U64) returns (r: Result<Entry>)
      requires Valid()
      modifies this`subjects
      ensures Committed(old(View()), DoVoidSubject(old(View()), nonce), r, View())
    {
      if nonce !in subjects {
        return Err(InvalidAccount);
      }
      if subjects[nonce].status != Open {
        return Err(AlreadySettled);
      }
      subjects := subjects[nonce := subjects[nonce].(status := SubjectVoid)];
      return Ok(Quiet);
    }

    /** Stands up the accounts of a new market. */
    method OpenSite(key: MarketKey, book: Book)
      requires Valid() && key !in sites
      modifies this`sites
      ensures Valid() && fresh(sites.Values - old(sites.Values))
      ensures Books() == old(Books())[key := book]
    {
      var site := new MarketSite(book);
      sites := sites[key := site];
      assert Books() == old(Books())[key := book];
    }

    /** The order that matters: decay, read the floor off the decayed value, and only then bump. */
    method SnapshotThenBump(before: Config, now: I64) returns (floor: U64, updated: Config)
      ensures floor == SnapshotFloor(before, now)
      ensures updated == before.(creationEma := AfterCreation(before.creationEma, before.lastCreation, now),
                                 lastCreation := now)
    {
      var decayedEma := DecayMarketEma(before.creationEma, before.lastCreation, now);
      floor := FundingFloor(decayedEma, before.emaThreshold, before.emaCap,
                            before.minLiquidity, before.minLiquidityMax);
      updated := before;
      updated := updated.(creationEma := BumpedMarketEma(decayedEma));
      updated := updated.(lastCreation := now);
    }

    method CreateMarket(key: MarketKey, creator: Address, seed: U64, wallet: U64, now: I64) returns (r: Result<Entry>)
      requires Valid()
      modifies this`config, this`sites
      ensures Valid() && fresh(sites.Values - old(sites.Values))
      ensures Committed(old(View()), DoCreateMarket(old(View()), key, creator, seed, wallet, now), r, View())
    {
      if config.NoConfig? {
        return Err(InvalidAccount);
      }
      if seed == 0 {
        return Err(ZeroAmount);
      }
      var before := config.config;
      var floor, updated := SnapshotThenBump(before, now);
      var refused := StandUp(key, updated, Fresh(key.outcome, floor, before.feeBps, creator, seed), seed, wallet);
      r := if refused.Fail? then Err(refused.error) else Ok(Created(key, creator, seed, floor, before.feeBps, now));
      CreationCommits(old(View()), key, creator, seed, wallet, now, floor, updated, refused, r, View());
    }

    /** Config is rewritten before the remaining gates, as in the source; a failure restores it. */
    method StandUp(key: MarketKey, updated: Config, book: Book, seed: U64, wallet: U64) returns (refused: Guard)
      requires Valid() && config.Initialized?
      modifies this`config, this`sites
      ensures Valid() && fresh(sites.Values - old(sites.Values))
      ensures refused == CreationGate(subjects, old(Books()).Keys, key, seed, wallet)
      ensures if refused.Fail? then config == old(config) && Books() == old(Books())
              else config == Initialized(updated) && Books() == old(Books())[key := book]
    {
      assert Books().Keys == sites.Keys;
      var before := config;
      config := Initialized(updated);
      refused := CreationRefused(key, seed, wallet);
      if refused.Fail? {
        config := before;
      } else {
        OpenSite(key, book);
      }
    }

    /** A market is admitted exactly when its Subject is open, has that outcome, has no such market yet and the creator
        can pay; the error reported names a gate that failed. */
    method CreationRefused(key: MarketKey, seed: U64, wallet: U64) returns (g: Guard)
      ensures g == CreationGate(subjects, sites.Keys, key, seed, wallet)
      ensures g == Pass <==>
                && key.subject in subjects && key.outcome < subjects[key.subject].optionsCount
                && subjects[key.subject].status == Open && key !in sites && seed <= wallet
      ensures g == Fail(OracleResolved) ==> key.subject in subjects && subjects[key.subject].status != Open
      ensures g == Fail(InvalidOutcome) ==> key.subject in subjects && key.outcome >= subjects[key.subject].optionsCount
      ensures g == Fail(InvalidAccount) ==> key.subject !in subjects || key in sites
      ensures g == Fail(TransferFailed) ==> key !in sites && seed > wallet
    {
      if key.subject !in subjects {
        return Fail(InvalidAccount);
      }
      var oracle := subjects[key.subject];
      if key.outcome >= oracle.optionsCount {
        return Fail(InvalidOutcome);
      }
      if oracle.IsTerminal() {
        return Fail(OracleResolved);
      }
      if key in sites {
        return Fail(InvalidAccount);
      }
      if seed > wallet {
        return Fail(TransferFailed);
      }
      return Pass;
    }

    /** One instruction on a live market. */
    method OnMarket(key: MarketKey, op: Op) returns (r: Result<Entry>)
      requires Valid()
      modifies this`sites, sites.Values
      ensures Valid() && sites.Values <= old(sites.Values)
      ensures Committed(old(View()), DoOnMarket(old(View()), key, op), r, View())
    {
      if key !in sites || key.subject !in subjects {
        return Err(InvalidAccount);
      }
      var site, s := sites[key], subjects[key.subject];
      var saved := site.Contents();
      var done := site.Process(s, op);
      if done.Err? {
        site.Restore(saved);
        assert Books() == old(Books());
        r := Err(done.error);
      } else {
        ghost var left := site.Contents();
        if op.Close? {
          sites := sites - {key};
        }
        assert Books() == if op.Close? then old(Books()) - {key} else old(Books())[key := left];
        r := Ok(Happened(key, done.value));
      }
      MarketCommits(old(View()), key, op, done, site.Contents(), r, View());
    }

    method Dispatch(ix: Instruction) returns (r: Result<Entry>)
      requires Valid()
      modifies this, sites.Values
      ensures Valid() && fresh(sites.Values - old(sites.Values))
      ensures Committed(old(View()), Execute(old(View()), ix), r, View())
    {
      match ix
      case InitConfig(isUpgradeAuthority, authority, terms, destinationOk) =>
        r := InitConfig(isUpgradeAuthority, authority, terms, destinationOk);
      case UpdateConfig(signer, terms, destinationOk) => r := UpdateConfig(signer, terms, destinationOk);
      case CreateSubject(nonce, optionsCount) => r := CreateSubject(nonce, optionsCount);
      case Callback(nonce, identitySigned, payload) => r := CallbackFromGpt(nonce, identitySigned, payload);
      case CreateMarket(key, creator, seed, wallet, now) => r := CreateMarket(key, creator, seed, wallet, now);
      case OnMarket(key, op) => r := OnMarket(key, op);
      case VoidSubject(nonce) => r := VoidSubject(nonce);
    }

    /** Replays any list of instructions: the accounts and the log are exactly the specified run's. */
    method Replay(ixs: seq<Instruction>) returns (log: seq<Entry>)
      requires Valid() && View() == GENESIS
      modifies this, sites.Values
      ensures Valid() && View() == Run(ixs).ledger && log == Run(ixs).log
    {
      log := [];
      var i := 0;
      while i < |ixs|
        invariant i <= |ixs| && Valid()
        invariant fresh(sites.Values - old(sites.Values))
        invariant Trace(View(), log) == Run(ixs[..i])
      {
        var r := Dispatch(ixs[i]);
        if r.Ok? {
          log := log + [r.value];
        }
        assert ixs[..i + 1][..i] == ixs[..i];
        i := i + 1;
      }
      assert ixs[..i] == ixs;
    }
  }

  lemma CreationCommits(w: Ledger, key: MarketKey, creator: Address, seed: U64, wallet: U64, now: I64, floor: U64,
                        updated: Config, refused: Guard, r: Result<Entry>, w': Ledger)
    requires w.config.Initialized? && seed != 0
    requires refused == CreationGate(w.subjects, w.markets.Keys, key, seed, wallet)
    requires var c := w.config.config;
             && floor == SnapshotFloor(c, now)
             && updated == c.(creationEma := AfterCreation(c.creationEma, c.lastCreation, now), lastCreation := now)
             && if refused.Fail? then r == Err(refused.error) && w' == w
                else
                  && r == Ok(Created(key, creator, seed, floor, c.feeBps, now))
                  && w' == Ledger(Initialized(updated), w.subjects,
                                  w.markets[key := Fresh(key.outcome, floor, c.feeBps, creator, seed)])
    ensures Committed(w, DoCreateMarket(w, key, creator, seed, wallet, now), r, w')
  {
  }

  lemma OnlyCloseReaps(b: Book, s: Subject, op: Op)
    requires Apply(b, s, op).Ok?
    ensures Apply(b, s, op).value.Gone? <==> op.Close?
  {
  }

  lemma MarketCommits(w: Ledger, key: MarketKey, op: Op, done: Result<Event>, left: Book, r: Result<Entry>, w': Ledger)
    requires key in w.markets && key.subject in w.subjects
    requires Matches(Apply(w.markets[key], w.subjects[key.subject], op), done, left)
    requires done.Err? ==> r == Err(done.error) && w' == w
    requires done.Ok? ==>
               && r == Ok(Happened(key, done.value)) && w'.config == w.config && w'.subjects == w.subjects
               && w'.markets == if op.Close? then w.markets - {key} else w.markets[key := left]
    ensures Committed(w, DoOnMarket(w, key, op), r, w')
  {
    if done.Ok? {
      OnlyCloseReaps(w.markets[key], w.subjects[key.subject], op);
    }
  }

  /** A transaction commits the specified state and entry, or reports the specified error and changes nothing. */
  ghost predicate Committed(before: Ledger, spec: Step, r: Result<Entry>, after: Ledger) {
    match spec
    case Err(e) => r == Err(e) && after == before
    case Ok(done) => r == Ok(done.1) && after == done.0
  }
}
