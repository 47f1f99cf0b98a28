/** Market creation over whole runs: the activity EMA, the floors snapshotted off it, and the terms each market
    keeps. */
module CreationGuarantees {
  import opened Numbers
  import opened State
  import opened LiquidityFloor
  import opened Lifecycle
  import opened World
  import opened WorldInvariant
  import opened RegistryGuarantees

  /** When markets were created, oldest first, for every Subject together. */
  function CreationTimes(log: seq<Entry>): seq<I64> {
    if |log| == 0 then []
    else
      var earlier := CreationTimes(log[..|log| - 1]);
      if log[|log| - 1].Created? then earlier + [log[|log| - 1].at] else earlier
  }

  lemma CreationTimesStep(log: seq<Entry>, e: Entry)
    ensures CreationTimes(log + [e]) == if e.Created? then CreationTimes(log) + [e.at] else CreationTimes(log)
  {
    assert (log + [e])[..|log|] == log;
  }

  /** The stored EMA is a function of the creation times alone: no governance update ever touches it. */
  predicate EmaFollows(t: Trace) {
    var times := CreationTimes(t.log);
    match t.ledger.config
    case NoConfig => times == []
    case Initialized(c) => c.creationEma == EmaAfter(times) && c.lastCreation == LastOf(times)
  }

  /** How a step moves the two live fields of Config. */
  predicate EmaStep(w: Ledger, w': Ledger, e: Entry) {
    if e.Created? then
      && w.config.Initialized? && w'.config.Initialized?
      && w'.config.config.creationEma == AfterCreation(w.config.config.creationEma, w.config.config.lastCreation, e.at)
      && w'.config.config.lastCreation == e.at
    else
      || w'.config == w.config
      || (w'.config.Initialized? && w.config.NoConfig? && w'.config.config.creationEma == 0
          && w'.config.config.lastCreation == 0)
      || (w'.config.Initialized? && w.config.Initialized? && w'.config.config.creationEma == w.config.config.creationEma
          && w'.config.config.lastCreation == w.config.config.lastCreation)
  }

  lemma ExecuteEma(w: Ledger, ix: Instruction)
    requires Execute(w, ix).Ok?
    ensures EmaStep(w, Execute(w, ix).value.0, Execute(w, ix).value.1)
  {
  }

  lemma EmaAfterStep(times: seq<I64>, ema: U64, last: I64, at: I64, next: U64)
    requires ema == EmaAfter(times) && last == LastOf(times) && next == AfterCreation(ema, last, at)
    ensures next == EmaAfter(times + [at]) && at == LastOf(times + [at])
  {
    assert (times + [at])[..|times|] == times;
  }

  lemma EmaPosts(t: Trace, w': Ledger, e: Entry)
    requires EmaFollows(t) && EmaStep(t.ledger, w', e)
    ensures EmaFollows(Trace(w', t.log + [e]))
  {
    CreationTimesStep(t.log, e);
    if e.Created? {
      var c := t.ledger.config.config;
      EmaAfterStep(CreationTimes(t.log), c.creationEma, c.lastCreation, e.at, w'.config.config.creationEma);
    }
  }

  lemma {:induction false} StoredEma(ixs: seq<Instruction>)
    ensures EmaFollows(Run(ixs))
  {
    if |ixs| > 0 {
      var before, ix := Run(ixs[..|ixs| - 1]), ixs[|ixs| - 1];
      StoredEma(ixs[..|ixs| - 1]);
      if Execute(before.ledger, ix).Ok? {
        ExecuteEma(before.ledger, ix);
        EmaPosts(before, Execute(before.ledger, ix).value.0, Execute(before.ledger, ix).value.1);
      }
    }
  }

  /** Over any run whose creations are at least `gap` apart, governance updates included:
      EMA * gap <= 2H * INCREMENT. */
  lemma EmaBoundedOverRuns(ixs: seq<Instruction>, gap: nat)
    requires 0 < gap <= HALF_LIFE && Spaced(CreationTimes(Run(ixs).log), gap)
    requires Run(ixs).ledger.config.Initialized?
    ensures Run(ixs).ledger.config.config.creationEma * gap <= TWO_HALVES * INCREMENT
  {
    StoredEma(ixs);
    EmaBounded(CreationTimes(Run(ixs).log), gap);
  }

  /** The largest EMA creations `gap` seconds apart can keep up. */
  function EmaCeiling(gap: nat): (e: U64)
    requires 0 < gap
    ensures forall x: nat :: x * gap <= TWO_HALVES * INCREMENT ==> x <= e
  {
    forall x: nat | x * gap <= TWO_HALVES * INCREMENT
      ensures x <= Div(TWO_HALVES * INCREMENT, gap)
    {
      QuotientGe(TWO_HALVES * INCREMENT, gap, x);
    }
    Div(TWO_HALVES * INCREMENT, gap)
  }

  /** A market created after such a run must raise at least the base and at most the curve's value at that ceiling;
      it snapshots the floor and fee in force and the fee is at most ten percent. */
  lemma SnapshotWithinCurve(ixs: seq<Instruction>, ix: Instruction, gap: nat)
    requires 0 < gap <= HALF_LIFE && Spaced(CreationTimes(Run(ixs).log), gap)
    requires ix.CreateMarket? && Execute(Run(ixs).ledger, ix).Ok?
    ensures Run(ixs).ledger.config.Initialized?
    ensures var c, m := Run(ixs).ledger.config.config, Execute(Run(ixs).ledger, ix).value.0.markets[ix.key].market;
            && c.minLiquidity <= m.minLiquidity
            && m.minLiquidity
               <= FundingFloor(EmaCeiling(gap), c.emaThreshold, c.emaCap, c.minLiquidity, c.minLiquidityMax)
            && m.feeBps == c.feeBps <= MAX_FEE_BPS
  {
    RunValid(ixs);
    EmaBoundedOverRuns(ixs, gap);
    var c := Run(ixs).ledger.config.config;
    var e := DecayMarketEma(c.creationEma, c.lastCreation, ix.now);
    FloorInRange(e, c.emaThreshold, c.emaCap, c.minLiquidity, c.minLiquidityMax);
    FloorMonotone(e, EmaCeiling(gap), c.emaThreshold, c.emaCap, c.minLiquidity, c.minLiquidityMax);
  }

  /** What one creation at `now` does with the stored EMA e: the market's floor is the curve at e, decayed, and what is
      stored is the decayed value with one increment on top, capped, as of now. */
  predicate Snapshots(c: Config, e: U64, now: I64, w': Ledger, key: MarketKey) {
    && key in w'.markets
    && w'.markets[key].market.minLiquidity
       == FundingFloor(e, c.emaThreshold, c.emaCap, c.minLiquidity, c.minLiquidityMax)
    && w'.config == Initialized(c.(creationEma := Min(e + 1_000_000_000, U64_MAX), lastCreation := now))
  }

  lemma CreationSnapshots(w: Ledger, ix: Instruction)
    requires ix.CreateMarket? && Execute(w, ix).Ok?
    ensures w.config.Initialized?
    ensures var c := w.config.config;
            Snapshots(c, DecayMarketEma(c.creationEma, c.lastCreation, ix.now), ix.now, Execute(w, ix).value.0, ix.key)
  {
  }

  /** The EMA a creation at `now` sees: fixed by the times of all creations before it. */
  function Seen(ixs: seq<Instruction>, now: I64): U64 {
    var times := CreationTimes(Run(ixs).log);
    DecayMarketEma(EmaAfter(times), LastOf(times), now)
  }

  /** In every reachable state a created market must raise exactly the curve's value at the decayed EMA of the creations
      so far, read before its own increment is stored. */
  lemma {:induction false} FloorFromHistory(ixs: seq<Instruction>, ix: Instruction)
    requires ix.CreateMarket? && Execute(Run(ixs).ledger, ix).Ok?
    ensures Run(ixs).ledger.config.Initialized?
    ensures var w := Run(ixs).ledger;
            Snapshots(w.config.config, Seen(ixs, ix.now), ix.now, Execute(w, ix).value.0, ix.key)
  {
    StoredEma(ixs);
    CreationSnapshots(Run(ixs).ledger, ix);
  }

  /** The floor of the market a creation makes. */
  function FloorOf(w: Ledger, ix: Instruction): U64
    requires ix.CreateMarket? && Execute(w, ix).Ok?
  {
    Execute(w, ix).value.0.markets[ix.key].market.minLiquidity
  }

  /** The shape of the curve governance set. */
  predicate SameCurve(c: Config, c': Config) {
    && c'.emaThreshold == c.emaThreshold && c'.emaCap == c.emaCap
    && c'.minLiquidity == c.minLiquidity && c'.minLiquidityMax == c.minLiquidityMax
  }

  /** Of two creations under one curve, in any two reachable states last used at the same time, the one that comes later
      after no more activity never has the larger floor. */
  lemma {:induction false} FloorsOrdered(ixs1: seq<Instruction>, ix1: Instruction,
                                         ixs2: seq<Instruction>, ix2: Instruction)
    requires ix1.CreateMarket? && Execute(Run(ixs1).ledger, ix1).Ok?
    requires ix2.CreateMarket? && Execute(Run(ixs2).ledger, ix2).Ok?
    requires Run(ixs1).ledger.config.Initialized? && Run(ixs2).ledger.config.Initialized?
    requires SameCurve(Run(ixs1).ledger.config.config, Run(ixs2).ledger.config.config)
    requires var times1, times2 := CreationTimes(Run(ixs1).log), CreationTimes(Run(ixs2).log);
             EmaAfter(times1) <= EmaAfter(times2) && LastOf(times1) == LastOf(times2)
    requires ix2.now <= ix1.now
    ensures FloorOf(Run(ixs1).ledger, ix1) <= FloorOf(Run(ixs2).ledger, ix2)
  {
    var times1, times2 := CreationTimes(Run(ixs1).log), CreationTimes(Run(ixs2).log);
    var c := Run(ixs2).ledger.config.config;
    FloorFromHistory(ixs1, ix1);
    FloorFromHistory(ixs2, ix2);
    SnapshotMonotone(EmaAfter(times1), EmaAfter(times2), LastOf(times1), ix1.now, ix2.now,
                     c.emaThreshold, c.emaCap, c.minLiquidity, c.minLiquidityMax);
  }

  /** Of two creations from one ledger the later never has the larger floor. */
  lemma {:induction false} WaitingNeverCosts(ixs: seq<Instruction>, early: Instruction, late: Instruction)
    requires early.CreateMarket? && Execute(Run(ixs).ledger, early).Ok?
    requires late.CreateMarket? && Execute(Run(ixs).ledger, late).Ok?
    requires early.now <= late.now
    ensures FloorOf(Run(ixs).ledger, late) <= FloorOf(Run(ixs).ledger, early)
  {
    FloorFromHistory(ixs, late);
    FloorsOrdered(ixs, late, ixs, early);
  }

  /** After 64 half-lives without a creation the floor is back at its base, whatever the activity before. */
  lemma {:induction false} IdleIsBase(ixs: seq<Instruction>, ix: Instruction)
    requires ix.CreateMarket? && Execute(Run(ixs).ledger, ix).Ok?
    requires ix.now - LastOf(CreationTimes(Run(ixs).log)) >= 64 * HALF_LIFE
    ensures Run(ixs).ledger.config.Initialized?
    ensures FloorOf(Run(ixs).ledger, ix) == Run(ixs).ledger.config.config.minLiquidity
  {
    FloorFromHistory(ixs, ix);
  }

  /** A creation right after another, in the same second, never has the smaller floor. */
  lemma {:induction false} RushNeverPays(ixs: seq<Instruction>, first: Instruction, second: Instruction)
    requires first.CreateMarket? && Execute(Run(ixs).ledger, first).Ok?
    requires second.CreateMarket? && Execute(Execute(Run(ixs).ledger, first).value.0, second).Ok?
    requires second.now == first.now
    ensures FloorOf(Run(ixs).ledger, first) <= FloorOf(Execute(Run(ixs).ledger, first).value.0, second)
  {
    var w' := Execute(Run(ixs).ledger, first).value.0;
    FloorFromHistory(ixs, first);
    CreationSnapshots(w', second);
    var c, e := w'.config.config, Seen(ixs, first.now);
    FloorMonotone(e, c.creationEma, c.emaThreshold, c.emaCap, c.minLiquidity, c.minLiquidityMax);
  }

  // ---- terms frozen at creation ----

  lemma {:induction false} NoCreation(log: seq<Entry>, key: MarketKey)
    requires Creations(log, key) == 0
    ensures forall i :: 0 <= i < |log| ==> !(log[i].Created? && log[i].key == key)
  {
    if |log| > 0 {
      NoCreation(log[..|log| - 1], key);
    }
  }

  ghost predicate KeepsTerms(w: Ledger, log: seq<Entry>, key: MarketKey) {
    key in w.markets ==>
      forall i :: 0 <= i < |log| && log[i].Created? && log[i].key == key ==>
        w.markets[key].market.minLiquidity == log[i].minLiquidity && w.markets[key].market.feeBps == log[i].feeBps
  }

  /** A market's terms come from its creation or from the step before. */
  ghost predicate TermsStep(w: Ledger, w': Ledger, e: Entry, key: MarketKey) {
    key in w'.markets ==>
      if e.Created? && e.key == key
      then w'.markets[key].market.minLiquidity == e.minLiquidity && w'.markets[key].market.feeBps == e.feeBps
      else key in w.markets && w'.markets[key].market.minLiquidity == w.markets[key].market.minLiquidity
           && w'.markets[key].market.feeBps == w.markets[key].market.feeBps
  }

  lemma ExecuteTerms(w: Ledger, ix: Instruction, key: MarketKey)
    requires Execute(w, ix).Ok?
    ensures TermsStep(w, Execute(w, ix).value.0, Execute(w, ix).value.1, key)
  {
    if ix.OnMarket? && ix.key == key && Apply(w.markets[key], w.subjects[key.subject], ix.op).value.Live? {
      ApplyKeepsTerms(w.markets[key], w.subjects[key.subject], ix.op);
    }
  }

  lemma TermsPost(t: Trace, w': Ledger, e: Entry, key: MarketKey)
    requires KeepsTerms(t.ledger, t.log, key) && OneBirth(t, key)
    requires TermsStep(t.ledger, w', e, key) && RegistryStep(t.ledger, w', e, key)
    requires MarketInv(t, key)
    ensures KeepsTerms(w', t.log + [e], key)
  {
    if e.Created? && e.key == key {
      NoCreation(t.log, key);
    }
  }

  lemma {:induction false} TermsAlong(ixs: seq<Instruction>, key: MarketKey)
    ensures KeepsTerms(Run(ixs).ledger, Run(ixs).log, key)
  {
    if |ixs| > 0 {
      var before, ix := ixs[..|ixs| - 1], ixs[|ixs| - 1];
      TermsAlong(before, key);
      var t := Run(before);
      if Execute(t.ledger, ix).Ok? {
        RunValid(before);
        RunBirths(before, key);
        ExecuteTerms(t.ledger, ix, key);
        ExecuteRegistry(t.ledger, ix, key);
        assert MarketInv(t, key);
        TermsPost(t, Execute(t.ledger, ix).value.0, Execute(t.ledger, ix).value.1, key);
      }
    }
  }

  lemma {:induction false} CreationExists(log: seq<Entry>, key: MarketKey) returns (i: nat)
    requires Creations(log, key) >= 1
    ensures i < |log| && log[i].Created? && log[i].key == key
  {
    var k := |log| - 1;
    if log[k].Created? && log[k].key == key {
      i := k;
    } else {
      i := CreationExists(log[..k], key);
    }
  }

  /** For life a market keeps the floor and the fee of its one creation, whatever governance does meanwhile. */
  lemma TermsFrozen(ixs: seq<Instruction>, key: MarketKey)
    requires key in Run(ixs).ledger.markets
    ensures var m, log := Run(ixs).ledger.markets[key].market, Run(ixs).log;
            && m.feeBps <= MAX_FEE_BPS
            && exists i :: 0 <= i < |log| && log[i].Created? && log[i].key == key
                           && m.minLiquidity == log[i].minLiquidity && m.feeBps == log[i].feeBps
  {
    TermsAlong(ixs, key);
    RunBirths(ixs, key);
    RunValid(ixs);
    assert MarketInv(Run(ixs), key);
    var i := CreationExists(Run(ixs).log, key);
  }
}
