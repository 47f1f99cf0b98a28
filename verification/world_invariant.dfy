/** Every reachable trace of the whole program is valid. */
module WorldInvariant {
  import opened State
  import opened Lifecycle
  import opened Journals
  import opened Preservation
  import opened World
  import GptOracle

  /** What one market step can do to its fixed fields and its status. */
  predicate TermsKept(b: Book, s: Subject, b': Book) {
    && b'.market.outcome == b.market.outcome && b'.market.feeBps == b.market.feeBps
    && b'.market.minLiquidity == b.market.minLiquidity
    && (Ended(b'.market.status) ==> Ended(b.market.status) || s.IsTerminal())
  }

  lemma OpeningKeepsTerms(b: Book, s: Subject, op: Op)
    requires op.Contribute? || op.Cancel? || op.Activate? || op.AddLate?
    requires Apply(b, s, op).Ok?
    ensures Apply(b, s, op).value.Live? && TermsKept(b, s, Apply(b, s, op).value.book)
  {
  }

  lemma WindingKeepsTerms(b: Book, s: Subject, op: Op)
    requires op.Refund? || op.Resolve? || op.CollectFee? || op.ClaimLp?
    requires Apply(b, s, op).Ok?
    ensures Apply(b, s, op).value.Live? && TermsKept(b, s, Apply(b, s, op).value.book)
  {
  }

  /** Outcome, floor and fee never change, and a market ends only under an ended Subject. */
  lemma ApplyKeepsTerms(b: Book, s: Subject, op: Op)
    requires Apply(b, s, op).Ok? && Apply(b, s, op).value.Live?
    ensures TermsKept(b, s, Apply(b, s, op).value.book)
  {
    if op.Contribute? || op.Cancel? || op.Activate? || op.AddLate? {
      OpeningKeepsTerms(b, s, op);
    } else if op.Refund? || op.Resolve? || op.CollectFee? || op.ClaimLp? {
      WindingKeepsTerms(b, s, op);
    }
  }

  lemma SettlesAsDictated(b: Book, s: Subject, op: Op)
    requires Apply(b, s, op).Ok? && Apply(b, s, op).value.event.Settled?
    ensures op.Resolve? && s.IsTerminal()
    ensures Apply(b, s, op).value.event.question == PayoutFor(s, b.market.outcome)
  {
  }

  lemma ClosesOnlyEnded(b: Book, s: Subject, op: Op)
    requires Apply(b, s, op).Ok? && Apply(b, s, op).value.Gone?
    ensures Ended(b.market.status) && Apply(b, s, op).value.event.Closed?
  {
  }

  lemma SettlementsAfter(j: Journal, e: Event)
    ensures Post(j, e).settlements == if e.Settled? then j.settlements + [e.question] else j.settlements
  {
  }

  // ---- one instruction at a time ----

  lemma QuietMarket(t: Trace, t': Trace, key: MarketKey)
    requires MarketInv(t, key)
    requires JournalOf(t'.log, key) == JournalOf(t.log, key)
    requires key in t'.ledger.markets <==> key in t.ledger.markets
    requires key in t.ledger.markets ==> t'.ledger.markets[key] == t.ledger.markets[key]
    requires key.subject in t.ledger.subjects ==>
               && key.subject in t'.ledger.subjects
               && SubjectGrew(t.ledger.subjects[key.subject], t'.ledger.subjects[key.subject])
    ensures MarketInv(t', key)
  {
  }

  /** A Subject may only go from open to terminal, once, keeping its options. */
  predicate SubjectGrew(s: Subject, s': Subject) {
    s' == s || (!s.IsTerminal() && s'.IsTerminal() && s'.optionsCount == s.optionsCount)
  }

  lemma ConfigStep(t: Trace, ix: Instruction)
    requires Valid(t) && (ix.InitConfig? || ix.UpdateConfig?) && Execute(t.ledger, ix).Ok?
    ensures Valid(Next(t, ix))
  {
    var t' := Next(t, ix);
    forall key ensures MarketInv(t', key) {
      assert MarketInv(t, key);
      JournalOfStep(t.log, Quiet, key);
      QuietMarket(t, t', key);
    }
  }

  lemma SubjectShape(w: Ledger, ix: Instruction)
    requires (ix.CreateSubject? || ix.Callback? || ix.VoidSubject?) && Execute(w, ix).Ok?
    requires forall n :: n in w.subjects ==> GoodSubject(w.subjects[n])
    ensures var (w', e) := Execute(w, ix).value;
            && w'.config == w.config && w'.markets == w.markets && e == Quiet
            && (forall n :: n in w.subjects ==> n in w'.subjects && SubjectGrew(w.subjects[n], w'.subjects[n]))
            && (forall n :: n in w'.subjects ==> GoodSubject(w'.subjects[n]))
  {
    if ix.Callback? {
      var response := GptOracle.Chars(GptOracle.BorshString(ix.payload).value);
      GptOracle.OptionInRange(response, w.subjects[ix.nonce].optionsCount);
    }
  }

  lemma SubjectStep(t: Trace, ix: Instruction)
    requires Valid(t) && (ix.CreateSubject? || ix.Callback? || ix.VoidSubject?) && Execute(t.ledger, ix).Ok?
    ensures Valid(Next(t, ix))
  {
    var t' := Next(t, ix);
    SubjectShape(t.ledger, ix);
    forall key ensures MarketInv(t', key) {
      assert MarketInv(t, key);
      JournalOfStep(t.log, Quiet, key);
      QuietMarket(t, t', key);
    }
  }

  lemma CreatedMarket(t: Trace, t': Trace, ix: Instruction)
    requires Valid(t) && ix.CreateMarket? && Execute(t.ledger, ix).Ok? && t' == Next(t, ix)
    ensures MarketInv(t', ix.key)
  {
    var w := t.ledger;
    var c := w.config.config;
    var e := Execute(w, ix).value.1;
    assert MarketInv(t, ix.key);
    assert JournalOf(t.log, ix.key) == BLANK;
    JournalOfStep(t.log, e, ix.key);
    FreshKeeps(t'.ledger.markets[ix.key], ix.key.outcome, SnapshotFloor(c, ix.now), c.feeBps, ix.creator, ix.seed);
  }

  lemma CreateStep(t: Trace, ix: Instruction)
    requires Valid(t) && ix.CreateMarket? && Execute(t.ledger, ix).Ok?
    ensures Valid(Next(t, ix))
  {
    var t' := Next(t, ix);
    forall key ensures MarketInv(t', key) {
      assert MarketInv(t, key);
      JournalOfStep(t.log, Execute(t.ledger, ix).value.1, key);
      if key == ix.key {
        CreatedMarket(t, t', ix);
      } else {
        QuietMarket(t, t', key);
      }
    }
  }

  /** A step that settles the market does so under an ended Subject, on the payout it dictates. */
  predicate SettlesFairly(s: Subject, key: MarketKey, e: Event) {
    e.Settled? ==> s.IsTerminal() && e.question == PayoutFor(s, key.outcome)
  }

  lemma TouchedSettlements(w: Ledger, w': Ledger, key: MarketKey, j: Journal, e: Event)
    requires Placed(w, key) && SettlementsFollow(w, key, j) && w'.subjects == w.subjects
    requires SettlesFairly(w.subjects[key.subject], key, e)
    ensures SettlementsFollow(w', key, Post(j, e))
  {
    SettlementsAfter(j, e);
  }

  lemma MarketInvFrom(t: Trace, key: MarketKey, j: Journal)
    requires JournalOf(t.log, key) == j && SettlementsFollow(t.ledger, key, j) && Placed(t.ledger, key)
    requires if key in t.ledger.markets then Inv(t.ledger.markets[key], j)
             else ClosedInv(j) && t.ledger.subjects[key.subject].IsTerminal()
    ensures MarketInv(t, key)
  {
  }

  lemma PlacedAgain(w: Ledger, w': Ledger, key: MarketKey, book: Book)
    requires key in w.markets && Placed(w, key) && TermsKept(w.markets[key], w.subjects[key.subject], book)
    requires w' == w.(markets := w.markets[key := book])
    ensures Placed(w', key) && w'.subjects == w.subjects && key in w'.markets && w'.markets[key] == book
  {
  }

  lemma TouchedLive(t: Trace, t': Trace, key: MarketKey, j: Journal, book: Book, e: Event)
    requires key in t.ledger.markets && Placed(t.ledger, key) && SettlementsFollow(t.ledger, key, j)
    requires j == JournalOf(t.log, key) && SettlesFairly(t.ledger.subjects[key.subject], key, e)
    requires TermsKept(t.ledger.markets[key], t.ledger.subjects[key.subject], book) && Inv(book, Post(j, e))
    requires t'.ledger == t.ledger.(markets := t.ledger.markets[key := book]) && t'.log == t.log + [Happened(key, e)]
    ensures MarketInv(t', key)
  {
    PlacedAgain(t.ledger, t'.ledger, key, book);
    TouchedSettlements(t.ledger, t'.ledger, key, j, e);
    JournalOfStep(t.log, Happened(key, e), key);
    MarketInvFrom(t', key, Post(j, e));
  }

  lemma TouchedGone(t: Trace, t': Trace, key: MarketKey, j: Journal, e: Event)
    requires Placed(t.ledger, key) && SettlementsFollow(t.ledger, key, j) && e.Closed?
    requires j == JournalOf(t.log, key) && t.ledger.subjects[key.subject].IsTerminal() && ClosedInv(Post(j, e))
    requires t'.ledger == t.ledger.(markets := t.ledger.markets - {key}) && t'.log == t.log + [Happened(key, e)]
    ensures MarketInv(t', key)
  {
    TouchedSettlements(t.ledger, t'.ledger, key, j, e);
    JournalOfStep(t.log, Happened(key, e), key);
    MarketInvFrom(t', key, Post(j, e));
  }

  /** A trace after one market took the given effect. */
  function AfterEffect(t: Trace, key: MarketKey, effect: Effect): Trace {
    var w := t.ledger;
    match effect
    case Live(book, e) => Trace(w.(markets := w.markets[key := book]), t.log + [Happened(key, e)])
    case Gone(e) => Trace(w.(markets := w.markets - {key}), t.log + [Happened(key, e)])
  }

  /** A market instruction either fails, changing nothing, or has exactly its effect. */
  lemma MarketNext(t: Trace, key: MarketKey, op: Op)
    requires key in t.ledger.markets && key.subject in t.ledger.subjects
    ensures var r := Apply(t.ledger.markets[key], t.ledger.subjects[key.subject], op);
            Next(t, OnMarket(key, op)) == if r.Ok? then AfterEffect(t, key, r.value) else t
  {
  }

  predicate Concerns(ix: Instruction, key: MarketKey) {
    (ix.OnMarket? || ix.CreateMarket?) && ix.key == key
  }

  /** Whatever does not create or touch a market leaves its accounts and history alone. */
  lemma Untouched(t: Trace, ix: Instruction, key: MarketKey)
    requires !Concerns(ix, key)
    ensures var t' := Next(t, ix);
            && JournalOf(t'.log, key) == JournalOf(t.log, key)
            && (key in t'.ledger.markets <==> key in t.ledger.markets)
            && (key in t.ledger.markets ==> t'.ledger.markets[key] == t.ledger.markets[key])
  {
    if Execute(t.ledger, ix).Ok? {
      JournalOfStep(t.log, Execute(t.ledger, ix).value.1, key);
    }
  }

  /** A refused instruction changes nothing. */
  lemma RefusedNext(t: Trace, ix: Instruction)
    requires Execute(t.ledger, ix).Err?
    ensures Next(t, ix) == t
  {
  }

  ghost predicate EffectKept(b: Book, s: Subject, key: MarketKey, j: Journal, effect: Effect) {
    && SettlesFairly(s, key, effect.event)
    && match effect
       case Live(book, e) => TermsKept(b, s, book) && Inv(book, Post(j, e))
       case Gone(e) => e.Closed? && s.IsTerminal() && ClosedInv(Post(j, e))
  }

  lemma EffectTerms(b: Book, s: Subject, key: MarketKey, op: Op)
    requires Apply(b, s, op).Ok? && b.market.outcome == key.outcome && (Ended(b.market.status) ==> s.IsTerminal())
    ensures var effect := Apply(b, s, op).value;
            && SettlesFairly(s, key, effect.event)
            && if effect.Live? then TermsKept(b, s, effect.book) else effect.event.Closed? && s.IsTerminal()
  {
    var effect := Apply(b, s, op).value;
    if effect.Live? {
      ApplyKeepsTerms(b, s, op);
    } else {
      ClosesOnlyEnded(b, s, op);
    }
    if effect.event.Settled? {
      SettlesAsDictated(b, s, op);
    }
  }

  lemma EffectIsKept(b: Book, s: Subject, key: MarketKey, j: Journal, op: Op)
    requires Inv(b, j) && Apply(b, s, op).Ok?
    requires b.market.outcome == key.outcome && (Ended(b.market.status) ==> s.IsTerminal())
    ensures EffectKept(b, s, key, j, Apply(b, s, op).value)
  {
    EffectTerms(b, s, key, op);
    StepKeeps(b, j, s, op);
  }

  lemma AfterKept(t: Trace, key: MarketKey, j: Journal, effect: Effect)
    requires key in t.ledger.markets && Placed(t.ledger, key) && SettlementsFollow(t.ledger, key, j)
    requires j == JournalOf(t.log, key)
    requires EffectKept(t.ledger.markets[key], t.ledger.subjects[key.subject], key, j, effect)
    ensures MarketInv(AfterEffect(t, key, effect), key)
  {
    match effect
    case Live(book, e) => TouchedLive(t, AfterEffect(t, key, effect), key, j, book, e);
    case Gone(e) => TouchedGone(t, AfterEffect(t, key, effect), key, j, e);
  }

  lemma TouchedMarket(t: Trace, key: MarketKey, op: Op)
    requires MarketInv(t, key) && DoOnMarket(t.ledger, key, op).Ok?
    ensures MarketInv(Next(t, OnMarket(key, op)), key)
  {
    var b, s, j := t.ledger.markets[key], t.ledger.subjects[key.subject], JournalOf(t.log, key);
    MarketNext(t, key, op);
    EffectIsKept(b, s, key, j, op);
    AfterKept(t, key, j, Apply(b, s, op).value);
  }

  lemma MarketStep(t: Trace, ix: Instruction)
    requires Valid(t) && ix.OnMarket? && Execute(t.ledger, ix).Ok?
    ensures Valid(Next(t, ix))
  {
    var t' := Next(t, ix);
    forall key ensures MarketInv(t', key) {
      assert MarketInv(t, key);
      JournalOfStep(t.log, Execute(t.ledger, ix).value.1, key);
      if key == ix.key {
        TouchedMarket(t, key, ix.op);
      } else {
        QuietMarket(t, t', key);
      }
    }
  }

  lemma NextValid(t: Trace, ix: Instruction)
    requires Valid(t)
    ensures Valid(Next(t, ix))
  {
    if Execute(t.ledger, ix).Ok? {
      if ix.InitConfig? || ix.UpdateConfig? {
        ConfigStep(t, ix);
      } else if ix.CreateMarket? {
        CreateStep(t, ix);
      } else if ix.OnMarket? {
        MarketStep(t, ix);
      } else {
        SubjectStep(t, ix);
      }
    }
  }

  lemma {:induction false} RunFromValid(t: Trace, ixs: seq<Instruction>)
    requires Valid(t)
    ensures Valid(RunFrom(t, ixs))
  {
    if |ixs| > 0 {
      RunFromValid(t, ixs[..|ixs| - 1]);
      NextValid(RunFrom(t, ixs[..|ixs| - 1]), ixs[|ixs| - 1]);
    }
  }

  lemma GenesisValid()
    ensures Valid(Trace(GENESIS, []))
  {
    forall key ensures MarketInv(Trace(GENESIS, []), key) {
      assert JournalOf([], key) == BLANK;
    }
  }

  /** Every run of the program, from genesis, over any instructions and any outside behaviour. */
  lemma RunValid(ixs: seq<Instruction>)
    ensures Valid(Run(ixs))
  {
    GenesisValid();
    RunFromValid(Trace(GENESIS, []), ixs);
  }
}
