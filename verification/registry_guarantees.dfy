/** What holds across markets and across time: Subjects are written once, each outcome has one market for life,
    and the markets of one Subject never disagree on the winner. */
module RegistryGuarantees {
  import opened Numbers
  import opened State
  import opened Lifecycle
  import opened Journals
  import opened World
  import opened WorldInvariant

  // ---- runs compose ----

  lemma {:induction false} RunFromConcat(t: Trace, ixs: seq<Instruction>, more: seq<Instruction>)
    ensures RunFrom(t, ixs + more) == RunFrom(RunFrom(t, ixs), more)
  {
    if |more| == 0 {
      assert ixs + more == ixs;
    } else {
      var k := |more| - 1;
      RunFromConcat(t, ixs, more[..k]);
      assert (ixs + more)[..|ixs + more| - 1] == ixs + more[..k];
    }
  }

  // ---- Subjects ----

  lemma SubjectStepGrows(t: Trace, ix: Instruction, n: U64)
    requires Valid(t) && n in t.ledger.subjects
    ensures n in Next(t, ix).ledger.subjects && SubjectGrew(t.ledger.subjects[n], Next(t, ix).ledger.subjects[n])
  {
    if (ix.CreateSubject? || ix.Callback? || ix.VoidSubject?) && Execute(t.ledger, ix).Ok? {
      SubjectShape(t.ledger, ix);
    }
  }

  lemma {:induction false} SubjectGrowsAlong(t: Trace, more: seq<Instruction>, n: U64)
    requires Valid(t) && n in t.ledger.subjects
    ensures n in RunFrom(t, more).ledger.subjects
    ensures SubjectGrew(t.ledger.subjects[n], RunFrom(t, more).ledger.subjects[n])
  {
    if |more| > 0 {
      var before := more[..|more| - 1];
      SubjectGrowsAlong(t, before, n);
      RunFromValid(t, before);
      SubjectStepGrows(RunFrom(t, before), more[|more| - 1], n);
    }
  }

  /** A Subject never disappears, resolves at most once, always to one of its options, and then never changes. */
  lemma SubjectWrittenOnce(ixs: seq<Instruction>, more: seq<Instruction>, n: U64)
    requires n in Run(ixs).ledger.subjects
    ensures n in Run(ixs + more).ledger.subjects
    ensures var s, s' := Run(ixs).ledger.subjects[n], Run(ixs + more).ledger.subjects[n];
            && s'.optionsCount == s.optionsCount >= 2
            && (s.IsTerminal() ==> s' == s)
            && (s.status == SubjectResolved ==> s.resolvedOption < s.optionsCount)
            && (s.status == Open ==> s.resolvedOption == OPTION_PENDING)
  {
    RunValid(ixs);
    RunFromConcat(Trace(GENESIS, []), ixs, more);
    SubjectGrowsAlong(Run(ixs), more, n);
    assert GoodSubject(Run(ixs).ledger.subjects[n]);
  }

  // ---- one life per outcome ----

  function Creations(log: seq<Entry>, key: MarketKey): nat {
    if |log| == 0 then 0
    else Creations(log[..|log| - 1], key) + if log[|log| - 1].Created? && log[|log| - 1].key == key then 1 else 0
  }

  lemma CreationsStep(log: seq<Entry>, e: Entry, key: MarketKey)
    ensures Creations(log + [e], key) == Creations(log, key) + if e.Created? && e.key == key then 1 else 0
  {
    assert (log + [e])[..|log|] == log;
  }

  /** Not yet created and blank, or created once and never blank again. */
  ghost predicate OneBirth(t: Trace, key: MarketKey) {
    var n, j := Creations(t.log, key), JournalOf(t.log, key);
    && n <= 1
    && (n == 0 ==> key !in t.ledger.markets && j == BLANK)
    && (n == 1 ==> j.staked != map[])
  }

  lemma StakesStay(j: Journal, e: Event)
    ensures j.staked != map[] || e.Opened? ==> Post(j, e).staked != map[]
  {
    if e.Opened? || e.Contributed? {
      assert e.who in Post(j, e).staked;
    }
  }

  /** A step creates one absent market of an open Subject, or touches a present one, or leaves the registry alone. */
  ghost predicate RegistryStep(w: Ledger, w': Ledger, e: Entry, key: MarketKey) {
    match e
    case Created(k, _, _, _, _, _) =>
      if k == key
      then key !in w.markets && key in w'.markets && key.subject in w.subjects && !w.subjects[key.subject].IsTerminal()
      else key in w'.markets <==> key in w.markets
    case Happened(k, _) => if k == key then key in w.markets else key in w'.markets <==> key in w.markets
    case Quiet => key in w'.markets <==> key in w.markets
  }

  lemma ExecuteRegistry(w: Ledger, ix: Instruction, key: MarketKey)
    requires Execute(w, ix).Ok?
    ensures RegistryStep(w, Execute(w, ix).value.0, Execute(w, ix).value.1, key)
  {
  }

  ghost predicate GoneForGood(t: Trace, key: MarketKey) {
    Creations(t.log, key) == 1 && key !in t.ledger.markets
  }

  lemma BirthPosts(t: Trace, w': Ledger, e: Entry, key: MarketKey)
    requires MarketInv(t, key) && OneBirth(t, key) && RegistryStep(t.ledger, w', e, key)
    ensures OneBirth(Trace(w', t.log + [e]), key)
    ensures GoneForGood(t, key) ==> GoneForGood(Trace(w', t.log + [e]), key)
  {
    CreationsStep(t.log, e, key);
    JournalOfStep(t.log, e, key);
    if e.Created? && e.key == key {
      StakesStay(JournalOf(t.log, key), Opened(e.creator, e.seed));
    } else if e.Happened? && e.key == key {
      StakesStay(JournalOf(t.log, key), e.event);
    }
  }

  lemma BirthStep(t: Trace, ix: Instruction, key: MarketKey)
    requires Valid(t) && OneBirth(t, key)
    ensures OneBirth(Next(t, ix), key)
    ensures GoneForGood(t, key) ==> GoneForGood(Next(t, ix), key)
  {
    if Execute(t.ledger, ix).Ok? {
      assert MarketInv(t, key);
      ExecuteRegistry(t.ledger, ix, key);
      BirthPosts(t, Execute(t.ledger, ix).value.0, Execute(t.ledger, ix).value.1, key);
    }
  }

  lemma {:induction false} BirthsAlong(t: Trace, more: seq<Instruction>, key: MarketKey)
    requires Valid(t) && OneBirth(t, key)
    ensures OneBirth(RunFrom(t, more), key)
    ensures GoneForGood(t, key) ==> GoneForGood(RunFrom(t, more), key)
  {
    if |more| > 0 {
      var before := more[..|more| - 1];
      BirthsAlong(t, before, key);
      RunFromValid(t, before);
      BirthStep(RunFrom(t, before), more[|more| - 1], key);
    }
  }

  lemma RunBirths(ixs: seq<Instruction>, key: MarketKey)
    ensures OneBirth(Run(ixs), key)
  {
    GenesisValid();
    BirthsAlong(Trace(GENESIS, []), ixs, key);
  }

  /** A market is created at most once, exists only if it was, and once closed it can never come back. */
  lemma OneLife(ixs: seq<Instruction>, more: seq<Instruction>, key: MarketKey)
    ensures Creations(Run(ixs).log, key) <= 1
    ensures key in Run(ixs).ledger.markets ==> Creations(Run(ixs).log, key) == 1
    ensures Creations(Run(ixs).log, key) == 1 && key !in Run(ixs).ledger.markets ==>
              key !in Run(ixs + more).ledger.markets && Creations(Run(ixs + more).log, key) == 1
  {
    RunBirths(ixs, key);
    RunValid(ixs);
    BirthsAlong(Run(ixs), more, key);
    RunFromConcat(Trace(GENESIS, []), ixs, more);
  }

  /** In a reachable state a creation goes through exactly when Config is there, the Subject is open with that outcome,
      no market for it was ever created, and the creator can pay a positive seed. */
  lemma CreationAcceptedIff(ixs: seq<Instruction>, ix: Instruction)
    requires ix.CreateMarket?
    ensures var t, key := Run(ixs), ix.key;
            Execute(t.ledger, ix).Ok? <==>
              && t.ledger.config.Initialized? && 0 < ix.seed <= ix.wallet
              && key.subject in t.ledger.subjects && t.ledger.subjects[key.subject].status == Open
              && key.outcome < t.ledger.subjects[key.subject].optionsCount && Creations(t.log, key) == 0
  {
    RunBirths(ixs, ix.key);
    RunValid(ixs);
    var w, key := Run(ixs).ledger, ix.key;
    assert MarketInv(Run(ixs), key);
    if key.subject in w.subjects && w.subjects[key.subject].status == Open {
      NeverCreated(Run(ixs), key);
    }
  }

  lemma NeverCreated(t: Trace, key: MarketKey)
    requires MarketInv(t, key) && OneBirth(t, key)
    requires key.subject in t.ledger.subjects && t.ledger.subjects[key.subject].status == Open
    ensures key !in t.ledger.markets <==> Creations(t.log, key) == 0
  {
  }

  // ---- categorical agreement ----

  lemma SettledAtMostOnce(b: Book, j: Journal, t: Totals, share: nat)
    requires Money(b, j, t, share)
    ensures if b.market.settled then j.settlements == [b.question] else j.settlements == []
  {
  }

  /** A market that ever settled did so once, on the payout its Subject dictates, and its question still says so. */
  lemma SettlesOnVerdict(ixs: seq<Instruction>, key: MarketKey)
    ensures var w, j := Run(ixs).ledger, JournalOf(Run(ixs).log, key);
            && (j.settlements != [] ==>
                  && key.subject in w.subjects && w.subjects[key.subject].IsTerminal()
                  && j.settlements == [PayoutFor(w.subjects[key.subject], key.outcome)])
            && (key in w.markets && w.markets[key].market.settled ==> j.settlements == [w.markets[key].question])
  {
    RunValid(ixs);
    var w, j := Run(ixs).ledger, JournalOf(Run(ixs).log, key);
    assert MarketInv(Run(ixs), key);
    if key in w.markets {
      var b := w.markets[key];
      SettledAtMostOnce(b, j, TotalsOf(b.contributions, j), ShareTotal(b));
    }
  }

  /** Of all the markets of one Subject at most one ever pays YES. */
  lemma AtMostOneYes(ixs: seq<Instruction>, k1: MarketKey, k2: MarketKey)
    requires k1.subject == k2.subject
    requires YES_PAYS in JournalOf(Run(ixs).log, k1).settlements && YES_PAYS in JournalOf(Run(ixs).log, k2).settlements
    ensures k1 == k2
  {
    SettlesOnVerdict(ixs, k1);
    SettlesOnVerdict(ixs, k2);
  }

  /** If every outcome of a resolved Subject has settled, exactly one pays YES: the one the Subject resolved to. */
  lemma ExactlyOneYes(ixs: seq<Instruction>, n: U64)
    requires n in Run(ixs).ledger.subjects && Run(ixs).ledger.subjects[n].status == SubjectResolved
    requires forall o: U8 :: o < Run(ixs).ledger.subjects[n].optionsCount ==>
               JournalOf(Run(ixs).log, MarketKey(n, o)).settlements != []
    ensures var s := Run(ixs).ledger.subjects[n];
            && s.resolvedOption < s.optionsCount
            && forall o: U8 :: o < s.optionsCount ==>
                 JournalOf(Run(ixs).log, MarketKey(n, o)).settlements
                 == [if o == s.resolvedOption then YES_PAYS else NO_PAYS]
  {
    RunValid(ixs);
    var s := Run(ixs).ledger.subjects[n];
    assert GoodSubject(s);
    forall o: U8 | o < s.optionsCount
      ensures JournalOf(Run(ixs).log, MarketKey(n, o)).settlements
           == [if o == s.resolvedOption then YES_PAYS else NO_PAYS]
    {
      SettlesOnVerdict(ixs, MarketKey(n, o));
    }
  }

  /** `resolve_market` never meets a resolved option outside the Subject's range. */
  lemma OutOfRangeUnreachable(ixs: seq<Instruction>, key: MarketKey)
    requires key in Run(ixs).ledger.markets && key.subject in Run(ixs).ledger.subjects
    requires Run(ixs).ledger.subjects[key.subject].IsTerminal()
    ensures Verdict(Run(ixs).ledger.markets[key], Run(ixs).ledger.subjects[key.subject]).Ok?
  {
    RunValid(ixs);
    assert GoodSubject(Run(ixs).ledger.subjects[key.subject]);
  }
}
