/** Who governs and what is in force: Config told from the instructions of a run alone. */
module Governance {
  import opened State
  import opened LiquidityFloor
  import opened World
  import opened CreationGuarantees

  /** The authority and the terms of the last governance instruction that counted. */
  datatype Rule = NoRule | Rule(authority: Address, terms: Terms)

  /** At most ten percent, paid to a token account on the SOL mint. */
  predicate Sound(terms: Terms, destinationOk: bool) {
    terms.feeBps <= 1000 && destinationOk
  }

  /** The first sound `init_config` of the upgrade authority founds; after it only the authority it named amends. */
  function RuleAfter(ixs: seq<Instruction>): Rule {
    if |ixs| == 0 then NoRule
    else
      var rule, ix := RuleAfter(ixs[..|ixs| - 1]), ixs[|ixs| - 1];
      if ix.InitConfig? && rule.NoRule? && ix.isUpgradeAuthority && Sound(ix.terms, ix.destinationOk) then
        Rule(ix.authority, ix.terms)
      else if ix.UpdateConfig? && rule.Rule? && ix.signer == rule.authority && Sound(ix.terms, ix.destinationOk) then
        rule.(terms := ix.terms)
      else
        rule
  }

  predicate Carries(c: Config, authority: Address, terms: Terms) {
    && c.authority == authority
    && c.minLiquidity == terms.minLiquidity && c.feeBps == terms.feeBps
    && c.emaThreshold == terms.emaThreshold && c.emaCap == terms.emaCap
    && c.minLiquidityMax == terms.minLiquidityMax
  }

  predicate InForce(slot: ConfigSlot, rule: Rule) {
    match rule
    case NoRule => slot.NoConfig?
    case Rule(authority, terms) => slot.Initialized? && Carries(slot.config, authority, terms)
  }

  lemma RuleStep(t: Trace, rule: Rule, ixs: seq<Instruction>, ix: Instruction)
    requires InForce(t.ledger.config, rule) && rule == RuleAfter(ixs)
    ensures InForce(Next(t, ix).ledger.config, RuleAfter(ixs + [ix]))
  {
    assert (ixs + [ix])[..|ixs|] == ixs;
  }

  /** After every run Config carries exactly the authority and the terms its governance instructions tell. */
  lemma {:induction false} RuleInForce(ixs: seq<Instruction>)
    ensures InForce(Run(ixs).ledger.config, RuleAfter(ixs))
  {
    if |ixs| > 0 {
      var before, ix := ixs[..|ixs| - 1], ixs[|ixs| - 1];
      RuleInForce(before);
      RuleStep(Run(before), RuleAfter(before), before, ix);
      assert ixs == before + [ix];
    }
  }

  /** No instruction of the authority among them. */
  predicate WithoutAuthority(more: seq<Instruction>, authority: Address) {
    forall i :: 0 <= i < |more| && more[i].UpdateConfig? ==> more[i].signer != authority
  }

  lemma {:induction false} RuleStays(ixs: seq<Instruction>, more: seq<Instruction>)
    requires RuleAfter(ixs).Rule?
    ensures RuleAfter(ixs + more).Rule? && RuleAfter(ixs + more).authority == RuleAfter(ixs).authority
    ensures WithoutAuthority(more, RuleAfter(ixs).authority) ==> RuleAfter(ixs + more) == RuleAfter(ixs)
  {
    if |more| == 0 {
      assert ixs + more == ixs;
    } else {
      RuleStays(ixs, more[..|more| - 1]);
      assert (ixs + more)[..|ixs + more| - 1] == ixs + more[..|more| - 1];
    }
  }

  /** The authority is fixed at genesis, and while it signs nothing no sequence of instructions changes the terms. */
  lemma {:induction false} OnlyAuthorityGoverns(ixs: seq<Instruction>, more: seq<Instruction>)
    requires Run(ixs).ledger.config.Initialized?
    ensures Run(ixs + more).ledger.config.Initialized?
    ensures var c, c' := Run(ixs).ledger.config.config, Run(ixs + more).ledger.config.config;
            && c'.authority == c.authority
            && (WithoutAuthority(more, c.authority) ==> SameCurve(c, c') && c'.feeBps == c.feeBps)
  {
    RuleInForce(ixs);
    RuleInForce(ixs + more);
    RuleStays(ixs, more);
  }

  /** Config is founded if and only if it is not there, by the upgrade authority, on sound terms; it starts idle. */
  lemma InitIff(w: Ledger, ix: Instruction)
    requires ix.InitConfig?
    ensures Execute(w, ix).Ok? <==>
              ix.isUpgradeAuthority && Sound(ix.terms, ix.destinationOk) && w.config.NoConfig?
    ensures Execute(w, ix).Ok? ==>
              var w' := Execute(w, ix).value.0;
              && w' == w.(config := w'.config) && w'.config.Initialized?
              && Carries(w'.config.config, ix.authority, ix.terms)
              && w'.config.config.creationEma == 0 && w'.config.config.lastCreation == 0
  {
  }

  /** Terms are amended if and only if Config is there and its authority asks for sound ones; authority, EMA and clock
      stay. */
  lemma UpdateIff(w: Ledger, ix: Instruction)
    requires ix.UpdateConfig?
    ensures Execute(w, ix).Ok? <==>
              w.config.Initialized? && ix.signer == w.config.config.authority && Sound(ix.terms, ix.destinationOk)
    ensures Execute(w, ix).Ok? ==>
              var c, w' := w.config.config, Execute(w, ix).value.0;
              && w' == w.(config := w'.config) && w'.config.Initialized?
              && Carries(w'.config.config, c.authority, ix.terms)
              && w'.config.config.creationEma == c.creationEma && w'.config.config.lastCreation == c.lastCreation
  {
  }

  /** A Subject is added if and only if its nonce is free and it has at least two options; it starts open. */
  lemma SubjectIff(w: Ledger, ix: Instruction)
    requires ix.CreateSubject?
    ensures Execute(w, ix).Ok? <==> ix.nonce !in w.subjects && ix.optionsCount >= 2
    ensures Execute(w, ix).Ok? ==>
              Execute(w, ix).value.0
              == w.(subjects := w.subjects[ix.nonce := Subject(ix.optionsCount, Open, 255)])
  {
  }

  /** What a market must raise is told by the instructions alone: the curve in force, at the decayed activity of the
      creations so far; and so is its fee. */
  lemma {:induction false} TermsFromHistory(ixs: seq<Instruction>, ix: Instruction)
    requires ix.CreateMarket? && Execute(Run(ixs).ledger, ix).Ok?
    ensures RuleAfter(ixs).Rule?
    ensures var t, m := RuleAfter(ixs).terms, Execute(Run(ixs).ledger, ix).value.0.markets[ix.key].market;
            && m.feeBps == t.feeBps
            && m.minLiquidity
               == FundingFloor(Seen(ixs, ix.now), t.emaThreshold, t.emaCap, t.minLiquidity, t.minLiquidityMax)
  {
    RuleInForce(ixs);
    FloorFromHistory(ixs, ix);
    FeeTaken(Run(ixs).ledger, ix);
  }

  lemma FeeTaken(w: Ledger, ix: Instruction)
    requires ix.CreateMarket? && Execute(w, ix).Ok?
    ensures w.config.Initialized?
    ensures Execute(w, ix).value.0.markets[ix.key].market.feeBps == w.config.config.feeBps
  {
  }
}
