# Verified model of the prediction-market program and two of its client cores

The program runs binary sub-markets, one per outcome of an AI-resolved Subject. A sub-market collects SOL from
contributors (Funding), splits it into conditional tokens and seeds an AMM (Active), settles on the Subject's
resolution (Resolved or Void) or is abandoned (Cancelled), pays every contributor out and is closed. Every step after
creation is a permissionless instruction, so the interesting statements are about whole runs in any interleaving.

The project models:

- **One market** (`lifecycle.dfy`, `metadao.dfy`, `claim_shares.dfy`, `fee_math.dfy`): a market's record, its
  contributors' records, its four token balances, the AMM pool and the MetaDAO question, and what each instruction
  does to them, error by error. Machine widths and floor divisions are explicit. The world around the program is part
  of the model: swaps and outside liquidity may set reserves and LP supply to anything that still covers the market's
  own LP, and strangers may send tokens to any of the market's accounts.
- **Histories** (`journal.dfy`, `preservation.dfy`): the observable events of a market, and the invariant that ties
  its accounts to them. Every instruction keeps it.
- **The whole program** (`world.dfy`, `world_invariant.dfy`): Config, all Subjects and all markets, runs from genesis,
  and the invariant of every reachable trace. What follows for every run is in `guarantees.dfy` (conservation and
  payouts), `acceptance.dfy` (when an instruction is accepted, what a refusal means), `deposits.dfy` (the funding floor
  and the end of deposits), `fee_guarantees.dfy` (the fee cut), `payouts.dfy` and `claim_orders.dfy` (claims),
  `liveness.dfy` (winding down), `resolution.dfy` (from the oracle's reply to the winner), `registry_guarantees.dfy`,
  `creation_guarantees.dfy` and `governance.dfy` (Subjects, creations, terms). `worked_run.dfy` takes one concrete run
  to two corners the general statements only bound.
- **The program as code** (`market_site.dfy`, `program.dfy`): classes whose methods change the accounts step by step in
  the source's order, with early error returns and the runtime's rollback, proved to do exactly what the specification
  functions say. `Program.Replay` connects any list of instructions to the specified run.
- **The activity EMA** (`liquidity_floor.dfy`): fixed-point decay, the funding-floor curve, and bounds over any number
  of creations.
- **The oracle reply reader** (`gpt_oracle.dfy`): the byte scanners as loops against a declarative reading, which
  `resolution.dfy` ties to positions in the text.
- **Two client cores**: the decimal SOL printers and parser (`amounts.dfy`, `decimals.dfy`), and the price-chart grid
  (`price_grid.dfy`) with its second-by-second roll-forward (`chart_curve.dfy`).

`numbers.dfy`, `map_sums.dfy`, `outcomes.dfy` and `state.dfy` hold the arithmetic, the sums over maps, the error codes
and the account records the others share. `dafny verify dfyconfig.toml` checks the project.

## How outside behaviour enters

MetaDAO and SPL Token appear as contracts: a split mints equal legs; an add stays within the caller's bounds, takes
both sides in full when the pool is empty and mints LP into `lp_vault`; a remove burns exactly the LP asked for; a
redeem burns both conditional balances in full; a question resolves once, to a denominator that is the sum of its
numerators. The amounts those programs choose are arguments of the step (`Fill`, `Unwind`), so every theorem holds for
all of them. Wallet balances, the clock, the oracle's signature and payload, what stands at the fee
destination and whether a Contribution address already holds lamports are arguments as well. No instruction in the
repository makes a Subject Void; a step of the world does.

## Two properties the code meets only under a condition

- **Winding down.** `collect_fee` refuses a fee destination that is not a live token account before it looks at the
  amounts (`collect_fee.rs:124-131`), and Config checks the account only when it is named. If that account is closed
  later, every market with a fee due stops: claims wait for the fee, and close waits for the claims.
  `Liveness.ClosableIff` is the exact condition, `WorkedRun.WedgedRun` a run that gets there. Naming a live account with
  `update_config` ends it.
- **Rolling the chart forward.** The live line agrees with a rebuild at all times exactly when
  `ChartCurve.RollSafe` holds of the candles and the window. Candles fetched for the window satisfy it; candles still
  cached from another window, after a failed fetch, may not (`ChartCurve.WindowChangeDrifts`).

## Where the code and its comments differ

- `contribute.rs:49-53` says the counter is guarded by the predicate `record_contribution` uses. It is not: the counter
  looks at lamports and data, the record at ownership (`contribution.rs:54`). The model follows the code.
  `Guarantees.CounterCanMiss` is a concrete call where the counter misses a record, `ContributeCountsIff` says of one
  call, and `CounterExactIff` of every run, exactly when it is right. A missed record is what `adopted` counts.
- `collect_fee.rs:213-219` treats an overflow of `lp_total * pool_value` as possible in principle. It is not, for any
  u64 reserves and supply (`FeeMath.FeeNeverOverflows`).
- `config.rs:49-52` derives steady-state EMA values from true exponential decay. The code interpolates linearly, so what
  holds is `EMA * gap <= 2 * HALF_LIFE * INCREMENT` (`CreationGuarantees.EmaBoundedOverRuns`).
- `claim_lp.rs:64-65` says the mixed formula reduces to the legacy one for an activation-only market. It does up to one
  unit, and exactly when the remainders fit (`ClaimShares.MixedRefinesLegacy`, `WorkedRun.MixedCanPayOneLess`). The
  program takes the legacy formula there, so no payout is affected.
- `claim_lp.rs:189-190` says the decrement cannot underflow because a loadable record implies a positive counter. With
  a record the counter missed it can; claims and refunds succeed exactly while the counter is positive
  (`Guarantees.ClaimsCovered`, `Guarantees.RefundsCovered`).

## Model

| member | source | states |
|---|---|---|
| Guarantees.LpConserved | programs/markets/src/processor/claim_lp.rs:153-196 | After every run, LP claimed + LP in the vault + the fee cut equals all LP ever credited plus strays; a settled market that closed left nothing behind but strays |
| Guarantees.SolConserved | programs/markets/src/processor/activate.rs:212-317 | After every run, escrow plus refunds equals stakes plus strays until activation, and from then on escrow and the transient cYES and cNO holders contain strays only |
| Guarantees.RecordsAddUp | programs/markets/src/processor/activate.rs:297-314 | In every reachable Funding market the stakes on record sum to total_contributed; from Active until claims open they sum to activation_contributed and the late LP to gross_lp_total - activation_lp |
| Guarantees.CounterExactIff | programs/markets/src/processor/contribute.rs:49-78 | In every reachable market the live records number open_contributions plus those stood up in pre-funded slots, so the counter is exact if and only if there were none |
| Guarantees.ContributeCountsIff | programs/markets/src/processor/contribute.rs:49-78 | One contribution keeps an exact counter exact if and only if the caller already holds a record or the slot is empty |
| Guarantees.CounterCanMiss | programs/markets/src/processor/contribute.rs:53-78 | A concrete pre-funded slot after which two records count as one |
| Guarantees.NobodyStranded | programs/markets/src/processor/close_market.rs:113-121 | A closed market leaves behind exactly the records its counter missed; with none missed every contributor got out |
| Guarantees.ExitExactlyOnce | programs/markets/src/processor/refund.rs:51-92 | Over every run a contributor leaves a market at most once, a refund is the exact stake, and a market pays out by refunds only or by LP claims only |
| Guarantees.RefundsCovered | programs/markets/src/processor/refund.rs:51-92 | In every reachable cancelled market any remaining record can be refunded next, exactly while the counter is positive, for the whole stake |
| Guarantees.RefundsReturnEverything | programs/markets/src/processor/refund.rs:78-92 | A market cancelled and closed with no missed record refunded exactly the sum of all stakes |
| Guarantees.NoLpLeavesBeforeFee | programs/markets/src/processor/claim_lp.rs:118-132 | In every reachable market whose fee is not settled nobody has claimed and the vault still holds all LP ever credited |
| Guarantees.ClaimsCovered | programs/markets/src/processor/claim_lp.rs:153-196 | In every reachable settled market any remaining record can claim next, exactly while the counter is positive, for its floor share, or for the whole vault when it is the last |
| Guarantees.AnyClaimOrder | programs/markets/src/processor/claim_lp.rs:153-196 | From every reachable settled market an order of claims by everyone goes through if and only if the counter missed no record; it then pays everyone but the last their floor share, leaves the vault at exactly zero, and gives the last fewer than two units per contributor ever above their own floor share, strays apart |
| Payouts.EveryClaimPriced | programs/markets/src/processor/claim_lp.rs:153-173 | Over every run each claim, except one that empties the market, paid exactly the claimer's floor share of all LP credited less the fee, a figure fixed by the deposits and the fee, whatever swaps and donations came between claims |
| Payouts.ClaimPaysFloor | programs/markets/src/processor/claim_lp.rs:158-173 | What the accounts make a claim pay is the share the history alone determines |
| Guarantees.FormulasAgree | programs/markets/src/processor/claim_lp.rs:158-173 | In every reachable claimable market nobody joined late, the mixed formula pays the legacy share, or exactly one unit less precisely when the dropped remainders fill a unit, and the same when no fee was cut |
| Guarantees.FeeAlwaysSafe | programs/markets/src/processor/collect_fee.rs:174-242 | In every reachable market with its fee pending, for any reserves, the fee arithmetic succeeds and its result takes at most the fee rate of the LP and at most a tenth, leaves every contribution covered, and stays below the rate applied to the accrued gain plus one unit; FeeGuarantees.EveryCutFair says it of the fee actually cut |
| FeeGuarantees.EveryCutFair | programs/markets/src/processor/collect_fee.rs:174-351 | In every reachable state, for any reserves and whatever MetaDAO pays out, the LP an accepted crank reports leaves lp_total, the vault and the supply alike and is fair on the market's own payout and reserves: zero without a gain, contributions still covered, and the fee rate of the gain to within the floors from above and below |
| FeeGuarantees.FeeWasFair | programs/markets/src/processor/collect_fee.rs:174-242 | Over every run, whatever fee a market was charged in all, zero included, was fair at the one crank that charged it |
| FeeGuarantees.OpensAtOnceIff | programs/markets/src/processor/resolve_market.rs:131-142 | In every reachable state settling a market opens its claims at once if and only if it has no fee rate or no LP |
| FeeGuarantees.CutIsFair | programs/markets/src/processor/collect_fee.rs:188-242 | The same of one crank on any market that satisfies the invariant |
| Acceptance.AcceptedIff | programs/markets/src/processor/activate.rs:79-317 | In every reachable state each market instruction is accepted if and only if the accounts and arguments meet conditions written out apart from the code: activation only of a Funding market at its floor, under an open Subject, into an empty pool, filled in full; a late deposit only while Active and undecided, within the wallet and the caller's three bounds; and so on for the other seven |
| Acceptance.RefusalIsTrue | programs/markets/src/processor/add_liquidity.rs:65-96 | A refused market instruction reports an error whose stated cause holds |
| Acceptance.LedgerRefusalIsTrue | programs/markets/src/processor/create_market.rs:72-150 | In every reachable state the error of a refused configuration, Subject, callback or creation instruction names something that is so |
| Acceptance.EffectTells | programs/markets/src/processor/add_liquidity.rs:149-292 | In every reachable state an accepted instruction records the caller and the amounts of the call, and liquidity moves by exactly what MetaDAO took and minted |
| Deposits.LiveMeansFunded | programs/markets/src/processor/activate.rs:84-86 | In every reachable market that was ever activated, the stake that went live had reached the market's own funding floor |
| Deposits.DepositsStop | programs/markets/src/processor/add_liquidity.rs:89-96 | Once a Subject has ended, in every continuation each of its markets keeps the late deposits and the LP it has, and the stakes too unless it is still Funding |
| RegistryGuarantees.SubjectWrittenOnce | programs/markets/src/processor/callback_from_gpt.rs:28-38 | A Subject never disappears, ends at most once, on an option below options_count when resolved, and never changes after that |
| Resolution.ResolvesIff | programs/markets/src/processor/callback_from_gpt.rs:18-50 | In every reachable state a callback resolves its Subject to v, and changes nothing else, if and only if it is signed, the Subject is open with option v, and the payload is a Borsh string whose text names v; every other callback fails |
| Resolution.AnswerStored | programs/markets/src/processor/callback_from_gpt.rs:28-38 | For every option v of an open Subject, a signed reply that prints v under the long key, under the short key or bare stores exactly v, and unsigned it changes nothing |
| Resolution.ResolvedByReply | programs/markets/src/processor/callback_from_gpt.rs:28-38 | Over every run a resolved Subject was resolved by a signed reply naming the option it holds |
| Resolution.WinnerWasNamed | programs/markets/src/processor/resolve_market.rs:94-105 | Over every run a market that ever paid YES is one whose outcome a signed reply named |
| RegistryGuarantees.OneLife | programs/markets/src/processor/create_market.rs:105-129 | Each (subject, outcome) is created at most once over any run, and once closed it is absent in every continuation |
| RegistryGuarantees.CreationAcceptedIff | programs/markets/src/processor/create_market.rs:72-150 | In every reachable state a creation goes through if and only if Config is there, the Subject is open and has that outcome, the creator can pay a positive seed, and no market for the outcome was ever created before |
| RegistryGuarantees.SettlesOnVerdict | programs/markets/src/processor/resolve_market.rs:88-141 | A market settles at most once, on the payout its Subject dictates, and its question still holds that payout |
| RegistryGuarantees.AtMostOneYes | programs/markets/src/processor/resolve_market.rs:94-105 | Two markets of one Subject that ever paid YES are the same market |
| RegistryGuarantees.ExactlyOneYes | programs/markets/src/processor/resolve_market.rs:94-105 | If every outcome of a resolved Subject has settled, the resolved option paid YES and all others NO |
| RegistryGuarantees.OutOfRangeUnreachable | programs/markets/src/processor/resolve_market.rs:95-99 | In no reachable state does the out-of-range rejection fire |
| CreationGuarantees.StoredEma | programs/markets/src/processor/create_market.rs:85-103 | After every run the stored EMA and timestamp are a function of the creation times alone, whatever governance updates came between |
| CreationGuarantees.EmaBoundedOverRuns | programs/markets/src/processor/create_market.rs:85-103 | Over any run whose creations are at least g seconds apart, 0 < g <= half-life, EMA * g <= 2 * half-life * increment |
| CreationGuarantees.SnapshotWithinCurve | programs/markets/src/processor/create_market.rs:85-103 | The next market's floor lies between the base and the curve's value at that EMA bound, and its fee is Config's, at most ten percent |
| CreationGuarantees.FloorFromHistory | programs/markets/src/processor/create_market.rs:85-103 | In every reachable state a created market must raise exactly the curve's value at the decayed EMA of all creations so far, and what is stored is that decayed value plus one increment, capped, as of now |
| CreationGuarantees.FloorsOrdered | programs/markets/src/processor/create_market.rs:89-97 | Of two creations under one curve in any two reachable states whose last creations fell together, the one after no more activity and at no earlier a time never has the larger floor |
| CreationGuarantees.WaitingNeverCosts | programs/markets/src/processor/create_market.rs:89-97 | Of two creations from one ledger the later never has the larger floor |
| CreationGuarantees.RushNeverPays | programs/markets/src/processor/create_market.rs:89-103 | A creation in the same second as the one before it never has the smaller floor |
| CreationGuarantees.IdleIsBase | programs/markets/src/liquidity_floor.rs:50-53 | After 64 half-lives without a creation the next market's floor is the base, whatever the activity before |
| Governance.RuleInForce | programs/markets/src/processor/update_config.rs:33-61 | After every run Config carries exactly the authority and the terms told by the governance instructions of the run alone |
| Governance.OnlyAuthorityGoverns | programs/markets/src/processor/update_config.rs:33-61 | The authority never changes, and while it signs nothing no sequence of instructions changes the fee or the curve |
| Governance.TermsFromHistory | programs/markets/src/processor/create_market.rs:85-103 | The floor and fee of a created market are told by the instructions before it alone: the terms in force and the times of the creations |
| Governance.InitIff | programs/markets/src/processor/init_config.rs:64-149 | Config is founded if and only if there is none, by the upgrade authority, with a fee of at most ten percent and a sound destination; each field carries what was asked and the EMA starts idle |
| Governance.UpdateIff | programs/markets/src/processor/update_config.rs:33-61 | Terms change if and only if the authority asks for sound ones; each field carries what was asked, and authority, EMA and clock stay |
| Governance.SubjectIff | programs/markets/src/processor/create_subject.rs:30-74 | A Subject is added if and only if its nonce is free and it has at least two options, open and undecided |
| CreationGuarantees.TermsFrozen | programs/markets/src/processor/create_market.rs:183-197 | A market keeps for life the floor and fee of its one creation, and the fee never exceeds ten percent |
| Liveness.ClosableIff | programs/markets/src/processor/collect_fee.rs:102-131 | From every reachable state whose Subject has ended, and for either state of the fee destination, at most open_contributions + 3 permissionless cranks close the market if and only if the destination is live or no fee is due; otherwise no number of cranks does |
| Liveness.DeadFreezes | programs/markets/src/processor/collect_fee.rs:124-131 | While a fee is pending towards a destination that is not a live token account, no sequence of cranks changes anything |
| Liveness.CollectFeeIff | programs/markets/src/processor/collect_fee.rs:98-131 | A pending fee can be collected if and only if its destination is live, and is otherwise refused with the error the account found there earns |
| WorkedRun.WedgedRun | programs/markets/src/processor/collect_fee.rs:124-131 | A concrete run of eight steps from genesis reaches a market that a dead fee destination freezes |
| Liveness.NextCrankEnabled | programs/markets/src/processor/close_market.rs:101-122 | In any state satisfying the invariant the next crank for the market's status succeeds if and only if it is not a fee crank towards a dead destination |
| Liveness.EveryCrankProgresses | programs/markets/src/processor/close_market.rs:101-122 | Every crank that succeeds, next in line or not, strictly lowers the measure over status, fee_collected and open_contributions |
| Liveness.WindDown | programs/markets/src/processor/cancel.rs:31-51 | The closing sequence itself, with every fee crank carrying the given destination state and MetaDAO amounts, and its length within the measure |
| Liveness.RefundEnabled | programs/markets/src/processor/refund.rs:51-92 | A refund of a live record in a cancelled market succeeds if and only if the counter is positive |
| Liveness.ClaimEnabled | programs/markets/src/processor/claim_lp.rs:110-196 | A claim of a live record in a settled market succeeds if and only if the counter is positive, and what it pays |
| ClaimOrders.ClaimsInAnyOrder | programs/markets/src/processor/claim_lp.rs:153-196 | Induction over an arbitrary order of claims: all succeed, the payouts sum to the vault, the last one's gain is bounded |
| ClaimOrders.CohortClaimsIff | programs/markets/src/processor/claim_lp.rs:187-196 | A whole cohort can claim if and only if the counter missed no record |
| ClaimOrders.OrderDoesNotMatter | programs/markets/src/processor/claim_lp.rs:158-173 | Whoever is not last in either of two orders receives the same LP in both |
| Preservation.StepKeeps | programs/markets/src/processor/claim_lp.rs:88-198 | Any instruction or outside step that succeeds keeps the market invariant, or closes the market with a history that satisfies the closed one |
| Preservation.FreshKeeps | programs/markets/src/processor/create_market.rs:183-197 | A newly created market satisfies the invariant with a history holding only its opening |
| Preservation.ContributeInv | programs/markets/src/processor/contribution.rs:30-87 | A contribution keeps the stakes, totals, counter and escrow in step |
| Preservation.RefundInv | programs/markets/src/processor/refund.rs:78-92 | A refund removes one record, its stake from escrow and one from the counter, and keeps the invariant |
| Preservation.ActivateInv | programs/markets/src/processor/activate.rs:212-317 | Activation turns the whole stake into LP and freezes a claim basis that agrees with the history |
| Preservation.AddLateInv | programs/markets/src/processor/add_liquidity.rs:248-289 | A late deposit keeps late LP, gross LP and the vault in step |
| Preservation.ResolveInv | programs/markets/src/processor/resolve_market.rs:88-141 | Settling records one payout and opens claims only if there is nothing to collect |
| Preservation.CollectFeeInv | programs/markets/src/processor/collect_fee.rs:244-349 | Cutting the fee lowers lp_total and the vault by the same LP, and the vault still covers every floor share |
| Preservation.ClaimInv | programs/markets/src/processor/claim_lp.rs:153-196 | A claim removes one record and its share, and the rest stay covered with the dust bound intact |
| Preservation.CloseCloses | programs/markets/src/processor/close_market.rs:101-156 | A market that passes the close gates has a history in which the money is fully accounted for |
| Preservation.SharesAgainstTotal | programs/markets/src/processor/claim_lp.rs:47-86 | All floor shares together never exceed lp_total and fall short by fewer than two units a record, in both cohort paths |
| WorldInvariant.RunValid | programs/markets/src/processor/create_market.rs:60-203 | Every trace reachable from genesis by any instructions and outside steps satisfies the global invariant |
| WorldInvariant.NextValid | programs/markets/src/processor/callback_from_gpt.rs:18-39 | One instruction, successful or not, keeps the global invariant |
| WorldInvariant.SettlesAsDictated | programs/markets/src/processor/resolve_market.rs:88-109 | Only resolve settles a market, only under an ended Subject, on the payout it dictates for the outcome |
| WorldInvariant.ClosesOnlyEnded | programs/markets/src/processor/close_market.rs:101-112 | Only a Resolved, Void or Cancelled market disappears |
| WorldInvariant.ApplyKeepsTerms | programs/markets/src/processor/create_market.rs:188-197 | No market instruction changes outcome, floor or fee, and a market ends only under an ended Subject |
| ClaimShares.ProRataExact | programs/markets/src/processor/claim_lp.rs:47-55 | For a stake within the total the legacy share is the exact floor, never overflows and never exceeds lp_total |
| ClaimShares.GrossExact | programs/markets/src/processor/claim_lp.rs:66-86 | For a record inside the gross total the mixed share is the floor of lp_total times the record's gross LP over gross_lp_total, without overflow |
| ClaimShares.MixedRefinesLegacy | programs/markets/src/processor/claim_lp.rs:47-86 | On an activation-only market the mixed formula pays the legacy share or one unit less, exactly by a condition on the remainders, agrees when no fee was cut, and is computed from the client's contributorLp figure |
| ClaimShares.NestedFloorIff | programs/markets/src/processor/claim_lp.rs:64-86 | When flooring through the gross figure loses nothing: if and only if the two dropped remainders, weighed against each other, fall short of a unit |
| WorkedRun.MixedCanPayOneLess | programs/markets/src/processor/claim_lp.rs:158-173 | A concrete run from genesis reaches a claim the legacy formula pays 6 LP and the mixed one would pay 5 |
| ClaimShares.NestedFloor | app/src/market/lib/marketView.ts:161-170 | Flooring through the gross LP figure first loses at most one unit against the direct floor, and nothing when the totals are equal |
| FeeMath.FeeNeverOverflows | programs/markets/src/processor/collect_fee.rs:174-242 | For any u64 reserves, supply and LP within it, under any payout resolve can write, no step overflows or divides by zero, the result is the unbounded-arithmetic one, and at most a tenth of the LP |
| FeeMath.PrincipalProtected | programs/markets/src/processor/collect_fee.rs:203-242 | Whenever a fee is charged, the LP left is worth at least total_contributed, all floors included |
| FeeMath.FeeAccurate | programs/markets/src/processor/collect_fee.rs:208-242 | The fee is at most fee_bps of the LP and, in SOL terms, below fee_bps of the accrued gain plus one unit |
| FeeMath.FeeNotUndercharged | programs/markets/src/processor/collect_fee.rs:226-242 | The matching lower bound: the two floors forgo less than one LP unit plus one unit of the accrued LP at the fee rate |
| LiquidityFloor.DecayBracket | programs/markets/src/liquidity_floor.rs:47-59 | The decayed EMA lies within two units below the exact rational value |
| LiquidityFloor.HalvesPerHalfLife | programs/markets/src/liquidity_floor.rs:47-59 | Whole half-lives halve exactly |
| LiquidityFloor.DecayedUniform | programs/markets/src/liquidity_floor.rs:50-53 | The cut-off at 64 halvings changes no result |
| LiquidityFloor.DecayMonotoneInEma | programs/markets/src/liquidity_floor.rs:39-60 | A larger EMA decays to no smaller a value |
| LiquidityFloor.DecayAntitoneInTime | programs/markets/src/liquidity_floor.rs:39-60 | More elapsed time never leaves a larger EMA, across half-life boundaries and the cut-off |
| LiquidityFloor.DecayTimestampsMonotone | programs/markets/src/liquidity_floor.rs:39-60 | Both facts for raw timestamps, saturating subtraction and clocks that run backwards included |
| LiquidityFloor.DecayByClock | programs/markets/src/liquidity_floor.rs:39-60 | Between ordered timestamps the saturating clock arithmetic gives the decay of the exact difference |
| LiquidityFloor.SplitDecayAlmostAdditive | programs/markets/src/liquidity_floor.rs:39-60 | Decaying in two steps is at most 3 below and at most 9/8 plus 17/8 units above decaying in one |
| LiquidityFloor.SplitDecayByClock | programs/markets/src/liquidity_floor.rs:39-60 | The same between timestamps |
| LiquidityFloor.CreationKeepsBound | programs/markets/src/processor/create_market.rs:89-102 | One decay and bump keeps EMA * g within the bound |
| LiquidityFloor.EmaBounded | programs/markets/src/processor/create_market.rs:89-102 | The bound for every sequence of creation times at least g apart |
| LiquidityFloor.FloorInRange | programs/markets/src/liquidity_floor.rs:75-90 | The floor stays between base and the larger of base and max, and meets both end values |
| LiquidityFloor.FloorOnRamp | programs/markets/src/liquidity_floor.rs:83-89 | Between threshold and cap the floor is the straight line rounded down |
| LiquidityFloor.FloorMonotone | programs/markets/src/liquidity_floor.rs:75-90 | A larger EMA never lowers the floor, whatever the parameters |
| LiquidityFloor.SnapshotMonotone | programs/markets/src/processor/create_market.rs:89-97 | The curve read at the decayed EMA rises with the stored EMA and falls with idle time; CreationGuarantees.FloorsOrdered says it of the markets created |
| GptOracle.ParseU8At | programs/markets/src/cpi/gpt_oracle.rs:165-180 | The saturating digit loop returns the value of the leading digit run if it fits a byte, and nothing otherwise |
| GptOracle.ParseJsonU8Field | programs/markets/src/cpi/gpt_oracle.rs:134-155 | The scanner returns the value at the first place where the key and, past gaps, a colon stand |
| GptOracle.MatchField | programs/markets/src/cpi/gpt_oracle.rs:137-150 | At one position, the inner scan finds the field's value exactly when the key stands there and a colon follows its gaps |
| GptOracle.ParseBareU8 | programs/markets/src/cpi/gpt_oracle.rs:157-163 | The number after leading white space |
| GptOracle.ParseLlmOption | programs/markets/src/cpi/gpt_oracle.rs:111-132 | The fallback order of the three readings and the range check on whichever is found first |
| Resolution.NamesIff | programs/markets/src/cpi/gpt_oracle.rs:111-180 | A reply is read as v if and only if v is an option and, said by positions in the text alone, v is the number after the first "option_index" field, failing that after the first "option" field, failing that at the front |
| Resolution.ShapeNames | programs/markets/src/cpi/gpt_oracle.rs:111-163 | Every reply that writes v under either key, with any tabs, spaces and quotes before the colon and any white space after it, or bare, names v |
| GptOracle.OptionInRange | programs/markets/src/cpi/gpt_oracle.rs:111-132 | Whatever bytes arrive, an accepted option is below options_count and is not the pending marker |
| GptOracle.PrintedIsRead | programs/markets/src/cpi/gpt_oracle.rs:165-180 | Every byte value printed in decimal and followed by a non-digit is read back |
| GptOracle.JsonReplyRead | programs/markets/src/cpi/gpt_oracle.rs:111-155 | A well-formed JSON reply is taken exactly when its number is below options_count |
| GptOracle.BorshRoundTrip | programs/markets/src/processor/callback_from_gpt.rs:41-50 | Every Borsh-encoded string is unwrapped to exactly its bytes |
| Resolution.EncodedIff | programs/markets/src/processor/callback_from_gpt.rs:41-50 | A payload is unwrapped to given bytes if and only if it is their Borsh encoding |
| MarketSites.MarketSite.RecordContribution | programs/markets/src/processor/contribution.rs:30-87 | The in-place update moves the SOL and creates or tops up exactly the caller's record, with the specified errors |
| MarketSites.MarketSite.Contribute | programs/markets/src/processor/contribute.rs:26-80 | The in-place instruction leaves exactly the specified accounts or reports the specified error |
| MarketSites.MarketSite.Cancel | programs/markets/src/processor/cancel.rs:22-52 | Same, for cancel |
| MarketSites.MarketSite.Refund | programs/markets/src/processor/refund.rs:36-94 | Same, for refund |
| MarketSites.MarketSite.Activate | programs/markets/src/processor/activate.rs:79-317 | Same, for activate: gates, split, seeding, freeze; Acceptance.AcceptedIff and Deposits.LiveMeansFunded say what the gates let through |
| MarketSites.MarketSite.PoolLate | programs/markets/src/processor/add_liquidity.rs:149-253 | Transfer, split, add and return of leftovers leave the specified balances and yield the LP minted |
| MarketSites.MarketSite.RecordLateLp | programs/markets/src/processor/add_liquidity.rs:316-366 | Creates or increments exactly the depositor's late LP; a pre-funded slot without a record is rejected |
| MarketSites.MarketSite.CreditLate | programs/markets/src/processor/add_liquidity.rs:266-289 | All four counters move together or the step fails |
| MarketSites.MarketSite.AddLate | programs/markets/src/processor/add_liquidity.rs:54-292 | Same, for add_liquidity as a whole; Acceptance.AcceptedIff and Deposits.DepositsStop say when it goes through |
| MarketSites.MarketSite.Resolve | programs/markets/src/processor/resolve_market.rs:61-144 | Same, for resolve_market |
| MarketSites.MarketSite.AccruedFee | programs/markets/src/processor/collect_fee.rs:174-242 | The step-by-step checked arithmetic computes the specified fee or the specified error |
| MarketSites.MarketSite.CollectFee | programs/markets/src/processor/collect_fee.rs:78-351 | Same, for collect_fee, including the escrow sweep; FeeGuarantees.EveryCutFair says what it cuts |
| MarketSites.MarketSite.ClaimLp | programs/markets/src/processor/claim_lp.rs:88-198 | Same, for claim_lp: fee gate, choice of formula, last-claimer sweep, counter |
| MarketSites.MarketSite.Close | programs/markets/src/processor/close_market.rs:101-122 | The gates decide exactly as specified and report what is left behind |
| Programs.Program.InitConfig | programs/markets/src/processor/init_config.rs:64-149 | Config is created once, by the upgrade authority, with a capped fee and a zero EMA, or nothing changes |
| Programs.Program.UpdateConfig | programs/markets/src/processor/update_config.rs:33-61 | Only the governed fields change, only for the authority, with a capped fee |
| Programs.Program.CreateSubject | programs/markets/src/processor/create_subject.rs:30-74 | A new Subject with at least two options, never over an existing one |
| Programs.Program.CallbackFromGpt | programs/markets/src/processor/callback_from_gpt.rs:18-39 | The in-place callback commits the specified step, of which Resolution.ResolvesIff says what it stores, or changes nothing |
| Programs.Program.SnapshotThenBump | programs/markets/src/processor/create_market.rs:85-103 | The in-place update reads the specified floor before it stores the bumped EMA; CreationGuarantees.FloorFromHistory says what that floor is |
| Programs.Program.CreateMarket | programs/markets/src/processor/create_market.rs:60-203 | The whole instruction commits the specified state, or restores Config and changes nothing |
| Programs.Program.OnMarket | programs/markets/src/processor/close_market.rs:140-156 | One market's instruction touches no other market, is rolled back on error, and close alone reaps the accounts |
| Programs.Program.Dispatch | programs/markets/src/processor/create_market.rs:52-203 | Any instruction on the account store does exactly what the specification does to its abstract value |
| Programs.Program.Replay | programs/markets/src/processor/create_market.rs:52-203 | Any list of instructions leaves the account store and log of the specified run, so every guarantee above applies to it |
| PriceGrid.BarsCoverWindow | app/src/components/markets/priceGrid.ts:26-33 | The bars cover the window with none to spare and stay within the point budget |
| PriceGrid.LastAtMeaning | app/src/components/markets/priceGrid.ts:44-72 | The carried value is the close of the latest candle at or before the time; whitespace means every candle is later |
| PriceGrid.CoreIsReal | app/src/components/markets/priceGrid.ts:62-69 | Every core point has a real value, so the guard on the carry never drops one |
| PriceGrid.BuildGrid | app/src/components/markets/priceGrid.ts:44-72 | The two-pointer loop samples the carried curve at every step from the clamped start through the end bucket |
| PriceGrid.BuildWindowedGrid | app/src/components/markets/priceGrid.ts:86-99 | The padding loop puts one whitespace point per missing step in front of the core |
| PriceGrid.WindowExact | app/src/components/markets/priceGrid.ts:86-99 | A non-empty windowed grid has exactly maxBars points, one step apart, each the carried curve at its own time |
| ChartCurve.RollsIff | app/src/components/markets/PriceChart.tsx:222-252 | The rebuilt grid, with or without whitespace, is the tail of the old one plus the rolled points at all times if and only if a condition on the first and last candle holds |
| ChartCurve.CoreIsRolledTail | app/src/components/markets/PriceChart.tsx:222-252 | Under that condition, for any two times, the later core is the tail of the earlier one plus the rolled points |
| ChartCurve.WindowIsRolledTail | app/src/components/markets/PriceChart.tsx:222-252 | The same for the whole window, whitespace included |
| ChartCurve.UnsafeDrifts | app/src/components/markets/PriceChart.tsx:222-252 | Without it, the line plotted when the last candle arrived has drifted by a stated later tick |
| ChartCurve.AlignedIsSafe | indexer/src/market/db.rs:263-279 | Candles bucketed by the plotted step, as the indexer returns them, satisfy the condition |
| ChartCurve.WindowChangeDrifts | app/src/components/markets/PriceChart.tsx:346-370 | The chart's own failing case: one-second candles kept after the one-day window was chosen and its fetch failed |
| ChartCurve.Curve.Replot | app/src/components/markets/PriceChart.tsx:150-216 | The line becomes the windowed grid and the bookkeeping agrees with its last point, whatever step the candles are on |
| ChartCurve.Curve.ChooseWindow | app/src/components/markets/PriceChart.tsx:222-232 | Another window changes step and bar count, and neither the line nor the cached candles |
| ChartCurve.Curve.Load | app/src/components/markets/PriceChart.tsx:346-370 | A failed fetch keeps the cached candles, and either way the line is up to date |
| ChartCurve.Curve.RollForward | app/src/components/markets/PriceChart.tsx:222-252 | Appends one carried point per elapsed step; when the candles meet the condition for the current window, a line that was right at any earlier time ends with the window a rebuild now would plot |
| Amounts.MatchIff | app/src/market/data/amount.ts:25-28 | The match accepts exactly the grammar and captures its unique pair of groups |
| Amounts.ParseIff | app/src/market/data/amount.ts:22-37 | Parsing yields v if and only if v is positive and the trimmed text spells it with at most nine places |
| Amounts.RefusalsIff | app/src/market/data/amount.ts:22-37 | Each of the four refusals if and only if its cause: nothing but blanks, no decimal, more than nine places, or zero |
| Amounts.PlainParts | app/src/components/markets/actions/TradePanel.tsx:41-46 | The plain form is the whole SOL, then the nine decimals without trailing zeros |
| Amounts.PlainForm | app/src/components/markets/actions/TradePanel.tsx:41-46 | The plain form has a point exactly when the amount is not whole, and then the one text of at most nine decimals that does not end in 0 and stands for the rest |
| Amounts.PlainRoundTrip | app/src/components/markets/actions/TradePanel.tsx:41-46 | Parsing the plain form returns the amount for every positive amount, and only zero is refused |
| Amounts.BumpsAdd | app/src/components/markets/actions/TradePanel.tsx:227-236 | The quick-add buttons add up exactly from any field contents |
| Amounts.BumpAdds | app/src/components/markets/actions/TradePanel.tsx:227-236 | After a button the field parses to n times 10^9 more than it parsed to before, or to that alone if it held no amount |
| Amounts.GroupedStep | app/src/market/lib/marketView.ts:183-196 | A separator stands before exactly the digits a multiple of three from the end |
| Amounts.FormatIsPlain | app/src/market/lib/marketView.ts:183-196 | The display form without its separators is the plain form, with a sign for negative amounts |
| Amounts.DisplayForm | app/src/market/lib/marketView.ts:183-196 | The display form is a sign, the whole SOL with a comma at exactly every fourth place from its end, and a point and trimmed decimals exactly when the amount is not whole |

## Left out

- Account validation: address derivation, owner and mint checks, payload lengths, signer seeds, rent and lamport flows; they only add rejections, and keys here are abstract.
- The MetaDAO and SPL Token programs themselves: only the contracts above; the leftover legs `add_liquidity` returns are not followed into the depositor's accounts.
- Guarantees.SolConserved: with strays the bound on escrow and the transient holders is an upper bound, because a redeem sweeps strays along with the fee.
- Liveness.ClosableIff: with a live destination, assumes that what MetaDAO returns for the fee slice fits u64 balances; cranks do not include the governance update that could replace a dead destination.
- Liveness.NextCrankEnabled: takes the contributors' own token accounts, the destinations of refunds and claims, to be valid; anyone can create them.
- Guarantees.NobodyStranded: a record its counter missed can be left behind; the hypothesis that no slot was pre-funded is explicit.
- ChartCurve.Curve.Load: takes fetched candles to be ascending, as the indexer's query returns them.
- Several markets on one chart: inversion and the floating-point normalisation across a group are not modelled, and the chart library's update is an append.
- JavaScript numbers: times and counts are integers, far below the range where doubles lose precision; error messages are constructors.
- Negative amounts in `toPlainAmount`: no caller passes one.
- The `request_ai` instruction, session flags in `er.rs`, instruction builders and discriminants: wire plumbing with shallow properties.
- The indexer, its database and HTTP layer, React components, wallets and transaction sending.
- Contribution, market and Subject fields that no modelled decision reads (creators, mints, bumps, slots).
