/** The program's account records and the token accounts that belong to one market. */
module State {
  import opened Numbers

  /** An account key; only equality matters. */
  type Address = nat

  /** `MAX_FEE_BPS`: ten percent. */
  const MAX_FEE_BPS: U16 := 1000

  /** `SUBJECT_OPTION_PENDING`. */
  const OPTION_PENDING: U8 := 0xff

  /** What stands at Config's fee destination when `collect_fee` looks: a token account on the SOL mint, one on another
      mint, or no token account at all. */
  datatype FeeDestination = OnSolMint | OnOtherMint | NotATokenAccount {
    predicate IsLive() { OnSolMint? }
  }

  datatype SubjectStatus = Open | SubjectResolved | SubjectVoid

  datatype Subject = Subject(optionsCount: U8, status: SubjectStatus, resolvedOption: U8) {
    predicate IsTerminal() {
      status == SubjectResolved || status == SubjectVoid
    }
  }

  datatype Config = Config(
    authority: Address,
    minLiquidity: U64,
    feeBps: U16,
    emaThreshold: U64,
    emaCap: U64,
    minLiquidityMax: U64,
    creationEma: U64,
    lastCreation: I64)

  datatype MarketStatus = Funding | Active | Resolved | Void | Cancelled

  datatype Market = Market(
    outcome: U8,
    minLiquidity: U64,
    feeBps: U16,
    totalContributed: U64,
    openContributions: U16,
    status: MarketStatus,
    bound: bool,                 // `lp_vault` recorded by `activate`
    settled: bool,
    feeCollected: bool,
    lpTotal: U64,
    activationLp: U64,
    activationContributed: U64,
    grossLpTotal: U64)

  datatype Contribution = Contribution(amount: U64, lateLp: U64)

  /** Balances of the four token accounts whose authority is the market. */
  datatype Holdings = Holdings(escrow: U64, cyes: U64, cno: U64, lpVault: U64)

  /** What the program reads of the AMM: both reserves and the LP mint's supply. */
  datatype Pool = Pool(base: U64, quote: U64, supply: U64)

  /** The MetaDAO question's payout; denominator 0 until it is resolved. */
  datatype Question = Question(yes: U32, no: U32, denominator: U32)

  const UNRESOLVED := Question(0, 0, 0)
  const YES_PAYS := Question(1, 0, 1)
  const NO_PAYS := Question(0, 1, 1)
  const HALF_EACH := Question(1, 1, 2)

  /** One market account together with every account keyed to it. */
  datatype Book = Book(
    market: Market,
    contributions: map<Address, Contribution>,
    holdings: Holdings,
    pool: Pool,
    question: Question)
}
