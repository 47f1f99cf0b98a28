/** What the program relies on from the MetaDAO vault and AMM and from SPL Token.
    Amounts those programs choose arrive as arguments; a step that breaks a contract fails as a CPI would. */
module MetaDao {
  import opened Numbers
  import opened Outcomes
  import opened State

  /** The amounts an `add_liquidity` takes and the LP it mints. */
  datatype Fill = Fill(baseIn: U64, quoteIn: U64, lpOut: U64)

  /** The amounts a `remove_liquidity` returns and the SOL the following `redeem_tokens` pays. */
  datatype Unwind = Unwind(baseOut: U64, quoteOut: U64, paid: U64)

  /** `split_tokens`: escrowed SOL becomes equal legs of cYES and cNO. */
  function Split(h: Holdings, amount: U64): Result<Holdings> {
    if amount > h.escrow then Err(CpiFailed) else
    :- Need(h.cyes + amount <= U64_MAX && h.cno + amount <= U64_MAX, CpiFailed);
    Ok(h.(escrow := h.escrow - amount, cyes := h.cyes + amount, cno := h.cno + amount))
  }

  /** `add_liquidity`: within the caller's bounds and holdings; an empty pool takes both sides in full. */
  function AddLiquidity(h: Holdings, p: Pool, quoteAmount: U64, maxBase: U64, minLp: U64, f: Fill)
    : Result<(Holdings, Pool)>
  {
    if f.quoteIn > quoteAmount || f.baseIn > maxBase || f.lpOut < minLp then Err(CpiFailed) else
    :- Need(p.base == 0 && p.quote == 0 ==> f.quoteIn == quoteAmount && f.baseIn == maxBase, CpiFailed);
    :- Need(f.baseIn <= h.cyes && f.quoteIn <= h.cno, CpiFailed);
    :- Need(p.base + f.baseIn <= U64_MAX && p.quote + f.quoteIn <= U64_MAX, CpiFailed);
    :- Need(p.supply + f.lpOut <= U64_MAX && h.lpVault + f.lpOut <= U64_MAX, CpiFailed);
    Ok((h.(cyes := h.cyes - f.baseIn, cno := h.cno - f.quoteIn, lpVault := h.lpVault + f.lpOut),
        Pool(p.base + f.baseIn, p.quote + f.quoteIn, p.supply + f.lpOut)))
  }

  /** `remove_liquidity`: burns exactly `lp` and returns conditional tokens out of the reserves. */
  function RemoveLiquidity(h: Holdings, p: Pool, lp: U64, u: Unwind): Result<(Holdings, Pool)> {
    if lp > h.lpVault || lp > p.supply then Err(CpiFailed) else
    :- Need(u.baseOut <= p.base && u.quoteOut <= p.quote, CpiFailed);
    :- Need(h.cyes + u.baseOut <= U64_MAX && h.cno + u.quoteOut <= U64_MAX, CpiFailed);
    Ok((h.(cyes := h.cyes + u.baseOut, cno := h.cno + u.quoteOut, lpVault := h.lpVault - lp),
        Pool(p.base - u.baseOut, p.quote - u.quoteOut, p.supply - lp)))
  }

  /** `redeem_tokens`: burns the full cYES and cNO balances and pays SOL into escrow. */
  function Redeem(h: Holdings, q: Question, u: Unwind): Result<Holdings> {
    if q.denominator == 0 then Err(CpiFailed) else
    :- Need(h.escrow + u.paid <= U64_MAX, CpiFailed);
    Ok(h.(escrow := h.escrow + u.paid, cyes := 0, cno := 0))
  }

  /** `resolve_question`: once, with the denominator the sum of the numerators. */
  function ResolveQuestion(q: Question, yes: U32, no: U32): Result<Question> {
    if !(q.denominator == 0 && 0 < yes + no <= U32_MAX) then Err(CpiFailed) else
    Ok(Question(yes, no, yes + no))
  }
}
