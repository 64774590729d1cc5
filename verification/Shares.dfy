/** What LP shares are worth along a run. */
module Shares {
  import opened Numbers
  import opened MapSum
  import opened Pricing
  import opened Ledger
  import opened Handlers
  import opened Runs
  import opened Accounting
  import opened Invariants

  ghost predicate PriceKept(s: State, s': State) {
    PriceAtMost(s.pool.totalAssets, s.pool.totalShares, s'.pool.totalAssets, s'.pool.totalShares)
  }

  /** The one event that lowers the share price is a liquidation. */
  lemma PriceFallsOnlyByLiquidation(s: State, now: i64, e: Event)
    requires Permitted(s, now, e) && ParamsSound(s)
    ensures PriceKept(s, Evolve(s, now, e)) <==> !e.AdvanceLiquidated?
  {
    var a, n := s.pool.totalAssets, s.pool.totalShares;
    match e
    case Deposited(_, amount, minted) => DepositKeepsPrice(amount, a, n, minted);
    case Withdrew(_, burned, returned) => WithdrawKeepsPrice(burned, a, n, returned);
    case AdvanceSettled(_, _, lpFee, _, _, _) => PriceFollowsAssets(a, a + lpFee, n);
    case AdvanceLiquidated(key, loss) =>
      assert TermsSound(s.advances[key]);
      PriceFollowsAssets(a, a - loss, n);
    case _ => PriceFollowsAssets(a, a, n);
  }

  ghost predicate LiquidationFree(txs: seq<Tx>) {
    forall i :: 0 <= i < |txs| ==> !txs[i].call.Liquidate?
  }

  lemma StepKeepsPrice(w: World, tx: Tx)
    requires ParamsSound(w.state) && !tx.call.Liquidate?
    ensures PriceKept(w.state, Step(w, tx).state)
    ensures Tally(Step(w, tx).log, LossOf) == Tally(w.log, LossOf)
  {
    hide Decide, Permitted, Evolve;
    match Decide(w.state, tx)
    case Ok(e) =>
      PriceFallsOnlyByLiquidation(w.state, tx.env.now, e);
      TallySnoc(w.log, Entry(tx.env.now, e), LossOf);
    case Err(_) =>
      PriceFollowsAssets(w.state.pool.totalAssets, w.state.pool.totalAssets, w.state.pool.totalShares);
  }

  lemma PriceKeptTransitive(s1: State, s2: State, s3: State)
    requires PriceKept(s1, s2) && PriceKept(s2, s3)
    ensures PriceKept(s1, s3)
  {
    PriceTransitive(s1.pool.totalAssets, s1.pool.totalShares, s2.pool.totalAssets, s2.pool.totalShares,
                    s3.pool.totalAssets, s3.pool.totalShares);
  }

  lemma RunSnoc(g: Genesis, before: seq<Tx>, txs: seq<Tx>)
    requires g.Valid() && txs != []
    ensures Run(g, before + txs) == Step(Run(g, before + txs[..|txs| - 1]), txs[|txs| - 1])
  {
    var n := |txs| - 1;
    assert before + txs == before + txs[..n] + [txs[n]];
    RunFromSnoc(g.Start(), before + txs[..n], txs[n]);
  }

  /** Over any liquidation-free stretch of any run the share price does not fall, and nothing is lost. */
  lemma {:induction false} PriceMonotone(g: Genesis, before: seq<Tx>, txs: seq<Tx>)
    requires g.Valid() && LiquidationFree(txs)
    ensures PriceKept(Run(g, before).state, Run(g, before + txs).state)
    ensures Tally(Run(g, before + txs).log, LossOf) == Tally(Run(g, before).log, LossOf)
  {
    if txs == [] {
      assert before + txs == before;
      PriceFollowsAssets(Run(g, before).state.pool.totalAssets, Run(g, before).state.pool.totalAssets,
                         Run(g, before).state.pool.totalShares);
    } else {
      var n := |txs| - 1;
      PriceMonotone(g, before, txs[..n]);
      RunSnoc(g, before, txs);
      RunKeepsInv(g, before + txs[..n]);
      StepKeepsPrice(Run(g, before + txs[..n]), txs[n]);
      PriceKeptTransitive(Run(g, before).state, Run(g, before + txs[..n]).state, Run(g, before + txs).state);
    }
  }

  /** Rounding never pays out: between two moments with the same share count and no liquidation
      between them, LPs together took out at most what they put in plus the LP fees earned. */
  lemma NoProfitFromRounding(g: Genesis, before: seq<Tx>, txs: seq<Tx>)
    requires g.Valid() && LiquidationFree(txs)
    requires Run(g, before).state.pool.totalShares == Run(g, before + txs).state.pool.totalShares
    ensures
      var log, log' := Run(g, before).log, Run(g, before + txs).log;
      Tally(log', WithdrawalOf) - Tally(log, WithdrawalOf)
      <= (Tally(log', DepositOf) - Tally(log, DepositOf)) + (Tally(log', LpFeeOf) - Tally(log, LpFeeOf))
  {
    PriceMonotone(g, before, txs);
    var s, s' := Run(g, before).state, Run(g, before + txs).state;
    PriceFollowsAssets(s.pool.totalAssets, s'.pool.totalAssets, s.pool.totalShares);
    RunKeepsInv(g, before);
    RunKeepsInv(g, before + txs);
  }

  // ---- All claims together ----

  /** What redeeming `shares` would return, before any width check. */
  function ClaimOn(pool: Pool, shares: nat): nat {
    DivNonNegative(shares * (pool.totalAssets + VIRTUAL_ASSETS_OFFSET), pool.totalShares + VIRTUAL_SHARES_OFFSET);
    shares * (pool.totalAssets + VIRTUAL_ASSETS_OFFSET) / (pool.totalShares + VIRTUAL_SHARES_OFFSET)
  }

  lemma ClaimIsPreview(pool: Pool, shares: u64)
    ensures
      var preview := PreviewRedeem(shares, pool.totalAssets, pool.totalShares);
      && (preview.Ok? ==> preview.value == ClaimOn(pool, shares))
      && (pool.totalAssets + VIRTUAL_ASSETS_OFFSET <= U64_MAX && ClaimOn(pool, shares) <= U64_MAX ==> preview.Ok?)
  {
    if pool.totalAssets + VIRTUAL_ASSETS_OFFSET <= U64_MAX {
      MulMono(shares, U64_MAX, pool.totalAssets + VIRTUAL_ASSETS_OFFSET);
      MulMono(pool.totalAssets + VIRTUAL_ASSETS_OFFSET, U64_MAX, U64_MAX);
    }
  }

  function ClaimIn(pool: Pool): (Pubkey, u64) -> int {
    (k: Pubkey, v: u64) => ClaimOn(pool, v)
  }

  /** One holder more: the sum of two floors is bounded by the sum of the numerators. */
  lemma FloorsAdd(v: nat, others: int, rest: int, assets: nat, shares: int)
    requires 0 < shares && others * shares <= rest * assets
    ensures (v * assets / shares + others) * shares <= (v + rest) * assets
  {
    DivFloor(v * assets, shares);
    assert (v * assets / shares + others) * shares == (v * assets / shares) * shares + others * shares;
    assert (v + rest) * assets == v * assets + rest * assets;
  }

  /** Floors only lose: the holders' claims add up to at most the claim of all their shares. */
  lemma {:induction false} ClaimsAddUp(b: Balances, pool: Pool)
    ensures SumBy(b, ClaimIn(pool)) * (pool.totalShares + VIRTUAL_SHARES_OFFSET)
            <= SumBy(b, Amount) * (pool.totalAssets + VIRTUAL_ASSETS_OFFSET)
    decreases |b.Keys|
  {
    if b != map[] {
      var k := Pick(b);
      var rest := b - {k};
      assert rest.Keys == b.Keys - {k};
      ClaimsAddUp(rest, pool);
      FloorsAdd(b[k], SumBy(rest, ClaimIn(pool)), SumBy(rest, Amount),
                pool.totalAssets + VIRTUAL_ASSETS_OFFSET, pool.totalShares + VIRTUAL_SHARES_OFFSET);
    }
  }

  /** The arithmetic of the cover: `claims` of at most `n` shares, priced with the virtual offsets. */
  lemma CoverArithmetic(claims: int, held: int, a: nat, n: nat)
    requires held <= n
    requires claims * (n + VIRTUAL_SHARES_OFFSET) <= held * (a + VIRTUAL_ASSETS_OFFSET)
    ensures claims < a + VIRTUAL_ASSETS_OFFSET
    ensures n * VIRTUAL_ASSETS_OFFSET <= a * VIRTUAL_SHARES_OFFSET ==> claims <= a
  {
    var assets, shares := a + VIRTUAL_ASSETS_OFFSET, n + VIRTUAL_SHARES_OFFSET;
    MulMono(held, n, assets);
    assert assets * shares == n * assets + VIRTUAL_SHARES_OFFSET * assets;
    MulCancelStrict(claims, assets, shares);
    if n * VIRTUAL_ASSETS_OFFSET <= a * VIRTUAL_SHARES_OFFSET {
      assert n * assets == n * a + n * VIRTUAL_ASSETS_OFFSET;
      assert a * shares == a * n + a * VIRTUAL_SHARES_OFFSET;
      MulCancel(claims, a, shares);
    }
  }

  /** The program's own answer to each holder is its claim; it has one for every holder
      as long as the offset assets fit a u64. */
  ghost predicate ClaimsPreviewed(s: State) {
    forall k :: k in s.tokens.shares ==>
      var preview := PreviewRedeem(s.tokens.shares[k], s.pool.totalAssets, s.pool.totalShares);
      && (preview.Ok? ==> preview.value == ClaimIn(s.pool)(k, s.tokens.shares[k]))
      && (s.pool.totalAssets + VIRTUAL_ASSETS_OFFSET <= U64_MAX ==> preview.Ok?)
  }

  /** In every run, redeeming all shares at the current price claims less than the booked assets
      plus the virtual million; with no liquidation so far, at most the booked assets. */
  lemma ClaimsCovered(g: Genesis, txs: seq<Tx>)
    requires g.Valid()
    ensures
      var s := Run(g, txs).state;
      var claims := SumBy(s.tokens.shares, ClaimIn(s.pool));
      && ClaimsPreviewed(s)
      && claims < s.pool.totalAssets + VIRTUAL_ASSETS_OFFSET
      && (LiquidationFree(txs) ==> claims <= s.pool.totalAssets)
  {
    hide Decide, ClaimsPreviewed, SumBy;
    RunKeepsInv(g, txs);
    if LiquidationFree(txs) {
      PriceMonotone(g, [], txs);
      assert [] + txs == txs;
      assert PriceAtMost(0, 0, Run(g, txs).state.pool.totalAssets, Run(g, txs).state.pool.totalShares);
    }
    ClaimsCoveredAt(Run(g, txs).state);
    ClaimsArePreviewed(Run(g, txs).state);
  }

  lemma ClaimsArePreviewed(s: State)
    requires SharesBacked(s)
    ensures ClaimsPreviewed(s)
  {
    ClaimsCoveredAt(s);
    forall k | k in s.tokens.shares
      ensures ClaimIn(s.pool)(k, s.tokens.shares[k]) < s.pool.totalAssets + VIRTUAL_ASSETS_OFFSET
    {
      SumAtLeast(s.tokens.shares, ClaimIn(s.pool), k);
    }
    forall k | k in s.tokens.shares {
      ClaimIsPreview(s.pool, s.tokens.shares[k]);
    }
    hide PreviewRedeem, ClaimOn;
  }

  lemma ClaimsCoveredAt(s: State)
    requires SharesBacked(s)
    ensures SumBy(s.tokens.shares, ClaimIn(s.pool)) < s.pool.totalAssets + VIRTUAL_ASSETS_OFFSET
    ensures PriceAtMost(0, 0, s.pool.totalAssets, s.pool.totalShares) ==>
              SumBy(s.tokens.shares, ClaimIn(s.pool)) <= s.pool.totalAssets
  {
    ClaimsAddUp(s.tokens.shares, s.pool);
    CoverArithmetic(SumBy(s.tokens.shares, ClaimIn(s.pool)), SumBy(s.tokens.shares, Amount),
                    s.pool.totalAssets, s.pool.totalShares);
  }
}
