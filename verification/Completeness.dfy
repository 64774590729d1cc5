/** The declarative guards are exact: an event is permitted, and fits the machine widths the
    programs compute in, if and only if some transaction makes the programs produce it. */
module Completeness {
  import opened Numbers
  import opened Pricing
  import opened Attestation
  import opened Introspection
  import opened Ledger
  import opened Handlers

  /** What the guards leave to the widths of intermediate values and to the shape of keys. */
  ghost predicate Fits(s: State, now: i64, e: Event) {
    match e
    case Deposited(_, amount, _) => amount * (s.pool.totalShares + VIRTUAL_SHARES_OFFSET) <= U128_MAX
    case Withdrew(_, burned, _) => burned * (s.pool.totalAssets + VIRTUAL_ASSETS_OFFSET) <= U128_MAX
    case AdvanceIssued(_, a, _) => |a.attestor| == 32
    case AdvanceSettled(key, _, _, _, agentNet, _) =>
      && key in s.advances
      && I64_MIN <= now - s.advances[key].expiresAt
      && TotalOwed(s.advances[key], now) + agentNet <= U64_MAX
    case _ => true
  }

  // ---- Transactions that carry what an instruction looks for ----

  function SquadsEnv(now: i64, vault: Pubkey): Env {
    Env(now, [RawIx(SquadsV4, [AccountMeta(vault, true)], [])], 0)
  }

  function MemoEnv(now: i64, nonce: Bytes): Env {
    Env(now, [RawIx(Memo, [], nonce)], 0)
  }

  function PlainEnv(now: i64): Env { Env(now, [], 0) }

  lemma SquadsFound(now: i64, vault: Pubkey)
    ensures HasSquads(SquadsEnv(now, vault).ixs, vault)
  {
    var ix := SquadsEnv(now, vault).ixs[0];
    assert ix.accounts[0].pubkey == vault && ix.accounts[0].isWritable;
    assert IsSquadsFor(ix, vault);
  }

  lemma MemoFound(now: i64, nonce: Bytes)
    ensures HasMemo(MemoEnv(now, nonce).ixs, nonce)
  {
    assert IsMemo(MemoEnv(now, nonce).ixs[0], nonce);
  }

  /** The credit, encoded as the bridge does, in a verify instruction just before the request. */
  function CreditEnv(now: i64, signer: Pubkey, c: Credit): Env
    requires |signer| == 32 && |Layout(c)| == TOTAL_LEN
  {
    Env(now, [VerifyIx(0, signer, Layout(c), seq(64, _ => 0))], 1)
  }

  // ---- The handlers accept what is permitted ----

  lemma CreditIsParsed(now: i64, signer: Pubkey, c: Credit)
    requires WellFormed(c) && |signer| == 32
    ensures |Layout(c)| == TOTAL_LEN
    ensures
      var env := CreditEnv(now, signer, c);
      VerifyPrevEd25519(env.ixs, env.cur) == Signed(signer, Layout(c))
  {
    DecodeOfLayout(c);
    var ixs := CreditEnv(now, signer, c).ixs;
    assert [] + ixs + [] == ixs;
    PackedIsParsed([], signer, Layout(c), seq(64, _ => 0), []);
  }

  lemma CreditIsAccepted(s: State, now: i64, key: Key, signer: Pubkey, c: Credit)
    requires CreditAccepted(s, now, key, signer, c) && |signer| == 32
    ensures |Layout(c)| == TOTAL_LEN
    ensures AcceptCredit(s, CreditEnv(now, signer, c), key.agent, c.nonce, signer) == Ok(c)
  {
    hide VerifyPrevEd25519, Decode, VersionOf, Layout, VerifyIx;
    CreditIsParsed(now, signer, c);
    DecodeOfLayout(c);
  }

  lemma IssueIsAccepted(s: State, now: i64, key: Key, a: Advance, c: Credit)
    requires IssuePermitted(s, now, key, a, c) && |a.attestor| == 32
    ensures |Layout(c)| == TOTAL_LEN
    ensures DecideRequest(s, CreditEnv(now, a.attestor, c), key.agent, key.receivable, a.principal, c.nonce, a.attestor)
            == Ok(AdvanceIssued(key, a, c))
  {
    hide AcceptCredit, PriceAdvance, ChargeLedger, TermsFromCurve, Layout, VerifyIx;
    CreditIsAccepted(s, now, key, a.attestor, c);
    TermsArePriced(s, now, key, a, c);
    LedgerIsCharged(s, now, key, a, c);
  }

  lemma TermsArePriced(s: State, now: i64, key: Key, a: Advance, c: Credit)
    requires IssuePermitted(s, now, key, a, c)
    ensures PriceAdvance(s, now, a.principal, a.attestor, c) == Ok(a)
  {
    hide FeeAmount, LatePenaltyPerDay, UtilizationBps, CreditAccepted, Rolled;
  }

  lemma LedgerIsCharged(s: State, now: i64, key: Key, a: Advance, c: Credit)
    requires IssuePermitted(s, now, key, a, c)
    ensures ChargeLedger(s, now, key.agent, a.principal, c).Ok?
  {
    hide CreditAccepted, TermsFromCurve, Rolled;
  }

  lemma SettleIsAccepted(s: State, now: i64, e: Event)
    requires e.AdvanceSettled? && Permitted(s, now, e) && Fits(s, now, e)
    ensures DecideSettle(s, MemoEnv(now, s.consumed[e.key].nonce), e.key.agent, e.key,
                         TotalOwed(s.advances[e.key], now) + e.agentNet) == Ok(e)
  {
    hide HasMemo, Waterfall, LateDays, FeeDue, IsFloor;
    var a := s.advances[e.key];
    MemoFound(now, s.consumed[e.key].nonce);
    SplitIsPaid(a, now, e.lpFee, e.protocolCut, e.agentNet);
    assert Payable(s, e.key.agent, a.principal, Split(e.lpFee, e.protocolCut, e.agentNet, e.lateDays)).Pass?;
  }

  lemma SplitIsPaid(a: Advance, now: i64, lpFee: u64, cut: u64, agentNet: u64)
    requires lpFee + cut == FeeDue(a, now) && IsFloor(cut, FeeDue(a, now) * PROTOCOL_FEE_BPS, BPS_DENOMINATOR)
    requires I64_MIN <= now - a.expiresAt && TotalOwed(a, now) + agentNet <= U64_MAX && SettleOpen(a, now)
    ensures Waterfall(a, now, TotalOwed(a, now) + agentNet)
            == Ok(Split(lpFee, cut, agentNet, LateDays(a.expiresAt, now)))
  {
    DivUnique(FeeDue(a, now) * PROTOCOL_FEE_BPS, BPS_DENOMINATOR, cut);
    hide LateDays, IsFloor;
  }

  lemma DepositIsAccepted(s: State, lp: Pubkey, amount: u64, minted: u64)
    requires DepositPermitted(s, lp, amount, minted)
    requires amount * (s.pool.totalShares + VIRTUAL_SHARES_OFFSET) <= U128_MAX
    ensures DecideDeposit(s, lp, amount) == Ok(Deposited(lp, amount, minted))
  {
    DivUnique(amount * (s.pool.totalShares + VIRTUAL_SHARES_OFFSET),
              s.pool.totalAssets + VIRTUAL_ASSETS_OFFSET, minted);
    MulMono(0, amount, s.pool.totalShares + VIRTUAL_SHARES_OFFSET);
    assert PreviewDeposit(amount, s.pool.totalAssets, s.pool.totalShares) == Ok(minted);
  }

  lemma WithdrawIsAccepted(s: State, lp: Pubkey, burned: u64, returned: u64)
    requires WithdrawPermitted(s, lp, burned, returned)
    requires burned * (s.pool.totalAssets + VIRTUAL_ASSETS_OFFSET) <= U128_MAX
    ensures DecideWithdraw(s, lp, burned) == Ok(Withdrew(lp, burned, returned))
  {
    DivUnique(burned * (s.pool.totalAssets + VIRTUAL_ASSETS_OFFSET),
              s.pool.totalShares + VIRTUAL_SHARES_OFFSET, returned);
    MulMono(0, burned, s.pool.totalAssets + VIRTUAL_ASSETS_OFFSET);
    assert PreviewRedeem(burned, s.pool.totalAssets, s.pool.totalShares) == Ok(returned);
  }

  /** A transaction for each permitted event that fits. */
  ghost function TxFor(s: State, now: i64, e: Event): (tx: Tx)
    requires Permitted(s, now, e) && Fits(s, now, e)
    ensures tx.env.now == now
  {
    match e
    case Deposited(lp, amount, _) => Tx(PlainEnv(now), Deposit(lp, amount))
    case Withdrew(lp, burned, _) => Tx(PlainEnv(now), Withdraw(lp, burned))
    case AdvanceIssued(key, a, c) =>
      CreditIsAccepted(s, now, key, a.attestor, c);
      Tx(CreditEnv(now, a.attestor, c), RequestAdvance(key.agent, key.receivable, a.principal, c.nonce, a.attestor))
    case AdvanceSettled(key, _, _, _, agentNet, _) =>
      Tx(MemoEnv(now, s.consumed[key].nonce),
         ClaimAndSettle(key.agent, key, TotalOwed(s.advances[key], now) + agentNet))
    case AdvanceLiquidated(key, _) => Tx(PlainEnv(now), Liquidate(key))
    case ParamsProposed(p) => Tx(SquadsEnv(now, s.config.governance), ProposeParams(p.params, p.executeAfter))
    case ParamsExecuted(_) => Tx(PlainEnv(now), ExecuteParams)
    case FeesSkimmed(amount) => Tx(SquadsEnv(now, s.config.governance), SkimProtocolFees(amount))
    case SignerAdded(signer, kind) => Tx(SquadsEnv(now, s.registry.governance), AddAllowedSigner(signer, kind))
    case SignerRemoved(signer) => Tx(SquadsEnv(now, s.registry.governance), RemoveAllowedSigner(signer))
    case GovernanceSet(governance) => Tx(SquadsEnv(now, s.registry.governance), SetGovernance(governance))
    case VaultDonated(from, amount) => Tx(PlainEnv(now), DonateToVault(from, amount))
    case TreasuryReceived(from, amount) => Tx(PlainEnv(now), SendToTreasury(from, amount))
    case TreasurySpent(to, amount) => Tx(PlainEnv(now), SpendTreasury(to, amount))
    case UsdcMoved(from, to, amount) => Tx(PlainEnv(now), TransferUsdc(from, to, amount))
    case SharesMoved(from, to, amount) => Tx(PlainEnv(now), TransferShares(from, to, amount))
    case SharesBurned(from, amount) => Tx(PlainEnv(now), BurnShares(from, amount))
  }

  /** The events an LP, an agent or a cranker brings about. */
  predicate LendingEvent(e: Event) {
    e.Deposited? || e.Withdrew? || e.AdvanceIssued? || e.AdvanceSettled? || e.AdvanceLiquidated?
  }

  predicate GovernanceEvent(e: Event) {
    || e.ParamsProposed? || e.ParamsExecuted? || e.FeesSkimmed?
    || e.SignerAdded? || e.SignerRemoved? || e.GovernanceSet?
  }

  lemma LendingIsDecided(s: State, now: i64, e: Event)
    requires Permitted(s, now, e) && Fits(s, now, e) && LendingEvent(e)
    ensures Decide(s, TxFor(s, now, e)) == Ok(e)
  {
    hide DecideDeposit, DecideWithdraw, DecideRequest, DecideSettle, TotalOwed, Layout, IssuePermitted, VerifyIx;
    match e
    case Deposited(lp, amount, minted) => DepositIsAccepted(s, lp, amount, minted);
    case Withdrew(lp, burned, returned) => WithdrawIsAccepted(s, lp, burned, returned);
    case AdvanceIssued(key, a, c) => IssueIsAccepted(s, now, key, a, c);
    case AdvanceSettled(_, _, _, _, _, _) => SettleIsAccepted(s, now, e);
    case AdvanceLiquidated(_, _) =>
  }

  lemma GovernanceIsDecided(s: State, now: i64, e: Event)
    requires Permitted(s, now, e) && Fits(s, now, e)
    requires GovernanceEvent(e)
    ensures Decide(s, TxFor(s, now, e)) == Ok(e)
  {
    hide HasSquads, DecideDeposit, DecideWithdraw, DecideRequest, DecideSettle, DecideLiquidate, DecideDonate;
    hide DecideSendToTreasury, DecideSpendTreasury, DecideTransferUsdc, DecideTransferShares, DecideBurn;
    hide DepositPermitted, WithdrawPermitted, IssuePermitted, SettlePermitted, LiquidatePermitted;
    SquadsFound(now, s.config.governance);
    SquadsFound(now, s.registry.governance);
  }

  lemma PermittedIsDecided(s: State, now: i64, e: Event)
    requires Permitted(s, now, e) && Fits(s, now, e)
    ensures Decide(s, TxFor(s, now, e)) == Ok(e)
  {
    if LendingEvent(e) {
      LendingIsDecided(s, now, e);
    } else if GovernanceEvent(e) {
      GovernanceIsDecided(s, now, e);
    } else {
      TokenMoveIsDecided(s, now, e);
    }
  }

  lemma TokenMoveIsDecided(s: State, now: i64, e: Event)
    requires Permitted(s, now, e) && Fits(s, now, e)
    requires !LendingEvent(e) && !GovernanceEvent(e)
    ensures Decide(s, TxFor(s, now, e)) == Ok(e)
  {
    hide DecideDeposit, DecideWithdraw, DecideRequest, DecideSettle, DecideLiquidate, DecidePropose, DecideExecute;
    hide DecideSkim, DecideAddSigner, DecideRemoveSigner, DecideSetGovernance, BalanceOf;
    hide DepositPermitted, WithdrawPermitted, IssuePermitted, SettlePermitted, LiquidatePermitted;
  }

  /** What the handlers accept fits. */
  lemma DecidedFits(s: State, tx: Tx)
    requires Decide(s, tx).Ok?
    ensures Fits(s, tx.env.now, Decide(s, tx).value)
  {
    hide DecideDeposit, DecideWithdraw, DecideRequest, DecideSettle, DecideLiquidate;
    hide DepositPermitted, WithdrawPermitted, IssuePermitted, LiquidatePermitted, HasMemo, HasSquads, IsFloor;
  }

  /** The exact meaning of the guards, event by event. */
  lemma DecidedIffPermitted(s: State, now: i64, e: Event)
    ensures (exists tx: Tx :: tx.env.now == now && Decide(s, tx) == Ok(e)) <==> Permitted(s, now, e) && Fits(s, now, e)
  {
    hide Decide, Permitted, Fits;
    if tx: Tx :| tx.env.now == now && Decide(s, tx) == Ok(e) {
      DecidedFits(s, tx);
    }
    if Permitted(s, now, e) && Fits(s, now, e) {
      PermittedIsDecided(s, now, e);
      assert TxFor(s, now, e).env.now == now;
    }
  }
}
