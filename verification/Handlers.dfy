/** The instruction handlers as functions: which event an instruction leads to, or which
    error it stops with.  Checks come in the order the programs make them, Anchor's
    account checks first. */
module Handlers {
  import opened Numbers
  import opened Pricing
  import opened Attestation
  import opened Introspection
  import opened Ledger

  /** What an instruction sees of its surroundings: the clock, the transaction's
      instructions, and its own position among them. */
  datatype Env = Env(now: i64, ixs: seq<RawIx>, cur: nat)

  datatype Call =
    | Deposit(lp: Pubkey, amount: u64)
    | Withdraw(lp: Pubkey, shares: u64)
    | RequestAdvance(agent: Pubkey, receivable: Bytes, amount: u64, nonce: Bytes, signer: Pubkey)
    | ClaimAndSettle(agent: Pubkey, key: Key, payment: u64)
    | Liquidate(key: Key)
    | ProposeParams(params: Params, executeAfter: i64)
    | ExecuteParams
    | SkimProtocolFees(amount: u64)
    | AddAllowedSigner(signer: Pubkey, kind: u16)
    | RemoveAllowedSigner(signer: Pubkey)
    | SetGovernance(governance: Pubkey)
    | DonateToVault(from: Pubkey, amount: u64)
    | SendToTreasury(from: Pubkey, amount: u64)
    | SpendTreasury(to: Pubkey, amount: u64)
    | TransferUsdc(from: Pubkey, to: Pubkey, amount: u64)
    | TransferShares(from: Pubkey, to: Pubkey, amount: u64)
    | BurnShares(from: Pubkey, amount: u64)

  datatype Tx = Tx(env: Env, call: Call)

  /** `init_pool`: accepted exactly when its four guards hold, the first that fails naming the
      error; the pool starts empty, with the given parameters in force and none pending. */
  function InitPool(config: Config, params: Params): (r: Result<Pool>)
    ensures r.Ok? <==>
            && params.maxAdvancePctBps <= 10_000 && 0 <= config.timelock
            && config.chainId in {1, 2} && params.curve.Valid()
    ensures r.Ok? ==>
              && r.value.totalAssets == r.value.totalShares == r.value.deployed == r.value.accruedFees == 0
              && r.value.params == params && r.value.pending == None
    ensures r == Err(AdvanceExceedsCap) <==> params.maxAdvancePctBps > 10_000
    ensures r == Err(MathOverflow) <==> params.maxAdvancePctBps <= 10_000 && config.timelock < 0
    ensures r == Err(InvalidChainId) <==>
            && params.maxAdvancePctBps <= 10_000 && 0 <= config.timelock
            && config.chainId !in {1, 2}
    ensures r.Err? ==> r.error in {AdvanceExceedsCap, MathOverflow, InvalidChainId, InvalidFeeCurve}
  {
    if params.maxAdvancePctBps > BPS_DENOMINATOR then Err(AdvanceExceedsCap) else
    :- Require(config.timelock >= 0, MathOverflow);
    :- Require(config.chainId == CHAIN_ID_MAINNET || config.chainId == CHAIN_ID_DEVNET, InvalidChainId);
    :- Require(params.curve.Valid(), InvalidFeeCurve);
    Ok(Pool(0, 0, 0, 0, params, None))
  }

  /** `init_registry`: any governance but the all-zero key, and no signer listed. */
  function InitRegistry(governance: Pubkey): (r: Result<Registry>)
    ensures r.Ok? <==> governance != seq(32, _ => 0)
    ensures r.Ok? ==> r.value.governance == governance && r.value.allowed == map[]
  {
    if governance == DefaultKey() then Err(GovernanceRequired) else
    Ok(Registry(governance, map[]))
  }

  function DecideDeposit(s: State, lp: Pubkey, amount: u64): (r: Result<Event>)
    ensures r.Ok? ==>
              && r.value.Deposited? && r.value == Deposited(lp, amount, r.value.minted)
              && DepositPermitted(s, lp, amount, r.value.minted)
              && amount * (s.pool.totalShares + VIRTUAL_SHARES_OFFSET) <= U128_MAX
  {
    if amount == 0 then Err(MathOverflow) else
    var minted :- PreviewDeposit(amount, s.pool.totalAssets, s.pool.totalShares);
    :- Require(minted > 0, MathOverflow);
    :- Require(amount <= BalanceOf(s.tokens.wallets, lp), TokenInsufficientFunds);
    :- Require(s.tokens.vault + amount <= U64_MAX, TokenOverflow);
    :- Require(BalanceOf(s.tokens.shares, lp) + minted <= U64_MAX, TokenOverflow);
    :- Require(s.pool.totalAssets + amount <= U64_MAX, MathOverflow);
    :- Require(s.pool.totalShares + minted <= U64_MAX, MathOverflow);
    Ok(Deposited(lp, amount, minted))
  }

  function DecideWithdraw(s: State, lp: Pubkey, shares: u64): (r: Result<Event>)
    ensures r.Ok? ==>
              && r.value.Withdrew? && r.value == Withdrew(lp, shares, r.value.returned)
              && WithdrawPermitted(s, lp, shares, r.value.returned)
              && shares * (s.pool.totalAssets + VIRTUAL_ASSETS_OFFSET) <= U128_MAX
  {
    if shares == 0 then Err(MathOverflow) else
    var returned :- PreviewRedeem(shares, s.pool.totalAssets, s.pool.totalShares);
    :- Require(returned > 0, MathOverflow);
    :- Require(returned <= s.tokens.vault, InsufficientIdleLiquidity);
    :- Require(shares <= BalanceOf(s.tokens.shares, lp), TokenInsufficientFunds);
    :- Require(BalanceOf(s.tokens.wallets, lp) + returned <= U64_MAX, TokenOverflow);
    :- Require(returned <= s.pool.totalAssets, MathOverflow);
    :- Require(shares <= s.pool.totalShares, MathOverflow);
    Ok(Withdrew(lp, shares, returned))
  }

  /** Steps (1) to (3) of the handler: the attestation in the previous instruction. */
  function AcceptCredit(s: State, env: Env, agent: Pubkey, nonce: Bytes, signer: Pubkey): (r: Result<Credit>)
    requires signer in s.registry.allowed
    ensures r.Ok? ==>
              && CreditAccepted(s, env.now, Key(agent, []), signer, r.value)
              && r.value.nonce == nonce && |signer| == 32
              && VerifyPrevEd25519(env.ixs, env.cur).Signed?
              && VerifyPrevEd25519(env.ixs, env.cur).pubkey == signer
              && |VerifyPrevEd25519(env.ixs, env.cur).message| == TOTAL_LEN
              && VersionOf(VerifyPrevEd25519(env.ixs, env.cur).message) == VERSION
              && r.value == Decode(VerifyPrevEd25519(env.ixs, env.cur).message)
  {
    match VerifyPrevEd25519(env.ixs, env.cur)
    case Rejected(e) => Err(if e == Ed25519OffsetMismatch then Ed25519MessageMismatch else Ed25519Missing)
    case Signed(pubkey, message) =>
      :- Require(|message| == TOTAL_LEN, Ed25519MessageMismatch);
      :- Require(pubkey == signer, Ed25519SignerUnknown);
      :- Require(s.registry.allowed[signer] == CREDIT_BRIDGE, Ed25519SignerUnknown);
      var c := Decode(message);
      :- Require(c.agent == agent, Ed25519MessageMismatch);
      :- Require(c.pool == s.config.poolKey, Ed25519MessageMismatch);
      :- Require(VersionOf(message) == VERSION, Ed25519MessageMismatch);
      :- Require(c.nonce == nonce, Ed25519MessageMismatch);
      :- Require(c.chainId == s.config.chainId, InvalidChainId);
      :- Require(c.attestedAt <= env.now, ReceivableStale);
      var age :- ToI64(env.now - c.attestedAt, ArithmeticPanic);
      :- Require(age <= MAX_ATTESTATION_AGE_SECONDS, ReceivableStale);
      :- Require(c.expiresAt > env.now, ReceivableExpired);
      Ok(c)
  }

  /** Steps (4) and (4b): roll the agent's window, charge the amount to it, and underwrite it. */
  function ChargeLedger(s: State, now: i64, agent: Pubkey, amount: u64, c: Credit): (r: Result<Issuance>)
    requires MIN_ADVANCE_ATOMS <= amount
    ensures r.Ok? ==>
              var l := Rolled(s.issuance, agent, now);
              && l.issuedInWindow + amount <= U64_MAX
              && (s.pool.params.agentWindowCap > 0 ==> l.issuedInWindow + amount <= s.pool.params.agentWindowCap)
              && c.outstanding + l.livePrincipal + amount <= c.creditLimit
              && amount <= s.pool.params.maxAdvanceAbs
              && r.value == l.(issuedInWindow := l.issuedInWindow + amount, livePrincipal := l.livePrincipal + amount)
  {
    var l := Rolled(s.issuance, agent, now);
    var issued :- ToU64(l.issuedInWindow + amount, MathOverflow);
    :- Require(s.pool.params.agentWindowCap > 0 ==> issued <= s.pool.params.agentWindowCap, AgentWindowCapExceeded);
    var combined :- ToU64(c.outstanding + l.livePrincipal, MathOverflow);
    :- Require(amount <= Max(c.creditLimit - combined, 0), AdvanceExceedsCredit);
    :- Require(amount <= s.pool.params.maxAdvanceAbs, AdvanceExceedsCap);
    Ok(l.(issuedInWindow := issued, livePrincipal := l.livePrincipal + amount))
  }

  /** Step (5): the fee and the penalty the pool's curve gives. */
  function PriceAdvance(s: State, now: i64, amount: u64, signer: Pubkey, c: Credit): (r: Result<Advance>)
    ensures r.Ok? ==> TermsFromCurve(s, now, r.value, c) && r.value.principal == amount && r.value.attestor == signer
  {
    var duration: u64 := Max(SaturatingSubI64(c.expiresAt, now), 0);
    var fee :- FeeAmount(amount, duration, UtilizationBps(s.pool.totalAssets, s.pool.deployed), 0, s.pool.params.curve);
    var penalty :- LatePenaltyPerDay(amount, s.pool.params.curve);
    Ok(Advance(amount, fee, penalty, now, c.expiresAt, signer))
  }

  /** Steps (6) and (8): the vault must pay the amount out, and the pool must stay within its assets. */
  function Disbursable(s: State, agent: Pubkey, amount: u64): (r: Outcome)
    ensures r.Pass? ==>
              && amount <= s.tokens.vault && BalanceOf(s.tokens.wallets, agent) + amount <= U64_MAX
              && s.pool.deployed + amount <= s.pool.totalAssets
  {
    if amount > s.tokens.vault then Fail(TokenInsufficientFunds)
    else if BalanceOf(s.tokens.wallets, agent) + amount > U64_MAX then Fail(TokenOverflow)
    else if s.pool.deployed + amount > U64_MAX then Fail(MathOverflow)
    else if s.pool.deployed + amount > s.pool.totalAssets then Fail(InsufficientIdleLiquidity)
    else Pass
  }

  /** Everything `request_advance` decides before money moves: the accounts, then steps (1) to (5). */
  function Underwrite(s: State, env: Env, agent: Pubkey, receivable: Bytes, amount: u64, nonce: Bytes,
                      signer: Pubkey): (r: Result<Event>)
    ensures r.Ok? ==>
              && r.value.AdvanceIssued? && r.value.key == Key(agent, receivable)
              && r.value.key !in s.advances && r.value.key !in s.consumed && MIN_ADVANCE_ATOMS <= amount
              && signer in s.registry.allowed && AcceptCredit(s, env, agent, nonce, signer) == Ok(r.value.credit)
              && ChargeLedger(s, env.now, agent, amount, r.value.credit).Ok?
              && PriceAdvance(s, env.now, amount, signer, r.value.credit) == Ok(r.value.advance)
  {
    var key := Key(agent, receivable);
    :- Require(signer in s.registry.allowed, AccountNotInitialized);
    :- Require(key !in s.advances && key !in s.consumed, AccountInUse);
    :- Require(amount >= MIN_ADVANCE_ATOMS, AdvanceExceedsCap);
    var c :- AcceptCredit(s, env, agent, nonce, signer);
    var l :- ChargeLedger(s, env.now, agent, amount, c);
    var a :- PriceAdvance(s, env.now, amount, signer, c);
    Ok(AdvanceIssued(key, a, c))
  }

  function DecideRequest(s: State, env: Env, agent: Pubkey, receivable: Bytes, amount: u64, nonce: Bytes,
                         signer: Pubkey): (r: Result<Event>)
    ensures r.Ok? ==>
              && r.value.AdvanceIssued? && r.value.key == Key(agent, receivable)
              && r.value.advance.principal == amount && r.value.advance.attestor == signer && |signer| == 32
              && IssuePermitted(s, env.now, r.value.key, r.value.advance, r.value.credit)
  {
    var e :- Underwrite(s, env, agent, receivable, amount, nonce, signer);
    :- Disbursable(s, agent, amount);
    Ok(e)
  }

  /** The three-way split of a payment. */
  datatype Split = Split(lpFee: u64, protocolCut: u64, agentNet: u64, lateDays: nat)

  function Waterfall(a: Advance, now: i64, payment: u64): (r: Result<Split>)
    ensures r.Ok? ==>
              && r.value.lateDays == LateDays(a.expiresAt, now)
              && r.value.lpFee + r.value.protocolCut == FeeDue(a, now)
              && IsFloor(r.value.protocolCut, FeeDue(a, now) * PROTOCOL_FEE_BPS, BPS_DENOMINATOR)
              && r.value.protocolCut + (a.principal + r.value.lpFee) + r.value.agentNet == payment
              && a.principal + r.value.lpFee <= U64_MAX
              && I64_MIN <= now - a.expiresAt
  {
    var lateness :- ToI64(now - a.expiresAt, ArithmeticPanic);
    var days := LateDays(a.expiresAt, now);
    var penalty :- ToU64(days * a.latePenaltyPerDay, MathOverflow);
    var owed :- ToU64(a.principal + a.feeOwed + penalty, MathOverflow);
    :- Require(payment >= owed, WaterfallSumMismatch);
    var totalFee: u64 := a.feeOwed + penalty;
    DivFloor(totalFee * PROTOCOL_FEE_BPS, BPS_DENOMINATOR);
    var cut: u64 := totalFee * PROTOCOL_FEE_BPS / BPS_DENOMINATOR;
    Ok(Split(totalFee - cut, cut, payment - a.principal - totalFee, days))
  }

  /** The accounts, the settlement window and the memo. */
  function SettleGuards(s: State, env: Env, agent: Pubkey, key: Key): (r: Result<Advance>)
    ensures r.Ok? ==>
              && key in s.advances && agent == key.agent && key in s.consumed && agent in s.issuance
              && r.value == s.advances[key] && SettleOpen(r.value, env.now)
              && HasMemo(env.ixs, s.consumed[key].nonce)
  {
    if key !in s.advances then Err(AccountNotInitialized) else
    :- Require(agent == key.agent, InvalidPayer);
    :- Require(key in s.consumed && key.agent in s.issuance, AccountNotInitialized);
    var a := s.advances[key];
    var end :- ToI64(a.expiresAt + LIQUIDATION_GRACE_SECONDS, MathOverflow);
    :- Require(env.now < end, NotSettleable);
    :- Require(HasMemo(env.ixs, s.consumed[key].nonce), MemoNonceMismatch);
    Ok(a)
  }

  /** Both transfers and all four counter updates must go through. */
  function Payable(s: State, agent: Pubkey, principal: u64, split: Split): (r: Outcome)
    requires agent in s.issuance
    ensures r.Pass? ==>
              && split.protocolCut + principal + split.lpFee <= BalanceOf(s.tokens.wallets, agent)
              && s.tokens.treasury + split.protocolCut <= U64_MAX
              && s.tokens.vault + principal + split.lpFee <= U64_MAX
              && principal <= s.issuance[agent].livePrincipal && principal <= s.pool.deployed
              && s.pool.totalAssets + split.lpFee <= U64_MAX
              && s.pool.accruedFees + split.protocolCut <= U64_MAX
  {
    var wallet := BalanceOf(s.tokens.wallets, agent);
    if split.protocolCut > wallet then Fail(TokenInsufficientFunds)
    else if s.tokens.treasury + split.protocolCut > U64_MAX then Fail(TokenOverflow)
    else if principal + split.lpFee > wallet - split.protocolCut then Fail(TokenInsufficientFunds)
    else if s.tokens.vault + (principal + split.lpFee) > U64_MAX then Fail(TokenOverflow)
    else if principal > s.issuance[agent].livePrincipal then Fail(MathOverflow)
    else if principal > s.pool.deployed then Fail(MathOverflow)
    else if s.pool.totalAssets + split.lpFee > U64_MAX then Fail(MathOverflow)
    else if s.pool.accruedFees + split.protocolCut > U64_MAX then Fail(MathOverflow)
    else Pass
  }

  function DecideSettle(s: State, env: Env, agent: Pubkey, key: Key, payment: u64): (r: Result<Event>)
    ensures r.Ok? ==>
              && r.value.AdvanceSettled? && r.value.key == key && agent == key.agent
              && SettlePermitted(s, env.now, key, r.value.principal, r.value.lpFee, r.value.protocolCut,
                                 r.value.lateDays)
              && r.value.protocolCut + r.value.principal + r.value.lpFee + r.value.agentNet == payment
              && I64_MIN <= env.now - s.advances[key].expiresAt
              && HasMemo(env.ixs, s.consumed[key].nonce)
  {
    var a :- SettleGuards(s, env, agent, key);
    var split :- Waterfall(a, env.now, payment);
    :- Payable(s, agent, a.principal, split);
    Ok(AdvanceSettled(key, a.principal, split.lpFee, split.protocolCut, split.agentNet, split.lateDays))
  }

  function DecideLiquidate(s: State, now: i64, key: Key): (r: Result<Event>)
    ensures r.Ok? ==> r.value.AdvanceLiquidated? && r.value.key == key && LiquidatePermitted(s, now, key, r.value.loss)
  {
    if key !in s.advances || key !in s.consumed || key.agent !in s.issuance then Err(AccountNotInitialized) else
    :- Require(key !in s.tombstones, AccountInUse);
    var a := s.advances[key];
    var start :- ToI64(a.expiresAt + LIQUIDATION_GRACE_SECONDS, MathOverflow);
    :- Require(now >= start, NotLiquidatable);
    :- Require(a.principal <= s.issuance[key.agent].livePrincipal, MathOverflow);
    :- Require(a.principal <= s.pool.deployed, MathOverflow);
    :- Require(a.principal <= s.pool.totalAssets, MathOverflow);
    Ok(AdvanceLiquidated(key, a.principal))
  }

  function DecidePropose(s: State, env: Env, params: Params): (r: Result<Event>)
    ensures r.Ok? ==> Permitted(s, env.now, r.value)
  {
    if !HasSquads(env.ixs, s.config.governance) then Err(GovernanceRequired) else
    :- Require(params.curve.Valid(), InvalidFeeCurve);
    var after :- ToI64(env.now + s.config.timelock, MathOverflow);
    Ok(ParamsProposed(Pending(params, after)))
  }

  function DecideExecute(s: State, now: i64): (r: Result<Event>)
    ensures r.Ok? ==> Permitted(s, now, r.value)
  {
    if s.pool.pending.None? then Err(NoPendingParams) else
    :- Require(now >= s.pool.pending.value.executeAfter, PendingParamsNotReady);
    Ok(ParamsExecuted(s.pool.pending.value.params))
  }

  function DecideSkim(s: State, env: Env, amount: u64): (r: Result<Event>)
    ensures r.Ok? ==> Permitted(s, env.now, r.value)
  {
    if !HasSquads(env.ixs, s.config.governance) then Err(GovernanceRequired) else
    :- Require(amount > 0, MathOverflow);
    :- Require(amount <= s.pool.accruedFees, MathOverflow);
    :- Require(amount <= s.tokens.vault, TokenInsufficientFunds);
    :- Require(s.tokens.treasury + amount <= U64_MAX, TokenOverflow);
    Ok(FeesSkimmed(amount))
  }

  function DecideAddSigner(s: State, env: Env, signer: Pubkey, kind: u16): (r: Result<Event>)
    ensures r.Ok? ==> Permitted(s, env.now, r.value)
  {
    if signer in s.registry.allowed then Err(AccountInUse) else
    :- Require(HasSquads(env.ixs, s.registry.governance), GovernanceRequired);
    :- Require(kind == CREDIT_BRIDGE, InvalidKind);
    Ok(SignerAdded(signer, kind))
  }

  function DecideRemoveSigner(s: State, env: Env, signer: Pubkey): (r: Result<Event>)
    ensures r.Ok? ==> Permitted(s, env.now, r.value)
  {
    if signer !in s.registry.allowed then Err(AccountNotInitialized) else
    :- Require(HasSquads(env.ixs, s.registry.governance), GovernanceRequired);
    Ok(SignerRemoved(signer))
  }

  function DecideSetGovernance(s: State, env: Env, governance: Pubkey): (r: Result<Event>)
    ensures r.Ok? ==> Permitted(s, env.now, r.value)
  {
    if !HasSquads(env.ixs, s.registry.governance) then Err(GovernanceRequired) else
    :- Require(governance != DefaultKey(), GovernanceRequired);
    Ok(GovernanceSet(governance))
  }

  // Token movements that bypass the programs.

  function DecideDonate(s: State, now: i64, from: Pubkey, amount: u64): (r: Result<Event>)
    ensures r.Ok? ==> Permitted(s, now, r.value)
  {
    if amount > BalanceOf(s.tokens.wallets, from) then Err(TokenInsufficientFunds) else
    :- Require(s.tokens.vault + amount <= U64_MAX, TokenOverflow);
    Ok(VaultDonated(from, amount))
  }

  function DecideSendToTreasury(s: State, now: i64, from: Pubkey, amount: u64): (r: Result<Event>)
    ensures r.Ok? ==> Permitted(s, now, r.value)
  {
    if amount > BalanceOf(s.tokens.wallets, from) then Err(TokenInsufficientFunds) else
    :- Require(s.tokens.treasury + amount <= U64_MAX, TokenOverflow);
    Ok(TreasuryReceived(from, amount))
  }

  function DecideSpendTreasury(s: State, now: i64, to: Pubkey, amount: u64): (r: Result<Event>)
    ensures r.Ok? ==> Permitted(s, now, r.value)
  {
    if amount > s.tokens.treasury then Err(TokenInsufficientFunds) else
    :- Require(BalanceOf(s.tokens.wallets, to) + amount <= U64_MAX, TokenOverflow);
    Ok(TreasurySpent(to, amount))
  }

  function DecideTransferUsdc(s: State, now: i64, from: Pubkey, to: Pubkey, amount: u64): (r: Result<Event>)
    ensures r.Ok? ==> Permitted(s, now, r.value)
  {
    if from == to || amount > BalanceOf(s.tokens.wallets, from) then Err(TokenInsufficientFunds) else
    :- Require(BalanceOf(s.tokens.wallets, to) + amount <= U64_MAX, TokenOverflow);
    Ok(UsdcMoved(from, to, amount))
  }

  function DecideTransferShares(s: State, now: i64, from: Pubkey, to: Pubkey, amount: u64): (r: Result<Event>)
    ensures r.Ok? ==> Permitted(s, now, r.value)
  {
    if from == to || amount > BalanceOf(s.tokens.shares, from) then Err(TokenInsufficientFunds) else
    :- Require(BalanceOf(s.tokens.shares, to) + amount <= U64_MAX, TokenOverflow);
    Ok(SharesMoved(from, to, amount))
  }

  function DecideBurn(s: State, now: i64, from: Pubkey, amount: u64): (r: Result<Event>)
    ensures r.Ok? ==> Permitted(s, now, r.value)
  {
    if amount > BalanceOf(s.tokens.shares, from) then Err(TokenInsufficientFunds) else
    Ok(SharesBurned(from, amount))
  }

  /** One instruction against one state.  An accepted instruction always yields a permitted event. */
  function Decide(s: State, tx: Tx): (r: Result<Event>)
    ensures r.Ok? ==> Permitted(s, tx.env.now, r.value)
    ensures r.Ok? ==> (r.value.VaultDonated? <==> tx.call.DonateToVault?)
    ensures r.Ok? ==> (r.value.AdvanceLiquidated? <==> tx.call.Liquidate?)
  {
    match tx.call
    case Deposit(lp, amount) => DecideDeposit(s, lp, amount)
    case Withdraw(lp, shares) => DecideWithdraw(s, lp, shares)
    case RequestAdvance(agent, receivable, amount, nonce, signer) =>
      DecideRequest(s, tx.env, agent, receivable, amount, nonce, signer)
    case ClaimAndSettle(agent, key, payment) => DecideSettle(s, tx.env, agent, key, payment)
    case Liquidate(key) => DecideLiquidate(s, tx.env.now, key)
    case ProposeParams(params, _) => DecidePropose(s, tx.env, params)
    case ExecuteParams => DecideExecute(s, tx.env.now)
    case SkimProtocolFees(amount) => DecideSkim(s, tx.env, amount)
    case AddAllowedSigner(signer, kind) => DecideAddSigner(s, tx.env, signer, kind)
    case RemoveAllowedSigner(signer) => DecideRemoveSigner(s, tx.env, signer)
    case SetGovernance(governance) => DecideSetGovernance(s, tx.env, governance)
    case DonateToVault(from, amount) => DecideDonate(s, tx.env.now, from, amount)
    case SendToTreasury(from, amount) => DecideSendToTreasury(s, tx.env.now, from, amount)
    case SpendTreasury(to, amount) => DecideSpendTreasury(s, tx.env.now, to, amount)
    case TransferUsdc(from, to, amount) => DecideTransferUsdc(s, tx.env.now, from, to, amount)
    case TransferShares(from, to, amount) => DecideTransferShares(s, tx.env.now, from, to, amount)
    case BurnShares(from, amount) => DecideBurn(s, tx.env.now, from, amount)
  }
}
