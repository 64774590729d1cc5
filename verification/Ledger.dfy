/** The escrow's accounts as one value, the events that change it, when each event may
    happen (`Permitted`) and what it does (`Evolve`).

    `Permitted` is the declarative reading of the instruction guards; the instruction
    handlers themselves, with their order of checks and error codes, are in `Handlers`. */
module Ledger {
  import opened Numbers
  import opened Pricing
  import opened Attestation

  const PROTOCOL_FEE_BPS := 1_500
  const LIQUIDATION_GRACE_SECONDS := 14 * 24 * 60 * 60
  const MAX_LATE_DAYS := 365
  const MIN_ADVANCE_ATOMS := 1_000_000
  const AGENT_WINDOW_SECONDS := 24 * 60 * 60
  const CREDIT_BRIDGE := 0

  /** The address of an advance and of everything derived from the same seeds. */
  datatype Key = Key(agent: Pubkey, receivable: Bytes)

  datatype Params = Params(curve: FeeCurve, maxAdvancePctBps: u16, maxAdvanceAbs: u64, agentWindowCap: u64)

  datatype Pending = Pending(params: Params, executeAfter: i64)

  datatype Config = Config(poolKey: Pubkey, governance: Pubkey, timelock: i64, chainId: u64)

  datatype Pool = Pool(
    totalAssets: u64,
    totalShares: u64,
    deployed: u64,
    accruedFees: u64,
    params: Params,
    pending: Option<Pending>)

  datatype Advance = Advance(
    principal: u64,
    feeOwed: u64,
    latePenaltyPerDay: u64,
    issuedAt: i64,
    expiresAt: i64,
    attestor: Pubkey)

  datatype Consumed = Consumed(nonce: Bytes, createdAt: i64)

  datatype Tombstone = Tombstone(principal: u64, expiresAt: i64, liquidatedAt: i64)

  datatype Issuance = Issuance(windowStart: i64, issuedInWindow: u64, livePrincipal: u64)

  type Balances = map<Pubkey, u64>

  /** Token balances: USDC in the vault, the treasury and every other wallet; share tokens by holder. */
  datatype Tokens = Tokens(vault: u64, treasury: u64, wallets: Balances, shares: Balances)

  datatype Registry = Registry(governance: Pubkey, allowed: map<Pubkey, u16>)

  datatype State = State(
    config: Config,
    pool: Pool,
    tokens: Tokens,
    advances: map<Key, Advance>,
    consumed: map<Key, Consumed>,
    tombstones: map<Key, Tombstone>,
    issuance: map<Pubkey, Issuance>,
    registry: Registry)

  /** `Pubkey::default()`: thirty-two zero bytes. */
  function DefaultKey(): Pubkey {
    seq(32, _ => 0)
  }

  function BalanceOf(b: Balances, k: Pubkey): u64 {
    if k in b then b[k] else 0
  }

  /** What happened, as the programs' own events report it, plus the token movements
      that bypass the programs: transfers of USDC and shares, burns, direct gifts to the vault,
      and transfers into and out of the treasury. */
  datatype Event =
    | Deposited(lp: Pubkey, amount: u64, minted: u64)
    | Withdrew(lp: Pubkey, burned: u64, returned: u64)
    | AdvanceIssued(key: Key, advance: Advance, credit: Credit)
    | AdvanceSettled(key: Key, principal: u64, lpFee: u64, protocolCut: u64, agentNet: u64, lateDays: nat)
    | AdvanceLiquidated(key: Key, loss: u64)
    | ParamsProposed(pending: Pending)
    | ParamsExecuted(params: Params)
    | FeesSkimmed(amount: u64)
    | SignerAdded(signer: Pubkey, kind: u16)
    | SignerRemoved(signer: Pubkey)
    | GovernanceSet(governance: Pubkey)
    | VaultDonated(from: Pubkey, amount: u64)
    | TreasuryReceived(from: Pubkey, amount: u64)
    | TreasurySpent(to: Pubkey, amount: u64)
    | UsdcMoved(from: Pubkey, to: Pubkey, amount: u64)
    | SharesMoved(from: Pubkey, to: Pubkey, amount: u64)
    | SharesBurned(from: Pubkey, amount: u64)

  // ---- Pieces of the guards ----

  /** The agent's ledger after the window has been rolled to `now`; a fresh one if there is none. */
  function Rolled(issuance: map<Pubkey, Issuance>, agent: Pubkey, now: i64): Issuance {
    if agent !in issuance then Issuance(now, 0, 0)
    else if now - issuance[agent].windowStart >= AGENT_WINDOW_SECONDS
    then issuance[agent].(windowStart := now, issuedInWindow := 0)
    else issuance[agent]
  }

  function LateDays(expiresAt: i64, now: i64): nat {
    Min(Max(now - expiresAt, 0) / SECONDS_PER_DAY, MAX_LATE_DAYS)
  }

  /** Fee plus late penalty due on an advance at `now`. */
  function FeeDue(a: Advance, now: i64): nat {
    a.feeOwed + LateDays(a.expiresAt, now) * a.latePenaltyPerDay
  }

  function TotalOwed(a: Advance, now: i64): nat {
    a.principal + FeeDue(a, now)
  }

  predicate SettleOpen(a: Advance, now: i64) {
    now < a.expiresAt + LIQUIDATION_GRACE_SECONDS <= I64_MAX
  }

  predicate LiquidateOpen(a: Advance, now: i64) {
    a.expiresAt + LIQUIDATION_GRACE_SECONDS <= now
  }

  // ---- When an event may happen ----

  ghost predicate DepositPermitted(s: State, lp: Pubkey, amount: u64, minted: u64) {
    && 0 < amount && 0 < minted
    && IsFloor(minted, amount * (s.pool.totalShares + VIRTUAL_SHARES_OFFSET),
               s.pool.totalAssets + VIRTUAL_ASSETS_OFFSET)
    && amount <= BalanceOf(s.tokens.wallets, lp)
    && s.tokens.vault + amount <= U64_MAX
    && BalanceOf(s.tokens.shares, lp) + minted <= U64_MAX
    && s.pool.totalAssets + amount <= U64_MAX
    && s.pool.totalShares + minted <= U64_MAX
  }

  ghost predicate WithdrawPermitted(s: State, lp: Pubkey, burned: u64, returned: u64) {
    && 0 < burned && 0 < returned
    && IsFloor(returned, burned * (s.pool.totalAssets + VIRTUAL_ASSETS_OFFSET),
               s.pool.totalShares + VIRTUAL_SHARES_OFFSET)
    && returned <= s.tokens.vault
    && burned <= BalanceOf(s.tokens.shares, lp)
    && BalanceOf(s.tokens.wallets, lp) + returned <= U64_MAX
    && returned <= s.pool.totalAssets
    && burned <= s.pool.totalShares
  }

  /** The attestation is the one this issuance needs: for this agent, this pool, this
      cluster, fresh, and from a listed bridge signer. */
  ghost predicate CreditAccepted(s: State, now: i64, key: Key, attestor: Pubkey, credit: Credit) {
    && attestor in s.registry.allowed && s.registry.allowed[attestor] == CREDIT_BRIDGE
    && WellFormed(credit)
    && credit.agent == key.agent
    && credit.pool == s.config.poolKey
    && credit.chainId == s.config.chainId
    && credit.attestedAt <= now <= credit.attestedAt + MAX_ATTESTATION_AGE_SECONDS
    && now < credit.expiresAt
  }

  /** The terms fixed at issuance: the fee and the penalty the curve in force gives. */
  ghost predicate TermsFromCurve(s: State, now: i64, a: Advance, credit: Credit) {
    && a.issuedAt == now
    && a.expiresAt == credit.expiresAt
    && FeeAmount(a.principal, Max(SaturatingSubI64(credit.expiresAt, now), 0),
                 UtilizationBps(s.pool.totalAssets, s.pool.deployed), 0, s.pool.params.curve) == Ok(a.feeOwed)
    && LatePenaltyPerDay(a.principal, s.pool.params.curve) == Ok(a.latePenaltyPerDay)
  }

  ghost predicate IssuePermitted(s: State, now: i64, key: Key, a: Advance, credit: Credit) {
    var rolled := Rolled(s.issuance, key.agent, now);
    && MIN_ADVANCE_ATOMS <= a.principal
    && key !in s.advances && key !in s.consumed
    && CreditAccepted(s, now, key, a.attestor, credit)
    && TermsFromCurve(s, now, a, credit)
    && rolled.issuedInWindow + a.principal <= U64_MAX
    && (s.pool.params.agentWindowCap > 0 ==> rolled.issuedInWindow + a.principal <= s.pool.params.agentWindowCap)
    && credit.outstanding + rolled.livePrincipal + a.principal <= credit.creditLimit
    && a.principal <= s.pool.params.maxAdvanceAbs
    && a.principal <= s.tokens.vault
    && BalanceOf(s.tokens.wallets, key.agent) + a.principal <= U64_MAX
    && s.pool.deployed + a.principal <= s.pool.totalAssets
  }

  ghost predicate SettlePermitted(s: State, now: i64, key: Key, principal: u64, lpFee: u64, protocolCut: u64,
                                  lateDays: nat)
  {
    && key in s.advances && key in s.consumed && key.agent in s.issuance
    && var a := s.advances[key];
    && SettleOpen(a, now)
    && principal == a.principal
    && lateDays == LateDays(a.expiresAt, now)
    && lpFee + protocolCut == FeeDue(a, now)
    && IsFloor(protocolCut, FeeDue(a, now) * PROTOCOL_FEE_BPS, BPS_DENOMINATOR)
    && TotalOwed(a, now) <= BalanceOf(s.tokens.wallets, key.agent)
    && s.tokens.treasury + protocolCut <= U64_MAX
    && s.tokens.vault + principal + lpFee <= U64_MAX
    && principal <= s.issuance[key.agent].livePrincipal
    && principal <= s.pool.deployed
    && s.pool.totalAssets + lpFee <= U64_MAX
    && s.pool.accruedFees + protocolCut <= U64_MAX
  }

  ghost predicate LiquidatePermitted(s: State, now: i64, key: Key, loss: u64) {
    && key in s.advances && key in s.consumed && key.agent in s.issuance && key !in s.tombstones
    && LiquidateOpen(s.advances[key], now)
    && loss == s.advances[key].principal
    && loss <= s.issuance[key.agent].livePrincipal
    && loss <= s.pool.deployed
    && loss <= s.pool.totalAssets
  }

  ghost predicate Permitted(s: State, now: i64, e: Event) {
    match e
    case Deposited(lp, amount, minted) => DepositPermitted(s, lp, amount, minted)
    case Withdrew(lp, burned, returned) => WithdrawPermitted(s, lp, burned, returned)
    case AdvanceIssued(key, a, credit) => IssuePermitted(s, now, key, a, credit)
    case AdvanceSettled(key, principal, lpFee, protocolCut, _, lateDays) =>
      SettlePermitted(s, now, key, principal, lpFee, protocolCut, lateDays)
    case AdvanceLiquidated(key, loss) => LiquidatePermitted(s, now, key, loss)
    case ParamsProposed(p) => p.params.curve.Valid() && p.executeAfter == now + s.config.timelock
    case ParamsExecuted(params) =>
      s.pool.pending.Some? && s.pool.pending.value.params == params && s.pool.pending.value.executeAfter <= now
    case FeesSkimmed(amount) =>
      0 < amount <= s.pool.accruedFees && amount <= s.tokens.vault && s.tokens.treasury + amount <= U64_MAX
    case SignerAdded(signer, kind) => signer !in s.registry.allowed && kind == CREDIT_BRIDGE
    case SignerRemoved(signer) => signer in s.registry.allowed
    case GovernanceSet(governance) => governance != DefaultKey()
    case VaultDonated(from, amount) =>
      amount <= BalanceOf(s.tokens.wallets, from) && s.tokens.vault + amount <= U64_MAX
    case TreasuryReceived(from, amount) =>
      amount <= BalanceOf(s.tokens.wallets, from) && s.tokens.treasury + amount <= U64_MAX
    case TreasurySpent(to, amount) =>
      amount <= s.tokens.treasury && BalanceOf(s.tokens.wallets, to) + amount <= U64_MAX
    case UsdcMoved(from, to, amount) =>
      from != to && amount <= BalanceOf(s.tokens.wallets, from) && BalanceOf(s.tokens.wallets, to) + amount <= U64_MAX
    case SharesMoved(from, to, amount) =>
      from != to && amount <= BalanceOf(s.tokens.shares, from) && BalanceOf(s.tokens.shares, to) + amount <= U64_MAX
    case SharesBurned(from, amount) => amount <= BalanceOf(s.tokens.shares, from)
  }

  // ---- What an event does ----

  function Debit(b: Balances, k: Pubkey, amount: u64): Balances
    requires amount <= BalanceOf(b, k)
  {
    if amount == 0 then b else b[k := BalanceOf(b, k) - amount]
  }

  function Credited(b: Balances, k: Pubkey, amount: u64): Balances
    requires BalanceOf(b, k) + amount <= U64_MAX
  {
    b[k := BalanceOf(b, k) + amount]
  }

  function Moved(b: Balances, from: Pubkey, to: Pubkey, amount: u64): Balances
    requires from != to && amount <= BalanceOf(b, from) && BalanceOf(b, to) + amount <= U64_MAX
  {
    Credited(Debit(b, from, amount), to, amount)
  }

  ghost function EvolveDeposit(s: State, lp: Pubkey, amount: u64, minted: u64): State
    requires DepositPermitted(s, lp, amount, minted)
  {
    s.(pool := s.pool.(totalAssets := s.pool.totalAssets + amount, totalShares := s.pool.totalShares + minted),
       tokens := s.tokens.(vault := s.tokens.vault + amount,
                           wallets := Debit(s.tokens.wallets, lp, amount),
                           shares := Credited(s.tokens.shares, lp, minted)))
  }

  ghost function EvolveWithdraw(s: State, lp: Pubkey, burned: u64, returned: u64): State
    requires WithdrawPermitted(s, lp, burned, returned)
  {
    s.(pool := s.pool.(totalAssets := s.pool.totalAssets - returned, totalShares := s.pool.totalShares - burned),
       tokens := s.tokens.(vault := s.tokens.vault - returned,
                           wallets := Credited(s.tokens.wallets, lp, returned),
                           shares := Debit(s.tokens.shares, lp, burned)))
  }

  ghost function EvolveIssue(s: State, now: i64, key: Key, a: Advance, credit: Credit): State
    requires IssuePermitted(s, now, key, a, credit)
  {
    var rolled := Rolled(s.issuance, key.agent, now);
    s.(pool := s.pool.(deployed := s.pool.deployed + a.principal),
       tokens := s.tokens.(vault := s.tokens.vault - a.principal,
                           wallets := Credited(s.tokens.wallets, key.agent, a.principal)),
       advances := s.advances[key := a],
       consumed := s.consumed[key := Consumed(credit.nonce, now)],
       issuance := s.issuance[key.agent :=
         rolled.(issuedInWindow := rolled.issuedInWindow + a.principal,
                 livePrincipal := rolled.livePrincipal + a.principal)])
  }

  ghost function EvolveSettle(s: State, now: i64, key: Key, principal: u64, lpFee: u64, protocolCut: u64,
                              lateDays: nat): State
    requires SettlePermitted(s, now, key, principal, lpFee, protocolCut, lateDays)
  {
    var l := s.issuance[key.agent];
    s.(pool := s.pool.(deployed := s.pool.deployed - principal,
                       totalAssets := s.pool.totalAssets + lpFee,
                       accruedFees := s.pool.accruedFees + protocolCut),
       tokens := s.tokens.(vault := s.tokens.vault + principal + lpFee,
                           treasury := s.tokens.treasury + protocolCut,
                           wallets := Debit(s.tokens.wallets, key.agent, principal + lpFee + protocolCut)),
       advances := s.advances - {key},
       issuance := s.issuance[key.agent := l.(livePrincipal := l.livePrincipal - principal)])
  }

  ghost function EvolveLiquidate(s: State, now: i64, key: Key, loss: u64): State
    requires LiquidatePermitted(s, now, key, loss)
  {
    var l := s.issuance[key.agent];
    s.(pool := s.pool.(deployed := s.pool.deployed - loss, totalAssets := s.pool.totalAssets - loss),
       advances := s.advances - {key},
       tombstones := s.tombstones[key := Tombstone(loss, s.advances[key].expiresAt, now)],
       issuance := s.issuance[key.agent := l.(livePrincipal := l.livePrincipal - loss)])
  }

  ghost function Evolve(s: State, now: i64, e: Event): State
    requires Permitted(s, now, e)
  {
    match e
    case Deposited(lp, amount, minted) => EvolveDeposit(s, lp, amount, minted)
    case Withdrew(lp, burned, returned) => EvolveWithdraw(s, lp, burned, returned)
    case AdvanceIssued(key, a, credit) => EvolveIssue(s, now, key, a, credit)
    case AdvanceSettled(key, principal, lpFee, protocolCut, _, lateDays) =>
      EvolveSettle(s, now, key, principal, lpFee, protocolCut, lateDays)
    case AdvanceLiquidated(key, loss) => EvolveLiquidate(s, now, key, loss)
    case ParamsProposed(p) => s.(pool := s.pool.(pending := Some(p)))
    case ParamsExecuted(params) => s.(pool := s.pool.(params := params, pending := None))
    case FeesSkimmed(amount) =>
      s.(pool := s.pool.(accruedFees := s.pool.accruedFees - amount),
         tokens := s.tokens.(vault := s.tokens.vault - amount, treasury := s.tokens.treasury + amount))
    case SignerAdded(signer, kind) => s.(registry := s.registry.(allowed := s.registry.allowed[signer := kind]))
    case SignerRemoved(signer) => s.(registry := s.registry.(allowed := s.registry.allowed - {signer}))
    case GovernanceSet(governance) => s.(registry := s.registry.(governance := governance))
    case VaultDonated(from, amount) =>
      s.(tokens := s.tokens.(vault := s.tokens.vault + amount, wallets := Debit(s.tokens.wallets, from, amount)))
    case TreasuryReceived(from, amount) =>
      s.(tokens := s.tokens.(treasury := s.tokens.treasury + amount, wallets := Debit(s.tokens.wallets, from, amount)))
    case TreasurySpent(to, amount) =>
      s.(tokens := s.tokens.(treasury := s.tokens.treasury - amount, wallets := Credited(s.tokens.wallets, to, amount)))
    case UsdcMoved(from, to, amount) =>
      s.(tokens := s.tokens.(wallets := Moved(s.tokens.wallets, from, to, amount)))
    case SharesMoved(from, to, amount) =>
      s.(tokens := s.tokens.(shares := Moved(s.tokens.shares, from, to, amount)))
    case SharesBurned(from, amount) =>
      s.(tokens := s.tokens.(shares := Debit(s.tokens.shares, from, amount)))
  }
}
