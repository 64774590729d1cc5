/** The programs' accounts as one object, with one method per instruction.

    A method works on copies of the accounts it changes, updating them in the order the
    instruction does, and writes them back only at its end: an instruction that stops with an
    error leaves every account as it was, whatever it had already computed.  Each method is
    proved to take exactly one `Step` of the run model, so the theorems about runs hold of the
    object after any sequence of calls. */
module Program {
  import opened Numbers
  import opened Pricing
  import opened Attestation
  import opened Introspection
  import opened Ledger
  import opened Handlers
  import opened Runs
  import opened Effects

  // ---- Token program calls: balance moves that fail on short or overflowing balances ----

  function WalletToVault(t: Tokens, from: Pubkey, amount: u64): Result<Tokens> {
    if amount > BalanceOf(t.wallets, from) then Err(TokenInsufficientFunds) else
    :- Require(t.vault + amount <= U64_MAX, TokenOverflow);
    Ok(t.(vault := t.vault + amount, wallets := Debit(t.wallets, from, amount)))
  }

  function WalletToTreasury(t: Tokens, from: Pubkey, amount: u64): Result<Tokens> {
    if amount > BalanceOf(t.wallets, from) then Err(TokenInsufficientFunds) else
    :- Require(t.treasury + amount <= U64_MAX, TokenOverflow);
    Ok(t.(treasury := t.treasury + amount, wallets := Debit(t.wallets, from, amount)))
  }

  function VaultToWallet(t: Tokens, to: Pubkey, amount: u64): Result<Tokens> {
    if amount > t.vault then Err(TokenInsufficientFunds) else
    :- Require(BalanceOf(t.wallets, to) + amount <= U64_MAX, TokenOverflow);
    Ok(t.(vault := t.vault - amount, wallets := Credited(t.wallets, to, amount)))
  }

  function VaultToTreasury(t: Tokens, amount: u64): Result<Tokens> {
    if amount > t.vault then Err(TokenInsufficientFunds) else
    :- Require(t.treasury + amount <= U64_MAX, TokenOverflow);
    Ok(t.(vault := t.vault - amount, treasury := t.treasury + amount))
  }

  function TreasuryToWallet(t: Tokens, to: Pubkey, amount: u64): Result<Tokens> {
    if amount > t.treasury then Err(TokenInsufficientFunds) else
    :- Require(BalanceOf(t.wallets, to) + amount <= U64_MAX, TokenOverflow);
    Ok(t.(treasury := t.treasury - amount, wallets := Credited(t.wallets, to, amount)))
  }

  function MintTo(t: Tokens, to: Pubkey, amount: u64): Result<Tokens> {
    if BalanceOf(t.shares, to) + amount > U64_MAX then Err(TokenOverflow) else
    Ok(t.(shares := Credited(t.shares, to, amount)))
  }

  function Burn(t: Tokens, from: Pubkey, amount: u64): Result<Tokens> {
    if amount > BalanceOf(t.shares, from) then Err(TokenInsufficientFunds) else
    Ok(t.(shares := Debit(t.shares, from, amount)))
  }

  /** The two accounts an instruction may be about to write back. */
  datatype Books = Books(pool: Pool, tokens: Tokens)

  lemma DebitTwice(b: Balances, k: Pubkey, first: u64, second: u64)
    requires first + second <= BalanceOf(b, k)
    ensures Debit(Debit(b, k, first), k, second) == Debit(b, k, first + second)
  {
  }

  /** An accepted request's effect in the terms its handler computed: the nonce it was given, the
      ledger it charged. */
  lemma RequestEvolves(s: State, env: Env, agent: Pubkey, receivable: Bytes, amount: u64, nonce: Bytes, signer: Pubkey)
    requires DecideRequest(s, env, agent, receivable, amount, nonce, signer).Ok?
    ensures
      var e := DecideRequest(s, env, agent, receivable, amount, nonce, signer).value;
      && Permitted(s, env.now, e) && MIN_ADVANCE_ATOMS <= amount
      && var charged := ChargeLedger(s, env.now, agent, amount, e.credit);
      && charged.Ok? && Disbursable(s, agent, amount).Pass?
      && Evolve(s, env.now, e)
         == s.(pool := s.pool.(deployed := s.pool.deployed + amount),
               tokens := s.tokens.(vault := s.tokens.vault - amount,
                                   wallets := Credited(s.tokens.wallets, agent, amount)),
               advances := s.advances[e.key := e.advance],
               consumed := s.consumed[e.key := Consumed(nonce, env.now)],
               issuance := s.issuance[agent := charged.value])
  {
    hide CreditAccepted, TermsFromCurve, AcceptCredit, ChargeLedger, PriceAdvance, Disbursable, IssuePermitted;
    hide VerifyPrevEd25519, Decode, VersionOf, Rolled, BalanceOf, Credited, Debit, Moved;
    hide EvolveDeposit, EvolveWithdraw, EvolveSettle, EvolveLiquidate;
    hide DepositPermitted, WithdrawPermitted, SettlePermitted, LiquidatePermitted;
  }

  /** An accepted settlement's effect in the terms its handler computed. */
  lemma SettleEvolves(s: State, env: Env, agent: Pubkey, key: Key, payment: u64)
    requires DecideSettle(s, env, agent, key, payment).Ok?
    ensures
      var e := DecideSettle(s, env, agent, key, payment).value;
      && Permitted(s, env.now, e) && agent in s.issuance
      && var l := s.issuance[agent];
      && e.principal <= l.livePrincipal && e.principal <= s.pool.deployed
      && s.pool.totalAssets + e.lpFee <= U64_MAX && s.pool.accruedFees + e.protocolCut <= U64_MAX
      && s.tokens.vault + e.principal + e.lpFee <= U64_MAX && s.tokens.treasury + e.protocolCut <= U64_MAX
      && e.principal + e.lpFee + e.protocolCut <= BalanceOf(s.tokens.wallets, agent)
      && Evolve(s, env.now, e)
         == s.(pool := s.pool.(deployed := s.pool.deployed - e.principal,
                               totalAssets := s.pool.totalAssets + e.lpFee,
                               accruedFees := s.pool.accruedFees + e.protocolCut),
               tokens := s.tokens.(vault := s.tokens.vault + e.principal + e.lpFee,
                                   treasury := s.tokens.treasury + e.protocolCut,
                                   wallets := Debit(s.tokens.wallets, agent, e.principal + e.lpFee + e.protocolCut)),
               advances := s.advances - {key},
               issuance := s.issuance[agent := l.(livePrincipal := l.livePrincipal - e.principal)])
  {
    hide SettleGuards, Waterfall, Payable, HasMemo, IsFloor, LateDays, FeeDue, BalanceOf, Debit, Credited, Moved;
    hide EvolveDeposit, EvolveWithdraw, EvolveIssue, EvolveLiquidate;
    hide DepositPermitted, WithdrawPermitted, IssuePermitted, LiquidatePermitted;
  }

  class Escrow {
    const config: Config

    var pool: Pool
    var tokens: Tokens
    var advances: map<Key, Advance>
    var consumed: map<Key, Consumed>
    var tombstones: map<Key, Tombstone>
    var issuance: map<Pubkey, Issuance>
    var registry: Registry

    ghost const genesis: Genesis
    ghost var log: seq<Entry>
    ghost var history: seq<Tx>

    ghost function Accounts(): State
      reads this
    {
      State(config, pool, tokens, advances, consumed, tombstones, issuance, registry)
    }

    /** The object is where its history of instructions leads. */
    ghost predicate Valid()
      reads this
    {
      && genesis.Valid() && genesis.config == config
      && ClockOrdered(history)
      && World(Accounts(), log) == Run(genesis, history)
    }

    /** `init_pool` and `init_registry` have run with these choices. */
    constructor (g: Genesis)
      requires g.Valid()
      ensures Valid() && genesis == g && history == []
    {
      genesis := g;
      config := g.config;
      pool := Pool(0, 0, 0, 0, g.params, None);
      tokens := Tokens(0, g.treasury, g.wallets, map[]);
      advances, consumed, tombstones, issuance := map[], map[], map[], map[];
      registry := Registry(g.registryGovernance, map[]);
      log, history := [], [];
    }

    /** The programs' entry point: one instruction, in clock order.  It takes exactly one step
        of the run, so whatever holds of all runs holds of the object. */
    method Process(tx: Tx) returns (r: Result<Event>)
      requires Valid()
      requires forall i :: 0 <= i < |history| ==> history[i].env.now <= tx.env.now
      modifies this
      ensures Valid() && history == old(history) + [tx]
      ensures r == Decide(old(Accounts()), tx)
      ensures World(Accounts(), log) == Step(World(old(Accounts()), old(log)), tx)
    {
      r := Dispatch(tx);
      if r.Ok? {
        log := log + [Entry(tx.env.now, r.value)];
      }
      RunFromSnoc(genesis.Start(), history, tx);
      history := history + [tx];
    }

    method Dispatch(tx: Tx) returns (r: Result<Event>)
      modifies this`pool, this`tokens, this`advances, this`consumed, this`tombstones, this`issuance, this`registry
      ensures r == Decide(old(Accounts()), tx)
      ensures Accounts() == if r.Ok? then Evolve(old(Accounts()), tx.env.now, r.value) else old(Accounts())
    {
      hide Evolve, Permitted, DecideDeposit, DecideWithdraw, DecideRequest, DecideSettle, DecideLiquidate;
      hide DecidePropose, DecideExecute, DecideSkim, DecideAddSigner, DecideRemoveSigner, DecideSetGovernance;
      hide DecideDonate, DecideSendToTreasury, DecideSpendTreasury;
      hide DecideTransferUsdc, DecideTransferShares, DecideBurn;
      match tx.call
      case Deposit(lp, amount) => r := Deposit(tx.env, lp, amount);
      case Withdraw(lp, shares) => r := Withdraw(tx.env, lp, shares);
      case RequestAdvance(agent, receivable, amount, nonce, signer) =>
        r := RequestAdvance(tx.env, agent, receivable, amount, nonce, signer);
      case ClaimAndSettle(agent, key, payment) => r := ClaimAndSettle(tx.env, agent, key, payment);
      case Liquidate(key) => r := Liquidate(tx.env, key);
      case ProposeParams(params, executeAfter) => r := ProposeParams(tx.env, params, executeAfter);
      case ExecuteParams => r := ExecuteParams(tx.env);
      case SkimProtocolFees(amount) => r := SkimProtocolFees(tx.env, amount);
      case AddAllowedSigner(signer, kind) => r := AddAllowedSigner(tx.env, signer, kind);
      case RemoveAllowedSigner(signer) => r := RemoveAllowedSigner(tx.env, signer);
      case SetGovernance(governance) => r := SetGovernance(tx.env, governance);
      case DonateToVault(from, amount) => r := DonateToVault(tx.env, from, amount);
      case SendToTreasury(from, amount) => r := SendToTreasury(tx.env, from, amount);
      case SpendTreasury(to, amount) => r := SpendTreasury(tx.env, to, amount);
      case TransferUsdc(from, to, amount) => r := TransferUsdc(tx.env, from, to, amount);
      case TransferShares(from, to, amount) => r := TransferShares(tx.env, from, to, amount);
      case BurnShares(from, amount) => r := BurnShares(tx.env, from, amount);
    }

    /** `deposit`. */
    method Deposit(env: Env, lp: Pubkey, amount: u64) returns (r: Result<Event>)
      modifies this`pool, this`tokens
      ensures r == DecideDeposit(old(Accounts()), lp, amount)
      ensures Accounts() == if r.Ok? then Evolve(old(Accounts()), env.now, r.value) else old(Accounts())
      ensures r.Ok? <==> DepositAsks(old(pool), old(tokens), lp, amount)
      ensures r.Ok? ==> DepositDoes(old(Accounts()), Accounts(), lp, amount)
    {
      DepositAnswered(Accounts(), env, lp, amount);
      hide DepositAsks, DepositDoes;
      if amount == 0 { return Err(MathOverflow); }
      var p, t := pool, tokens;
      var minted :- PreviewDeposit(amount, p.totalAssets, p.totalShares);
      if minted == 0 { return Err(MathOverflow); }
      t :- WalletToVault(t, lp, amount);
      t :- MintTo(t, lp, minted);
      var assets :- ToU64(p.totalAssets + amount, MathOverflow);
      p := p.(totalAssets := assets);
      var shares :- ToU64(p.totalShares + minted, MathOverflow);
      p := p.(totalShares := shares);
      var e := Deposited(lp, amount, minted);
      pool, tokens := p, t;
      return Ok(e);
    }

    /** `withdraw`: burn first, then pay from the vault. */
    method Withdraw(env: Env, lp: Pubkey, shares: u64) returns (r: Result<Event>)
      modifies this`pool, this`tokens
      ensures r == DecideWithdraw(old(Accounts()), lp, shares)
      ensures Accounts() == if r.Ok? then Evolve(old(Accounts()), env.now, r.value) else old(Accounts())
      ensures r.Ok? <==> WithdrawAsks(old(pool), old(tokens), lp, shares)
      ensures r.Ok? ==> WithdrawDoes(old(Accounts()), Accounts(), lp, shares)
    {
      WithdrawAnswered(Accounts(), env, lp, shares);
      hide WithdrawAsks, WithdrawDoes;
      if shares == 0 { return Err(MathOverflow); }
      var p, t := pool, tokens;
      var returned :- PreviewRedeem(shares, p.totalAssets, p.totalShares);
      if returned == 0 { return Err(MathOverflow); }
      if t.vault < returned { return Err(InsufficientIdleLiquidity); }
      t :- Burn(t, lp, shares);
      t :- VaultToWallet(t, lp, returned);
      var assets :- ToU64(p.totalAssets - returned, MathOverflow);
      p := p.(totalAssets := assets);
      var left :- ToU64(p.totalShares - shares, MathOverflow);
      p := p.(totalShares := left);
      var e := Withdrew(lp, shares, returned);
      pool, tokens := p, t;
      return Ok(e);
    }

    /** `request_advance`: the ledger is rolled and charged before the credit check, and the pool's
        exposure is checked last, after the money has moved. */
    method RequestAdvance(env: Env, agent: Pubkey, receivable: Bytes, amount: u64, nonce: Bytes, signer: Pubkey)
      returns (r: Result<Event>)
      modifies this`pool, this`tokens, this`advances, this`consumed, this`issuance
      ensures r == DecideRequest(old(Accounts()), env, agent, receivable, amount, nonce, signer)
      ensures Accounts() == if r.Ok? then Evolve(old(Accounts()), env.now, r.value) else old(Accounts())
      ensures RequestMet(old(Accounts()), Accounts(), r.Ok?, env, agent, receivable, amount, nonce, signer)
    {
      RequestIsMet(Accounts(), env, agent, receivable, amount, nonce, signer);
      hide RequestMet;
      hide Underwrite, AcceptCredit, ChargeLedger, PriceAdvance, Disbursable, IssuePermitted, CreditAccepted;
      hide TermsFromCurve, Permitted, Evolve, Credited, BalanceOf, Rolled, VerifyPrevEd25519, Decode, VersionOf;
      var e, l := CheckRequest(env, agent, receivable, amount, nonce, signer);
      if e.Err? { return e; }
      var paid :- Disburse(agent, amount);
      RequestEvolves(Accounts(), env, agent, receivable, amount, nonce, signer);
      var key := Key(agent, receivable);
      pool, tokens := paid.pool, paid.tokens;
      advances := advances[key := e.value.advance];
      consumed := consumed[key := Consumed(nonce, env.now)];
      issuance := issuance[agent := l];
      return e;
    }

    /** Everything before the money moves; `l` is the agent's ledger, rolled and charged. */
    method CheckRequest(env: Env, agent: Pubkey, receivable: Bytes, amount: u64, nonce: Bytes, signer: Pubkey)
      returns (r: Result<Event>, l: Issuance)
      ensures r == Underwrite(Accounts(), env, agent, receivable, amount, nonce, signer)
      ensures r.Ok? ==> ChargeLedger(Accounts(), env.now, agent, amount, r.value.credit) == Ok(l)
    {
      hide AcceptCredit, ChargeLedger, PriceAdvance, VerifyPrevEd25519, Decode, VersionOf;
      hide CreditAccepted, TermsFromCurve, Rolled;
      l := Issuance(env.now, 0, 0);
      var key := Key(agent, receivable);
      if signer !in registry.allowed { return Err(AccountNotInitialized), l; }
      if key in advances || key in consumed { return Err(AccountInUse), l; }
      if amount < MIN_ADVANCE_ATOMS { return Err(AdvanceExceedsCap), l; }
      var credit := CheckAttestation(env, agent, nonce, signer);
      if credit.Err? { return Err(credit.error), l; }
      var charged := RollAndCharge(env.now, agent, amount, credit.value);
      if charged.Err? { return Err(charged.error), l; }
      var terms := PriceAdvanceTerms(env.now, amount, signer, credit.value);
      if terms.Err? { return Err(terms.error), l; }
      return Ok(AdvanceIssued(key, terms.value, credit.value)), charged.value;
    }

    /** Steps (6) and (8) of `request_advance`: the money moves before the pool's exposure is checked. */
    method Disburse(agent: Pubkey, amount: u64) returns (r: Result<Books>)
      ensures r.Err? ==> Disbursable(Accounts(), agent, amount) == Fail(r.error)
      ensures r.Ok? ==>
                && Disbursable(Accounts(), agent, amount).Pass?
                && r.value.pool == pool.(deployed := pool.deployed + amount)
                && r.value.tokens == tokens.(vault := tokens.vault - amount,
                                             wallets := Credited(tokens.wallets, agent, amount))
    {
      var p, t := pool, tokens;
      t :- VaultToWallet(t, agent, amount);
      var deployed :- ToU64(p.deployed + amount, MathOverflow);
      p := p.(deployed := deployed);
      if p.deployed > p.totalAssets { return Err(InsufficientIdleLiquidity); }
      return Ok(Books(p, t));
    }

    /** Steps (4) and (4b) of `request_advance`: the window is charged before the credit check. */
    method RollAndCharge(now: i64, agent: Pubkey, amount: u64, c: Credit) returns (r: Result<Issuance>)
      requires MIN_ADVANCE_ATOMS <= amount
      ensures r == ChargeLedger(Accounts(), now, agent, amount, c)
    {
      var l: Issuance;
      if agent in issuance {
        l := issuance[agent];
      } else {
        l := Issuance(now, 0, 0);
      }
      if SaturatingSubI64(now, l.windowStart) >= AGENT_WINDOW_SECONDS {
        l := l.(windowStart := now, issuedInWindow := 0);
      }
      var newIssued :- ToU64(l.issuedInWindow + amount, MathOverflow);
      if pool.params.agentWindowCap > 0 && newIssued > pool.params.agentWindowCap {
        return Err(AgentWindowCapExceeded);
      }
      l := l.(issuedInWindow := newIssued);
      var combined :- ToU64(c.outstanding + l.livePrincipal, MathOverflow);
      if amount > Max(c.creditLimit - combined, 0) { return Err(AdvanceExceedsCredit); }
      if amount > pool.params.maxAdvanceAbs { return Err(AdvanceExceedsCap); }
      l := l.(livePrincipal := l.livePrincipal + amount);
      return Ok(l);
    }

    /** Step (5) of `request_advance`. */
    method PriceAdvanceTerms(now: i64, amount: u64, signer: Pubkey, c: Credit) returns (r: Result<Advance>)
      ensures r == PriceAdvance(Accounts(), now, amount, signer, c)
    {
      var duration: u64 := Max(SaturatingSubI64(c.expiresAt, now), 0);
      var utilization := UtilizationBps(pool.totalAssets, pool.deployed);
      var fee :- ComputeFeeAmount(amount, duration, utilization, 0, pool.params.curve);
      var penalty :- LatePenaltyPerDay(amount, pool.params.curve);
      return Ok(Advance(amount, fee, penalty, now, c.expiresAt, signer));
    }

    /** Steps (1) to (3) of `request_advance`: signature, layout and freshness of the attestation. */
    method CheckAttestation(env: Env, agent: Pubkey, nonce: Bytes, signer: Pubkey) returns (r: Result<Credit>)
      requires signer in registry.allowed
      ensures r == AcceptCredit(Accounts(), env, agent, nonce, signer)
    {
      var parsed := VerifyPrevEd25519(env.ixs, env.cur);
      if parsed.Rejected? {
        if parsed.error == Ed25519OffsetMismatch { return Err(Ed25519MessageMismatch); }
        return Err(Ed25519Missing);
      }
      var message := parsed.message;
      if |message| != TOTAL_LEN { return Err(Ed25519MessageMismatch); }
      if parsed.pubkey != signer { return Err(Ed25519SignerUnknown); }
      if registry.allowed[signer] != CREDIT_BRIDGE { return Err(Ed25519SignerUnknown); }
      var c := Decode(message);
      if c.agent != agent { return Err(Ed25519MessageMismatch); }
      if c.pool != config.poolKey { return Err(Ed25519MessageMismatch); }
      if VersionOf(message) != VERSION { return Err(Ed25519MessageMismatch); }
      if c.nonce != nonce { return Err(Ed25519MessageMismatch); }
      if c.chainId != config.chainId { return Err(InvalidChainId); }
      if c.attestedAt > env.now { return Err(ReceivableStale); }
      var age :- ToI64(env.now - c.attestedAt, ArithmeticPanic);
      if age > MAX_ATTESTATION_AGE_SECONDS { return Err(ReceivableStale); }
      if c.expiresAt <= env.now { return Err(ReceivableExpired); }
      return Ok(c);
    }

    /** Accounts, window and memo of `claim_and_settle`. */
    method CheckSettle(env: Env, agent: Pubkey, key: Key) returns (r: Result<Advance>)
      ensures r == SettleGuards(Accounts(), env, agent, key)
    {
      if key !in advances { return Err(AccountNotInitialized); }
      if agent != key.agent { return Err(InvalidPayer); }
      if key !in consumed || agent !in issuance { return Err(AccountNotInitialized); }
      var a := advances[key];
      var windowEnd :- ToI64(a.expiresAt + LIQUIDATION_GRACE_SECONDS, MathOverflow);
      if env.now >= windowEnd { return Err(NotSettleable); }
      var memo := RequireMemoNonce(env.ixs, consumed[key].nonce);
      if !memo { return Err(MemoNonceMismatch); }
      return Ok(a);
    }

    /** The two transfers of `claim_and_settle`, then its counters. */
    method PayAndBook(agent: Pubkey, principal: u64, split: Split) returns (r: Result<Books>)
      requires agent in issuance && principal + split.lpFee <= U64_MAX
      ensures r.Err? ==> Payable(Accounts(), agent, principal, split) == Fail(r.error)
      ensures r.Ok? ==>
                && Payable(Accounts(), agent, principal, split).Pass?
                && r.value.pool == pool.(deployed := pool.deployed - principal,
                                         totalAssets := pool.totalAssets + split.lpFee,
                                         accruedFees := pool.accruedFees + split.protocolCut)
                && r.value.tokens == tokens.(vault := tokens.vault + principal + split.lpFee,
                                             treasury := tokens.treasury + split.protocolCut,
                                             wallets := Debit(tokens.wallets, agent,
                                                              principal + split.lpFee + split.protocolCut))
    {
      var p, t := pool, tokens;
      var lpCut: u64 := principal + split.lpFee;
      if split.protocolCut > 0 {
        t :- WalletToTreasury(t, agent, split.protocolCut);
      }
      if lpCut > 0 {
        t :- WalletToVault(t, agent, lpCut);
      }
      if issuance[agent].livePrincipal < principal { return Err(MathOverflow); }
      var deployed :- ToU64(p.deployed - principal, MathOverflow);
      var assets :- ToU64(p.totalAssets + split.lpFee, MathOverflow);
      var accrued :- ToU64(p.accruedFees + split.protocolCut, MathOverflow);
      p := p.(deployed := deployed, totalAssets := assets, accruedFees := accrued);
      DebitTwice(tokens.wallets, agent, split.protocolCut, lpCut);
      return Ok(Books(p, t));
    }

    /** The settlement arithmetic: late days, what is owed, and the split of the payment. */
    method ComputeWaterfall(a: Advance, now: i64, payment: u64) returns (r: Result<Split>)
      ensures r == Waterfall(a, now, payment)
      ensures r.Ok? <==> I64_MIN <= now - a.expiresAt <= I64_MAX && a.principal + Fees(a, now) <= payment
      ensures r.Ok? ==> r.value.protocolCut == Cut(a, now) && r.value.lpFee == Fees(a, now) - Cut(a, now)
    {
      SplitAccepted(a, now, payment);
      hide Fees, Cut;
      var sinceExpiry :- ToI64(now - a.expiresAt, ArithmeticPanic);
      var lateSeconds := Max(sinceExpiry, 0);
      var lateDays := lateSeconds / SECONDS_PER_DAY;
      if lateDays > MAX_LATE_DAYS {
        lateDays := MAX_LATE_DAYS;
      }
      var latePenalty :- ToU64(lateDays * a.latePenaltyPerDay, MathOverflow);
      var withFee: u64 :- ToU64(a.principal + a.feeOwed, MathOverflow);
      var owed: u64 :- ToU64(withFee + latePenalty, MathOverflow);
      if payment < owed { return Err(WaterfallSumMismatch); }
      var totalFee: u64 := a.feeOwed + latePenalty;
      var cut: u64 := totalFee * PROTOCOL_FEE_BPS / BPS_DENOMINATOR;
      var lpFee: u64 := totalFee - cut;
      var lpCut: u64 := a.principal + lpFee;
      var agentNet: u64 := payment - cut - lpCut;
      return Ok(Split(lpFee, cut, agentNet, lateDays));
    }

    /** `claim_and_settle`: the three-way waterfall, then the counters. */
    method ClaimAndSettle(env: Env, agent: Pubkey, key: Key, payment: u64) returns (r: Result<Event>)
      modifies this`pool, this`tokens, this`advances, this`issuance
      ensures r == DecideSettle(old(Accounts()), env, agent, key, payment)
      ensures Accounts() == if r.Ok? then Evolve(old(Accounts()), env.now, r.value) else old(Accounts())
      ensures r.Ok? <==> SettleAsks(old(Accounts()), env, agent, key, payment)
      ensures r.Ok? ==> SettleDoes(old(Accounts()), Accounts(), env.now, key)
    {
      SettleAnswered(Accounts(), env, agent, key, payment);
      hide SettleAsks, SettleDoes;
      hide SettleGuards, Waterfall, Payable, SettlePermitted, HasMemo, IsFloor, LateDays, FeeDue;
      hide Permitted, Evolve, Debit, BalanceOf;
      var a :- CheckSettle(env, agent, key);
      var split :- ComputeWaterfall(a, env.now, payment);
      var paid :- PayAndBook(agent, a.principal, split);
      var l := issuance[agent];
      l := l.(livePrincipal := l.livePrincipal - a.principal);
      var e := AdvanceSettled(key, a.principal, split.lpFee, split.protocolCut, split.agentNet, split.lateDays);
      SettleEvolves(Accounts(), env, agent, key, payment);
      pool, tokens := paid.pool, paid.tokens;
      issuance := issuance[agent := l];
      advances := advances - {key};
      return Ok(e);
    }

    /** `liquidate`: permissionless; realises the loss and leaves a tombstone. */
    method Liquidate(env: Env, key: Key) returns (r: Result<Event>)
      modifies this`pool, this`advances, this`tombstones, this`issuance
      ensures r == DecideLiquidate(old(Accounts()), env.now, key)
      ensures Accounts() == if r.Ok? then Evolve(old(Accounts()), env.now, r.value) else old(Accounts())
      ensures r.Ok? <==> LiquidateAsks(old(Accounts()), env.now, key)
      ensures r.Ok? ==> LiquidateDoes(old(Accounts()), Accounts(), env.now, key)
    {
      LiquidateAnswered(Accounts(), env, key);
      hide LiquidateAsks, LiquidateDoes;
      if key !in advances || key !in consumed || key.agent !in issuance { return Err(AccountNotInitialized); }
      if key in tombstones { return Err(AccountInUse); }
      var a := advances[key];
      var windowStart :- ToI64(a.expiresAt + LIQUIDATION_GRACE_SECONDS, MathOverflow);
      if env.now < windowStart { return Err(NotLiquidatable); }
      var p, l := pool, issuance[key.agent];
      var live :- ToU64(l.livePrincipal - a.principal, MathOverflow);
      l := l.(livePrincipal := live);
      var deployed :- ToU64(p.deployed - a.principal, MathOverflow);
      p := p.(deployed := deployed);
      var assets :- ToU64(p.totalAssets - a.principal, MathOverflow);
      p := p.(totalAssets := assets);
      var e := AdvanceLiquidated(key, a.principal);
      pool := p;
      issuance := issuance[key.agent := l];
      tombstones := tombstones[key := Tombstone(a.principal, a.expiresAt, env.now)];
      advances := advances - {key};
      return Ok(e);
    }

    /** `propose_params`: the caller's own `execute_after` is overwritten. */
    method ProposeParams(env: Env, params: Params, executeAfter: i64) returns (r: Result<Event>)
      modifies this`pool
      ensures r == DecidePropose(old(Accounts()), env, params)
      ensures Accounts() == if r.Ok? then Evolve(old(Accounts()), env.now, r.value) else old(Accounts())
    {
      var authorised := RequireSquadsGovernanceCpi(env.ixs, config.governance);
      if !authorised { return Err(GovernanceRequired); }
      if !params.curve.Valid() { return Err(InvalidFeeCurve); }
      var pending := Pending(params, executeAfter);
      var after :- ToI64(env.now + config.timelock, MathOverflow);
      pending := pending.(executeAfter := after);
      var e := ParamsProposed(pending);
      pool := pool.(pending := Some(pending));
      return Ok(e);
    }

    /** `execute_params`. */
    method ExecuteParams(env: Env) returns (r: Result<Event>)
      modifies this`pool
      ensures r == DecideExecute(old(Accounts()), env.now)
      ensures Accounts() == if r.Ok? then Evolve(old(Accounts()), env.now, r.value) else old(Accounts())
    {
      if pool.pending.None? { return Err(NoPendingParams); }
      var pending := pool.pending.value;
      if env.now < pending.executeAfter { return Err(PendingParamsNotReady); }
      var e := ParamsExecuted(pending.params);
      pool := pool.(params := pending.params, pending := None);
      return Ok(e);
    }

    /** `skim_protocol_fees`: vault to treasury; the booked assets are not touched. */
    method SkimProtocolFees(env: Env, amount: u64) returns (r: Result<Event>)
      modifies this`pool, this`tokens
      ensures r == DecideSkim(old(Accounts()), env, amount)
      ensures Accounts() == if r.Ok? then Evolve(old(Accounts()), env.now, r.value) else old(Accounts())
    {
      var authorised := RequireSquadsGovernanceCpi(env.ixs, config.governance);
      if !authorised { return Err(GovernanceRequired); }
      if amount == 0 || amount > pool.accruedFees { return Err(MathOverflow); }
      var t :- VaultToTreasury(tokens, amount);
      var e := FeesSkimmed(amount);
      pool, tokens := pool.(accruedFees := pool.accruedFees - amount), t;
      return Ok(e);
    }

    /** The registry's `add_allowed_signer`. */
    method AddAllowedSigner(env: Env, signer: Pubkey, kind: u16) returns (r: Result<Event>)
      modifies this`registry
      ensures r == DecideAddSigner(old(Accounts()), env, signer, kind)
      ensures Accounts() == if r.Ok? then Evolve(old(Accounts()), env.now, r.value) else old(Accounts())
    {
      if signer in registry.allowed { return Err(AccountInUse); }
      var authorised := RequireSquadsGovernanceCpi(env.ixs, registry.governance);
      if !authorised { return Err(GovernanceRequired); }
      if kind != CREDIT_BRIDGE { return Err(InvalidKind); }
      var e := SignerAdded(signer, kind);
      registry := registry.(allowed := registry.allowed[signer := kind]);
      return Ok(e);
    }

    /** The registry's `remove_allowed_signer`. */
    method RemoveAllowedSigner(env: Env, signer: Pubkey) returns (r: Result<Event>)
      modifies this`registry
      ensures r == DecideRemoveSigner(old(Accounts()), env, signer)
      ensures Accounts() == if r.Ok? then Evolve(old(Accounts()), env.now, r.value) else old(Accounts())
    {
      if signer !in registry.allowed { return Err(AccountNotInitialized); }
      var authorised := RequireSquadsGovernanceCpi(env.ixs, registry.governance);
      if !authorised { return Err(GovernanceRequired); }
      var e := SignerRemoved(signer);
      registry := registry.(allowed := registry.allowed - {signer});
      return Ok(e);
    }

    /** The registry's `set_governance`. */
    method SetGovernance(env: Env, governance: Pubkey) returns (r: Result<Event>)
      modifies this`registry
      ensures r == DecideSetGovernance(old(Accounts()), env, governance)
      ensures Accounts() == if r.Ok? then Evolve(old(Accounts()), env.now, r.value) else old(Accounts())
    {
      var authorised := RequireSquadsGovernanceCpi(env.ixs, registry.governance);
      if !authorised { return Err(GovernanceRequired); }
      if governance == DefaultKey() { return Err(GovernanceRequired); }
      var e := GovernanceSet(governance);
      registry := registry.(governance := governance);
      return Ok(e);
    }

    /** USDC sent straight to the vault. */
    method DonateToVault(env: Env, from: Pubkey, amount: u64) returns (r: Result<Event>)
      modifies this`tokens
      ensures r == DecideDonate(old(Accounts()), env.now, from, amount)
      ensures Accounts() == if r.Ok? then Evolve(old(Accounts()), env.now, r.value) else old(Accounts())
    {
      var t :- WalletToVault(tokens, from, amount);
      tokens := t;
      return Ok(VaultDonated(from, amount));
    }

    /** USDC sent straight to the treasury. */
    method SendToTreasury(env: Env, from: Pubkey, amount: u64) returns (r: Result<Event>)
      modifies this`tokens
      ensures r == DecideSendToTreasury(old(Accounts()), env.now, from, amount)
      ensures Accounts() == if r.Ok? then Evolve(old(Accounts()), env.now, r.value) else old(Accounts())
    {
      var t :- WalletToTreasury(tokens, from, amount);
      tokens := t;
      return Ok(TreasuryReceived(from, amount));
    }

    /** USDC spent from the treasury by its owner. */
    method SpendTreasury(env: Env, to: Pubkey, amount: u64) returns (r: Result<Event>)
      modifies this`tokens
      ensures r == DecideSpendTreasury(old(Accounts()), env.now, to, amount)
      ensures Accounts() == if r.Ok? then Evolve(old(Accounts()), env.now, r.value) else old(Accounts())
    {
      var t :- TreasuryToWallet(tokens, to, amount);
      tokens := t;
      return Ok(TreasurySpent(to, amount));
    }

    /** A USDC transfer between wallets. */
    method TransferUsdc(env: Env, from: Pubkey, to: Pubkey, amount: u64) returns (r: Result<Event>)
      modifies this`tokens
      ensures r == DecideTransferUsdc(old(Accounts()), env.now, from, to, amount)
      ensures Accounts() == if r.Ok? then Evolve(old(Accounts()), env.now, r.value) else old(Accounts())
    {
      if from == to || amount > BalanceOf(tokens.wallets, from) { return Err(TokenInsufficientFunds); }
      if BalanceOf(tokens.wallets, to) + amount > U64_MAX { return Err(TokenOverflow); }
      tokens := tokens.(wallets := Moved(tokens.wallets, from, to, amount));
      return Ok(UsdcMoved(from, to, amount));
    }

    /** A share transfer between holders. */
    method TransferShares(env: Env, from: Pubkey, to: Pubkey, amount: u64) returns (r: Result<Event>)
      modifies this`tokens
      ensures r == DecideTransferShares(old(Accounts()), env.now, from, to, amount)
      ensures Accounts() == if r.Ok? then Evolve(old(Accounts()), env.now, r.value) else old(Accounts())
    {
      if from == to || amount > BalanceOf(tokens.shares, from) { return Err(TokenInsufficientFunds); }
      if BalanceOf(tokens.shares, to) + amount > U64_MAX { return Err(TokenOverflow); }
      tokens := tokens.(shares := Moved(tokens.shares, from, to, amount));
      return Ok(SharesMoved(from, to, amount));
    }

    /** A holder burning shares without withdrawing. */
    method BurnShares(env: Env, from: Pubkey, amount: u64) returns (r: Result<Event>)
      modifies this`tokens
      ensures r == DecideBurn(old(Accounts()), env.now, from, amount)
      ensures Accounts() == if r.Ok? then Evolve(old(Accounts()), env.now, r.value) else old(Accounts())
    {
      var t :- Burn(tokens, from, amount);
      tokens := t;
      return Ok(SharesBurned(from, amount));
    }
  }
}
