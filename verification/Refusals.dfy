/** Why an instruction is refused: for each of the five lending instructions, which error
    answers which state, said in the accounts' own figures. */
module Refusals {
  import opened Numbers
  import opened Attestation
  import opened Introspection
  import opened Ledger
  import opened Handlers
  import opened Effects

  /** The preview answers, with at least one share. */
  predicate Mintable(p: Pool, amount: u64) {
    && 0 < amount && amount * (p.totalShares + 1_000_000_000) < 0x1_0000_0000_0000_0000_0000_0000_0000_0000
    && 0 < SharesFor(p, amount) <= U64_MAX
  }

  lemma DepositRefused(s: State, env: Env, lp: Pubkey, amount: u64)
    requires Decide(s, Tx(env, Deposit(lp, amount))).Err?
    ensures
      var p, t, error := s.pool, s.tokens, Decide(s, Tx(env, Deposit(lp, amount))).error;
      error == (if !Mintable(p, amount) then MathOverflow
                else if BalanceOf(t.wallets, lp) < amount then TokenInsufficientFunds
                else if U64_MAX < t.vault + amount || U64_MAX < BalanceOf(t.shares, lp) + SharesFor(p, amount)
                then TokenOverflow
                else MathOverflow)
  {
    hide BalanceOf;
    MulMono(0, amount, s.pool.totalShares + 1_000_000_000);
    DivNonNegative(amount * (s.pool.totalShares + 1_000_000_000), s.pool.totalAssets + 1_000_000);
  }

  predicate Redeemable(p: Pool, shares: u64) {
    && 0 < shares && shares * (p.totalAssets + 1_000_000) < 0x1_0000_0000_0000_0000_0000_0000_0000_0000
    && 0 < AssetsFor(p, shares) <= U64_MAX
  }

  lemma WithdrawRefused(s: State, env: Env, lp: Pubkey, shares: u64)
    requires Decide(s, Tx(env, Withdraw(lp, shares))).Err?
    ensures
      var p, t, error := s.pool, s.tokens, Decide(s, Tx(env, Withdraw(lp, shares))).error;
      error == (if !Redeemable(p, shares) then MathOverflow
                else if t.vault < AssetsFor(p, shares) then InsufficientIdleLiquidity
                else if BalanceOf(t.shares, lp) < shares then TokenInsufficientFunds
                else if U64_MAX < BalanceOf(t.wallets, lp) + AssetsFor(p, shares) then TokenOverflow
                else MathOverflow)
  {
    hide BalanceOf;
    MulMono(0, shares, s.pool.totalAssets + 1_000_000);
    DivNonNegative(shares * (s.pool.totalAssets + 1_000_000), s.pool.totalShares + 1_000_000_000);
  }

  /** In order: the accounts, the minimum, the attestation, the window, the credit, the absolute
      limit, the vault, the wallet, and last the pool's exposure.  (Where gifts have let lending
      exceed the assets, no request succeeds, but pricing may be what stops it.) */
  lemma RequestRefused(s: State, env: Env, agent: Pubkey, receivable: Bytes, amount: u64, nonce: Bytes, signer: Pubkey)
    requires s.pool.params.curve.Valid()
    requires Decide(s, Tx(env, RequestAdvance(agent, receivable, amount, nonce, signer))).Err?
    ensures
      var error := Decide(s, Tx(env, RequestAdvance(agent, receivable, amount, nonce, signer))).error;
      var p, t, w, key := s.pool, s.tokens, WindowAt(s, agent, env.now), Key(agent, receivable);
      if signer !in s.registry.allowed then error == AccountNotInitialized
      else if key in s.advances || key in s.consumed then error == AccountInUse
      else if amount < 1_000_000 then error == AdvanceExceedsCap
      else if !CreditShown(s, env, agent, nonce, signer) then error == CreditFault(s, env, agent, nonce, signer)
      else
        var c := CreditSeen(env);
        if LimitFault(p.params, w, c, amount).Some? then error == LimitFault(p.params, w, c, amount).value
        else if p.deployed <= p.totalAssets then
          error == (if t.vault < amount then TokenInsufficientFunds
                    else if U64_MAX < BalanceOf(t.wallets, agent) + amount then TokenOverflow
                    else if U64_MAX < p.deployed + amount then MathOverflow
                    else InsufficientIdleLiquidity)
        else true
  {
    hide AcceptCredit, ChargeLedger, PriceAdvance, CreditShown, CreditFault, LimitFault, WindowAt, BalanceOf;
    hide CreditAccepted, VerifyPrevEd25519, Decode, VersionOf, TermsQuoted, IssuePermitted;
    if signer in s.registry.allowed && amount >= 1_000_000 {
      FaultFound(s, env, agent, nonce, signer);
      AcceptedIfShown(s, env, agent, nonce, signer);
      if CreditShown(s, env, agent, nonce, signer) {
        LimitFound(s, env.now, agent, amount, CreditSeen(env));
        if s.pool.deployed <= s.pool.totalAssets {
          PricedIfValid(s, env.now, amount, signer, CreditSeen(env));
        }
      }
    }
  }

  /** The first limit an amount is over, if any: the window, the credit, the absolute one. */
  function LimitFault(params: Params, w: Issuance, c: Credit, amount: u64): Option<Error> {
    if U64_MAX < w.issuedInWindow + amount then Some(MathOverflow)
    else if 0 < params.agentWindowCap < w.issuedInWindow + amount then Some(AgentWindowCapExceeded)
    else if U64_MAX < c.outstanding + w.livePrincipal then Some(MathOverflow)
    else if c.creditLimit < c.outstanding + w.livePrincipal + amount then Some(AdvanceExceedsCredit)
    else if params.maxAdvanceAbs < amount then Some(AdvanceExceedsCap)
    else None
  }

  lemma LimitFound(s: State, now: i64, agent: Pubkey, amount: u64, c: Credit)
    requires MIN_ADVANCE_ATOMS <= amount
    ensures
      var fault := LimitFault(s.pool.params, WindowAt(s, agent, now), c, amount);
      var r := ChargeLedger(s, now, agent, amount, c);
      if fault.None? then r.Ok? else r == Err(fault.value)
  {
  }

  /** What is wrong with the attestation, the first thing found. */
  function CreditFault(s: State, env: Env, agent: Pubkey, nonce: Bytes, signer: Pubkey): Error
    requires signer in s.registry.allowed
  {
    match VerifyPrevEd25519(env.ixs, env.cur)
    case Rejected(Ed25519OffsetMismatch) => Ed25519MessageMismatch
    case Rejected(_) => Ed25519Missing
    case Signed(key, m) =>
      if |m| != 128 then Ed25519MessageMismatch
      else if key != signer || s.registry.allowed[signer] != 0 then Ed25519SignerUnknown
      else
        var c := Decode(m);
        if c.agent != agent || c.pool != s.config.poolKey || VersionOf(m) != 1 || c.nonce != nonce
        then Ed25519MessageMismatch
        else if c.chainId != s.config.chainId then InvalidChainId
        else if env.now < c.attestedAt then ReceivableStale
        else if env.now - c.attestedAt > I64_MAX then ArithmeticPanic
        else if env.now - c.attestedAt > 900 then ReceivableStale
        else ReceivableExpired
  }

  lemma FaultFound(s: State, env: Env, agent: Pubkey, nonce: Bytes, signer: Pubkey)
    requires signer in s.registry.allowed
    ensures AcceptCredit(s, env, agent, nonce, signer).Err? ==>
              AcceptCredit(s, env, agent, nonce, signer) == Err(CreditFault(s, env, agent, nonce, signer))
  {
    hide VerifyPrevEd25519, Decode, VersionOf;
  }

  lemma SettleRefused(s: State, env: Env, agent: Pubkey, key: Key, payment: u64)
    requires Decide(s, Tx(env, ClaimAndSettle(agent, key, payment))).Err?
    ensures
      var error := Decide(s, Tx(env, ClaimAndSettle(agent, key, payment))).error;
      if key !in s.advances then error == AccountNotInitialized
      else if agent != key.agent then error == InvalidPayer
      else if key !in s.consumed || agent !in s.issuance then error == AccountNotInitialized
      else
        var a, wallet := s.advances[key], BalanceOf(s.tokens.wallets, agent);
        var cut, owed := Cut(a, env.now), a.principal + Fees(a, env.now);
        if a.expiresAt + 1_209_600 > I64_MAX then error == MathOverflow
        else if env.now >= a.expiresAt + 1_209_600 then error == NotSettleable
        else if !HasMemo(env.ixs, s.consumed[key].nonce) then error == MemoNonceMismatch
        else if env.now - a.expiresAt < I64_MIN then error == ArithmeticPanic
        else if owed > U64_MAX then error == MathOverflow
        else if payment < owed then error == WaterfallSumMismatch
        else if wallet < cut then error == TokenInsufficientFunds
        else if s.tokens.treasury + cut > U64_MAX then error == TokenOverflow
        else if wallet < owed then error == TokenInsufficientFunds
        else if s.tokens.vault + owed - cut > U64_MAX then error == TokenOverflow
        else error == MathOverflow
  {
    hide HasMemo, BalanceOf, Waterfall;
    if key in s.advances {
      SplitAccepted(s.advances[key], env.now, payment);
      SplitRefused(s.advances[key], env.now, payment);
    }
    hide Fees, Cut;
  }

  lemma SplitRefused(a: Advance, now: i64, payment: u64)
    ensures Waterfall(a, now, payment).Err? && now - a.expiresAt <= I64_MAX ==>
              Waterfall(a, now, payment).error
              == (if now - a.expiresAt < I64_MIN then ArithmeticPanic
                  else if a.principal + Fees(a, now) > U64_MAX then MathOverflow
                  else WaterfallSumMismatch)
  {
    MulMono(0, Min(Max(now - a.expiresAt, 0) / 86_400, 365), a.latePenaltyPerDay);
  }

  lemma LiquidateRefused(s: State, env: Env, key: Key)
    requires Decide(s, Tx(env, Liquidate(key))).Err?
    ensures
      var error := Decide(s, Tx(env, Liquidate(key))).error;
      if key !in s.advances || key !in s.consumed || key.agent !in s.issuance then error == AccountNotInitialized
      else if key in s.tombstones then error == AccountInUse
      else if env.now < s.advances[key].expiresAt + 1_209_600 <= I64_MAX then error == NotLiquidatable
      else error == MathOverflow
  {
  }
}
