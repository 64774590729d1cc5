/** What each instruction asks for and what it changes, said in the accounts' own figures and in
    plain numbers: the exact condition for acceptance, the effect on every account, and what
    stays as it was.  Nothing here is said through the definitions the handlers compute with. */
module Effects {
  import opened Numbers
  import opened Pricing
  import opened Attestation
  import opened Introspection
  import opened Ledger
  import opened Handlers

  /** Among all holders only `k`'s balance changes, by `delta`. */
  ghost predicate OnlyChanges(b: Balances, b': Balances, k: Pubkey, delta: int) {
    && BalanceOf(b', k) - BalanceOf(b, k) == delta
    && forall j :: j != k ==> BalanceOf(b', j) == BalanceOf(b, j)
  }

  /** Debits and credits, seen holder by holder. */
  lemma BalancesMove(b: Balances, k: Pubkey, amount: u64)
    ensures amount <= BalanceOf(b, k) ==> OnlyChanges(b, Debit(b, k, amount), k, 0 - amount)
    ensures BalanceOf(b, k) + amount <= U64_MAX ==> OnlyChanges(b, Credited(b, k, amount), k, amount)
  {
  }

  // ---- LPs ----

  /** `amount` for `minted` shares: the floor of its part of the shares, both sides with their offset. */
  function SharesFor(p: Pool, amount: u64): int {
    amount * (p.totalShares + 1_000_000_000) / (p.totalAssets + 1_000_000)
  }

  function AssetsFor(p: Pool, shares: u64): int {
    shares * (p.totalAssets + 1_000_000) / (p.totalShares + 1_000_000_000)
  }

  ghost predicate DepositAsks(p: Pool, t: Tokens, lp: Pubkey, amount: u64) {
    && 0 < amount <= BalanceOf(t.wallets, lp) && 0 < SharesFor(p, amount)
    && amount * (p.totalShares + 1_000_000_000) < 0x1_0000_0000_0000_0000_0000_0000_0000_0000
    && t.vault + amount <= U64_MAX && BalanceOf(t.shares, lp) + SharesFor(p, amount) <= U64_MAX
    && p.totalAssets + amount <= U64_MAX && p.totalShares + SharesFor(p, amount) <= U64_MAX
  }

  /** The LP pays the amount into the vault and gets the shares; every other account stays. */
  ghost predicate DepositDoes(s: State, s': State, lp: Pubkey, amount: u64) {
    && s'.pool.totalAssets == s.pool.totalAssets + amount
    && s'.pool.totalShares == s.pool.totalShares + SharesFor(s.pool, amount)
    && s'.tokens.vault == s.tokens.vault + amount
    && OnlyChanges(s.tokens.wallets, s'.tokens.wallets, lp, 0 - amount)
    && OnlyChanges(s.tokens.shares, s'.tokens.shares, lp, SharesFor(s.pool, amount))
    && s' == s.(pool := s.pool.(totalAssets := s'.pool.totalAssets, totalShares := s'.pool.totalShares),
                tokens := s'.tokens.(treasury := s.tokens.treasury))
  }

  lemma DepositAnswered(s: State, env: Env, lp: Pubkey, amount: u64)
    ensures
      var r := DecideDeposit(s, lp, amount);
      && (r.Ok? <==> DepositAsks(s.pool, s.tokens, lp, amount))
      && (r.Ok? ==> Permitted(s, env.now, r.value) && DepositDoes(s, Evolve(s, env.now, r.value), lp, amount))
  {
    var p, t := s.pool, s.tokens;
    MulMono(0, amount, p.totalShares + 1_000_000_000);
    DivNonNegative(amount * (p.totalShares + 1_000_000_000), p.totalAssets + 1_000_000);
    BalancesMove(t.wallets, lp, amount);
    if SharesFor(p, amount) <= U64_MAX {
      BalancesMove(t.shares, lp, SharesFor(p, amount));
    }
    hide Debit, Credited, OnlyChanges, BalanceOf, IsFloor;
  }

  lemma DepositOutcome(s: State, env: Env, lp: Pubkey, amount: u64)
    ensures
      var r := Decide(s, Tx(env, Deposit(lp, amount)));
      && (r.Ok? <==> DepositAsks(s.pool, s.tokens, lp, amount))
      && (r.Ok? ==> Permitted(s, env.now, r.value) && DepositDoes(s, Evolve(s, env.now, r.value), lp, amount))
  {
    hide DepositAsks, DepositDoes, Permitted, Evolve, DecideDeposit;
    DepositAnswered(s, env, lp, amount);
  }

  ghost predicate WithdrawAsks(p: Pool, t: Tokens, lp: Pubkey, shares: u64) {
    && 0 < shares <= BalanceOf(t.shares, lp) && 0 < AssetsFor(p, shares) <= t.vault
    && shares * (p.totalAssets + 1_000_000) < 0x1_0000_0000_0000_0000_0000_0000_0000_0000
    && BalanceOf(t.wallets, lp) + AssetsFor(p, shares) <= U64_MAX
    && AssetsFor(p, shares) <= p.totalAssets && shares <= p.totalShares
  }

  /** The LP gives up exactly the shares and is paid the assets from the vault; every other account stays. */
  ghost predicate WithdrawDoes(s: State, s': State, lp: Pubkey, shares: u64) {
    && s'.pool.totalAssets == s.pool.totalAssets - AssetsFor(s.pool, shares)
    && s'.pool.totalShares == s.pool.totalShares - shares
    && s'.tokens.vault == s.tokens.vault - AssetsFor(s.pool, shares)
    && OnlyChanges(s.tokens.wallets, s'.tokens.wallets, lp, AssetsFor(s.pool, shares))
    && OnlyChanges(s.tokens.shares, s'.tokens.shares, lp, 0 - shares)
    && s' == s.(pool := s.pool.(totalAssets := s'.pool.totalAssets, totalShares := s'.pool.totalShares),
                tokens := s'.tokens.(treasury := s.tokens.treasury))
  }

  lemma WithdrawAnswered(s: State, env: Env, lp: Pubkey, shares: u64)
    ensures
      var r := DecideWithdraw(s, lp, shares);
      && (r.Ok? <==> WithdrawAsks(s.pool, s.tokens, lp, shares))
      && (r.Ok? ==> Permitted(s, env.now, r.value) && WithdrawDoes(s, Evolve(s, env.now, r.value), lp, shares))
  {
    var p, t := s.pool, s.tokens;
    MulMono(0, shares, p.totalAssets + 1_000_000);
    DivNonNegative(shares * (p.totalAssets + 1_000_000), p.totalShares + 1_000_000_000);
    BalancesMove(t.shares, lp, shares);
    if AssetsFor(p, shares) <= U64_MAX {
      BalancesMove(t.wallets, lp, AssetsFor(p, shares));
    }
    hide Debit, Credited, OnlyChanges, BalanceOf, IsFloor;
  }

  lemma WithdrawOutcome(s: State, env: Env, lp: Pubkey, shares: u64)
    ensures
      var r := Decide(s, Tx(env, Withdraw(lp, shares)));
      && (r.Ok? <==> WithdrawAsks(s.pool, s.tokens, lp, shares))
      && (r.Ok? ==> Permitted(s, env.now, r.value) && WithdrawDoes(s, Evolve(s, env.now, r.value), lp, shares))
  {
    hide WithdrawAsks, WithdrawDoes, Permitted, Evolve, DecideWithdraw;
    WithdrawAnswered(s, env, lp, shares);
  }

  // ---- Agents ----

  /** The agent's window as `now` finds it: still running, or a new one. */
  function WindowAt(s: State, agent: Pubkey, now: i64): (w: Issuance) {
    if agent !in s.issuance then Issuance(now, 0, 0)
    else if now - s.issuance[agent].windowStart < 86_400 then s.issuance[agent]
    else Issuance(now, 0, s.issuance[agent].livePrincipal)
  }

  /** The previous instruction verified one signature, by a listed bridge signer, of a 128-byte
      version-1 credit for this agent, pool, nonce and cluster, at most 900 seconds old and unexpired. */
  ghost predicate CreditShown(s: State, env: Env, agent: Pubkey, nonce: Bytes, signer: Pubkey) {
    var seen := VerifyPrevEd25519(env.ixs, env.cur);
    && seen.Signed? && seen.pubkey == signer && |seen.message| == 128 && VersionOf(seen.message) == 1
    && signer in s.registry.allowed && s.registry.allowed[signer] == 0
    && var c := Decode(seen.message);
    && c.agent == agent && c.pool == s.config.poolKey && c.nonce == nonce && c.chainId == s.config.chainId
    && c.attestedAt <= env.now <= c.attestedAt + 900 && env.now < c.expiresAt
  }

  /** The credit in the previous instruction. */
  function CreditSeen(env: Env): Credit
    requires VerifyPrevEd25519(env.ixs, env.cur).Signed? && |VerifyPrevEd25519(env.ixs, env.cur).message| == 128
  {
    Decode(VerifyPrevEd25519(env.ixs, env.cur).message)
  }

  ghost predicate RequestAsks(s: State, env: Env, agent: Pubkey, receivable: Bytes, amount: u64, nonce: Bytes,
                              signer: Pubkey)
  {
    && Key(agent, receivable) !in s.advances && Key(agent, receivable) !in s.consumed
    && CreditShown(s, env, agent, nonce, signer)
    && var c, w, p := CreditSeen(env), WindowAt(s, agent, env.now), s.pool;
    && 1_000_000 <= amount <= p.params.maxAdvanceAbs
    && w.issuedInWindow + amount <= (if p.params.agentWindowCap > 0 then p.params.agentWindowCap else U64_MAX)
    && c.outstanding + w.livePrincipal + amount <= c.creditLimit
    && amount <= s.tokens.vault && BalanceOf(s.tokens.wallets, agent) + amount <= U64_MAX
    && p.deployed + amount <= p.totalAssets
  }

  /** The fee for the credit's remaining life at the pool's present utilization, and a tenth of a
      percent a day once late, marked up by the surcharge. */
  ghost predicate TermsQuoted(p: Pool, now: i64, expires: i64, a: Advance) {
    && var u := if p.totalAssets == 0 then 10_000 else p.deployed * 10_000 / p.totalAssets;
    && 0 <= u <= 10_000
    && FeeAmount(a.principal, Min(Max(expires - now, 0), I64_MAX), u, 0, p.params.curve) == Ok(a.feeOwed)
    && a.latePenaltyPerDay == a.principal / 1_000 * (10_000 + p.params.curve.poolLossSurchargeBps) / 10_000
  }

  /** The agent is paid from the vault; the advance, its record and the charged window appear. */
  ghost predicate RequestDoes(s: State, s': State, env: Env, agent: Pubkey, receivable: Bytes, amount: u64,
                              nonce: Bytes, signer: Pubkey)
    requires CreditShown(s, env, agent, nonce, signer)
  {
    var key, w, c := Key(agent, receivable), WindowAt(s, agent, env.now), CreditSeen(env);
    && key in s'.advances && agent in s'.issuance
    && var a, w' := s'.advances[key], s'.issuance[agent];
    && a == Advance(amount, a.feeOwed, a.latePenaltyPerDay, env.now, c.expiresAt, signer)
    && TermsQuoted(s.pool, env.now, c.expiresAt, a)
    && w'.windowStart == w.windowStart && w'.issuedInWindow == w.issuedInWindow + amount
    && w'.livePrincipal == w.livePrincipal + amount
    && s'.pool.deployed == s.pool.deployed + amount && s'.tokens.vault == s.tokens.vault - amount
    && OnlyChanges(s.tokens.wallets, s'.tokens.wallets, agent, amount)
    && s' == s.(pool := s.pool.(deployed := s'.pool.deployed),
                tokens := s.tokens.(vault := s'.tokens.vault, wallets := s'.tokens.wallets),
                advances := s.advances[key := a],
                consumed := s.consumed[key := Consumed(nonce, env.now)],
                issuance := s.issuance[agent := w'])
  }

  /** A request under a valid curve is answered as it should be: `s'` is the state it leaves. */
  ghost predicate RequestMet(s: State, s': State, accepted: bool, env: Env, agent: Pubkey, receivable: Bytes,
                             amount: u64, nonce: Bytes, signer: Pubkey)
  {
    s.pool.params.curve.Valid() ==>
      && (accepted <==> RequestAsks(s, env, agent, receivable, amount, nonce, signer))
      && (accepted ==> RequestDoes(s, s', env, agent, receivable, amount, nonce, signer))
  }

  lemma RequestIsMet(s: State, env: Env, agent: Pubkey, receivable: Bytes, amount: u64, nonce: Bytes, signer: Pubkey)
    ensures
      var r := DecideRequest(s, env, agent, receivable, amount, nonce, signer);
      && (r.Ok? ==> Permitted(s, env.now, r.value))
      && RequestMet(s, if r.Ok? then Evolve(s, env.now, r.value) else s, r.Ok?,
                    env, agent, receivable, amount, nonce, signer)
  {
    if s.pool.params.curve.Valid() {
      RequestAnswered(s, env, agent, receivable, amount, nonce, signer);
    }
    hide DecideRequest, Evolve, RequestAsks, RequestDoes, IssuePermitted;
  }

  /** Under a valid curve, which every run keeps in force. */
  lemma RequestAnswered(s: State, env: Env, agent: Pubkey, receivable: Bytes, amount: u64, nonce: Bytes, signer: Pubkey)
    requires s.pool.params.curve.Valid()
    ensures
      var r := DecideRequest(s, env, agent, receivable, amount, nonce, signer);
      && (r.Ok? <==> RequestAsks(s, env, agent, receivable, amount, nonce, signer))
      && (r.Ok? ==>
            && Permitted(s, env.now, r.value)
            && RequestDoes(s, Evolve(s, env.now, r.value), env, agent, receivable, amount, nonce, signer))
  {
    RequestAccepted(s, env, agent, receivable, amount, nonce, signer);
    if DecideRequest(s, env, agent, receivable, amount, nonce, signer).Ok? {
      RequestDone(s, env, agent, receivable, amount, nonce, signer);
    }
    hide RequestAsks, RequestDoes, DecideRequest, IssuePermitted, Evolve;
  }

  lemma RequestOutcome(s: State, env: Env, agent: Pubkey, receivable: Bytes, amount: u64, nonce: Bytes, signer: Pubkey)
    requires s.pool.params.curve.Valid()
    ensures
      var r := Decide(s, Tx(env, RequestAdvance(agent, receivable, amount, nonce, signer)));
      && (r.Ok? <==> RequestAsks(s, env, agent, receivable, amount, nonce, signer))
      && (r.Ok? ==>
            && Permitted(s, env.now, r.value)
            && RequestDoes(s, Evolve(s, env.now, r.value), env, agent, receivable, amount, nonce, signer))
  {
    hide RequestAsks, RequestDoes, Permitted, Evolve, DecideRequest;
    RequestAnswered(s, env, agent, receivable, amount, nonce, signer);
  }

  lemma AcceptedIfShown(s: State, env: Env, agent: Pubkey, nonce: Bytes, signer: Pubkey)
    requires signer in s.registry.allowed
    ensures AcceptCredit(s, env, agent, nonce, signer).Ok? <==> CreditShown(s, env, agent, nonce, signer)
    ensures CreditShown(s, env, agent, nonce, signer) ==>
              AcceptCredit(s, env, agent, nonce, signer) == Ok(CreditSeen(env))
  {
    hide VerifyPrevEd25519, Decode, VersionOf;
  }

  lemma ChargedIfRoom(s: State, now: i64, agent: Pubkey, amount: u64, c: Credit)
    requires MIN_ADVANCE_ATOMS <= amount
    ensures
      var w, r := WindowAt(s, agent, now), ChargeLedger(s, now, agent, amount, c);
      && (r.Ok? <==>
          && w.issuedInWindow + amount
             <= (if s.pool.params.agentWindowCap > 0 then s.pool.params.agentWindowCap else U64_MAX)
          && c.outstanding + w.livePrincipal + amount <= c.creditLimit && amount <= s.pool.params.maxAdvanceAbs)
      && (r.Ok? ==>
          && r.value.windowStart == w.windowStart && r.value.issuedInWindow == w.issuedInWindow + amount
          && r.value.livePrincipal == w.livePrincipal + amount)
  {
  }

  lemma PricedIfValid(s: State, now: i64, amount: u64, signer: Pubkey, c: Credit)
    requires s.pool.params.curve.Valid() && s.pool.deployed <= s.pool.totalAssets
    ensures
      var r := PriceAdvance(s, now, amount, signer, c);
      && r.Ok? && TermsQuoted(s.pool, now, c.expiresAt, r.value)
      && r.value == Advance(amount, r.value.feeOwed, r.value.latePenaltyPerDay, now, c.expiresAt, signer)
  {
    var duration: u64 := Max(SaturatingSubI64(c.expiresAt, now), 0);
    UtilizationExactly(s.pool.totalAssets, s.pool.deployed);
    UtilizationWithinPool(s.pool.totalAssets, s.pool.deployed);
    var u := UtilizationBps(s.pool.totalAssets, s.pool.deployed);
    FeeMonotone(amount, duration, u, 0, amount, duration, u, 0, s.pool.params.curve);
    LatePenaltyExactly(amount, s.pool.params.curve);
    hide FeeAmount, UtilizationBps, LatePenaltyPerDay;
  }

  lemma RequestAccepted(s: State, env: Env, agent: Pubkey, receivable: Bytes, amount: u64, nonce: Bytes, signer: Pubkey)
    requires s.pool.params.curve.Valid()
    ensures DecideRequest(s, env, agent, receivable, amount, nonce, signer).Ok?
            <==> RequestAsks(s, env, agent, receivable, amount, nonce, signer)
  {
    hide AcceptCredit, ChargeLedger, PriceAdvance, WindowAt, FeeAmount;
    if signer in s.registry.allowed && amount >= 1_000_000 {
      AcceptedIfShown(s, env, agent, nonce, signer);
      hide CreditAccepted, VerifyPrevEd25519, Decode, VersionOf;
      if CreditShown(s, env, agent, nonce, signer) {
        ChargedIfRoom(s, env.now, agent, amount, CreditSeen(env));
        if s.pool.deployed <= s.pool.totalAssets {
          PricedIfValid(s, env.now, amount, signer, CreditSeen(env));
        }
      }
      hide CreditShown;
    }
  }

  lemma RequestDone(s: State, env: Env, agent: Pubkey, receivable: Bytes, amount: u64, nonce: Bytes, signer: Pubkey)
    requires s.pool.params.curve.Valid()
    requires DecideRequest(s, env, agent, receivable, amount, nonce, signer).Ok?
    ensures
      var e := DecideRequest(s, env, agent, receivable, amount, nonce, signer).value;
      && CreditShown(s, env, agent, nonce, signer)
      && Permitted(s, env.now, e)
      && RequestDoes(s, Evolve(s, env.now, e), env, agent, receivable, amount, nonce, signer)
  {
    AcceptedIfShown(s, env, agent, nonce, signer);
    hide AcceptCredit, CreditShown, VerifyPrevEd25519, Decode, VersionOf;
    ChargedIfRoom(s, env.now, agent, amount, CreditSeen(env));
    PricedIfValid(s, env.now, amount, signer, CreditSeen(env));
    BalancesMove(s.tokens.wallets, agent, amount);
    hide ChargeLedger, PriceAdvance, TermsQuoted, CreditAccepted, TermsFromCurve, OnlyChanges, Credited, Debit;
  }

  /** The fee, and a penalty for each whole day past the expiry, for at most 365 days. */
  function Fees(a: Advance, now: i64): int {
    a.feeOwed + Min(Max(now - a.expiresAt, 0) / 86_400, 365) * a.latePenaltyPerDay
  }

  /** The treasury's part: 15%, rounded down. */
  function Cut(a: Advance, now: i64): int { Fees(a, now) * 15 / 100 }

  ghost predicate SettleAsks(s: State, env: Env, agent: Pubkey, key: Key, payment: u64) {
    && key in s.advances && key in s.consumed && agent == key.agent && agent in s.issuance
    && var a, now := s.advances[key], env.now;
    && now < a.expiresAt + 1_209_600 <= I64_MAX && I64_MIN <= now - a.expiresAt
    && HasMemo(env.ixs, s.consumed[key].nonce)
    && a.principal + Fees(a, now) <= payment
    && a.principal + Fees(a, now) <= BalanceOf(s.tokens.wallets, agent)
    && s.tokens.treasury + Cut(a, now) <= U64_MAX
    && s.tokens.vault + a.principal + Fees(a, now) - Cut(a, now) <= U64_MAX
    && a.principal <= s.issuance[agent].livePrincipal && a.principal <= s.pool.deployed
    && s.pool.totalAssets + Fees(a, now) - Cut(a, now) <= U64_MAX
    && s.pool.accruedFees + Cut(a, now) <= U64_MAX
  }

  /** The agent pays principal and fees, no more; the advance is gone; every other account stays. */
  ghost predicate SettleDoes(s: State, s': State, now: i64, key: Key)
    requires key in s.advances && key.agent in s.issuance
  {
    var a, l := s.advances[key], s.issuance[key.agent];
    && OnlyChanges(s.tokens.wallets, s'.tokens.wallets, key.agent, 0 - (a.principal + Fees(a, now)))
    && s'.tokens.treasury == s.tokens.treasury + Cut(a, now)
    && s'.tokens.vault == s.tokens.vault + a.principal + Fees(a, now) - Cut(a, now)
    && s'.pool.deployed == s.pool.deployed - a.principal
    && s'.pool.totalAssets == s.pool.totalAssets + Fees(a, now) - Cut(a, now)
    && s'.pool.accruedFees == s.pool.accruedFees + Cut(a, now)
    && key.agent in s'.issuance
    && s'.issuance[key.agent].livePrincipal == l.livePrincipal - a.principal
    && s' == s.(pool := s.pool.(deployed := s'.pool.deployed, totalAssets := s'.pool.totalAssets,
                                accruedFees := s'.pool.accruedFees),
                tokens := s'.tokens.(shares := s.tokens.shares),
                advances := s.advances - {key},
                issuance := s.issuance[key.agent := l.(livePrincipal := s'.issuance[key.agent].livePrincipal)])
  }

  /** The event of a settlement, in plain figures. */
  lemma SplitInFigures(s: State, now: i64, e: Event)
    requires e.AdvanceSettled? && Permitted(s, now, e)
    ensures e.key in s.advances && e.principal == s.advances[e.key].principal
    ensures e.lpFee + e.protocolCut == Fees(s.advances[e.key], now) && e.protocolCut == Cut(s.advances[e.key], now)
  {
    DivUnique(Fees(s.advances[e.key], now) * 1_500, 10_000, e.protocolCut);
    DivFloor(Fees(s.advances[e.key], now) * 15, 100);
  }

  lemma SettleAnswered(s: State, env: Env, agent: Pubkey, key: Key, payment: u64)
    ensures
      var r := DecideSettle(s, env, agent, key, payment);
      && (r.Ok? <==> SettleAsks(s, env, agent, key, payment))
      && (r.Ok? ==> Permitted(s, env.now, r.value) && SettleDoes(s, Evolve(s, env.now, r.value), env.now, key))
  {
    var r := DecideSettle(s, env, agent, key, payment);
    SettleAccepted(s, env, agent, key, payment);
    if r.Ok? {
      SettleDone(s, env.now, r.value);
    }
    hide DecideSettle, SettleAsks, SettleDoes, SettlePermitted, Evolve;
  }

  lemma SettleOutcome(s: State, env: Env, agent: Pubkey, key: Key, payment: u64)
    ensures
      var r := Decide(s, Tx(env, ClaimAndSettle(agent, key, payment)));
      && (r.Ok? <==> SettleAsks(s, env, agent, key, payment))
      && (r.Ok? ==> Permitted(s, env.now, r.value) && SettleDoes(s, Evolve(s, env.now, r.value), env.now, key))
  {
    hide SettleAsks, SettleDoes, Permitted, Evolve, DecideSettle;
    SettleAnswered(s, env, agent, key, payment);
  }

  lemma SettleAccepted(s: State, env: Env, agent: Pubkey, key: Key, payment: u64)
    ensures DecideSettle(s, env, agent, key, payment).Ok? <==> SettleAsks(s, env, agent, key, payment)
  {
    hide HasMemo, IsFloor, BalanceOf, Waterfall;
    if key in s.advances {
      SplitAccepted(s.advances[key], env.now, payment);
    }
    hide Fees, Cut;
  }

  lemma SplitAccepted(a: Advance, now: i64, payment: u64)
    ensures Waterfall(a, now, payment).Ok? <==>
            I64_MIN <= now - a.expiresAt <= I64_MAX && a.principal + Fees(a, now) <= payment
    ensures Waterfall(a, now, payment).Ok? ==>
              && Waterfall(a, now, payment).value.protocolCut == Cut(a, now)
              && Waterfall(a, now, payment).value.lpFee == Fees(a, now) - Cut(a, now)
  {
    MulMono(0, Min(Max(now - a.expiresAt, 0) / 86_400, 365), a.latePenaltyPerDay);
  }

  lemma SettleDone(s: State, now: i64, e: Event)
    requires e.AdvanceSettled? && Permitted(s, now, e)
    ensures e.key in s.advances && e.key.agent in s.issuance
    ensures SettleDoes(s, Evolve(s, now, e), now, e.key)
  {
    SplitInFigures(s, now, e);
    BalancesMove(s.tokens.wallets, e.key.agent, e.principal + e.lpFee + e.protocolCut);
    hide IsFloor, Fees, Cut, FeeDue, LateDays, OnlyChanges, Debit, BalanceOf;
  }

  // ---- Anyone ----

  ghost predicate LiquidateAsks(s: State, now: i64, key: Key) {
    && key in s.advances && key in s.consumed && key !in s.tombstones && key.agent in s.issuance
    && var a := s.advances[key];
    && a.expiresAt + 1_209_600 <= now
    && a.principal <= s.issuance[key.agent].livePrincipal
    && a.principal <= s.pool.deployed && a.principal <= s.pool.totalAssets
  }

  /** The principal is written off and the tombstone says what, when due and when; no token moves. */
  ghost predicate LiquidateDoes(s: State, s': State, now: i64, key: Key)
    requires key in s.advances && key.agent in s.issuance
  {
    var a, l := s.advances[key], s.issuance[key.agent];
    && s'.pool.deployed == s.pool.deployed - a.principal
    && s'.pool.totalAssets == s.pool.totalAssets - a.principal
    && key.agent in s'.issuance
    && s'.issuance[key.agent].livePrincipal == l.livePrincipal - a.principal
    && s' == s.(pool := s.pool.(deployed := s'.pool.deployed, totalAssets := s'.pool.totalAssets),
                advances := s.advances - {key},
                tombstones := s.tombstones[key := Tombstone(a.principal, a.expiresAt, now)],
                issuance := s.issuance[key.agent := l.(livePrincipal := s'.issuance[key.agent].livePrincipal)])
  }

  lemma LiquidateAnswered(s: State, env: Env, key: Key)
    ensures
      var r := DecideLiquidate(s, env.now, key);
      && (r.Ok? <==> LiquidateAsks(s, env.now, key))
      && (r.Ok? ==> Permitted(s, env.now, r.value) && LiquidateDoes(s, Evolve(s, env.now, r.value), env.now, key))
  {
    hide IsFloor, TermsFromCurve, CreditAccepted;
  }

  lemma LiquidateOutcome(s: State, env: Env, key: Key)
    ensures
      var r := Decide(s, Tx(env, Liquidate(key)));
      && (r.Ok? <==> LiquidateAsks(s, env.now, key))
      && (r.Ok? ==> Permitted(s, env.now, r.value) && LiquidateDoes(s, Evolve(s, env.now, r.value), env.now, key))
  {
    hide LiquidateAsks, LiquidateDoes, Permitted, Evolve, DecideLiquidate;
    LiquidateAnswered(s, env, key);
  }

  // ---- Governance ----

  /** Squads governance of the pool takes accrued fees out of the vault into the treasury; the
      booked assets stay. */
  lemma SkimOutcome(s: State, env: Env, amount: u64)
    ensures
      var p, t, r := s.pool, s.tokens, Decide(s, Tx(env, SkimProtocolFees(amount)));
      && (r.Ok? <==>
          && HasSquads(env.ixs, s.config.governance)
          && 0 < amount <= p.accruedFees && amount <= t.vault && t.treasury + amount <= U64_MAX)
      && (r.Ok? ==>
          && Permitted(s, env.now, r.value)
          && var s' := Evolve(s, env.now, r.value);
          && s'.pool.accruedFees == p.accruedFees - amount
          && s'.tokens.vault == t.vault - amount && s'.tokens.treasury == t.treasury + amount
          && s' == s.(pool := p.(accruedFees := s'.pool.accruedFees),
                      tokens := Tokens(s'.tokens.vault, s'.tokens.treasury, t.wallets, t.shares)))
      && (!HasSquads(env.ixs, s.config.governance) ==> r == Err(GovernanceRequired))
  {
    hide HasSquads;
  }

  /** A curve with rates in order and a kink and a maximum of at most 10,000 is staged for the
      timelock, replacing what was staged before, whatever time the caller asked for. */
  lemma ProposeOutcome(s: State, env: Env, params: Params, executeAfter: i64)
    ensures
      var c, r := params.curve, Decide(s, Tx(env, ProposeParams(params, executeAfter)));
      && (r.Ok? <==>
          && HasSquads(env.ixs, s.config.governance)
          && c.utilizationKinkBps <= 10_000 && c.baseRateBps <= c.kinkRateBps <= c.maxRateBps <= 10_000
          && I64_MIN <= env.now + s.config.timelock <= I64_MAX)
      && (r.Ok? ==>
          && Permitted(s, env.now, r.value)
          && Evolve(s, env.now, r.value)
             == s.(pool := s.pool.(pending := Some(Pending(params, env.now + s.config.timelock)))))
      && (!HasSquads(env.ixs, s.config.governance) ==> r == Err(GovernanceRequired))
      && (r == Err(InvalidFeeCurve) <==>
          && HasSquads(env.ixs, s.config.governance)
          && !(c.utilizationKinkBps <= 10_000 && c.baseRateBps <= c.kinkRateBps <= c.maxRateBps <= 10_000))
  {
    hide HasSquads;
  }

  /** Anyone puts the staged parameters in force, all of them, once their time has come. */
  lemma ExecuteOutcome(s: State, env: Env)
    ensures
      var p, r := s.pool, Decide(s, Tx(env, ExecuteParams));
      && (r.Ok? <==> p.pending.Some? && p.pending.value.executeAfter <= env.now)
      && (r.Ok? ==>
          && Permitted(s, env.now, r.value)
          && Evolve(s, env.now, r.value) == s.(pool := p.(params := p.pending.value.params, pending := None)))
      && (p.pending.None? ==> r == Err(NoPendingParams))
      && (p.pending.Some? && env.now < p.pending.value.executeAfter ==> r == Err(PendingParamsNotReady))
  {
  }

  /** The registry's governance lists a new signer of kind 0, removes a listed one, or hands over
      to any key but the all-zero one; nothing outside the registry changes. */
  lemma RegistryOutcome(s: State, env: Env, signer: Pubkey, kind: u16)
    ensures
      var add := Decide(s, Tx(env, AddAllowedSigner(signer, kind)));
      var remove := Decide(s, Tx(env, RemoveAllowedSigner(signer)));
      var handOver := Decide(s, Tx(env, SetGovernance(signer)));
      var authorised := HasSquads(env.ixs, s.registry.governance);
      && (add.Ok? <==> authorised && signer !in s.registry.allowed && kind == 0)
      && (add.Ok? ==>
          && Permitted(s, env.now, add.value)
          && Evolve(s, env.now, add.value)
             == s.(registry := Registry(s.registry.governance, s.registry.allowed[signer := 0])))
      && (remove.Ok? <==> authorised && signer in s.registry.allowed)
      && (remove.Ok? ==>
          && Permitted(s, env.now, remove.value)
          && Evolve(s, env.now, remove.value)
             == s.(registry := Registry(s.registry.governance, s.registry.allowed - {signer})))
      && (handOver.Ok? <==> authorised && signer != seq(32, _ => 0))
      && (handOver.Ok? ==>
          && Permitted(s, env.now, handOver.value)
          && Evolve(s, env.now, handOver.value) == s.(registry := Registry(signer, s.registry.allowed)))
  {
    hide HasSquads;
  }
}
