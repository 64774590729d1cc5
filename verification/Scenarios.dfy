/** Runs that exist: from a concrete deployment, step by step through accepted transactions, to
    the states the exact conditions of `Safety` speak of. */
module Scenarios {
  import opened Numbers
  import opened Pricing
  import opened Attestation
  import opened Ledger
  import opened Handlers
  import opened Completeness
  import opened Runs
  import opened Window
  import opened Safety

  // ---- A deployment ----

  function KeyOf(n: byte): (k: Pubkey)
    ensures |k| == 32 && k[0] == n
  {
    seq(32, _ => n)
  }

  const LP: Pubkey := KeyOf(4)
  const AGENT: Pubkey := KeyOf(5)
  const SIGNER: Pubkey := KeyOf(6)
  const CONFIG: Config := Config(KeyOf(1), KeyOf(2), 0, CHAIN_ID_MAINNET)
  const RECEIVABLE_1: Bytes := KeyOf(7)
  const RECEIVABLE_2: Bytes := KeyOf(8)
  const RECEIVABLE_3: Bytes := KeyOf(9)
  const PURSE: u64 := 100_000_000_000_000_000

  /** A flat 10% fee, no surcharge. */
  const CURVE: FeeCurve := FeeCurve(8_000, 1_000, 1_000, 1_000, 0, 0, 0)

  function ParamsFor(cap: u64): Params { Params(CURVE, 0, U64_MAX, cap) }

  function Deployment(cap: u64): (g: Genesis)
    ensures g.Valid()
  {
    assert KeyOf(3)[0] != DefaultKey()[0];
    Genesis(CONFIG, ParamsFor(cap), KeyOf(3), 0, map[LP := PURSE, AGENT := PURSE])
  }

  // ---- Growing a run by one accepted event ----

  /** `txs` is a run to `w`, in clock order up to `clock`, under caps in (0, cap], and closed if asked. */
  ghost predicate Reaches(g: Genesis, txs: seq<Tx>, w: World, clock: int, cap: int, closed: bool)
    requires g.Valid()
  {
    && Run(g, txs) == w
    && ClockOrdered(txs) && (forall i :: 0 <= i < |txs| ==> txs[i].env.now <= clock)
    && CapsWithin(g, txs, cap)
    && (closed ==> Closed(txs))
  }

  lemma Extend(g: Genesis, txs: seq<Tx>, w: World, clock: int, cap: int, closed: bool, now: i64, e: Event)
    returns (txs': seq<Tx>)
    requires g.Valid() && Reaches(g, txs, w, clock, cap, closed) && clock <= now
    requires Permitted(w.state, now, e) && Fits(w.state, now, e)
    requires !e.ParamsExecuted? && (closed ==> !e.VaultDonated?)
    ensures Reaches(g, txs', After(w, now, e), now, cap, closed)
  {
    hide Decide, Permitted, Fits, Evolve, TxFor;
    var tx := TxFor(w.state, now, e);
    txs' := txs + [tx];
    PermittedIsDecided(w.state, now, e);
    RunFromSnoc(g.Start(), txs, tx);
    ParamsStay(w.state, now, e);
    assert Run(g, txs') == After(w, now, e);
    forall i | 0 <= i <= |txs'| ensures 0 < Run(g, txs'[..i]).state.pool.params.agentWindowCap <= cap {
      if i <= |txs| {
        assert txs'[..i] == txs[..i];
      } else {
        assert txs'[..i] == txs' && txs[..|txs|] == txs;
      }
    }
  }

  lemma ParamsStay(s: State, now: i64, e: Event)
    requires Permitted(s, now, e) && Fits(s, now, e) && !e.ParamsExecuted?
    ensures Evolve(s, now, e).pool.params == s.pool.params
    ensures TxFor(s, now, e).call.DonateToVault? ==> e.VaultDonated?
  {
    hide IsFloor, TermsFromCurve, CreditAccepted;
  }

  // ---- A funded pool with a listed signer ----

  ghost predicate Ready(s: State, cap: u64) {
    && s.config == CONFIG && s.pool.params == ParamsFor(cap)
    && SIGNER in s.registry.allowed && s.registry.allowed[SIGNER] == CREDIT_BRIDGE
  }

  /** Nothing lent yet, `amount` deposited by one LP. */
  ghost predicate Funded(s: State, cap: u64, amount: u64) {
    && Ready(s, cap)
    && s.pool.totalAssets == s.tokens.vault == amount && s.pool.totalShares == 1_000 * amount
    && s.pool.deployed == s.pool.accruedFees == s.tokens.treasury == 0
    && s.tokens.wallets == map[LP := PURSE - amount, AGENT := PURSE]
    && s.tokens.shares == map[LP := 1_000 * amount]
    && s.advances == map[] && s.consumed == map[] && s.issuance == map[] && s.tombstones == map[]
  }

  lemma Fund(cap: u64, amount: u64, closed: bool) returns (txs: seq<Tx>, w: World)
    requires 0 < cap && 0 < amount && 1_000 * amount <= U64_MAX
    ensures Reaches(Deployment(cap), txs, w, 0, cap, closed) && Funded(w.state, cap, amount)
    ensures forall x :: x in w.log ==> !x.event.AdvanceIssued?
  {
    hide Decide, Permitted, Fits, Evolve, Funded, KeyOf;
    var g := Deployment(cap);
    var w0 := g.Start();
    assert Reaches(g, [], w0, 0, cap, closed);
    FundingPermitted(cap, amount);
    var e1, e2 := SignerAdded(SIGNER, CREDIT_BRIDGE), Deposited(LP, amount, 1_000 * amount);
    var w1 := After(w0, 0, e1);
    w := After(w1, 0, e2);
    txs := Extend(g, [], w0, 0, cap, closed, 0, e1);
    txs := Extend(g, txs, w1, 0, cap, closed, 0, e2);
  }

  lemma FundingPermitted(cap: u64, amount: u64)
    requires 0 < cap && 0 < amount && 1_000 * amount <= U64_MAX
    ensures
      var s := Deployment(cap).Start().state;
      var e1, e2 := SignerAdded(SIGNER, CREDIT_BRIDGE), Deposited(LP, amount, 1_000 * amount);
      && Permitted(s, 0, e1) && Fits(s, 0, e1)
      && var s1 := Evolve(s, 0, e1);
      && Permitted(s1, 0, e2) && Fits(s1, 0, e2)
      && Funded(Evolve(s1, 0, e2), cap, amount)
  {
    assert LP[0] != AGENT[0];
    assert IsFloor(1_000 * amount, amount * VIRTUAL_SHARES_OFFSET, VIRTUAL_ASSETS_OFFSET);
  }

  // ---- Loans ----

  function Loan(p: u64, now: i64, expires: i64): Advance {
    Advance(p, p * 1_000 / BPS_DENOMINATOR, p * 10 / BPS_DENOMINATOR, now, expires, SIGNER)
  }

  function Offer(now: i64, expires: i64): Credit {
    Credit(AGENT, CONFIG.poolKey, U64_MAX, 0, expires, now, seq(16, _ => 0), CHAIN_ID_MAINNET)
  }

  function Lending(receivable: Bytes, p: u64, now: i64, expires: i64): Event {
    AdvanceIssued(Key(AGENT, receivable), Loan(p, now, expires), Offer(now, expires))
  }

  lemma FlatTerms(s: State, now: i64, p: u64, expires: i64)
    requires s.pool.params.curve == CURVE && s.pool.deployed <= s.pool.totalAssets && now < expires
    ensures TermsFromCurve(s, now, Loan(p, now, expires), Offer(now, expires))
  {
    var duration: u64 := Max(SaturatingSubI64(expires, now), 0);
    var utilization := UtilizationBps(s.pool.totalAssets, s.pool.deployed);
    UtilizationWithinPool(s.pool.totalAssets, s.pool.deployed);
    FeeMonotone(p, duration, utilization, 0, p, duration, utilization, 0, CURVE);
    hide FeeAmount, UtilizationBps;
  }

  /** The window, the pool and the wallet have room for one more loan to the agent. */
  ghost predicate Room(s: State, cap: u64, now: i64, receivable: Bytes, p: u64) {
    var l := Rolled(s.issuance, AGENT, now);
    && MIN_ADVANCE_ATOMS <= p
    && Key(AGENT, receivable) !in s.advances && Key(AGENT, receivable) !in s.consumed
    && l.issuedInWindow + p <= cap && l.livePrincipal + p <= U64_MAX
    && p <= s.tokens.vault && BalanceOf(s.tokens.wallets, AGENT) + p <= U64_MAX
    && s.pool.deployed + p <= s.pool.totalAssets
  }

  /** What that loan leaves. */
  ghost predicate Lent(s: State, s': State, now: i64, receivable: Bytes, p: u64, expires: i64) {
    var key, l := Key(AGENT, receivable), Rolled(s.issuance, AGENT, now);
    && l.issuedInWindow + p <= U64_MAX && l.livePrincipal + p <= U64_MAX
    && s.pool.deployed + p <= U64_MAX && p <= s.tokens.vault
    && BalanceOf(s.tokens.wallets, AGENT) + p <= U64_MAX
    && s' == s.(pool := s.pool.(deployed := s.pool.deployed + p),
                tokens := s.tokens.(vault := s.tokens.vault - p, wallets := Credited(s.tokens.wallets, AGENT, p)),
                advances := s.advances[key := Loan(p, now, expires)],
                consumed := s.consumed[key := Consumed(Offer(now, expires).nonce, now)],
                issuance := s.issuance[AGENT :=
                  Issuance(l.windowStart, l.issuedInWindow + p, l.livePrincipal + p)])
  }

  lemma LendingPermitted(s: State, cap: u64, now: i64, receivable: Bytes, p: u64, expires: i64)
    requires Ready(s, cap) && Room(s, cap, now, receivable, p) && now < expires
    ensures
      var e := Lending(receivable, p, now, expires);
      && Permitted(s, now, e) && Fits(s, now, e)
      && Lent(s, Evolve(s, now, e), now, receivable, p, expires)
  {
    FlatTerms(s, now, p, expires);
    hide TermsFromCurve;
    assert CreditAccepted(s, now, Key(AGENT, receivable), SIGNER, Offer(now, expires));
  }

  /** One more loan to the agent. */
  lemma Lend(cap: u64, txs: seq<Tx>, w: World, clock: int, closed: bool,
             now: i64, receivable: Bytes, p: u64, expires: i64)
    returns (txs': seq<Tx>, w': World)
    requires 0 < cap && Reaches(Deployment(cap), txs, w, clock, cap, closed) && clock <= now < expires
    requires Ready(w.state, cap) && Room(w.state, cap, now, receivable, p)
    ensures Reaches(Deployment(cap), txs', w', now, cap, closed)
    ensures Lent(w.state, w'.state, now, receivable, p, expires)
    ensures w'.log == w.log + [Entry(now, Lending(receivable, p, now, expires))]
  {
    hide Decide, Permitted, Fits, Evolve, Reaches, Deployment, Ready, Room, Lent;
    var e := Lending(receivable, p, now, expires);
    LendingPermitted(w.state, cap, now, receivable, p, expires);
    txs' := Extend(Deployment(cap), txs, w, clock, cap, closed, now, e);
    w' := After(w, now, e);
  }

  // ---- The sliding bound is reached ----

  lemma {:induction false} NothingIssued(log: seq<Entry>, agent: Pubkey, lo: int, hi: int)
    requires forall x :: x in log ==> !x.event.AdvanceIssued?
    ensures IssuedIn(log, agent, lo, hi) == 0
  {
    if log != [] {
      assert log[|log| - 1] in log;
      NothingIssued(log[..|log| - 1], agent, lo, hi);
    }
  }

  /** For every cap an advance fits in, a run under that cap issues exactly `SlidingBound(cap)` to
      one agent in one 24-hour interval.  From two minimum advances on: `MIN` at the start of a
      window, the rest of the cap in its last second, a full cap when the next window opens. */
  lemma SlidingBoundReached(cap: u64) returns (txs: seq<Tx>, start: int)
    requires 1_000_000 <= cap && 2_000 * cap <= U64_MAX
    ensures ClockOrdered(txs) && Closed(txs) && CapsWithin(Deployment(cap), txs, cap)
    ensures IssuedIn(Run(Deployment(cap), txs).log, AGENT, start, start + 86_400) == SlidingBound(cap)
  {
    hide Decide, Permitted, Fits, Evolve, Deployment, IssuedIn;
    var w;
    if cap < 2 * MIN_ADVANCE_ATOMS {
      start := 0;
      txs, w := OneWindow(cap);
    } else {
      start := 1;
      txs, w := TwoWindows(cap);
    }
  }

  lemma OneWindow(cap: u64) returns (txs: seq<Tx>, w: World)
    requires MIN_ADVANCE_ATOMS <= cap && 2_000 * cap <= U64_MAX
    ensures Reaches(Deployment(cap), txs, w, 0, cap, true)
    ensures IssuedIn(w.log, AGENT, 0, AGENT_WINDOW_SECONDS) == cap
  {
    hide Decide, Permitted, Fits, Evolve, Reaches, Deployment;
    txs, w := Fund(cap, 2 * cap, true);
    var log := w.log;
    NothingIssued(log, AGENT, 0, AGENT_WINDOW_SECONDS);
    txs, w := Lend(cap, txs, w, 0, true, 0, RECEIVABLE_1, cap, 1_000_000);
    IssuedInSnoc(log, w.log[|log|], AGENT, 0, AGENT_WINDOW_SECONDS);
  }

  lemma TwoWindows(cap: u64) returns (txs: seq<Tx>, w: World)
    requires 2 * MIN_ADVANCE_ATOMS <= cap && 2_000 * cap <= U64_MAX
    ensures Reaches(Deployment(cap), txs, w, AGENT_WINDOW_SECONDS, cap, true)
    ensures IssuedIn(w.log, AGENT, 1, 1 + AGENT_WINDOW_SECONDS) == 2 * cap - MIN_ADVANCE_ATOMS
  {
    hide Decide, Permitted, Fits, Evolve, Reaches, Deployment, IssuedIn, KeyOf;
    assert RECEIVABLE_1[0] == 7 && RECEIVABLE_2[0] == 8 && RECEIVABLE_3[0] == 9;
    var day := AGENT_WINDOW_SECONDS;
    txs, w := Fund(cap, 2 * cap, true);
    var log := w.log;
    txs, w := Lend(cap, txs, w, 0, true, 0, RECEIVABLE_1, MIN_ADVANCE_ATOMS, 1_000_000);
    txs, w := Lend(cap, txs, w, 0, true, day - 1, RECEIVABLE_2, cap - MIN_ADVANCE_ATOMS, 1_000_000);
    txs, w := Lend(cap, txs, w, day - 1, true, day, RECEIVABLE_3, cap, 1_000_000);
    NothingIssued(log, AGENT, 1, 1 + day);
    var x1, x2, x3 := w.log[|log|], w.log[|log| + 1], w.log[|log| + 2];
    assert w.log == log + [x1] + [x2] + [x3];
    IssuedInSnoc(log, x1, AGENT, 1, 1 + day);
    IssuedInSnoc(log + [x1], x2, AGENT, 1, 1 + day);
    IssuedInSnoc(log + [x1] + [x2], x3, AGENT, 1, 1 + day);
  }

  /** The claim in the code's comments: under a cap, no agent is issued more than the cap in any 24 hours. */
  ghost predicate TrailingCapHolds(cap: int) {
    forall g: Genesis, txs: seq<Tx>, agent: Pubkey, start: int
      {:trigger InDay(RunFrom(g.Start(), txs).log, agent, start)} ::
      g.Valid() && ClockOrdered(txs) && CapsWithin(g, txs, cap) ==>
        InDay(RunFrom(g.Start(), txs).log, agent, start) <= cap
  }

  /** It holds of every run exactly when the cap is below two minimum advances. */
  lemma TrailingCapExactly(cap: u64)
    requires 2_000 * cap <= U64_MAX
    ensures TrailingCapHolds(cap) <==> cap < 2_000_000
  {
    if cap < 2 * MIN_ADVANCE_ATOMS {
      SmallCapTrails(cap);
    } else {
      var g := Deployment(cap);
      var txs, start := SlidingBoundReached(cap);
      assert InDay(RunFrom(g.Start(), txs).log, AGENT, start) > cap;
    }
  }

  lemma SmallCapTrails(cap: int)
    requires cap < 2 * MIN_ADVANCE_ATOMS
    ensures TrailingCapHolds(cap)
  {
    forall g: Genesis, txs: seq<Tx>, agent: Pubkey, start: int
      | g.Valid() && ClockOrdered(txs) && CapsWithin(g, txs, cap)
      ensures InDay(RunFrom(g.Start(), txs).log, agent, start) <= cap
    {
      SlidingWindow(g, txs, agent, cap, start);
    }
  }

  // ---- States the exact conditions exclude ----

  const P: u64 := 10 * MIN_ADVANCE_ATOMS
  const LOAN_KEY: Key := Key(AGENT, RECEIVABLE_1)

  /** The whole pool lent to the agent in one loan. */
  lemma LendAll(expires: i64, closed: bool) returns (txs: seq<Tx>, w: World)
    requires 0 < expires
    ensures Reaches(Deployment(P), txs, w, 0, P, closed)
    ensures exists s :: Funded(s, P, P) && Lent(s, w.state, 0, RECEIVABLE_1, P, expires)
  {
    hide Decide, Permitted, Fits, Evolve, Reaches, Deployment;
    txs, w := Fund(P, P, closed);
    txs, w := Lend(P, txs, w, 0, closed, 0, RECEIVABLE_1, P, expires);
  }

  /** A closed run reaches a live advance that no continuation of the run ever ends. */
  lemma UnendingReached() returns (txs: seq<Tx>)
    ensures ClockOrdered(txs) && Closed(txs)
    ensures forall more :: LOAN_KEY in RunFrom(Run(Deployment(P), txs), more).state.advances
  {
    hide Decide, Permitted, Fits, Evolve, Deployment, RunFrom;
    var w;
    txs, w := LendAll(I64_MAX, true);
    forall more ensures LOAN_KEY in RunFrom(w, more).state.advances {
      UnendingForever(w, more, LOAN_KEY);
    }
  }

  /** A closed run with one settlement and one skim leaves less in the vault than is idle on the books. */
  lemma SkimBreaksIdle() returns (txs: seq<Tx>)
    ensures ClockOrdered(txs) && Closed(txs)
    ensures
      var s := Run(Deployment(P), txs).state;
      s.tokens.vault < s.pool.totalAssets - s.pool.deployed
  {
    hide Decide, Permitted, Fits, Evolve, Deployment, Funded, Lent;
    var w;
    txs, w := LendAll(1_000_000, true);
    var s :| Funded(s, P, P) && Lent(s, w.state, 0, RECEIVABLE_1, P, 1_000_000);
    SettleThenSkim(s, w.state);
    var settled, skimmed := AdvanceSettled(LOAN_KEY, P, 850_000, 150_000, 0, 0), FeesSkimmed(150_000);
    txs := Extend(Deployment(P), txs, w, 0, P, true, 1, settled);
    txs := Extend(Deployment(P), txs, After(w, 1, settled), 1, P, true, 2, skimmed);
  }

  lemma SettleThenSkim(s: State, s1: State)
    requires Funded(s, P, P) && Lent(s, s1, 0, RECEIVABLE_1, P, 1_000_000)
    ensures
      var settled, skimmed := AdvanceSettled(LOAN_KEY, P, 850_000, 150_000, 0, 0), FeesSkimmed(150_000);
      && Permitted(s1, 1, settled) && Fits(s1, 1, settled)
      && var s2 := Evolve(s1, 1, settled);
      && Permitted(s2, 2, skimmed) && Fits(s2, 2, skimmed)
      && var s3 := Evolve(s2, 2, skimmed);
      && s3.tokens.vault < s3.pool.totalAssets - s3.pool.deployed
  {
    assert s1.advances[LOAN_KEY] == Loan(P, 0, 1_000_000);
  }

  /** With a gift to the vault, LPs can withdraw the assets a loan stands for; its liquidation,
      open by the clock, is then refused. */
  lemma GiftBlocksLiquidation() returns (txs: seq<Tx>)
    ensures ClockOrdered(txs) && LOAN_KEY in Run(Deployment(P), txs).state.advances
    ensures
      var s := Run(Deployment(P), txs).state;
      && s.pool.totalAssets < s.pool.deployed
      && forall now: i64 :: LiquidateOpen(s.advances[LOAN_KEY], now) ==>
                              DecideLiquidate(s, now, LOAN_KEY) == Err(MathOverflow)
  {
    hide Decide, Permitted, Fits, Evolve, Deployment, Funded, Lent, DecideLiquidate, LiquidateOpen;
    var w;
    txs, w := LendAll(1_000_000, false);
    var s :| Funded(s, P, P) && Lent(s, w.state, 0, RECEIVABLE_1, P, 1_000_000);
    GiftThenExit(s, w.state);
    var gift, exit := VaultDonated(AGENT, P), Withdrew(LP, 1_000 * P, P);
    txs := Extend(Deployment(P), txs, w, 0, P, false, 1, gift);
    txs := Extend(Deployment(P), txs, After(w, 1, gift), 1, P, false, 2, exit);
  }

  lemma GiftThenExit(s: State, s1: State)
    requires Funded(s, P, P) && Lent(s, s1, 0, RECEIVABLE_1, P, 1_000_000)
    ensures
      var gift, exit := VaultDonated(AGENT, P), Withdrew(LP, 1_000 * P, P);
      && Permitted(s1, 1, gift) && Fits(s1, 1, gift)
      && var s2 := Evolve(s1, 1, gift);
      && Permitted(s2, 2, exit) && Fits(s2, 2, exit)
      && var s3 := Evolve(s2, 2, exit);
      && s3.pool.totalAssets < s3.pool.deployed && LOAN_KEY in s3.advances
      && forall now: i64 :: LiquidateOpen(s3.advances[LOAN_KEY], now) ==>
                              DecideLiquidate(s3, now, LOAN_KEY) == Err(MathOverflow)
  {
    assert LP[0] != AGENT[0];
  }
}
