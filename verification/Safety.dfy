/** The theorems about every run of the escrow: money, advances, agents and governance. */
module Safety {
  import opened Numbers
  import opened MapSum
  import opened Pricing
  import opened Attestation
  import opened Introspection
  import opened Ledger
  import opened Handlers
  import opened Runs
  import opened Accounting
  import opened History
  import opened Window
  import opened Effects
  import opened Invariants

  // ---- Money ----

  /** No USDC is sent to the vault outside the programs. */
  ghost predicate Closed(txs: seq<Tx>) {
    forall i :: 0 <= i < |txs| ==> !txs[i].call.DonateToVault?
  }

  lemma {:induction false} ClosedRunHasNoDonations(g: Genesis, txs: seq<Tx>)
    requires g.Valid() && Closed(txs)
    ensures Tally(Run(g, txs).log, DonationOf) == 0
  {
    if txs != [] {
      var n := |txs| - 1;
      ClosedRunHasNoDonations(g, txs[..n]);
      ClosedStep(Run(g, txs[..n]), txs[n]);
    }
  }

  lemma ClosedStep(w: World, tx: Tx)
    requires !tx.call.DonateToVault?
    ensures Tally(Step(w, tx).log, DonationOf) == Tally(w.log, DonationOf)
  {
    hide Decide, Permitted, Evolve;
    match Decide(w.state, tx)
    case Ok(e) => TallySnoc(w.log, Entry(tx.env.now, e), DonationOf);
    case Err(_) =>
  }

  /** Conservation in every run, with its two exact consequences.  Lending stays within the booked
      assets exactly while gifts do not exceed what is idle plus what was skimmed, so always in a
      closed run.  The vault balance is the idle part of the assets exactly when skims equal gifts. */
  lemma VaultConservation(g: Genesis, txs: seq<Tx>)
    requires g.Valid()
    ensures
      var s, log := Run(g, txs).state, Run(g, txs).log;
      && s.tokens.vault + s.pool.deployed + Tally(log, SkimOf) == s.pool.totalAssets + Tally(log, DonationOf)
      && (s.pool.deployed <= s.pool.totalAssets <==> Tally(log, DonationOf) <= s.tokens.vault + Tally(log, SkimOf))
      && (s.tokens.vault == s.pool.totalAssets - s.pool.deployed <==> Tally(log, SkimOf) == Tally(log, DonationOf))
      && (Closed(txs) ==> s.pool.deployed + Tally(log, SkimOf) <= s.pool.totalAssets)
  {
    RunKeepsInv(g, txs);
    if Closed(txs) {
      ClosedRunHasNoDonations(g, txs);
    }
  }

  /** Protocol cuts are booked once and paid twice over: the treasury has received them at
      settlement and again when skimmed, besides what came and went outside the programs.
      No USDC appears or disappears. */
  lemma FeeAndTokenAccounting(g: Genesis, txs: seq<Tx>)
    requires g.Valid()
    ensures
      var s, log := Run(g, txs).state, Run(g, txs).log;
      && s.pool.accruedFees + Tally(log, SkimOf) == Tally(log, CutOf)
      && s.tokens.treasury - g.treasury == Tally(log, CutOf) + Tally(log, SkimOf) + Tally(log, TreasuryDriftOf)
      && s.tokens.vault + s.tokens.treasury + SumBy(s.tokens.wallets, Amount) == g.treasury + SumBy(g.wallets, Amount)
  {
    RunKeepsInv(g, txs);
  }

  /** A settlement takes from the agent exactly the principal, the fee and the penalty for each whole
      day past the expiry, at most 365, whatever payment was offered, and only if it covers that: the
      principal and the LP share of the fees to the vault, 15% of the fees, rounded down, to the treasury. */
  lemma SettlementSplitsExactly(s: State, env: Env, agent: Pubkey, key: Key, payment: u64)
    requires DecideSettle(s, env, agent, key, payment).Ok?
    ensures
      var e := DecideSettle(s, env, agent, key, payment).value;
      var a := s.advances[key];
      var late := if env.now <= a.expiresAt then 0 else (env.now - a.expiresAt) / 86_400;
      var fees := a.feeOwed + (if late < 365 then late else 365) * a.latePenaltyPerDay;
      && Permitted(s, env.now, e)
      && var s' := Evolve(s, env.now, e);
      && a.principal + fees <= payment
      && BalanceOf(s'.tokens.wallets, agent) == BalanceOf(s.tokens.wallets, agent) - (a.principal + fees)
      && s'.tokens.vault + s'.tokens.treasury == s.tokens.vault + s.tokens.treasury + a.principal + fees
      && s'.tokens.treasury == s.tokens.treasury + fees * 15 / 100
      && s'.pool.totalAssets - s.pool.totalAssets == fees - fees * 15 / 100
      && (forall k :: k != agent ==> BalanceOf(s'.tokens.wallets, k) == BalanceOf(s.tokens.wallets, k))
  {
    SettleOutcome(s, env, agent, key, payment);
    hide DecideSettle, Evolve, SettlePermitted;
  }

  // ---- Advances ----

  /** The two counters of lent-out principal are the sums they stand for. */
  lemma PrincipalSumsAgree(g: Genesis, txs: seq<Tx>, agent: Pubkey)
    requires g.Valid()
    ensures
      var s := Run(g, txs).state;
      && s.pool.deployed == SumBy(s.advances, PrincipalOf)
      && Live(s, agent) == SumBy(s.advances, PrincipalFor(agent))
  {
    RunKeepsInv(g, txs);
  }

  /** A key is issued at most once; it is then in exactly one of three places: live, settled
      once, or liquidated once with a tombstone. */
  lemma IssuedOnceEndsOnce(g: Genesis, txs: seq<Tx>, key: Key)
    requires g.Valid()
    ensures
      var s, log := Run(g, txs).state, Run(g, txs).log;
      var settled, liquidated := Tally(log, SettlementsOf(key)), Tally(log, LiquidationsOf(key));
      && Tally(log, IssuesOf(key)) == Indicator(key in s.consumed)
      && (key in s.consumed <==> key in s.advances || settled == 1 || liquidated == 1)
      && (key in s.tombstones <==> liquidated == 1)
      && 0 <= settled <= 1 && 0 <= liquidated <= 1
      && !(settled == 1 && liquidated == 1)
      && (key in s.advances ==> settled == 0 && liquidated == 0)
  {
    RunKeepsInv(g, txs);
    assert KeyPartition(Run(g, txs), key);
  }

  /** The debt of a live advance, at any time it can be settled: at most 13 late days, so the
      365-day clamp never acts, and between one and 2.1 times the principal. */
  lemma DebtBounded(g: Genesis, txs: seq<Tx>, key: Key, now: i64)
    requires g.Valid() && key in Run(g, txs).state.advances
    requires SettleOpen(Run(g, txs).state.advances[key], now)
    ensures
      var a := Run(g, txs).state.advances[key];
      && LateDays(a.expiresAt, now) == Max(now - a.expiresAt, 0) / 86_400 <= 13
      && a.principal <= TotalOwed(a, now)
      && 10 * TotalOwed(a, now) <= 21 * a.principal
  {
    RunKeepsInv(g, txs);
    var a := Run(g, txs).state.advances[key];
    assert TermsSound(a);
    var days := LateDays(a.expiresAt, now);
    MulMono(days, 13, a.latePenaltyPerDay);
  }

  /** Thirteen late days are reached: the settlement window is open to its last second. */
  lemma ThirteenLateDays(a: Advance, now: i64)
    requires now == a.expiresAt + 1_209_599 < I64_MAX
    ensures SettleOpen(a, now) && LateDays(a.expiresAt, now) == 13
    ensures FeeDue(a, now) == a.feeOwed + 13 * a.latePenaltyPerDay
  {
    assert 1_209_599 / 86_400 == 13;
  }

  /** `liquidate` on a live advance of any run: the window, and for open runs the booked
      assets, are all that can stop it. */
  lemma LiquidationExactly(g: Genesis, txs: seq<Tx>, key: Key, now: i64)
    requires g.Valid() && key in Run(g, txs).state.advances
    ensures
      var s := Run(g, txs).state;
      var a := s.advances[key];
      DecideLiquidate(s, now, key).Ok? <==> a.expiresAt + 1_209_600 <= now && a.principal <= s.pool.totalAssets
  {
    LiveIsBacked(g, txs, key);
  }

  /** `claim_and_settle` by the agent on a live advance of any run: the window, the memo, what is
      offered, what is in the wallet, and four sums that must fit are all that can stop it.  The
      two counter subtractions never do. */
  lemma SettlementExactly(g: Genesis, txs: seq<Tx>, env: Env, key: Key, payment: u64)
    requires g.Valid() && key in Run(g, txs).state.advances
    ensures
      var s, now := Run(g, txs).state, env.now;
      var a := s.advances[key];
      var owed, cut := a.principal + Fees(a, now), Cut(a, now);
      && key in s.consumed
      && (DecideSettle(s, env, key.agent, key, payment).Ok? <==>
          && now < a.expiresAt + 1_209_600 <= I64_MAX && I64_MIN <= now - a.expiresAt
          && HasMemo(env.ixs, s.consumed[key].nonce)
          && owed <= payment && owed <= BalanceOf(s.tokens.wallets, key.agent)
          && s.tokens.treasury + cut <= U64_MAX && s.tokens.vault + owed - cut <= U64_MAX
          && s.pool.totalAssets + Fees(a, now) - cut <= U64_MAX && s.pool.accruedFees + cut <= U64_MAX)
  {
    LiveIsBacked(g, txs, key);
    SettleAccepted(Run(g, txs).state, env, key.agent, key, payment);
    hide DecideSettle, HasMemo, Fees, Cut;
  }

  /** In every run a live advance has its records, and its principal is in both counters. */
  lemma LiveIsBacked(g: Genesis, txs: seq<Tx>, key: Key)
    requires g.Valid() && key in Run(g, txs).state.advances
    ensures
      var s := Run(g, txs).state;
      && key in s.consumed && key !in s.tombstones && key.agent in s.issuance
      && s.advances[key].principal <= s.issuance[key.agent].livePrincipal
      && s.advances[key].principal <= s.pool.deployed
  {
    RunKeepsInv(g, txs);
    var w := Run(g, txs);
    assert KeyPartition(w, key);
    SumAtLeast(w.state.advances, PrincipalOf, key);
    assert Live(w.state, key.agent) == SumBy(w.state.advances, PrincipalFor(key.agent));
    SumAtLeast(w.state.advances, PrincipalFor(key.agent), key);
  }

  /** In a closed run, a live advance can be liquidated exactly from 1,209,600 seconds, fourteen days,
      after its expiry on; where its expiry leaves room for that, its settlement window is open
      exactly until then. */
  lemma NoAdvanceStuck(g: Genesis, txs: seq<Tx>, key: Key, now: i64)
    requires g.Valid() && Closed(txs) && key in Run(g, txs).state.advances
    ensures
      var s := Run(g, txs).state;
      var a := s.advances[key];
      && (DecideLiquidate(s, now, key).Ok? <==> a.expiresAt + 1_209_600 <= now)
      && (LiquidateOpen(a, now) <==> DecideLiquidate(s, now, key).Ok?)
      && (a.expiresAt + 1_209_600 <= I64_MAX ==> (SettleOpen(a, now) <==> now < a.expiresAt + 1_209_600))
  {
    LiquidationExactly(g, txs, key, now);
    LiveIsBacked(g, txs, key);
    VaultConservation(g, txs);
    TallyNonNegative(Run(g, txs).log, SkimOf);
  }

  /** An advance whose expiry leaves no room for the grace period. */
  predicate Unending(a: Advance) {
    a.expiresAt > I64_MAX - 1_209_600
  }

  /** Such an advance outlives every continuation, unchanged: neither instruction can ever end it. */
  lemma {:induction false} UnendingForever(w: World, more: seq<Tx>, key: Key)
    requires key in w.state.advances && Unending(w.state.advances[key])
    ensures key in RunFrom(w, more).state.advances
    ensures RunFrom(w, more).state.advances[key] == w.state.advances[key]
  {
    if more != [] {
      var n := |more| - 1;
      UnendingForever(w, more[..n], key);
      var before, tx := RunFrom(w, more[..n]), more[n];
      if Decide(before.state, tx).Ok? {
        UnendingSurvives(before.state, tx.env.now, Decide(before.state, tx).value, key);
      }
    }
  }

  lemma UnendingSurvives(s: State, now: i64, e: Event, key: Key)
    requires Permitted(s, now, e) && key in s.advances && Unending(s.advances[key])
    ensures key in Evolve(s, now, e).advances && Evolve(s, now, e).advances[key] == s.advances[key]
  {
    hide IsFloor, TermsFromCurve, CreditAccepted;
  }

  /** The premise on the expiry is exact.  In a closed run a live advance ends in some continuation,
      in clock order, if and only if its expiry leaves room for the grace period. */
  lemma EndsIffExpiryLeavesRoom(g: Genesis, txs: seq<Tx>, key: Key)
    requires g.Valid() && Closed(txs) && ClockOrdered(txs) && key in Run(g, txs).state.advances
    ensures
      (exists more :: ClockOrdered(txs + more) && key !in Run(g, txs + more).state.advances)
      <==> Run(g, txs).state.advances[key].expiresAt <= I64_MAX - 1_209_600
  {
    var w := Run(g, txs);
    if Unending(w.state.advances[key]) {
      forall more ensures key in Run(g, txs + more).state.advances {
        RunFromConcat(g.Start(), txs, more);
        UnendingForever(w, more, key);
      }
    } else {
      var tx := Tx(Env(I64_MAX, [], 0), Liquidate(key));
      LiquidationEnds(g, txs, key, tx);
      assert ClockOrdered(txs + [tx]);
    }
  }

  lemma LiquidationEnds(g: Genesis, txs: seq<Tx>, key: Key, tx: Tx)
    requires g.Valid() && Closed(txs) && key in Run(g, txs).state.advances
    requires Run(g, txs).state.advances[key].expiresAt <= I64_MAX - 1_209_600
    requires tx.call == Liquidate(key) && LiquidateOpen(Run(g, txs).state.advances[key], tx.env.now)
    ensures key !in Run(g, txs + [tx]).state.advances
  {
    NoAdvanceStuck(g, txs, key, tx.env.now);
    RunFromSnoc(g.Start(), txs, tx);
  }

  /** No guard keeps such expiries out: whatever advance may be issued, the same one with the
      latest expiry there is may be issued instead, at the fee for that duration. */
  lemma ExpiryIsUnbounded(s: State, now: i64, key: Key, a: Advance, c: Credit)
    requires IssuePermitted(s, now, key, a, c) && ParamsSound(s)
    ensures exists fee: u64 ::
              IssuePermitted(s, now, key, a.(expiresAt := I64_MAX, feeOwed := fee), c.(expiresAt := I64_MAX))
  {
    var duration: u64 := Max(SaturatingSubI64(I64_MAX, now), 0);
    var utilization := UtilizationBps(s.pool.totalAssets, s.pool.deployed);
    UtilizationWithinPool(s.pool.totalAssets, s.pool.deployed);
    FeeMonotone(a.principal, duration, utilization, 0, a.principal, duration, utilization, 0, s.pool.params.curve);
    var fee := FeeAmount(a.principal, duration, utilization, 0, s.pool.params.curve).value;
    hide FeeAmount, LatePenaltyPerDay, UtilizationBps;
    assert IssuePermitted(s, now, key, a.(expiresAt := I64_MAX, feeOwed := fee), c.(expiresAt := I64_MAX));
  }

  /** A settlement names its loan: the transaction carries, among its first 64 instructions, a memo
      with the nonce of the very attestation the advance was underwritten on, and the terms settled
      are the terms issued. */
  lemma SettlementNamesItsLoan(g: Genesis, txs: seq<Tx>, j: int, env: Env, payment: u64)
    requires g.Valid()
    requires 0 <= j < |Run(g, txs).log| && Run(g, txs).log[j].event.AdvanceIssued?
    requires
      var key := Run(g, txs).log[j].event.key;
      DecideSettle(Run(g, txs).state, env, key.agent, key, payment).Ok?
    ensures
      var s, issued := Run(g, txs).state, Run(g, txs).log[j].event;
      && HasMemo(env.ixs, issued.credit.nonce)
      && s.advances[issued.key] == issued.advance
      && TotalOwed(issued.advance, env.now) <= payment
  {
    RunKeepsInv(g, txs);
    var s, issued := Run(g, txs).state, Run(g, txs).log[j].event;
    assert RecordsOf(s, issued.key, issued.advance, issued.credit.nonce);
  }

  // ---- Agents ----

  lemma {:induction false} BestRoomAttained(log: seq<Entry>, agent: Pubkey)
    ensures BestRoom(log, agent) == 0
            || exists i :: 0 <= i < |log| && log[i].event.AdvanceIssued? && log[i].event.key.agent == agent
                           && BestRoom(log, agent) == Room(log[i].event.credit)
  {
    if log != [] {
      BestRoomAttained(log[..|log| - 1], agent);
    }
  }

  /** An agent's outstanding principal never exceeds the room left by some single attestation
      accepted for it, however often attestations are reused and settlements interleaved. */
  lemma ExposureWithinOneAttestation(g: Genesis, txs: seq<Tx>, agent: Pubkey)
    requires g.Valid()
    ensures
      var s, log := Run(g, txs).state, Run(g, txs).log;
      var exposure := SumBy(s.advances, PrincipalFor(agent));
      || exposure == 0
      || exists i :: 0 <= i < |log| && log[i].event.AdvanceIssued? && log[i].event.key.agent == agent
                     && exposure <= Room(log[i].event.credit)
  {
    RunKeepsInv(g, txs);
    var w := Run(g, txs);
    assert ExposureBounded(w, agent);
    BestRoomAttained(w.log, agent);
    SumNonNegative(w.state.advances, PrincipalFor(agent));
  }

  /** The window cap was on, and at most `cap`, throughout the run. */
  ghost predicate CapsWithin(g: Genesis, txs: seq<Tx>, cap: int)
    requires g.Valid()
  {
    forall i :: 0 <= i <= |txs| ==> 0 < Run(g, txs[..i]).state.pool.params.agentWindowCap <= cap
  }

  lemma {:induction false} RunKeepsWindow(g: Genesis, txs: seq<Tx>, agent: Pubkey, cap: int)
    requires g.Valid() && ClockOrdered(txs) && CapsWithin(g, txs, cap)
    ensures WindowSound(Run(g, txs), agent, cap, if txs == [] then I64_MIN else txs[|txs| - 1].env.now)
  {
    hide Permitted, Evolve;
    if txs != [] {
      var n := |txs| - 1;
      var w, tx := Run(g, txs[..n]), txs[n];
      PrefixCaps(g, txs, cap);
      RunKeepsWindow(g, txs[..n], agent, cap);
      var clock := if n == 0 then I64_MIN else txs[n - 1].env.now;
      assert txs[..n] == [] || txs[..n][n - 1] == txs[n - 1];
      if Decide(w.state, tx).Ok? {
        WindowStep(w, tx.env.now, Decide(w.state, tx).value, agent, cap, clock);
      }
    }
  }

  /** Over any run whose cap stays positive and at most `cap`, an agent is issued at most
      `SlidingBound(cap)` in any 24-hour interval: the cap itself while that is below two minimum
      advances, else twice the cap less one minimum advance. */
  lemma SlidingWindow(g: Genesis, txs: seq<Tx>, agent: Pubkey, cap: int, start: int)
    requires g.Valid() && ClockOrdered(txs) && CapsWithin(g, txs, cap)
    ensures IssuedIn(Run(g, txs).log, agent, start, start + 86_400) <= SlidingBound(cap)
  {
    RunKeepsWindow(g, txs, agent, cap);
    var w := Run(g, txs);
    assert InDay(w.log, agent, start) == IssuedIn(w.log, agent, start, start + AGENT_WINDOW_SECONDS);
    if agent !in w.state.issuance {
      assert InDay(w.log, agent, start) == 0;
      CapIsPositive(g, txs, cap);
    } else {
      assert InDay(w.log, agent, start) <= SlidingBound(cap);
    }
  }

  lemma CapIsPositive(g: Genesis, txs: seq<Tx>, cap: int)
    requires g.Valid() && CapsWithin(g, txs, cap)
    ensures 0 < cap
  {
    assert 0 < Run(g, txs[..0]).state.pool.params.agentWindowCap <= cap;
  }

  /** Every window the agent's ledger has ever had, not only the current one, holds at most the cap:
      take the window start after the first `k` instructions and the journal after all of them. */
  lemma {:induction false} EveryWindowWithinCap(g: Genesis, txs: seq<Tx>, k: nat, agent: Pubkey, cap: int)
    requires g.Valid() && ClockOrdered(txs) && CapsWithin(g, txs, cap)
    requires k <= |txs| && agent in Run(g, txs[..k]).state.issuance
    ensures PastWindow(Run(g, txs), agent, Run(g, txs[..k]).state.issuance[agent].windowStart, cap)
  {
    hide Decide, Permitted, Evolve, WindowSound, PastWindow, CapsWithin;
    var n := |txs| - 1;
    RunKeepsWindow(g, txs, agent, cap);
    if k == |txs| {
      assert txs[..k] == txs;
      CurrentWindow(Run(g, txs), agent, cap, if txs == [] then I64_MIN else txs[n].env.now);
    } else {
      var w, tx := Run(g, txs[..n]), txs[n];
      PrefixCaps(g, txs, cap);
      assert txs[..n][..k] == txs[..k];
      EveryWindowWithinCap(g, txs[..n], k, agent, cap);
      RunKeepsWindow(g, txs[..n], agent, cap);
      assert n == 0 || txs[..n][n - 1] == txs[n - 1];
      StepKeepsPastWindow(w, tx, agent, Run(g, txs[..k]).state.issuance[agent].windowStart, cap,
                          if n == 0 then I64_MIN else txs[n - 1].env.now);
    }
  }

  lemma StepKeepsPastWindow(w: World, tx: Tx, agent: Pubkey, start: int, cap: int, clock: int)
    requires clock <= tx.env.now && PastWindow(w, agent, start, cap)
    requires WindowSound(w, agent, cap, clock) && WindowSound(Step(w, tx), agent, cap, tx.env.now)
    ensures PastWindow(Step(w, tx), agent, start, cap)
  {
    hide Decide, Permitted, Evolve;
    match Decide(w.state, tx)
    case Ok(e) => PastWindowStep(w, tx.env.now, e, agent, start, cap, clock);
    case Err(_) =>
  }

  lemma PrefixCaps(g: Genesis, txs: seq<Tx>, cap: int)
    requires g.Valid() && CapsWithin(g, txs, cap) && txs != []
    ensures CapsWithin(g, txs[..|txs| - 1], cap)
  {
    var before := txs[..|txs| - 1];
    forall i | 0 <= i <= |before| ensures 0 < Run(g, before[..i]).state.pool.params.agentWindowCap <= cap {
      assert before[..i] == txs[..i];
    }
  }

  // ---- Governance and signers ----

  /** Parameters in force are the latest executed ones; every execution follows the latest
      proposal by at least the timelock, with no other proposal or execution between; curves in
      force and pending are valid; configuration never changes. */
  lemma ParametersTimelocked(g: Genesis, txs: seq<Tx>)
    requires g.Valid()
    ensures
      var s, log := Run(g, txs).state, Run(g, txs).log;
      && s.pool.params == InForce(log, g.params)
      && s.pool.params.curve.Valid()
      && (s.pool.pending.Some? ==> s.pool.pending.value.params.curve.Valid())
      && s.config == g.config
      && (forall j :: 0 <= j < |log| && log[j].event.ParamsExecuted? ==> TimelockedAt(log, j, g.config.timelock))
  {
    RunKeepsInv(g, txs);
  }

  /** What only governance can do, whatever instruction is tried: a step that stages parameters or
      takes from the accrued fees is in a transaction with a Squads instruction on the pool's
      governance vault, one that changes the signer list or its governance likewise on the
      registry's; parameters in force change only to the staged ones. */
  lemma GovernanceControls(w: World, tx: Tx)
    ensures
      var s, s' := w.state, Step(w, tx).state;
      && (s'.pool.pending.Some? && s'.pool.pending != s.pool.pending ==> HasSquads(tx.env.ixs, s.config.governance))
      && (s'.pool.accruedFees < s.pool.accruedFees ==> HasSquads(tx.env.ixs, s.config.governance))
      && (s'.registry != s.registry ==> HasSquads(tx.env.ixs, s.registry.governance))
      && (s'.pool.params != s.pool.params ==> s.pool.pending.Some? && s'.pool.params == s.pool.pending.value.params)
  {
    hide Decide, Permitted, Evolve;
    match Decide(w.state, tx)
    case Ok(e) =>
      Authorised(w.state, tx);
      GovernedFieldsChange(w.state, tx.env.now, e);
    case Err(_) =>
  }

  predicate RegistryEvent(e: Event) { e.SignerAdded? || e.SignerRemoved? || e.GovernanceSet? }

  lemma GovernedFieldsChange(s: State, now: i64, e: Event)
    requires Permitted(s, now, e)
    ensures
      var s' := Evolve(s, now, e);
      && (s'.pool.pending.Some? && s'.pool.pending != s.pool.pending ==> e.ParamsProposed?)
      && (s'.pool.accruedFees < s.pool.accruedFees ==> e.FeesSkimmed?)
      && (s'.registry != s.registry ==> RegistryEvent(e))
      && (s'.pool.params != s.pool.params ==> s.pool.pending.Some? && s'.pool.params == s.pool.pending.value.params)
  {
    hide IsFloor, TermsFromCurve, CreditAccepted;
  }

  lemma Authorised(s: State, tx: Tx)
    requires Decide(s, tx).Ok?
    ensures
      var e := Decide(s, tx).value;
      && (e.ParamsProposed? || e.FeesSkimmed? ==> HasSquads(tx.env.ixs, s.config.governance))
      && (RegistryEvent(e) ==> HasSquads(tx.env.ixs, s.registry.governance))
  {
    hide DecideRequest, DecideSettle, DecideDeposit, DecideWithdraw, DecideLiquidate;
    hide DepositPermitted, WithdrawPermitted, IssuePermitted, SettlePermitted, LiquidatePermitted, HasSquads;
  }

  /** Every advance was issued on an attestor that governance had added and not since removed. */
  lemma AttestorsListed(g: Genesis, txs: seq<Tx>)
    requires g.Valid()
    ensures
      var s, log := Run(g, txs).state, Run(g, txs).log;
      && (forall k :: k in s.registry.allowed <==> Listed(log, k))
      && (forall j :: 0 <= j < |log| && log[j].event.AdvanceIssued? ==> Listed(log[..j], log[j].event.advance.attestor))
      && s.registry.governance != DefaultKey()
  {
    RunKeepsInv(g, txs);
  }

  /** From the native program's check to the loan: if `request_advance` is accepted right after a
      verify instruction the native program let through, then a listed signer has signed exactly
      the bytes the bridge's encoder produces for the credit the loan was underwritten on. */
  lemma IssuanceIsSigned(s: State, env: Env, agent: Pubkey, receivable: Bytes, amount: u64, nonce: Bytes,
                         signer: Pubkey, check: SignatureCheck)
    requires DecideRequest(s, env, agent, receivable, amount, nonce, signer).Ok?
    requires NativeAccepted(env.ixs, env.cur - 1, check)
    ensures
      var e := DecideRequest(s, env, agent, receivable, amount, nonce, signer).value;
      && WellFormed(e.credit) && e.credit.nonce == nonce
      && (exists signature :: check(signer, Layout(e.credit), signature))
      && signer in s.registry.allowed
      && e.credit.agent == agent && e.credit.pool == s.config.poolKey && e.credit.chainId == s.config.chainId
      && amount + Live(s, agent) + e.credit.outstanding <= e.credit.creditLimit
  {
    ParsedIsVerified(env.ixs, env.cur, check);
    LayoutOfDecode(VerifyPrevEd25519(env.ixs, env.cur).message);
  }
}
