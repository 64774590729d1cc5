/** What every run keeps: the pool's counters against the tokens, the advances and the journal. */
module Accounting {
  import opened Numbers
  import opened MapSum
  import opened Pricing
  import opened Attestation
  import opened Ledger
  import opened Runs

  // ---- Conservation of USDC ----

  /** Vault plus lent-out principal plus everything skimmed is the booked assets plus every gift. */
  ghost predicate VaultConserved(w: World) {
    w.state.tokens.vault + w.state.pool.deployed + Tally(w.log, SkimOf)
    == w.state.pool.totalAssets + Tally(w.log, DonationOf)
  }

  /** The booked assets are exactly what was deposited and earned, less what was withdrawn and lost. */
  ghost predicate AssetsExplained(w: World) {
    w.state.pool.totalAssets
    == Tally(w.log, DepositOf) + Tally(w.log, LpFeeOf) - Tally(w.log, WithdrawalOf) - Tally(w.log, LossOf)
  }

  /** Every protocol cut is booked once as accrued-or-skimmed, while the treasury has received
      the cuts and the skims, besides what came and went outside the programs. */
  ghost predicate FeesExplained(w: World, treasury0: int) {
    && w.state.pool.accruedFees + Tally(w.log, SkimOf) == Tally(w.log, CutOf)
    && w.state.tokens.treasury == treasury0 + Tally(w.log, CutOf) + Tally(w.log, SkimOf) + Tally(w.log, TreasuryDriftOf)
  }

  /** What one event does to the vault and the booked assets, read off the journal's own figures. */
  lemma PoolMoves(s: State, now: i64, e: Event)
    requires Permitted(s, now, e)
    ensures
      var s' := Evolve(s, now, e);
      && s'.pool.totalAssets - s.pool.totalAssets == DepositOf(e) + LpFeeOf(e) - WithdrawalOf(e) - LossOf(e)
      && s'.tokens.vault + s'.pool.deployed - s'.pool.totalAssets
         == s.tokens.vault + s.pool.deployed - s.pool.totalAssets + DonationOf(e) - SkimOf(e)
  {
    hide IsFloor, TermsFromCurve, CreditAccepted, Rolled, LateDays, FeeDue, Debit, Credited, Moved;
  }

  lemma VaultStep(w: World, now: i64, e: Event)
    requires Permitted(w.state, now, e) && VaultConserved(w) && AssetsExplained(w)
    ensures VaultConserved(After(w, now, e)) && AssetsExplained(After(w, now, e))
  {
    hide Permitted, Evolve, Tally;
    hide SkimOf, DonationOf, DepositOf, LpFeeOf, WithdrawalOf, LossOf;
    PoolMoves(w.state, now, e);
    var x := Entry(now, e);
    TallySnoc(w.log, x, SkimOf);
    TallySnoc(w.log, x, DonationOf);
    TallySnoc(w.log, x, DepositOf);
    TallySnoc(w.log, x, LpFeeOf);
    TallySnoc(w.log, x, WithdrawalOf);
    TallySnoc(w.log, x, LossOf);
  }

  /** What one event does to the accrued fees and the treasury. */
  lemma FeesMove(s: State, now: i64, e: Event)
    requires Permitted(s, now, e)
    ensures
      var s' := Evolve(s, now, e);
      && s'.pool.accruedFees - s.pool.accruedFees == CutOf(e) - SkimOf(e)
      && s'.tokens.treasury - s.tokens.treasury == CutOf(e) + SkimOf(e) + TreasuryDriftOf(e)
  {
    hide IsFloor, TermsFromCurve, CreditAccepted, Rolled, LateDays, FeeDue, Debit, Credited, Moved;
  }

  lemma FeesStep(w: World, now: i64, e: Event, treasury0: int)
    requires Permitted(w.state, now, e) && FeesExplained(w, treasury0)
    ensures FeesExplained(After(w, now, e), treasury0)
  {
    hide Permitted, Evolve, Tally, SkimOf, CutOf, TreasuryDriftOf;
    FeesMove(w.state, now, e);
    var x := Entry(now, e);
    TallySnoc(w.log, x, SkimOf);
    TallySnoc(w.log, x, CutOf);
    TallySnoc(w.log, x, TreasuryDriftOf);
  }

  function Amount(k: Pubkey, v: u64): int { v }

  /** All USDC there is: the vault, the treasury and every wallet. */
  ghost function UsdcSupply(t: Tokens): int {
    t.vault + t.treasury + SumBy(t.wallets, Amount)
  }

  /** Share tokens in circulation never exceed the pool's own share count; holders may burn
      theirs directly, so they may fall below it. */
  ghost predicate SharesBacked(s: State) {
    SumBy(s.tokens.shares, Amount) <= s.pool.totalShares
  }

  lemma DebitSum(b: Balances, k: Pubkey, amount: u64)
    requires amount <= BalanceOf(b, k)
    ensures SumBy(Debit(b, k, amount), Amount) == SumBy(b, Amount) - amount
  {
    SumUpdate<Pubkey, u64>(b, Amount, k, BalanceOf(b, k) - amount);
  }

  lemma CreditSum(b: Balances, k: Pubkey, amount: u64)
    requires BalanceOf(b, k) + amount <= U64_MAX
    ensures SumBy(Credited(b, k, amount), Amount) == SumBy(b, Amount) + amount
  {
    SumUpdate<Pubkey, u64>(b, Amount, k, BalanceOf(b, k) + amount);
  }

  lemma MoveSum(b: Balances, from: Pubkey, to: Pubkey, amount: u64)
    requires from != to && amount <= BalanceOf(b, from) && BalanceOf(b, to) + amount <= U64_MAX
    ensures SumBy(Moved(b, from, to, amount), Amount) == SumBy(b, Amount)
  {
    DebitSum(b, from, amount);
    CreditSum(Debit(b, from, amount), to, amount);
  }

  lemma TokensStep(s: State, now: i64, e: Event)
    requires Permitted(s, now, e) && SharesBacked(s)
    ensures SharesBacked(Evolve(s, now, e))
    ensures UsdcSupply(Evolve(s, now, e).tokens) == UsdcSupply(s.tokens)
  {
    hide SumBy, Amount;
    UsdcKept(s, now, e);
    SharesMove(s, now, e);
  }

  lemma UsdcKept(s: State, now: i64, e: Event)
    requires Permitted(s, now, e)
    ensures UsdcSupply(Evolve(s, now, e).tokens) == UsdcSupply(s.tokens)
  {
    hide IsFloor, TermsFromCurve, CreditAccepted, SumBy, Rolled, BalanceOf, LateDays, FeeDue, Debit, Credited, Moved;
    var wallets := s.tokens.wallets;
    match e
    case Deposited(lp, amount, _) => DebitSum(wallets, lp, amount);
    case Withdrew(lp, _, returned) => CreditSum(wallets, lp, returned);
    case AdvanceIssued(key, a, _) => CreditSum(wallets, key.agent, a.principal);
    case AdvanceSettled(key, principal, lpFee, cut, _, _) => DebitSum(wallets, key.agent, principal + lpFee + cut);
    case VaultDonated(from, amount) => DebitSum(wallets, from, amount);
    case TreasuryReceived(from, amount) => DebitSum(wallets, from, amount);
    case TreasurySpent(to, amount) => CreditSum(wallets, to, amount);
    case UsdcMoved(from, to, amount) => MoveSum(wallets, from, to, amount);
    case _ =>
  }

  lemma SharesMove(s: State, now: i64, e: Event)
    requires Permitted(s, now, e) && SharesBacked(s)
    ensures SharesBacked(Evolve(s, now, e))
  {
    hide IsFloor, TermsFromCurve, CreditAccepted, SumBy, Rolled, BalanceOf, LateDays, FeeDue, Debit, Credited, Moved;
    var shares := s.tokens.shares;
    match e
    case Deposited(lp, _, minted) => CreditSum(shares, lp, minted);
    case Withdrew(lp, burned, _) => DebitSum(shares, lp, burned);
    case SharesMoved(from, to, amount) => MoveSum(shares, from, to, amount);
    case SharesBurned(from, amount) => DebitSum(shares, from, amount);
    case _ =>
  }

  // ---- Lent-out principal, pool-wide and per agent ----

  function PrincipalOf(k: Key, a: Advance): int { a.principal }

  function PrincipalFor(agent: Pubkey): (Key, Advance) -> int {
    (k: Key, a: Advance) => if k.agent == agent then a.principal else 0
  }

  function Live(s: State, agent: Pubkey): u64 {
    if agent in s.issuance then s.issuance[agent].livePrincipal else 0
  }

  /** Two levels of one sum: the pool's counter is the sum of all live principals, and each
      agent's counter the sum of that agent's. */
  ghost predicate DeployedExplained(s: State) {
    && s.pool.deployed == SumBy(s.advances, PrincipalOf)
    && (forall agent :: Live(s, agent) == SumBy(s.advances, PrincipalFor(agent)))
    && (forall k :: k in s.advances ==> k.agent in s.issuance)
  }

  lemma DeployedStep(s: State, now: i64, e: Event)
    requires Permitted(s, now, e) && DeployedExplained(s)
    ensures DeployedExplained(Evolve(s, now, e))
  {
    if e.AdvanceIssued? {
      IssueDeploys(s, now, e);
    } else if e.AdvanceSettled? || e.AdvanceLiquidated? {
      EndingRecovers(s, now, e);
    } else {
      OthersLeaveDeployed(s, now, e);
    }
  }

  lemma IssueDeploys(s: State, now: i64, e: Event)
    requires Permitted(s, now, e) && DeployedExplained(s) && e.AdvanceIssued?
    ensures DeployedExplained(Evolve(s, now, e))
  {
    hide DeployedExplained, TermsFromCurve, CreditAccepted;
    AdvanceOpened(s, Evolve(s, now, e), e.key, e.advance);
  }

  lemma EndingRecovers(s: State, now: i64, e: Event)
    requires Permitted(s, now, e) && DeployedExplained(s) && (e.AdvanceSettled? || e.AdvanceLiquidated?)
    ensures DeployedExplained(Evolve(s, now, e))
  {
    hide DeployedExplained, IsFloor;
    AdvanceClosed(s, Evolve(s, now, e), e.key);
  }

  lemma OthersLeaveDeployed(s: State, now: i64, e: Event)
    requires Permitted(s, now, e) && DeployedExplained(s)
    requires !e.AdvanceIssued? && !e.AdvanceSettled? && !e.AdvanceLiquidated?
    ensures DeployedExplained(Evolve(s, now, e))
  {
    LendingUntouched(s, now, e);
    hide Permitted, Evolve;
    var s' := Evolve(s, now, e);
    forall agent ensures Live(s', agent) == SumBy(s'.advances, PrincipalFor(agent)) {
      assert Live(s, agent) == SumBy(s.advances, PrincipalFor(agent));
    }
  }

  lemma LendingUntouched(s: State, now: i64, e: Event)
    requires Permitted(s, now, e) && !e.AdvanceIssued? && !e.AdvanceSettled? && !e.AdvanceLiquidated?
    ensures
      var s' := Evolve(s, now, e);
      && s'.advances == s.advances && s'.issuance == s.issuance && s'.pool.deployed == s.pool.deployed
  {
    hide IsFloor;
  }

  /** Opening an advance adds its principal to both levels. */
  lemma AdvanceOpened(s: State, s': State, key: Key, a: Advance)
    requires DeployedExplained(s) && key !in s.advances
    requires s'.advances == s.advances[key := a]
    requires s'.pool.deployed == s.pool.deployed + a.principal
    requires Live(s', key.agent) == Live(s, key.agent) + a.principal
    requires key.agent in s'.issuance
    requires forall agent :: agent != key.agent ==>
               (agent in s'.issuance <==> agent in s.issuance) && Live(s', agent) == Live(s, agent)
    ensures DeployedExplained(s')
  {
    SumUpdate(s.advances, PrincipalOf, key, a);
    forall agent ensures Live(s', agent) == SumBy(s'.advances, PrincipalFor(agent)) {
      SumUpdate(s.advances, PrincipalFor(agent), key, a);
      assert Live(s, agent) == SumBy(s.advances, PrincipalFor(agent));
    }
  }

  /** Closing an advance takes its principal out of both levels. */
  lemma AdvanceClosed(s: State, s': State, key: Key)
    requires DeployedExplained(s) && key in s.advances && key.agent in s.issuance
    requires s'.advances == s.advances - {key}
    requires s'.pool.deployed == s.pool.deployed - s.advances[key].principal
    requires s.advances[key].principal <= s.issuance[key.agent].livePrincipal
    requires s'.issuance == s.issuance[key.agent :=
      s.issuance[key.agent].(livePrincipal := s.issuance[key.agent].livePrincipal - s.advances[key].principal)]
    ensures DeployedExplained(s')
  {
    SumRemove(s.advances, PrincipalOf, key);
    forall agent ensures Live(s', agent) == SumBy(s'.advances, PrincipalFor(agent)) {
      SumRemove(s.advances, PrincipalFor(agent), key);
      assert Live(s, agent) == SumBy(s.advances, PrincipalFor(agent));
    }
  }

  // ---- Every key is issued once and ends once ----

  function Indicator(b: bool): int { if b then 1 else 0 }

  /** For one key: the journal shows as many issues as there are consumed records (none or one),
      and each issue is live, settled or liquidated, exclusively; liquidated means a tombstone. */
  ghost predicate KeyPartition(w: World, key: Key) {
    && Tally(w.log, IssuesOf(key)) == Indicator(key in w.state.consumed)
    && Indicator(key in w.state.consumed)
       == Indicator(key in w.state.advances) + Tally(w.log, SettlementsOf(key)) + Tally(w.log, LiquidationsOf(key))
    && Tally(w.log, LiquidationsOf(key)) == Indicator(key in w.state.tombstones)
    && 0 <= Tally(w.log, SettlementsOf(key))
  }

  /** What one event does to the records of one key. */
  lemma KeyMoves(s: State, now: i64, e: Event, key: Key)
    requires Permitted(s, now, e)
    ensures
      var s' := Evolve(s, now, e);
      var issued, settled, liquidated := IssuesOf(key)(e), SettlementsOf(key)(e), LiquidationsOf(key)(e);
      && Indicator(key in s'.consumed) == Indicator(key in s.consumed) + issued
      && Indicator(key in s'.advances) == Indicator(key in s.advances) + issued - settled - liquidated
      && Indicator(key in s'.tombstones) == Indicator(key in s.tombstones) + liquidated
      && 0 <= settled
  {
    hide IsFloor, TermsFromCurve, CreditAccepted, Rolled, LateDays, FeeDue, Debit, Credited, Moved;
  }

  lemma KeyPartitionStep(w: World, now: i64, e: Event, key: Key)
    requires Permitted(w.state, now, e) && KeyPartition(w, key)
    ensures KeyPartition(After(w, now, e), key)
  {
    hide Permitted, Evolve, Tally, IssuesOf, SettlementsOf, LiquidationsOf;
    KeyMoves(w.state, now, e, key);
    var x := Entry(now, e);
    TallySnoc(w.log, x, IssuesOf(key));
    TallySnoc(w.log, x, SettlementsOf(key));
    TallySnoc(w.log, x, LiquidationsOf(key));
  }

  // ---- Exposure ----

  /** The credit an attestation leaves room for. */
  function Room(c: Credit): int { Max(c.creditLimit - c.outstanding, 0) }

  /** The largest room over all attestations accepted for the agent. */
  ghost function BestRoom(log: seq<Entry>, agent: Pubkey): int {
    if log == [] then 0
    else
      var e := log[|log| - 1].event;
      var before := BestRoom(log[..|log| - 1], agent);
      if e.AdvanceIssued? && e.key.agent == agent then Max(before, Room(e.credit)) else before
  }

  ghost predicate ExposureBounded(w: World, agent: Pubkey) {
    Live(w.state, agent) <= BestRoom(w.log, agent)
  }

  lemma ExposureStep(w: World, now: i64, e: Event, agent: Pubkey)
    requires Permitted(w.state, now, e) && ExposureBounded(w, agent)
    ensures ExposureBounded(After(w, now, e), agent)
  {
    hide IsFloor, TermsFromCurve, CreditAccepted;
    assert (w.log + [Entry(now, e)])[..|w.log|] == w.log;
  }

  // ---- Terms of live advances ----

  /** What issuance guarantees about an advance for as long as it lives. */
  ghost predicate TermsSound(a: Advance) {
    && MIN_ADVANCE_ATOMS <= a.principal
    && a.feeOwed <= a.principal
    && 130 * a.latePenaltyPerDay <= a.principal
    && a.issuedAt < a.expiresAt
  }

  ghost predicate ParamsSound(s: State) {
    && s.pool.params.curve.Valid()
    && (s.pool.pending.Some? ==> s.pool.pending.value.params.curve.Valid())
    && (forall k :: k in s.advances ==> TermsSound(s.advances[k]))
  }

  lemma ParamsStep(s: State, now: i64, e: Event)
    requires Permitted(s, now, e) && ParamsSound(s)
    ensures ParamsSound(Evolve(s, now, e)) && Evolve(s, now, e).config == s.config
  {
    hide IsFloor, FeeAmount, LatePenaltyPerDay, UtilizationBps;
    if e.AdvanceIssued? {
      var a, c := e.advance, s.pool.params.curve;
      FeeCapped(a.principal, Max(SaturatingSubI64(a.expiresAt, now), 0),
                UtilizationBps(s.pool.totalAssets, s.pool.deployed), 0, c);
      LatePenaltyBound(a.principal, c);
    }
  }
}
