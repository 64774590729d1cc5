/** Every holder's balances in every run, explained by the journal: nobody's shares or USDC change
    except by what happened to that holder. */
module Holders {
  import opened Numbers
  import opened Ledger
  import opened Handlers
  import opened Runs

  /** What an event adds to `k`'s shares. */
  function SharesGained(k: Pubkey): Event -> int {
    (e: Event) =>
      match e
      case Deposited(lp, _, minted) => if lp == k then minted else 0
      case Withdrew(lp, burned, _) => if lp == k then 0 - (burned as int) else 0
      case SharesMoved(from, to, amount) => (if to == k then amount else 0) - (if from == k then amount else 0)
      case SharesBurned(from, amount) => if from == k then 0 - (amount as int) else 0
      case _ => 0
  }

  /** What an event adds to `k`'s USDC. */
  function UsdcGained(k: Pubkey): Event -> int {
    (e: Event) =>
      match e
      case Deposited(lp, amount, _) => if lp == k then 0 - (amount as int) else 0
      case Withdrew(lp, _, returned) => if lp == k then returned else 0
      case AdvanceIssued(key, a, _) => if key.agent == k then a.principal else 0
      case AdvanceSettled(key, principal, lpFee, cut, _, _) =>
        if key.agent == k then 0 - (principal + lpFee + cut) else 0
      case VaultDonated(from, amount) => if from == k then 0 - (amount as int) else 0
      case TreasuryReceived(from, amount) => if from == k then 0 - (amount as int) else 0
      case TreasurySpent(to, amount) => if to == k then amount else 0
      case UsdcMoved(from, to, amount) => (if to == k then amount else 0) - (if from == k then amount else 0)
      case _ => 0
  }

  function MintedOf(e: Event): int { if e.Deposited? then e.minted else 0 }

  function RedeemedOf(e: Event): int { if e.Withdrew? then e.burned else 0 }

  lemma SharesMove(s: State, now: i64, e: Event, k: Pubkey)
    requires Permitted(s, now, e)
    ensures
      var s' := Evolve(s, now, e);
      && BalanceOf(s'.tokens.shares, k) == BalanceOf(s.tokens.shares, k) + SharesGained(k)(e)
      && s'.pool.totalShares == s.pool.totalShares + MintedOf(e) - RedeemedOf(e)
  {
    hide TermsFromCurve, CreditAccepted, Rolled, LateDays, FeeDue;
  }

  lemma UsdcMoves(s: State, now: i64, e: Event, k: Pubkey)
    requires Permitted(s, now, e)
    ensures BalanceOf(Evolve(s, now, e).tokens.wallets, k) == BalanceOf(s.tokens.wallets, k) + UsdcGained(k)(e)
  {
    hide TermsFromCurve, CreditAccepted, Rolled, LateDays, FeeDue;
  }

  /** In every run, each holder's shares are what the journal minted to it, moved to it, moved from
      it and burned of it; its USDC likewise, on top of what it started with; and the pool's share
      count is all shares minted less all redeemed. */
  lemma {:induction false} BalancesExplained(g: Genesis, txs: seq<Tx>, k: Pubkey)
    requires g.Valid()
    ensures
      var s, log := Run(g, txs).state, Run(g, txs).log;
      && BalanceOf(s.tokens.shares, k) == Tally(log, SharesGained(k))
      && BalanceOf(s.tokens.wallets, k) == BalanceOf(g.wallets, k) + Tally(log, UsdcGained(k))
      && s.pool.totalShares == Tally(log, MintedOf) - Tally(log, RedeemedOf)
  {
    if txs != [] {
      var n := |txs| - 1;
      BalancesExplained(g, txs[..n], k);
      StepExplained(Run(g, txs[..n]), txs[n], k);
    }
  }

  /** One step adds to the balances what its journal entry says. */
  lemma StepExplained(w: World, tx: Tx, k: Pubkey)
    ensures
      var s, s', log, log' := w.state, Step(w, tx).state, w.log, Step(w, tx).log;
      && BalanceOf(s'.tokens.shares, k) - BalanceOf(s.tokens.shares, k)
         == Tally(log', SharesGained(k)) - Tally(log, SharesGained(k))
      && BalanceOf(s'.tokens.wallets, k) - BalanceOf(s.tokens.wallets, k)
         == Tally(log', UsdcGained(k)) - Tally(log, UsdcGained(k))
      && s'.pool.totalShares - s.pool.totalShares
         == Tally(log', MintedOf) - Tally(log, MintedOf) - (Tally(log', RedeemedOf) - Tally(log, RedeemedOf))
  {
    hide Decide, Permitted, Evolve, SharesGained, UsdcGained, MintedOf, RedeemedOf, BalanceOf, Tally;
    match Decide(w.state, tx)
    case Ok(e) =>
      var x := Entry(tx.env.now, e);
      SharesMove(w.state, tx.env.now, e, k);
      UsdcMoves(w.state, tx.env.now, e, k);
      TallySnoc(w.log, x, SharesGained(k));
      TallySnoc(w.log, x, UsdcGained(k));
      TallySnoc(w.log, x, MintedOf);
      TallySnoc(w.log, x, RedeemedOf);
    case Err(_) =>
  }
}
