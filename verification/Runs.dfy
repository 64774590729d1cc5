/** Runs of the programs: any sequence of instructions, accepted or rejected, from a
    freshly initialised pool, with the journal of what was accepted. */
module Runs {
  import opened Numbers
  import opened Ledger
  import opened Handlers

  datatype Entry = Entry(time: i64, event: Event)

  datatype World = World(state: State, log: seq<Entry>)

  /** What a deployment chooses: the pool's configuration and parameters, the registry's
      governance, and the balances that exist before the pool does. */
  datatype Genesis = Genesis(
    config: Config,
    params: Params,
    registryGovernance: Pubkey,
    treasury: u64,
    wallets: Balances)
  {
    predicate Valid() {
      InitPool(config, params).Ok? && InitRegistry(registryGovernance).Ok?
    }

    function Start(): World
      requires Valid()
    {
      World(State(config, InitPool(config, params).value, Tokens(0, treasury, wallets, map[]),
                  map[], map[], map[], map[], InitRegistry(registryGovernance).value),
            [])
    }
  }

  ghost function After(w: World, now: i64, e: Event): World
    requires Permitted(w.state, now, e)
  {
    World(Evolve(w.state, now, e), w.log + [Entry(now, e)])
  }

  /** One instruction: an accepted one commits its event, a rejected one changes nothing. */
  ghost function Step(w: World, tx: Tx): World {
    match Decide(w.state, tx)
    case Ok(e) => After(w, tx.env.now, e)
    case Err(_) => w
  }

  ghost function RunFrom(w: World, txs: seq<Tx>): World {
    if txs == [] then w else Step(RunFrom(w, txs[..|txs| - 1]), txs[|txs| - 1])
  }

  ghost function Run(g: Genesis, txs: seq<Tx>): World
    requires g.Valid()
  {
    RunFrom(g.Start(), txs)
  }

  /** The cluster clock never runs backwards. */
  ghost predicate ClockOrdered(txs: seq<Tx>) {
    forall i, j :: 0 <= i < j < |txs| ==> txs[i].env.now <= txs[j].env.now
  }

  lemma RunFromSnoc(w: World, txs: seq<Tx>, tx: Tx)
    ensures RunFrom(w, txs + [tx]) == Step(RunFrom(w, txs), tx)
  {
    assert (txs + [tx])[..|txs|] == txs;
  }

  lemma {:induction false} RunFromConcat(w: World, first: seq<Tx>, second: seq<Tx>)
    ensures RunFrom(w, first + second) == RunFrom(RunFrom(w, first), second)
  {
    if second == [] {
      assert first + second == first;
    } else {
      var n := |second| - 1;
      RunFromConcat(w, first, second[..n]);
      assert first + second == first + second[..n] + [second[n]];
      RunFromSnoc(w, first + second[..n], second[n]);
    }
  }

  // ---- Totals over the journal ----

  ghost function Tally(log: seq<Entry>, f: Event -> int): int {
    if log == [] then 0 else Tally(log[..|log| - 1], f) + f(log[|log| - 1].event)
  }

  lemma TallySnoc(log: seq<Entry>, x: Entry, f: Event -> int)
    ensures Tally(log + [x], f) == Tally(log, f) + f(x.event)
  {
    assert (log + [x])[..|log|] == log;
  }

  function DepositOf(e: Event): int { if e.Deposited? then e.amount else 0 }

  function WithdrawalOf(e: Event): int { if e.Withdrew? then e.returned else 0 }

  function LpFeeOf(e: Event): int { if e.AdvanceSettled? then e.lpFee else 0 }

  function CutOf(e: Event): int { if e.AdvanceSettled? then e.protocolCut else 0 }

  function LossOf(e: Event): int { if e.AdvanceLiquidated? then e.loss else 0 }

  function SkimOf(e: Event): int { if e.FeesSkimmed? then e.amount else 0 }

  function DonationOf(e: Event): int { if e.VaultDonated? then e.amount else 0 }

  /** Outside transfers into the treasury, less those out of it. */
  function TreasuryDriftOf(e: Event): int {
    if e.TreasuryReceived? then e.amount else if e.TreasurySpent? then 0 - (e.amount as int) else 0
  }

  function IssuesOf(key: Key): Event -> int {
    (e: Event) => if e.AdvanceIssued? && e.key == key then 1 else 0
  }

  function SettlementsOf(key: Key): Event -> int {
    (e: Event) => if e.AdvanceSettled? && e.key == key then 1 else 0
  }

  function LiquidationsOf(key: Key): Event -> int {
    (e: Event) => if e.AdvanceLiquidated? && e.key == key then 1 else 0
  }

  lemma {:induction false} TallyNonNegative(log: seq<Entry>, f: Event -> int)
    requires forall e :: 0 <= f(e)
    ensures 0 <= Tally(log, f)
  {
    if log != [] {
      TallyNonNegative(log[..|log| - 1], f);
    }
  }
}
