/** The run theorems. */
module Invariants {
  import opened Numbers
  import opened Ledger
  import opened Handlers
  import opened Runs
  import opened Accounting
  import opened History

  /** Everything kept by every instruction. */
  ghost predicate Inv(g: Genesis, w: World)
    requires g.Valid()
  {
    && w.state.config == g.config
    && VaultConserved(w) && AssetsExplained(w) && FeesExplained(w, g.treasury)
    && SharesBacked(w.state) && UsdcSupply(w.state.tokens) == UsdcSupply(g.Start().state.tokens)
    && DeployedExplained(w.state)
    && (forall key :: KeyPartition(w, key))
    && (forall agent :: ExposureBounded(w, agent))
    && ParamsSound(w.state)
    && ParamsTimelocked(w, g.params)
    && RegistrySound(w)
    && RecordsMatch(w)
  }

  lemma StartInv(g: Genesis)
    requires g.Valid()
    ensures Inv(g, g.Start())
  {
  }

  lemma AfterKeepsInv(g: Genesis, w: World, now: i64, e: Event)
    requires g.Valid() && Inv(g, w) && Permitted(w.state, now, e)
    ensures Inv(g, After(w, now, e))
  {
    VaultStep(w, now, e);
    FeesStep(w, now, e, g.treasury);
    TokensStep(w.state, now, e);
    DeployedStep(w.state, now, e);
    ParamsStep(w.state, now, e);
    TimelockStep(w, now, e, g.params);
    RegistryStep(w, now, e);
    RecordsStep(w, now, e);
    forall key ensures KeyPartition(After(w, now, e), key) {
      KeyPartitionStep(w, now, e, key);
    }
    forall agent ensures ExposureBounded(After(w, now, e), agent) {
      ExposureStep(w, now, e, agent);
    }
  }

  lemma {:induction false} RunKeepsInv(g: Genesis, txs: seq<Tx>)
    requires g.Valid()
    ensures Inv(g, Run(g, txs))
  {
    if txs == [] {
      StartInv(g);
    } else {
      var n := |txs| - 1;
      var w, tx := Run(g, txs[..n]), txs[n];
      RunKeepsInv(g, txs[..n]);
      if Decide(w.state, tx).Ok? {
        AfterKeepsInv(g, w, tx.env.now, Decide(w.state, tx).value);
      }
    }
  }
}
