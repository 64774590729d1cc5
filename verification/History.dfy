/** What the journal says about governance: parameter changes against their proposals, and
    the signer list against its additions and removals. */
module History {
  import opened Numbers
  import opened Ledger
  import opened Runs

  // ---- Timelocked parameters ----

  /** The parameters the journal puts in force: the latest executed ones, or the initial ones. */
  ghost function InForce(log: seq<Entry>, initial: Params): Params {
    if log == [] then initial
    else
      var e := log[|log| - 1].event;
      if e.ParamsExecuted? then e.params else InForce(log[..|log| - 1], initial)
  }

  predicate TouchesParams(e: Event) { e.ParamsProposed? || e.ParamsExecuted? }

  /** Entry `i` is the proposal `p`, staged under the timelock, and nothing after it up to `j` touches parameters. */
  ghost predicate ProposedAt(log: seq<Entry>, i: int, j: int, p: Params, timelock: int, executeAfter: i64) {
    && 0 <= i < j <= |log|
    && log[i].event == ParamsProposed(Pending(p, executeAfter))
    && executeAfter == log[i].time + timelock
    && (forall k :: i < k < j ==> !TouchesParams(log[k].event))
  }

  /** Entry `j` executes the latest proposal, at least `timelock` seconds after it was made. */
  ghost predicate TimelockedAt(log: seq<Entry>, j: int, timelock: int)
    requires 0 <= j < |log| && log[j].event.ParamsExecuted?
  {
    exists i: int, after: i64 :: ProposedAt(log, i, j, log[j].event.params, timelock, after) && log[j].time >= after
  }

  ghost predicate ParamsTimelocked(w: World, initial: Params) {
    && w.state.pool.params == InForce(w.log, initial)
    && (w.state.pool.pending.Some? ==>
          exists i :: ProposedAt(w.log, i, |w.log|, w.state.pool.pending.value.params,
                                 w.state.config.timelock, w.state.pool.pending.value.executeAfter))
    && (forall j :: 0 <= j < |w.log| && w.log[j].event.ParamsExecuted? ==>
          TimelockedAt(w.log, j, w.state.config.timelock))
  }

  lemma ProposedAtGrows(log: seq<Entry>, x: Entry, i: int, j: int, p: Params, timelock: int, after: i64)
    requires ProposedAt(log, i, j, p, timelock, after)
    ensures ProposedAt(log + [x], i, j, p, timelock, after)
    ensures j == |log| && !TouchesParams(x.event) ==> ProposedAt(log + [x], i, j + 1, p, timelock, after)
  {
  }

  lemma TimelockStep(w: World, now: i64, e: Event, initial: Params)
    requires Permitted(w.state, now, e) && ParamsTimelocked(w, initial)
    ensures ParamsTimelocked(After(w, now, e), initial)
  {
    var x := Entry(now, e);
    var log, w' := w.log, After(w, now, e);
    var timelock := w.state.config.timelock;
    assert w'.log[..|log|] == log;
    forall j | 0 <= j < |w'.log| && w'.log[j].event.ParamsExecuted? ensures TimelockedAt(w'.log, j, timelock) {
      var p := w'.log[j].event.params;
      if j < |log| {
        assert w'.log[j] == log[j];
        var i: int, after: i64 :| ProposedAt(log, i, j, p, timelock, after) && log[j].time >= after;
        ProposedAtGrows(log, x, i, j, p, timelock, after);
      } else {
        var pending := w.state.pool.pending.value;
        var i :| ProposedAt(log, i, |log|, p, timelock, pending.executeAfter);
        ProposedAtGrows(log, x, i, j, p, timelock, pending.executeAfter);
      }
    }
    if e.ParamsProposed? {
      assert ProposedAt(w'.log, |log|, |w'.log|, e.pending.params, timelock, e.pending.executeAfter);
    } else if w'.state.pool.pending.Some? {
      var pending := w.state.pool.pending.value;
      var i :| ProposedAt(log, i, |log|, pending.params, timelock, pending.executeAfter);
      ProposedAtGrows(log, x, i, |log|, pending.params, timelock, pending.executeAfter);
    }
  }

  // ---- The signer list ----

  /** Whether the latest entry about this signer added it. */
  ghost predicate Listed(log: seq<Entry>, signer: Pubkey) {
    if log == [] then false
    else
      var e := log[|log| - 1].event;
      if e.SignerAdded? && e.signer == signer then true
      else if e.SignerRemoved? && e.signer == signer then false
      else Listed(log[..|log| - 1], signer)
  }

  ghost predicate RegistrySound(w: World) {
    && w.state.registry.governance != DefaultKey()
    && (forall k :: k in w.state.registry.allowed <==> Listed(w.log, k))
    && (forall k :: k in w.state.registry.allowed ==> w.state.registry.allowed[k] == CREDIT_BRIDGE)
    && (forall j :: 0 <= j < |w.log| && w.log[j].event.AdvanceIssued? ==>
          Listed(w.log[..j], w.log[j].event.advance.attestor))
  }

  lemma RegistryStep(w: World, now: i64, e: Event)
    requires Permitted(w.state, now, e) && RegistrySound(w)
    ensures RegistrySound(After(w, now, e))
  {
    var log, w' := w.log, After(w, now, e);
    assert w'.log[..|log|] == log;
    forall j | 0 <= j < |w'.log| && w'.log[j].event.AdvanceIssued?
      ensures Listed(w'.log[..j], w'.log[j].event.advance.attestor)
    {
      if j < |log| {
        assert w'.log[..j] == log[..j] && w'.log[j] == log[j];
      }
    }
  }

  // ---- Records of one advance ----

  /** The permanent record of an issue carries its nonce and time; the advance keeps the terms it
      was issued with for as long as it lives; its tombstone, if any, repeats them. */
  ghost predicate RecordsOf(s: State, key: Key, a: Advance, nonce: Bytes) {
    && key in s.consumed && s.consumed[key] == Consumed(nonce, a.issuedAt)
    && (key in s.advances ==> s.advances[key] == a)
    && (key in s.tombstones ==>
          s.tombstones[key].principal == a.principal && s.tombstones[key].expiresAt == a.expiresAt)
  }

  ghost predicate RecordsMatch(w: World) {
    && (forall j :: 0 <= j < |w.log| && w.log[j].event.AdvanceIssued? ==>
          RecordsOf(w.state, w.log[j].event.key, w.log[j].event.advance, w.log[j].event.credit.nonce))
    && (forall key :: key in w.state.advances || key in w.state.tombstones ==> key in w.state.consumed)
  }

  lemma RecordsStep(w: World, now: i64, e: Event)
    requires Permitted(w.state, now, e) && RecordsMatch(w)
    ensures RecordsMatch(After(w, now, e))
  {
    var w' := After(w, now, e);
    forall j | 0 <= j < |w'.log| && w'.log[j].event.AdvanceIssued?
      ensures RecordsOf(w'.state, w'.log[j].event.key, w'.log[j].event.advance, w'.log[j].event.credit.nonce)
    {
      if j < |w.log| {
        assert w'.log[j] == w.log[j];
        RecordsKept(w.state, now, e, w.log[j].event.key, w.log[j].event.advance, w.log[j].event.credit.nonce);
      }
    }
  }

  lemma RecordsKept(s: State, now: i64, e: Event, key: Key, a: Advance, nonce: Bytes)
    requires Permitted(s, now, e) && RecordsOf(s, key, a, nonce)
    ensures RecordsOf(Evolve(s, now, e), key, a, nonce)
  {
    hide TermsFromCurve, CreditAccepted, LateDays, FeeDue, Debit, Credited, Moved;
  }
}
