/** The life of every loan in the journal: each settlement and each liquidation answers one
    earlier issue, on its terms, at the right time, for the right amount. */
module Lifecycle {
  import opened Numbers
  import opened Ledger
  import opened Handlers
  import opened Runs
  import opened Effects

  ghost predicate Issues(x: Entry, key: Key, a: Advance) {
    x.event.AdvanceIssued? && x.event.key == key && x.event.advance == a && a.issuedAt == x.time
  }

  /** A settlement of this advance: in time, for its principal and the fees due then, 15% of them, rounded
      down, to the protocol. */
  ghost predicate Repays(x: Entry, key: Key, a: Advance) {
    && x.event.AdvanceSettled? && x.event.key == key
    && x.time < a.expiresAt + 1_209_600
    && x.event.principal == a.principal
    && x.event.lpFee + x.event.protocolCut == Fees(a, x.time) && x.event.protocolCut == Cut(a, x.time)
  }

  /** A liquidation of this advance: after its grace period, for its principal. */
  ghost predicate WritesOff(x: Entry, key: Key, a: Advance) {
    && x.event.AdvanceLiquidated? && x.event.key == key
    && a.expiresAt + 1_209_600 <= x.time
    && x.event.loss == a.principal
  }

  /** Entry `j` ends the advance that entry `i` issued. */
  ghost predicate Ends(log: seq<Entry>, i: int, j: int) {
    && 0 <= i < j < |log| && log[i].event.AdvanceIssued?
    && var key, a := log[i].event.key, log[i].event.advance;
    && Issues(log[i], key, a) && (Repays(log[j], key, a) || WritesOff(log[j], key, a))
  }

  /** Every advance there is was issued, as it stands. */
  ghost predicate LiveExplained(log: seq<Entry>, advances: map<Key, Advance>) {
    forall key :: key in advances ==> exists i :: 0 <= i < |log| && Issues(log[i], key, advances[key])
  }

  predicate IsEnd(e: Event) { e.AdvanceSettled? || e.AdvanceLiquidated? }

  /** Every settlement and every liquidation ends an advance issued before it. */
  ghost predicate EndingsExplained(log: seq<Entry>) {
    forall j :: 0 <= j < |log| && IsEnd(log[j].event) ==> exists i :: Ends(log, i, j)
  }

  ghost predicate TombstonesExplained(log: seq<Entry>, tombstones: map<Key, Tombstone>) {
    forall key :: key in tombstones ==> exists i, j :: Ends(log, i, j) && Buried(log[i], log[j], key, tombstones[key])
  }

  ghost predicate LoansExplained(w: World) {
    && LiveExplained(w.log, w.state.advances)
    && EndingsExplained(w.log)
    && TombstonesExplained(w.log, w.state.tombstones)
  }

  /** The tombstone repeats the loan's principal and expiry and the time it was written off. */
  ghost predicate Buried(issue: Entry, end: Entry, key: Key, t: Tombstone) {
    && issue.event.AdvanceIssued? && end.event.AdvanceLiquidated? && end.event.key == key
    && t == Tombstone(issue.event.advance.principal, issue.event.advance.expiresAt, end.time)
  }

  /** What one event does to advances and tombstones. */
  lemma LoansMove(s: State, now: i64, e: Event)
    requires Permitted(s, now, e)
    ensures
      var s', x := Evolve(s, now, e), Entry(now, e);
      && (e.AdvanceIssued? ==>
            && Issues(x, e.key, e.advance)
            && s'.advances == s.advances[e.key := e.advance] && s'.tombstones == s.tombstones)
      && (e.AdvanceSettled? ==>
            && e.key in s.advances && Repays(x, e.key, s.advances[e.key])
            && s'.advances == s.advances - {e.key} && s'.tombstones == s.tombstones)
      && (e.AdvanceLiquidated? ==>
            && e.key in s.advances && WritesOff(x, e.key, s.advances[e.key])
            && s'.advances == s.advances - {e.key}
            && s'.tombstones == s.tombstones[e.key := Tombstone(e.loss, s.advances[e.key].expiresAt, now)])
      && (!e.AdvanceIssued? && !e.AdvanceSettled? && !e.AdvanceLiquidated? ==>
            s'.advances == s.advances && s'.tombstones == s.tombstones)
  {
    if e.AdvanceSettled? {
      SplitInFigures(s, now, e);
    }
    hide CreditAccepted, Rolled, Fees, Cut, FeeDue, LateDays, Debit, Credited, Moved, BalanceOf;
  }

  lemma EndsKept(log: seq<Entry>, x: Entry, i: int, j: int)
    requires Ends(log, i, j)
    ensures Ends(log + [x], i, j)
  {
  }

  lemma LiveStep(log: seq<Entry>, x: Entry, advances: map<Key, Advance>, advances': map<Key, Advance>)
    requires LiveExplained(log, advances)
    requires forall key :: key in advances' ==>
               Issues(x, key, advances'[key]) || (key in advances && advances'[key] == advances[key])
    ensures LiveExplained(log + [x], advances')
  {
    hide Issues;
    var log' := log + [x];
    forall key | key in advances' ensures exists i :: 0 <= i < |log'| && Issues(log'[i], key, advances'[key]) {
      if Issues(x, key, advances'[key]) {
        assert Issues(log'[|log|], key, advances'[key]);
      } else {
        var i :| 0 <= i < |log| && Issues(log[i], key, advances[key]);
        assert Issues(log'[i], key, advances'[key]);
      }
    }
  }

  /** A new end is explained by the issue of the live advance it ends. */
  lemma EndFound(log: seq<Entry>, x: Entry, advances: map<Key, Advance>) returns (i: int)
    requires LiveExplained(log, advances) && IsEnd(x.event) && x.event.key in advances
    requires var a := advances[x.event.key]; Repays(x, x.event.key, a) || WritesOff(x, x.event.key, a)
    ensures Ends(log + [x], i, |log|)
    ensures x.event.AdvanceLiquidated? ==>
              Buried((log + [x])[i], x, x.event.key,
                     Tombstone(x.event.loss, advances[x.event.key].expiresAt, x.time))
  {
    hide Fees, Cut;
    i :| 0 <= i < |log| && Issues(log[i], x.event.key, advances[x.event.key]);
  }

  lemma EndingsStep(log: seq<Entry>, x: Entry)
    requires EndingsExplained(log) && (IsEnd(x.event) ==> exists i :: Ends(log + [x], i, |log|))
    ensures EndingsExplained(log + [x])
  {
    hide Ends;
    var log' := log + [x];
    forall j | 0 <= j < |log'| && IsEnd(log'[j].event) ensures exists i :: Ends(log', i, j) {
      if j < |log| {
        assert log'[j] == log[j];
        var i :| Ends(log, i, j);
        EndsKept(log, x, i, j);
      }
    }
  }

  lemma TombstonesStep(log: seq<Entry>, x: Entry, tombstones: map<Key, Tombstone>, tombstones': map<Key, Tombstone>)
    requires TombstonesExplained(log, tombstones)
    requires forall key :: key in tombstones' ==>
               || (key in tombstones && tombstones'[key] == tombstones[key])
               || exists i :: Ends(log + [x], i, |log|) && Buried((log + [x])[i], x, key, tombstones'[key])
    ensures TombstonesExplained(log + [x], tombstones')
  {
    hide Buried;
    var log' := log + [x];
    forall key | key in tombstones'
      ensures exists i, j :: Ends(log', i, j) && Buried(log'[i], log'[j], key, tombstones'[key])
    {
      if key in tombstones && tombstones'[key] == tombstones[key] {
        var i, j :| Ends(log, i, j) && Buried(log[i], log[j], key, tombstones[key]);
        EndsKept(log, x, i, j);
        assert Buried(log'[i], log'[j], key, tombstones'[key]);
      } else {
        var i :| Ends(log', i, |log|) && Buried(log'[i], x, key, tombstones'[key]);
        assert Buried(log'[i], log'[|log|], key, tombstones'[key]);
      }
    }
  }

  lemma LoansStep(w: World, now: i64, e: Event)
    requires Permitted(w.state, now, e) && LoansExplained(w)
    ensures LoansExplained(After(w, now, e))
  {
    LoansMove(w.state, now, e);
    hide Permitted, Evolve, Repays, WritesOff, Issues, Ends, LiveExplained, EndingsExplained, TombstonesExplained;
    var x, s, s' := Entry(now, e), w.state, After(w, now, e).state;
    LiveStep(w.log, x, s.advances, s'.advances);
    if IsEnd(e) {
      var i := EndFound(w.log, x, s.advances);
    }
    EndingsStep(w.log, x);
    TombstonesStep(w.log, x, s.tombstones, s'.tombstones);
  }

  /** In every run: a live advance is one the journal issued; every settlement paid what its issue
      owed at that time, before the window closed; every liquidation wrote off its issue's principal
      once the window had closed; and every tombstone tells that story. */
  lemma {:induction false} EveryLoanExplained(g: Genesis, txs: seq<Tx>)
    requires g.Valid()
    ensures LoansExplained(Run(g, txs))
  {
    hide Permitted, Evolve;
    if txs != [] {
      var n := |txs| - 1;
      var w, tx := Run(g, txs[..n]), txs[n];
      EveryLoanExplained(g, txs[..n]);
      if Decide(w.state, tx).Ok? {
        LoansStep(w, tx.env.now, Decide(w.state, tx).value);
      }
    }
  }
}
