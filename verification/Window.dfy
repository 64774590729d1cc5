/** The per-agent issuance window.  The ledger's window tumbles: it restarts at the first
    issuance made 24 hours or more after the last restart.  This module derives what that
    gives for a sliding 24-hour interval. */
module Window {
  import opened Numbers
  import opened Pricing
  import opened Ledger
  import opened Runs

  function IssuedBy(x: Entry, agent: Pubkey): nat {
    if x.event.AdvanceIssued? && x.event.key.agent == agent then x.event.advance.principal else 0
  }

  /** Principal issued to the agent at times in [lo, hi). */
  ghost function IssuedIn(log: seq<Entry>, agent: Pubkey, lo: int, hi: int): nat {
    if log == [] then 0
    else
      var x := log[|log| - 1];
      IssuedIn(log[..|log| - 1], agent, lo, hi) + (if lo <= x.time < hi then IssuedBy(x, agent) else 0)
  }

  /** Principal issued to the agent at or after `lo`. */
  ghost function Since(log: seq<Entry>, agent: Pubkey, lo: int): nat {
    if log == [] then 0
    else
      var x := log[|log| - 1];
      Since(log[..|log| - 1], agent, lo) + (if lo <= x.time then IssuedBy(x, agent) else 0)
  }

  /** Any half-open interval of 24 hours, by its start. */
  ghost function InDay(log: seq<Entry>, agent: Pubkey, lo: int): nat {
    IssuedIn(log, agent, lo, lo + 86_400)
  }

  lemma SinceSnoc(log: seq<Entry>, x: Entry, agent: Pubkey, lo: int)
    ensures Since(log + [x], agent, lo) == Since(log, agent, lo) + (if lo <= x.time then IssuedBy(x, agent) else 0)
  {
    assert (log + [x])[..|log|] == log;
  }

  lemma IssuedInSnoc(log: seq<Entry>, x: Entry, agent: Pubkey, lo: int, hi: int)
    ensures IssuedIn(log + [x], agent, lo, hi)
            == IssuedIn(log, agent, lo, hi) + (if lo <= x.time < hi then IssuedBy(x, agent) else 0)
  {
    assert (log + [x])[..|log|] == log;
  }

  lemma {:induction false} IssuedInAtMostSince(log: seq<Entry>, agent: Pubkey, lo: int, hi: int)
    ensures IssuedIn(log, agent, lo, hi) <= Since(log, agent, lo)
  {
    if log != [] {
      IssuedInAtMostSince(log[..|log| - 1], agent, lo, hi);
    }
  }

  /** How the journal relates to the agent's current window: it holds exactly what was issued
      since its start, it began with an issuance, nothing lies past its end, and at most
      `cap - MIN` of what came before it is within a day of it. */
  ghost predicate LedgerMatches(log: seq<Entry>, agent: Pubkey, l: Issuance, cap: int) {
    && Since(log, agent, l.windowStart) == l.issuedInWindow
    && MIN_ADVANCE_ATOMS <= l.issuedInWindow <= cap
    && (forall t :: Since(log, agent, t) == 0 || MIN_ADVANCE_ATOMS <= Since(log, agent, t))
    && (forall t :: t > l.windowStart ==> Since(log, agent, t) + MIN_ADVANCE_ATOMS <= l.issuedInWindow)
    && (forall t :: t >= l.windowStart + AGENT_WINDOW_SECONDS ==> Since(log, agent, t) == 0)
    && (forall t :: l.windowStart - AGENT_WINDOW_SECONDS < t <= l.windowStart ==>
          Since(log, agent, t) <= l.issuedInWindow + cap - MIN_ADVANCE_ATOMS)
  }

  /** The most one agent can be issued in any 24 hours under a cap: the cap itself while it is
      below two minimum advances, and almost twice the cap from there on. */
  function SlidingBound(cap: int): int {
    if cap < 2_000_000 then cap else 2 * cap - 1_000_000
  }

  ghost predicate WindowSound(w: World, agent: Pubkey, cap: int, clock: int) {
    if agent in w.state.issuance then
      && w.state.issuance[agent].windowStart <= clock
      && LedgerMatches(w.log, agent, w.state.issuance[agent], cap)
      && (forall t :: InDay(w.log, agent, t) <= SlidingBound(cap))
    else
      && (forall t :: Since(w.log, agent, t) == 0)
      && (forall t :: InDay(w.log, agent, t) == 0)
  }

  /** Issuing `x` at `now` from a matching ledger leaves a matching ledger. */
  lemma LedgerRolls(log: seq<Entry>, agent: Pubkey, l: Issuance, cap: int, x: Entry, l': Issuance)
    requires LedgerMatches(log, agent, l, cap) && l.windowStart <= x.time
    requires MIN_ADVANCE_ATOMS <= IssuedBy(x, agent)
    requires l'.issuedInWindow <= cap
    requires if x.time - l.windowStart >= AGENT_WINDOW_SECONDS
             then l'.windowStart == x.time && l'.issuedInWindow == IssuedBy(x, agent)
             else l'.windowStart == l.windowStart && l'.issuedInWindow == l.issuedInWindow + IssuedBy(x, agent)
    ensures LedgerMatches(log + [x], agent, l', cap)
  {
    forall t
      ensures Since(log + [x], agent, t) == Since(log, agent, t) + (if t <= x.time then IssuedBy(x, agent) else 0)
    {
      SinceSnoc(log, x, agent, t);
    }
  }

  /** What the journal holds within a day before `now` leaves room for the new issuance.  Below two
      minimum advances a window holds a single issuance, so nothing recent is left. */
  lemma RecentIsBounded(log: seq<Entry>, agent: Pubkey, l: Issuance, cap: int, now: int, amount: int, t: int)
    requires LedgerMatches(log, agent, l, cap) && l.windowStart <= now
    requires t <= now < t + AGENT_WINDOW_SECONDS
    requires MIN_ADVANCE_ATOMS <= amount <= cap
    requires now - l.windowStart < AGENT_WINDOW_SECONDS ==> l.issuedInWindow + amount <= cap
    ensures InDay(log, agent, t) + amount <= SlidingBound(cap)
  {
    IssuedInAtMostSince(log, agent, t, t + AGENT_WINDOW_SECONDS);
    assert Since(log, agent, t) == 0 || MIN_ADVANCE_ATOMS <= Since(log, agent, t);
    assert t > l.windowStart || t <= l.windowStart;
  }

  lemma WindowStep(w: World, now: i64, e: Event, agent: Pubkey, cap: int, clock: int)
    requires Permitted(w.state, now, e) && WindowSound(w, agent, cap, clock) && clock <= now
    requires 0 < w.state.pool.params.agentWindowCap <= cap
    ensures WindowSound(After(w, now, e), agent, cap, now)
  {
    if e.AdvanceIssued? && e.key.agent == agent {
      if agent in w.state.issuance {
        LaterIssueStep(w, now, e, agent, cap, clock);
      } else {
        FirstIssueStep(w, now, e, agent, cap, clock);
      }
    } else {
      OtherStep(w, now, e, agent, cap, clock);
    }
  }

  /** An event that is not an issuance to this agent leaves its window and its journal sums alone. */
  lemma OtherStep(w: World, now: i64, e: Event, agent: Pubkey, cap: int, clock: int)
    requires Permitted(w.state, now, e) && WindowSound(w, agent, cap, clock) && clock <= now
    requires !(e.AdvanceIssued? && e.key.agent == agent)
    ensures WindowSound(After(w, now, e), agent, cap, now)
  {
    var x := Entry(now, e);
    var w' := After(w, now, e);
    SameWindow(w.state, now, e, agent);
    hide Permitted, Evolve;
    assert IssuedBy(x, agent) == 0;
    forall t ensures Since(w'.log, agent, t) == Since(w.log, agent, t) {
      SinceSnoc(w.log, x, agent, t);
    }
    forall t ensures InDay(w'.log, agent, t) == InDay(w.log, agent, t) {
      IssuedInSnoc(w.log, x, agent, t, t + AGENT_WINDOW_SECONDS);
    }
  }

  lemma SameWindow(s: State, now: i64, e: Event, agent: Pubkey)
    requires Permitted(s, now, e) && !(e.AdvanceIssued? && e.key.agent == agent)
    ensures
      var s' := Evolve(s, now, e);
      && (agent in s'.issuance <==> agent in s.issuance)
      && (agent in s.issuance ==>
            && s'.issuance[agent].windowStart == s.issuance[agent].windowStart
            && s'.issuance[agent].issuedInWindow == s.issuance[agent].issuedInWindow)
  {
    hide IsFloor, TermsFromCurve, CreditAccepted;
  }

  /** What an issuance does to the agent's own window. */
  lemma IssueCharges(s: State, now: i64, e: Event, agent: Pubkey)
    requires e.AdvanceIssued? && e.key.agent == agent && Permitted(s, now, e)
    ensures
      var l := Rolled(s.issuance, agent, now);
      var s' := Evolve(s, now, e);
      && agent in s'.issuance
      && s'.issuance[agent].windowStart == l.windowStart
      && s'.issuance[agent].issuedInWindow == l.issuedInWindow + e.advance.principal
      && MIN_ADVANCE_ATOMS <= e.advance.principal
      && (s.pool.params.agentWindowCap > 0 ==> s'.issuance[agent].issuedInWindow <= s.pool.params.agentWindowCap)
  {
    hide TermsFromCurve, CreditAccepted;
  }

  lemma FirstIssueStep(w: World, now: i64, e: Event, agent: Pubkey, cap: int, clock: int)
    requires e.AdvanceIssued? && e.key.agent == agent && agent !in w.state.issuance
    requires Permitted(w.state, now, e) && WindowSound(w, agent, cap, clock) && clock <= now
    requires 0 < w.state.pool.params.agentWindowCap <= cap
    ensures WindowSound(After(w, now, e), agent, cap, now)
  {
    var x := Entry(now, e);
    var w' := After(w, now, e);
    IssueCharges(w.state, now, e, agent);
    hide Permitted, Evolve;
    forall t ensures Since(w'.log, agent, t) == (if t <= now then e.advance.principal else 0) {
      SinceSnoc(w.log, x, agent, t);
      assert Since(w.log, agent, t) == 0;
    }
    forall t ensures InDay(w'.log, agent, t) <= SlidingBound(cap) {
      IssuedInSnoc(w.log, x, agent, t, t + AGENT_WINDOW_SECONDS);
      assert InDay(w.log, agent, t) == 0;
    }
  }

  lemma LaterIssueStep(w: World, now: i64, e: Event, agent: Pubkey, cap: int, clock: int)
    requires e.AdvanceIssued? && e.key.agent == agent && agent in w.state.issuance
    requires Permitted(w.state, now, e) && WindowSound(w, agent, cap, clock) && clock <= now
    requires 0 < w.state.pool.params.agentWindowCap <= cap
    ensures WindowSound(After(w, now, e), agent, cap, now)
  {
    var x := Entry(now, e);
    var w' := After(w, now, e);
    var l := w.state.issuance[agent];
    IssueCharges(w.state, now, e, agent);
    hide Permitted, Evolve;
    LedgerRolls(w.log, agent, l, cap, x, w'.state.issuance[agent]);
    forall t ensures InDay(w'.log, agent, t) <= SlidingBound(cap) {
      IssuedInSnoc(w.log, x, agent, t, t + AGENT_WINDOW_SECONDS);
      assert InDay(w.log, agent, t) <= SlidingBound(cap);
      if t <= now < t + AGENT_WINDOW_SECONDS {
        RecentIsBounded(w.log, agent, l, cap, now, e.advance.principal, t);
      }
    }
  }

  // ---- Windows that have passed ----

  /** `start` was a window start of the agent's ledger: still is, or lies a full window back. */
  ghost predicate PastWindow(w: World, agent: Pubkey, start: int, cap: int) {
    && agent in w.state.issuance
    && (start == w.state.issuance[agent].windowStart
        || start + 86_400 <= w.state.issuance[agent].windowStart)
    && IssuedIn(w.log, agent, start, start + 86_400) <= cap
  }

  lemma {:induction false} IssuedInIsDifference(log: seq<Entry>, agent: Pubkey, lo: int, hi: int)
    requires lo <= hi
    ensures IssuedIn(log, agent, lo, hi) == Since(log, agent, lo) - Since(log, agent, hi)
  {
    if log != [] {
      IssuedInIsDifference(log[..|log| - 1], agent, lo, hi);
    }
  }

  /** The current window holds what its counter says. */
  lemma CurrentWindow(w: World, agent: Pubkey, cap: int, clock: int)
    requires WindowSound(w, agent, cap, clock) && agent in w.state.issuance
    ensures
      var l := w.state.issuance[agent];
      && IssuedIn(w.log, agent, l.windowStart, l.windowStart + AGENT_WINDOW_SECONDS) == l.issuedInWindow <= cap
      && PastWindow(w, agent, l.windowStart, cap)
  {
    var start := w.state.issuance[agent].windowStart;
    IssuedInIsDifference(w.log, agent, start, start + AGENT_WINDOW_SECONDS);
    assert Since(w.log, agent, start + AGENT_WINDOW_SECONDS) == 0;
  }

  /** A window, once within the cap, stays within it: later issuances fall outside it or count
      against the cap with it. */
  lemma PastWindowStep(w: World, now: i64, e: Event, agent: Pubkey, start: int, cap: int, clock: int)
    requires Permitted(w.state, now, e) && clock <= now
    requires WindowSound(w, agent, cap, clock) && WindowSound(After(w, now, e), agent, cap, now)
    requires PastWindow(w, agent, start, cap)
    ensures PastWindow(After(w, now, e), agent, start, cap)
  {
    var x := Entry(now, e);
    var w' := After(w, now, e);
    IssuedInSnoc(w.log, x, agent, start, start + AGENT_WINDOW_SECONDS);
    if e.AdvanceIssued? && e.key.agent == agent {
      IssueCharges(w.state, now, e, agent);
    } else {
      SameWindow(w.state, now, e, agent);
    }
    hide Permitted, Evolve;
    if start == w'.state.issuance[agent].windowStart {
      CurrentWindow(w', agent, cap, now);
    }
  }
}
