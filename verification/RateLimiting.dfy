/** The bridge's token-bucket rate limiter.  Times are in seconds, as reals; the clock is a
    parameter of each call. */
module RateLimiting {

  datatype Bucket = Bucket(tokens: real, last: real)

  type Buckets = map<string, Bucket>

  datatype Limits = Limits(capacity: real, refillPerSecond: real) {
    predicate Valid() { 0.0 <= capacity && 0.0 <= refillPerSecond }
  }

  datatype Attempt = Attempt(time: real, key: string, cost: real)

  function MinReal(a: real, b: real): real { if a <= b then a else b }

  /** Tokens regained in a stretch of time. */
  function Refill(l: Limits, seconds: real): real { seconds * l.refillPerSecond }

  /** The bucket for `key` topped up to `now`; a full one if there is none. */
  function Refilled(l: Limits, buckets: Buckets, key: string, now: real): Bucket {
    var b := if key in buckets then buckets[key] else Bucket(l.capacity, now);
    Bucket(MinReal(l.capacity, b.tokens + Refill(l, now - b.last)), now)
  }

  predicate Accepts(l: Limits, buckets: Buckets, a: Attempt) {
    Refilled(l, buckets, a.key, a.time).tokens >= a.cost
  }

  function Consumed(l: Limits, buckets: Buckets, a: Attempt): Buckets {
    var b := Refilled(l, buckets, a.key, a.time);
    buckets[a.key := if b.tokens < a.cost then b else b.(tokens := b.tokens - a.cost)]
  }

  // ---- Runs ----

  function After(l: Limits, attempts: seq<Attempt>): Buckets {
    if attempts == [] then map[]
    else Consumed(l, After(l, attempts[..|attempts| - 1]), attempts[|attempts| - 1])
  }

  /** What the given attempt adds to the accepted cost for `key` in [lo, hi]. */
  function Spent(l: Limits, buckets: Buckets, a: Attempt, key: string, lo: real, hi: real): real {
    if a.key == key && lo <= a.time <= hi && Accepts(l, buckets, a) then a.cost else 0.0
  }

  /** The total cost accepted for `key` at times in [lo, hi]. */
  function AcceptedCost(l: Limits, attempts: seq<Attempt>, key: string, lo: real, hi: real): real {
    if attempts == [] then 0.0
    else
      var before, a := attempts[..|attempts| - 1], attempts[|attempts| - 1];
      AcceptedCost(l, before, key, lo, hi) + Spent(l, After(l, before), a, key, lo, hi)
  }

  ghost predicate Ordered(attempts: seq<Attempt>) {
    && (forall i, j :: 0 <= i < j < |attempts| ==> attempts[i].time <= attempts[j].time)
    && (forall i :: 0 <= i < |attempts| ==> 0.0 <= attempts[i].cost)
  }

  /** The budget argument: what was accepted since `lo`, plus what is left in the bucket, is at
      most one capacity plus the refill since `lo`. */
  ghost predicate WithinBudget(l: Limits, buckets: Buckets, key: string, lo: real, hi: real, accepted: real) {
    && 0.0 <= accepted <= l.capacity + Refill(l, hi - lo)
    && (key !in buckets ==> accepted == 0.0)
    && (key in buckets ==>
          var b := buckets[key];
          && 0.0 <= b.tokens <= l.capacity
          && (b.last < lo ==> accepted == 0.0)
          && (lo <= b.last <= hi ==> accepted + b.tokens <= l.capacity + Refill(l, b.last - lo)))
  }

  lemma RefillMono(l: Limits, shorter: real, longer: real)
    requires l.Valid() && shorter <= longer
    ensures Refill(l, shorter) <= Refill(l, longer)
  {
  }

  lemma RefillZero(l: Limits)
    ensures Refill(l, 0.0) == 0.0
  {
  }

  lemma RefillAdds(l: Limits, first: real, second: real)
    ensures Refill(l, first) + Refill(l, second) == Refill(l, first + second)
  {
  }

  /** An attempt under another key leaves this key's bucket alone. */
  lemma OtherKey(l: Limits, buckets: Buckets, a: Attempt, key: string)
    requires a.key != key
    ensures key in Consumed(l, buckets, a) <==> key in buckets
    ensures key in buckets ==> Consumed(l, buckets, a)[key] == buckets[key]
  {
  }

  /** Topping up adds at most the refill since the bucket was last touched. */
  lemma RefillBounds(l: Limits, buckets: Buckets, key: string, now: real)
    requires l.Valid()
    requires key in buckets ==> 0.0 <= buckets[key].tokens <= l.capacity && buckets[key].last <= now
    ensures 0.0 <= Refilled(l, buckets, key, now).tokens <= l.capacity
    ensures key in buckets ==>
              Refilled(l, buckets, key, now).tokens <= buckets[key].tokens + Refill(l, now - buckets[key].last)
  {
    hide Refill;
    RefillZero(l);
    if key in buckets {
      RefillMono(l, 0.0, now - buckets[key].last);
    } else {
      assert now - now == 0.0;
    }
  }

  /** One attempt under the key, from a bucket last touched at or before it. */
  lemma OwnAttempt(l: Limits, buckets: Buckets, a: Attempt, key: string, lo: real, hi: real, accepted: real)
    requires l.Valid() && lo <= hi && 0.0 <= a.cost && a.key == key
    requires WithinBudget(l, buckets, key, lo, hi, accepted)
    requires key in buckets ==> buckets[key].last <= a.time
    requires accepted != 0.0 ==> lo <= a.time
    ensures WithinBudget(l, Consumed(l, buckets, a), key, lo, hi, accepted + Spent(l, buckets, a, key, lo, hi))
  {
    hide Refill;
    RefillBounds(l, buckets, key, a.time);
    RefillZero(l);
    if lo <= a.time <= hi {
      RefillMono(l, 0.0, a.time - lo);
      RefillMono(l, a.time - lo, hi - lo);
      if key in buckets {
        var last := buckets[key].last;
        RefillAdds(l, a.time - last, last - lo);
        assert a.time - last + (last - lo) == a.time - lo;
      }
    }
  }

  lemma OtherAttempt(l: Limits, buckets: Buckets, a: Attempt, key: string, lo: real, hi: real, accepted: real)
    requires a.key != key && WithinBudget(l, buckets, key, lo, hi, accepted)
    ensures WithinBudget(l, Consumed(l, buckets, a), key, lo, hi, accepted + Spent(l, buckets, a, key, lo, hi))
  {
    OtherKey(l, buckets, a, key);
  }

  /** A bucket was last touched no later than the latest attempt. */
  lemma {:induction false} LastBefore(l: Limits, attempts: seq<Attempt>, key: string, time: real)
    requires forall i :: 0 <= i < |attempts| ==> attempts[i].time <= time
    ensures key in After(l, attempts) ==> After(l, attempts)[key].last <= time
  {
    if attempts != [] {
      var n := |attempts| - 1;
      LastBefore(l, attempts[..n], key, time);
      if attempts[n].key != key {
        OtherKey(l, After(l, attempts[..n]), attempts[n], key);
      }
    }
  }

  lemma {:induction false} BudgetHolds(l: Limits, attempts: seq<Attempt>, key: string, lo: real, hi: real)
    requires l.Valid() && Ordered(attempts) && lo <= hi
    ensures WithinBudget(l, After(l, attempts), key, lo, hi, AcceptedCost(l, attempts, key, lo, hi))
    ensures AcceptedCost(l, attempts, key, lo, hi) != 0.0 ==> attempts != [] && lo <= attempts[|attempts| - 1].time
  {
    hide Refill;
    if attempts == [] {
      RefillZero(l);
      RefillMono(l, 0.0, hi - lo);
    } else {
      var n := |attempts| - 1;
      BudgetHolds(l, attempts[..n], key, lo, hi);
      var buckets, a, accepted := After(l, attempts[..n]), attempts[n], AcceptedCost(l, attempts[..n], key, lo, hi);
      LastBefore(l, attempts[..n], key, a.time);
      if a.key == key {
        OwnAttempt(l, buckets, a, key, lo, hi, accepted);
      } else {
        OtherAttempt(l, buckets, a, key, lo, hi, accepted);
      }
    }
  }

  /** How many unit-cost calls were accepted for `key` at times in [lo, hi]. */
  function AcceptedCount(l: Limits, attempts: seq<Attempt>, key: string, lo: real, hi: real): nat {
    if attempts == [] then 0
    else
      var before, a := attempts[..|attempts| - 1], attempts[|attempts| - 1];
      AcceptedCount(l, before, key, lo, hi)
      + (if a.key == key && lo <= a.time <= hi && Accepts(l, After(l, before), a) then 1 else 0)
  }

  lemma {:induction false} CountIsCost(l: Limits, attempts: seq<Attempt>, key: string, lo: real, hi: real)
    requires forall i :: 0 <= i < |attempts| ==> attempts[i].cost == 1.0
    ensures AcceptedCount(l, attempts, key, lo, hi) as real == AcceptedCost(l, attempts, key, lo, hi)
  {
    if attempts != [] {
      CountIsCost(l, attempts[..|attempts| - 1], key, lo, hi);
    }
  }

  /** On a clock that never runs backwards, the cost accepted for one key over any closed
      interval is at most the capacity plus the refill over its length, however the calls for
      other keys interleave and whatever came before. */
  lemma AcceptedCostBounded(l: Limits, attempts: seq<Attempt>, key: string, lo: real, length: real)
    requires l.Valid() && Ordered(attempts) && 0.0 <= length
    ensures AcceptedCost(l, attempts, key, lo, lo + length) <= l.capacity + Refill(l, length)
  {
    BudgetHolds(l, attempts, key, lo, lo + length);
    assert lo + length - lo == length;
  }

  /** The same for the bridge's own calls, which all cost one. */
  lemma AcceptedCallsBounded(l: Limits, attempts: seq<Attempt>, key: string, lo: real, length: real)
    requires l.Valid() && Ordered(attempts) && 0.0 <= length
    requires forall i :: 0 <= i < |attempts| ==> attempts[i].cost == 1.0
    ensures AcceptedCount(l, attempts, key, lo, lo + length) as real <= l.capacity + Refill(l, length)
  {
    AcceptedCostBounded(l, attempts, key, lo, length);
    CountIsCost(l, attempts, key, lo, lo + length);
  }

  // ---- The answers, exactly ----

  /** The limiter's answer to attempt `n`. */
  predicate Answer(l: Limits, attempts: seq<Attempt>, n: int)
    requires 0 <= n < |attempts|
  {
    Accepts(l, After(l, attempts[..n]), attempts[n])
  }

  /** Over every interval up to now, what was accepted for the key and this call together are
      within one capacity plus the refill over the interval's length. */
  ghost predicate WithinRate(l: Limits, attempts: seq<Attempt>, a: Attempt) {
    forall lo: real :: lo <= a.time ==>
      AcceptedCost(l, attempts, a.key, lo, a.time) + a.cost <= l.capacity + (a.time - lo) * l.refillPerSecond
  }

  /** Some interval accounts for the level of a bucket to the last token. */
  ghost predicate Tight(l: Limits, attempts: seq<Attempt>, key: string, hi: real, b: Bucket) {
    exists lo: real :: lo <= b.last
      && b.tokens == l.capacity + Refill(l, b.last - lo) - AcceptedCost(l, attempts, key, lo, hi)
  }

  lemma RefilledTight(l: Limits, attempts: seq<Attempt>, key: string, now: real, hi: real)
    requires l.Valid() && Ordered(attempts) && now <= hi
    requires forall i :: 0 <= i < |attempts| ==> attempts[i].time <= now
    requires key in After(l, attempts) ==> Tight(l, attempts, key, hi, After(l, attempts)[key])
    ensures Tight(l, attempts, key, hi, Refilled(l, After(l, attempts), key, now))
  {
    hide Refill, AcceptedCost, After;
    var buckets, b := After(l, attempts), Refilled(l, After(l, attempts), key, now);
    RefillZero(l);
    BudgetHolds(l, attempts, key, now, hi);
    LastBefore(l, attempts, key, now);
    assert now - now == 0.0;
    if key in buckets {
      var last := buckets[key].last;
      var lo: real :| lo <= last && buckets[key].tokens
                                    == l.capacity + Refill(l, last - lo) - AcceptedCost(l, attempts, key, lo, hi);
      RefillAdds(l, now - last, last - lo);
      assert now - last + (last - lo) == now - lo;
      if b.tokens == buckets[key].tokens + Refill(l, now - last) {
        assert b.tokens == l.capacity + Refill(l, b.last - lo) - AcceptedCost(l, attempts, key, lo, hi);
      } else {
        assert b.tokens == l.capacity + Refill(l, b.last - now) - AcceptedCost(l, attempts, key, now, hi);
      }
    } else {
      assert b.tokens == l.capacity + Refill(l, b.last - now) - AcceptedCost(l, attempts, key, now, hi);
    }
  }

  lemma {:induction false} BucketTight(l: Limits, attempts: seq<Attempt>, key: string, hi: real)
    requires l.Valid() && Ordered(attempts) && forall i :: 0 <= i < |attempts| ==> attempts[i].time <= hi
    ensures key in After(l, attempts) ==> Tight(l, attempts, key, hi, After(l, attempts)[key])
  {
    hide Refill;
    if attempts != [] {
      var n := |attempts| - 1;
      var before, a := attempts[..n], attempts[n];
      BucketTight(l, before, key, hi);
      if a.key == key {
        RefilledTight(l, before, key, a.time, hi);
        var b := Refilled(l, After(l, before), key, a.time);
        var lo: real :| lo <= b.last
          && b.tokens == l.capacity + Refill(l, b.last - lo) - AcceptedCost(l, before, key, lo, hi);
        var b' := After(l, attempts)[key];
        assert b'.tokens == l.capacity + Refill(l, b'.last - lo) - AcceptedCost(l, attempts, key, lo, hi);
      } else if key in After(l, attempts) {
        OtherKey(l, After(l, before), a, key);
        var b := After(l, before)[key];
        var lo: real :| lo <= b.last
          && b.tokens == l.capacity + Refill(l, b.last - lo) - AcceptedCost(l, before, key, lo, hi);
        assert b.tokens == l.capacity + Refill(l, b.last - lo) - AcceptedCost(l, attempts, key, lo, hi);
      }
    }
  }

  lemma OrderedPrefix(attempts: seq<Attempt>, a: Attempt)
    requires Ordered(attempts + [a])
    ensures Ordered(attempts) && forall i :: 0 <= i < |attempts| ==> attempts[i].time <= a.time
    ensures (attempts + [a])[..|attempts|] == attempts
  {
    var all := attempts + [a];
    assert all[|attempts|] == a;
    assert forall i :: 0 <= i < |attempts| ==> all[i] == attempts[i];
  }

  lemma AcceptedIsWithin(l: Limits, attempts: seq<Attempt>, a: Attempt, lo: real)
    requires l.Valid() && Ordered(attempts + [a]) && Accepts(l, After(l, attempts), a) && lo <= a.time
    ensures AcceptedCost(l, attempts, a.key, lo, a.time) + a.cost <= l.capacity + Refill(l, a.time - lo)
  {
    hide Refill, After, Accepts;
    OrderedPrefix(attempts, a);
    BudgetHolds(l, attempts + [a], a.key, lo, a.time);
    assert AcceptedCost(l, attempts + [a], a.key, lo, a.time)
        == AcceptedCost(l, attempts, a.key, lo, a.time) + a.cost;
  }

  lemma RefusedIsOver(l: Limits, attempts: seq<Attempt>, a: Attempt) returns (lo: real)
    requires l.Valid() && Ordered(attempts + [a]) && !Accepts(l, After(l, attempts), a)
    ensures lo <= a.time
    ensures AcceptedCost(l, attempts, a.key, lo, a.time) + a.cost > l.capacity + Refill(l, a.time - lo)
  {
    hide Refill, After, AcceptedCost;
    OrderedPrefix(attempts, a);
    BucketTight(l, attempts, a.key, a.time);
    RefilledTight(l, attempts, a.key, a.time, a.time);
    var b := Refilled(l, After(l, attempts), a.key, a.time);
    lo :| lo <= b.last
      && b.tokens == l.capacity + Refill(l, b.last - lo) - AcceptedCost(l, attempts, a.key, lo, a.time);
  }

  /** A call is accepted if and only if it keeps its key within the rate: none too many, none too few. */
  lemma AcceptsExactly(l: Limits, attempts: seq<Attempt>, a: Attempt)
    requires l.Valid() && Ordered(attempts + [a])
    ensures Accepts(l, After(l, attempts), a) <==> WithinRate(l, attempts, a)
  {
    hide After, AcceptedCost;
    if Accepts(l, After(l, attempts), a) {
      hide Accepts;
      forall lo: real | lo <= a.time
        ensures AcceptedCost(l, attempts, a.key, lo, a.time) + a.cost <= l.capacity + (a.time - lo) * l.refillPerSecond
      {
        AcceptedIsWithin(l, attempts, a, lo);
      }
    } else {
      hide Accepts;
      var lo := RefusedIsOver(l, attempts, a);
      assert AcceptedCost(l, attempts, a.key, lo, a.time) + a.cost > l.capacity + (a.time - lo) * l.refillPerSecond;
    }
  }

  // ---- What a well-behaved caller can count on ----

  /** Everything tried under the key, accepted or not. */
  function TriedCost(attempts: seq<Attempt>, key: string): real {
    if attempts == [] then 0.0
    else
      var a := attempts[|attempts| - 1];
      TriedCost(attempts[..|attempts| - 1], key) + (if a.key == key then a.cost else 0.0)
  }

  lemma {:induction false} AcceptedAtMostTried(l: Limits, attempts: seq<Attempt>, key: string, lo: real, hi: real)
    requires forall i :: 0 <= i < |attempts| ==> 0.0 <= attempts[i].cost
    ensures AcceptedCost(l, attempts, key, lo, hi) <= TriedCost(attempts, key)
  {
    if attempts != [] {
      AcceptedAtMostTried(l, attempts[..|attempts| - 1], key, lo, hi);
    }
  }

  /** A fresh key has its full burst: until the calls under it add up to more than the capacity,
      every one is accepted, however fast they come. */
  lemma BurstAccepted(l: Limits, attempts: seq<Attempt>, n: nat)
    requires l.Valid() && Ordered(attempts) && n < |attempts|
    requires TriedCost(attempts[..n + 1], attempts[n].key) <= l.capacity
    ensures Answer(l, attempts, n)
  {
    hide Refill, Accepts, After, AcceptedCost;
    var before, a := attempts[..n], attempts[n];
    assert attempts[..n + 1] == before + [a] && (before + [a])[..n] == before;
    if !Accepts(l, After(l, before), a) {
      var lo := RefusedIsOver(l, before, a);
      AcceptedAtMostTried(l, before, a.key, lo, a.time);
      RefillMono(l, 0.0, a.time - lo);
      RefillZero(l);
      assert false;
    }
  }

  /** Unit calls under the key come at least one token's refill apart. */
  ghost predicate Spaced(l: Limits, attempts: seq<Attempt>, key: string) {
    && (forall i :: 0 <= i < |attempts| && attempts[i].key == key ==> attempts[i].cost == 1.0)
    && (forall i, j :: 0 <= i < j < |attempts| && attempts[i].key == key && attempts[j].key == key ==>
          (attempts[j].time - attempts[i].time) * l.refillPerSecond >= 1.0)
  }

  /** The call after the gap finds the bucket full. */
  lemma SpacedCall(l: Limits, before: seq<Attempt>, a: Attempt)
    requires l.Valid() && 1.0 <= l.capacity && a.cost == 1.0
    requires
      var buckets := After(l, before);
      a.key in buckets ==>
        && buckets[a.key].tokens == l.capacity - 1.0 && (a.time - buckets[a.key].last) * l.refillPerSecond >= 1.0
    ensures Accepts(l, After(l, before), a)
    ensures a.key in Consumed(l, After(l, before), a)
    ensures Consumed(l, After(l, before), a)[a.key] == Bucket(l.capacity - 1.0, a.time)
  {
    hide After;
    RefillZero(l);
    assert a.time - a.time == 0.0;
  }

  /** Between spaced calls the bucket lacks one token, since the last of them. */
  lemma {:induction false} SpacedLevel(l: Limits, attempts: seq<Attempt>, key: string)
    requires l.Valid() && 1.0 <= l.capacity && Spaced(l, attempts, key)
    ensures
      var buckets := After(l, attempts);
      key in buckets ==>
        && buckets[key].tokens == l.capacity - 1.0
        && exists i :: 0 <= i < |attempts| && attempts[i].key == key && attempts[i].time == buckets[key].last
    ensures forall n :: 0 <= n < |attempts| && attempts[n].key == key ==> Answer(l, attempts, n)
  {
    hide Refill, Accepts, Consumed, Refilled;
    if attempts != [] {
      var n := |attempts| - 1;
      var before, a := attempts[..n], attempts[n];
      SpacedLevel(l, before, key);
      forall m | 0 <= m < n && attempts[m].key == key ensures Answer(l, attempts, m) {
        assert before[m] == attempts[m] && before[..m] == attempts[..m];
        assert Answer(l, before, m);
      }
      if a.key == key {
        SpacedCall(l, before, a);
        assert attempts[n].time == After(l, attempts)[key].last;
      } else {
        OtherKey(l, After(l, before), a, key);
      }
    }
  }

  /** Whatever other keys do, calls no faster than the refill are never refused. */
  lemma SpacedCallsAccepted(l: Limits, attempts: seq<Attempt>, key: string)
    requires l.Valid() && 1.0 <= l.capacity && Spaced(l, attempts, key)
    ensures forall n :: 0 <= n < |attempts| && attempts[n].key == key ==> Answer(l, attempts, n)
  {
    SpacedLevel(l, attempts, key);
  }

  // ---- The limiter itself ----

  lemma AfterSnoc(l: Limits, attempts: seq<Attempt>, a: Attempt)
    ensures After(l, attempts + [a]) == Consumed(l, After(l, attempts), a)
    ensures Answer(l, attempts + [a], |attempts|) == Accepts(l, After(l, attempts), a)
  {
    assert (attempts + [a])[..|attempts|] == attempts;
  }

  class RateLimiter {
    var buckets: Buckets
    const limits: Limits
    ghost var history: seq<Attempt>

    /** The buckets are what the attempts so far leave. */
    ghost predicate Valid()
      reads this
    {
      buckets == After(limits, history)
    }

    constructor (capacity: real, refillPerSecond: real)
      ensures Valid() && history == [] && limits == Limits(capacity, refillPerSecond)
    {
      buckets := map[];
      limits := Limits(capacity, refillPerSecond);
      history := [];
    }

    /** `consume`.  On a clock that never runs backwards the answer is exactly whether the call
        keeps its key within the rate over every interval up to now. */
    method Consume(key: string, cost: real, now: real) returns (accepted: bool)
      requires Valid()
      modifies this
      ensures Valid() && history == old(history) + [Attempt(now, key, cost)]
      ensures accepted <==> Answer(limits, history, |history| - 1)
      ensures limits.Valid() && Ordered(history) ==>
                (accepted <==> WithinRate(limits, old(history), Attempt(now, key, cost)))
      ensures forall k :: k != key ==> (k in buckets <==> k in old(buckets))
      ensures forall k :: k != key && k in old(buckets) ==> buckets[k] == old(buckets[k])
    {
      hide After, Answer, WithinRate, Ordered;
      ghost var a := Attempt(now, key, cost);
      AfterSnoc(limits, history, a);
      history := history + [a];
      if limits.Valid() && Ordered(history) {
        AcceptsExactly(limits, old(history), a);
      }
      if key !in buckets {
        buckets := buckets[key := Bucket(limits.capacity, now)];
      }
      var b := buckets[key];
      var elapsed := now - b.last;
      b := b.(tokens := MinReal(limits.capacity, b.tokens + elapsed * limits.refillPerSecond));
      b := b.(last := now);
      assert b == Refilled(limits, old(buckets), key, now);
      buckets := buckets[key := b];
      assert buckets == old(buckets)[key := b];
      if b.tokens < cost {
        return false;
      }
      b := b.(tokens := b.tokens - cost);
      buckets := buckets[key := b];
      assert buckets == old(buckets)[key := b];
      return true;
    }
  }
}
