/**
 The lazily refilled token bucket of one source (src/rate_limit.rs).  Tokens and times are reals.

 The request time is read before the shard lock is taken, so a bucket can see times out of
 order.  The laws are therefore stated for ALL time sequences, with the refill credit counted
 over the upward moves of the clock; for times in order that credit is rate times the length.
 */
module TokenBucket {

  datatype Bucket = Bucket(tokens: real, lastRefill: real, lastSeen: real)

  function Fresh(capacity: real, now: real): Bucket { Bucket(capacity, now, now) }

  /** `saturating_duration_since`. */
  function Elapsed(now: real, since: real): real { if now >= since then now - since else 0.0 }

  function Earned(rate: real, now: real, since: real): real { Elapsed(now, since) * rate }

  function Min(a: real, b: real): real { if a <= b then a else b }

  function Refilled(b: Bucket, rate: real, capacity: real, now: real): real {
    Min(b.tokens + Earned(rate, now, b.lastRefill), capacity)
  }

  function TryTake(b: Bucket, rate: real, capacity: real, now: real): (Bucket, bool) {
    var t := Refilled(b, rate, capacity, now);
    if t >= 1.0 then (Bucket(t - 1.0, now, now), true) else (Bucket(t, now, now), false)
  }

  /** The settings the limiter's constructor allows. */
  predicate Settings(rate: real, capacity: real) { rate > 0.0 && capacity >= 1.0 }

  /** A bucket that is never collected, fed one source's times. */
  function Lone(rate: real, capacity: real, times: seq<real>): Bucket
    requires times != []
  {
    var n := |times| - 1;
    TryTake(if n == 0 then Fresh(capacity, times[0]) else Lone(rate, capacity, times[..n]), rate, capacity, times[n]).0
  }

  /** Its decision on the last of the times. */
  predicate LoneAdmits(rate: real, capacity: real, times: seq<real>)
    requires times != []
  {
    var n := |times| - 1;
    TryTake(if n == 0 then Fresh(capacity, times[0]) else Lone(rate, capacity, times[..n]), rate, capacity, times[n]).1
  }

  /** The refill earned from the `i`-th to the `j`-th request. */
  function Credit(rate: real, times: seq<real>, i: nat, j: nat): real
    requires i <= j < |times|
    decreases j
  {
    if i == j then 0.0 else Credit(rate, times, i, j - 1) + Earned(rate, times[j], times[j - 1])
  }

  predicate InOrder(times: seq<real>) { forall i, j :: 0 <= i <= j < |times| ==> times[i] <= times[j] }

  /** With times in order the credit is the rate times the time that passed. */
  lemma {:induction false} CreditInOrder(rate: real, times: seq<real>, i: nat, j: nat)
    requires i <= j < |times| && InOrder(times)
    ensures Credit(rate, times, i, j) == (times[j] - times[i]) * rate
    decreases j
  {
    if i < j {
      CreditInOrder(rate, times, i, j - 1);
      Distribute(times[j - 1] - times[i], times[j] - times[j - 1], rate);
    }
  }

  lemma Distribute(a: real, b: real, r: real)
    ensures (a + b) * r == a * r + b * r
  {
  }

  lemma {:induction false} CreditPrefix(rate: real, times: seq<real>, n: nat, i: nat, j: nat)
    requires i <= j < n <= |times|
    ensures Credit(rate, times[..n], i, j) == Credit(rate, times, i, j)
    decreases j
  {
    if i < j { CreditPrefix(rate, times, n, i, j - 1); }
  }

  // --- Exactly which request patterns are admitted in full --------------------------------------

  predicate AllAdmitted(rate: real, capacity: real, times: seq<real>) {
    forall k :: 1 <= k <= |times| ==> LoneAdmits(rate, capacity, times[..k])
  }

  /** What is left after requests `i` to `j` if the bucket was full just before `i`. */
  function Left(rate: real, capacity: real, times: seq<real>, i: nat, j: nat): real
    requires i <= j < |times|
  {
    capacity + Credit(rate, times, i, j) - (j - i + 1) as real
  }

  lemma LeftStep(rate: real, capacity: real, times: seq<real>, i: nat, n: nat)
    requires i < n < |times|
    ensures Left(rate, capacity, times, i, n)
            == Left(rate, capacity, times, i, n - 1) + Earned(rate, times[n], times[n - 1]) - 1.0
  {
  }

  predicate Conforms(rate: real, capacity: real, times: seq<real>) {
    forall i, j :: 0 <= i <= j < |times| ==> Left(rate, capacity, times, i, j) >= 0.0
  }

  lemma LoneStep(rate: real, capacity: real, times: seq<real>, n: nat)
    requires n < |times|
    ensures var before := if n == 0 then Fresh(capacity, times[0]) else Lone(rate, capacity, times[..n]);
            && Lone(rate, capacity, times[..n + 1]) == TryTake(before, rate, capacity, times[n]).0
            && LoneAdmits(rate, capacity, times[..n + 1]) == TryTake(before, rate, capacity, times[n]).1
            && Lone(rate, capacity, times[..n + 1]).lastRefill == times[n]
  {
    assert times[..n + 1][..n] == times[..n];
  }

  /** While everything is admitted, the level is the least of what any earlier full bucket left. */
  lemma {:induction false} LevelIsLeast(rate: real, capacity: real, times: seq<real>, n: nat) returns (w: nat)
    requires Settings(rate, capacity) && n < |times| && AllAdmitted(rate, capacity, times)
    ensures var b := Lone(rate, capacity, times[..n + 1]);
            && (forall i :: 0 <= i <= n ==> b.tokens <= Left(rate, capacity, times, i, n))
            && w <= n && b.tokens == Left(rate, capacity, times, w, n)
            && b.tokens >= 0.0
    decreases n
  {
    LoneStep(rate, capacity, times, n);
    var b := Lone(rate, capacity, times[..n + 1]);
    assert LoneAdmits(rate, capacity, times[..n + 1]);
    assert Left(rate, capacity, times, n, n) == capacity - 1.0;
    w := n;
    if n > 0 {
      var v := LevelIsLeast(rate, capacity, times, n - 1);
      LoneStep(rate, capacity, times, n - 1);
      var before := Lone(rate, capacity, times[..n]);
      var e := Earned(rate, times[n], times[n - 1]);
      assert b.tokens == Min(before.tokens + e, capacity) - 1.0;
      forall i | 0 <= i < n ensures b.tokens <= Left(rate, capacity, times, i, n) {
        LeftStep(rate, capacity, times, i, n);
      }
      LeftStep(rate, capacity, times, v, n);
      if before.tokens + e <= capacity { w := v; }
    } else {
      assert b.tokens == capacity - 1.0;
    }
  }

  /** A source's requests are all admitted exactly when no stretch of them, however placed, is
      longer than a full bucket plus what the stretch earns. */
  lemma {:induction false} ExactAdmission(rate: real, capacity: real, times: seq<real>)
    requires Settings(rate, capacity)
    ensures AllAdmitted(rate, capacity, times) <==> Conforms(rate, capacity, times)
  {
    if times != [] {
      var n := |times| - 1;
      var init := times[..n];
      ExactAdmission(rate, capacity, init);
      AllAdmittedPrefix(rate, capacity, times);
      ConformsPrefix(rate, capacity, times);
      if AllAdmitted(rate, capacity, times) {
        var w := LevelIsLeast(rate, capacity, times, n);
      } else if AllAdmitted(rate, capacity, init) {
        assert times[..n + 1] == times;
        var w := RejectionViolates(rate, capacity, times);
      }
    }
  }

  lemma AllAdmittedPrefix(rate: real, capacity: real, times: seq<real>)
    requires times != []
    ensures var n := |times| - 1;
            AllAdmitted(rate, capacity, times) <==>
              AllAdmitted(rate, capacity, times[..n]) && LoneAdmits(rate, capacity, times)
  {
    var n := |times| - 1;
    assert forall k :: 1 <= k <= n ==> times[..n][..k] == times[..k];
    assert times[..n + 1] == times;
  }

  lemma ConformsPrefix(rate: real, capacity: real, times: seq<real>)
    requires times != []
    ensures var n := |times| - 1;
            Conforms(rate, capacity, times) <==>
              Conforms(rate, capacity, times[..n]) && forall i :: 0 <= i <= n ==>
                  Left(rate, capacity, times, i, n) >= 0.0
  {
    var n := |times| - 1;
    forall i, j | 0 <= i <= j < n ensures Left(rate, capacity, times[..n], i, j) == Left(rate, capacity, times, i, j) {
      CreditPrefix(rate, times, n, i, j);
    }
  }

  lemma FirstAdmitted(rate: real, capacity: real, now: real)
    requires capacity >= 1.0
    ensures TryTake(Fresh(capacity, now), rate, capacity, now) == (Bucket(capacity - 1.0, now, now), true)
  {
  }

  lemma LastRefused(rate: real, capacity: real, times: seq<real>)
    requires capacity >= 1.0 && times != [] && !LoneAdmits(rate, capacity, times)
    ensures var n := |times| - 1;
            n > 0 && Lone(rate, capacity, times[..n]).tokens + Earned(rate, times[n], times[n - 1]) < 1.0
  {
  }

  /** A rejection right after admissions means some stretch ending there is too long. */
  lemma RejectionViolates(rate: real, capacity: real, times: seq<real>) returns (w: nat)
    requires Settings(rate, capacity) && times != []
    requires AllAdmitted(rate, capacity, times[..|times| - 1]) && !LoneAdmits(rate, capacity, times)
    ensures w < |times| && Left(rate, capacity, times, w, |times| - 1) < 0.0
  {
    var n := |times| - 1;
    LastRefused(rate, capacity, times);
    w := LevelIsLeast(rate, capacity, times[..n], n - 1);
    assert times[..n][..n] == times[..n];
    CreditPrefix(rate, times, n, w, n - 1);
    LeftStep(rate, capacity, times, w, n);
  }

  // --- With rejections ---------------------------------------------------------------------------

  /** How many of the requests `i` to `j` were admitted. */
  function Admitted(rate: real, capacity: real, times: seq<real>, i: nat, j: nat): nat
    requires i <= j < |times|
    decreases j
  {
    (if i == j then 0 else Admitted(rate, capacity, times, i, j - 1))
    + (if LoneAdmits(rate, capacity, times[..j + 1]) then 1 else 0)
  }

  lemma TakeBounds(b: Bucket, rate: real, capacity: real, now: real)
    requires Settings(rate, capacity) && b.tokens >= 0.0
    ensures 0.0 <= TryTake(b, rate, capacity, now).0.tokens <= capacity
  {
  }

  lemma {:induction false} LevelBounds(rate: real, capacity: real, times: seq<real>, n: nat)
    requires Settings(rate, capacity) && n < |times|
    ensures 0.0 <= Lone(rate, capacity, times[..n + 1]).tokens <= capacity
  {
    LoneStep(rate, capacity, times, n);
    if n > 0 { LevelBounds(rate, capacity, times, n - 1); }
    TakeBounds(if n == 0 then Fresh(capacity, times[0]) else Lone(rate, capacity, times[..n]), rate, capacity,
               times[n]);
  }

  lemma TakeConserves(b: Bucket, rate: real, capacity: real, now: real)
    ensures var (b', ok) := TryTake(b, rate, capacity, now);
            && b'.tokens + (if ok then 1.0 else 0.0) <= capacity
            && b'.tokens + (if ok then 1.0 else 0.0) <= b.tokens + Earned(rate, now, b.lastRefill)
  {
  }

  /** Tokens are conserved: what a window admits and what is left never exceed a full bucket
      plus the credit of the window. */
  lemma {:induction false} Conservation(rate: real, capacity: real, times: seq<real>, i: nat, j: nat)
    requires Settings(rate, capacity) && i <= j < |times|
    ensures Admitted(rate, capacity, times, i, j) as real + Lone(rate, capacity, times[..j + 1]).tokens
            <= capacity + Credit(rate, times, i, j)
    decreases j
  {
    LoneStep(rate, capacity, times, j);
    TakeConserves(if j == 0 then Fresh(capacity, times[0]) else Lone(rate, capacity, times[..j]), rate, capacity,
                  times[j]);
    if i < j {
      Conservation(rate, capacity, times, i, j - 1);
      LoneStep(rate, capacity, times, j - 1);
    }
  }

  /** Whatever is rejected, a window admits at most a full bucket plus its credit. */
  lemma WindowBound(rate: real, capacity: real, times: seq<real>, i: nat, j: nat)
    requires Settings(rate, capacity) && i <= j < |times|
    ensures Admitted(rate, capacity, times, i, j) as real <= capacity + Credit(rate, times, i, j)
    ensures InOrder(times) ==>
              Admitted(rate, capacity, times, i, j) as real <= capacity + (times[j] - times[i]) * rate
  {
    Conservation(rate, capacity, times, i, j);
    LevelBounds(rate, capacity, times, j);
    if InOrder(times) { CreditInOrder(rate, times, i, j); }
  }

  /** Out of order, time that went back is credited again: a drained bucket stays drained at one
      instant, yet a request stamped `d` earlier in between makes it admit if `d` earns a token. */
  lemma BackwardTimeRefills(rate: real, capacity: real, t: real, d: real)
    requires Settings(rate, capacity) && d >= 0.0
    ensures var drained := Bucket(0.0, t, t);
            && !TryTake(drained, rate, capacity, t).1
            && !TryTake(drained, rate, capacity, t - d).1
            && (TryTake(TryTake(drained, rate, capacity, t - d).0, rate, capacity, t).1 <==> d * rate >= 1.0)
  {
  }
}
