/**
 When the token cache is unobservable (src/auth.rs, src/auth_cache.rs), over the interleavings of
 `AuthRuns`.

 A hit stands for a verification at the request's own clock reading.  It does so exactly for
 requests on which the issuer's verdicts agree; a reading may be older than the verification the
 hit profits from, so agreement reaches into the past.
 */
module AuthTransparency {
  import opened Text
  import opened ReplayMarks
  import opened TokenCache
  import opened AuthContext
  import opened AuthRuns
  import opened AuthReplay
  import opened AuthStaleness

  /** The entry is the verdict on the request's token at the request's own reading. */
  predicate Carries(w: Setup, a: Arrival, e: CacheEntry) {
    && Cacheable(w, a) && Verdict(w.site, a.req, a.moment.now) == Some(e.token)
    && e.token.cnfJkt == Some(e.cnfJkt)
  }

  ghost predicate HitsCarry(w: Setup, s: State) {
    forall j: nat :: HitInFlight(w, s, j) ==> Carries(w, w.arrivals[j], s.flights[j].entry.value)
  }

  /** Such a hit decides what a full verification would. */
  lemma CarriedIsUncached(w: Setup, a: Arrival, e: CacheEntry, seen: Seen)
    requires Carries(w, a, e)
    ensures HitAnswer(w, a, e, seen) == Uncached(w.site, a.req, a.moment, seen)
  {
  }

  // ---- Runs whose hits all carry ----

  function Pick(arrivals: seq<Arrival>, order: seq<nat>): seq<Arrival>
    requires InRange(arrivals, order)
  {
    seq(|order|, k requires 0 <= k < |order| => arrivals[order[k]])
  }

  predicate InRange(arrivals: seq<Arrival>, order: seq<nat>) {
    forall k :: 0 <= k < |order| ==> order[k] < |arrivals|
  }

  /** The decisions so far are those of a server without a cache taking the requests in this order. */
  predicate Serial(w: Setup, seen0: Seen, seen: Seen, order: seq<nat>, answers: seq<Option<VerifiedToken>>) {
    InRange(w.arrivals, order) && (seen, answers) == UncachedRun(w.site, Pick(w.arrivals, order), seen0)
  }

  lemma DecisionIsUncached(w: Setup, s: State, i: nat)
    requires Enabled(w, s, Decide(i)) && HitsCarry(w, s)
    ensures Decided(w, s, i) == Uncached(w.site, w.arrivals[i].req, w.arrivals[i].moment, s.seen)
  {
    if s.flights[i].entry.Some? {
      assert HitInFlight(w, s, i);
      CarriedIsUncached(w, w.arrivals[i], s.flights[i].entry.value, s.seen);
    }
  }

  /** One more decision without a cache. */
  lemma OneMoreSerial(w: Setup, seen0: Seen, seen: Seen, order: seq<nat>, answers: seq<Option<VerifiedToken>>, i: nat)
    requires Serial(w, seen0, seen, order, answers) && i < |w.arrivals|
    ensures var a := w.arrivals[i];
            var (seen', r) := Uncached(w.site, a.req, a.moment, seen);
            Serial(w, seen0, seen', order + [i], answers + [Finalized(w.site, a.req, r)])
  {
    var picked := Pick(w.arrivals, order + [i]);
    assert picked[..|order|] == Pick(w.arrivals, order);
    assert picked[..|order| + 1] == picked;
    UncachedStep(w.site, picked, |order|, seen0);
  }

  lemma DecideSerial(w: Setup, seen0: Seen, s: State, i: nat)
    requires Enabled(w, s, Decide(i)) && HitsCarry(w, s) && Serial(w, seen0, s.seen, s.order, s.answers)
    ensures var s' := DoDecide(w, s, i); Serial(w, seen0, s'.seen, s'.order, s'.answers)
  {
    DecisionIsUncached(w, s, i);
    OneMoreSerial(w, seen0, s.seen, s.order, s.answers, i);
  }

  lemma StepSerial(w: Setup, seen0: Seen, s: State, step: Step)
    requires Enabled(w, s, step) && HitsCarry(w, s) && Serial(w, seen0, s.seen, s.order, s.answers)
    ensures var s' := Do(w, s, step); Serial(w, seen0, s'.seen, s'.order, s'.answers)
  {
    if step.Decide? { DecideSerial(w, seen0, s, step.i); }
  }

  /** A run whose hits all carry decides as a server without a cache. */
  lemma {:induction false} RunSerial(w: Setup, seen0: Seen, steps: seq<Step>, states: seq<State>, k: nat)
    requires ValidRun(w, seen0, steps, states) && k < |states| && forall n :: 0 <= n < k ==> HitsCarry(w, states[n])
    ensures Serial(w, seen0, states[k].seen, states[k].order, states[k].answers)
  {
    if k > 0 {
      RunSerial(w, seen0, steps, states, k - 1);
      StepSerial(w, seen0, states[k - 1], steps[k - 1]);
    } else {
      assert Pick(w.arrivals, []) == [];
    }
  }

  // ---- The exact condition ----

  ghost predicate AllRunsCarry(w: Setup, seen0: Seen) {
    forall steps, states, k: nat :: ValidRun(w, seen0, steps, states) && k < |states| ==> HitsCarry(w, states[k])
  }

  /** A request that can hit what another one caches gets the same verdict at its own reading. */
  ghost predicate Agreeing(w: Setup, seen0: Seen) {
    forall i: nat, j: nat, vt :: CanHit(w, seen0, i, j, vt) ==>
      Verdict(w.site, w.arrivals[j].req, w.arrivals[j].moment.now) == Some(vt)
  }

  lemma SourceCanHit(w: Setup, seen0: Seen, s: State, i: nat, j: nat, v: Verification)
    requires HitInFlight(w, s, j) && CameFrom(w, seen0, s.flights, v, i)
    requires Vouches(w, w.arrivals[j], s.flights[j].entry.value, s.flights[j].at, v)
    ensures CanHit(w, seen0, i, j, v.result)
  {
  }

  lemma AgreeingCarries(w: Setup, seen0: Seen, steps: seq<Step>, states: seq<State>, k: nat)
    requires Injective(w.site.crypto.sha256) && Agreeing(w, seen0)
    requires ValidRun(w, seen0, steps, states) && k < |states|
    ensures HitsCarry(w, states[k])
  {
    forall j: nat | HitInFlight(w, states[k], j)
      ensures Carries(w, w.arrivals[j], states[k].flights[j].entry.value)
    {
      var v := HitsAreBounded(w, seen0, steps, states, k, j);
      var i := SourceOf(w, seen0, steps, states, k, v);
      SourceCanHit(w, seen0, states[k], i, j, v);
    }
  }

  lemma CarriedAgrees(w: Setup, seen0: Seen, i: nat, j: nat, vt: VerifiedToken)
    requires AllRunsCarry(w, seen0) && w.capacity >= 1 && CanHit(w, seen0, i, j, vt)
    ensures Verdict(w.site, w.arrivals[j].req, w.arrivals[j].moment.now) == Some(vt)
  {
    var steps, states := HitRun(w, seen0, i, j, vt);
    assert HitsCarry(w, states[9]) && HitInFlight(w, states[9], j);
  }

  /** Every hit of every run stands for a verification at its own reading if and only if the
      requests agree. */
  lemma AgreementIsExact(w: Setup, seen0: Seen)
    requires Injective(w.site.crypto.sha256) && w.capacity >= 1
    ensures AllRunsCarry(w, seen0) <==> Agreeing(w, seen0)
  {
    if Agreeing(w, seen0) {
      forall steps, states, k: nat | ValidRun(w, seen0, steps, states) && k < |states| ensures HitsCarry(w, states[k]) {
        AgreeingCarries(w, seen0, steps, states, k);
      }
    }
    if AllRunsCarry(w, seen0) {
      forall i: nat, j: nat, vt | CanHit(w, seen0, i, j, vt)
        ensures Verdict(w.site, w.arrivals[j].req, w.arrivals[j].moment.now) == Some(vt)
      {
        CarriedAgrees(w, seen0, i, j, vt);
      }
    }
  }

  /** In every interleaving of agreeing requests the cache is unobservable: the decisions and the
      remembered jtis are those of a server without a cache that takes the requests in the order
      they were decided. */
  lemma InterleavingsAreUncached(w: Setup, seen0: Seen, steps: seq<Step>, states: seq<State>, k: nat)
    requires Injective(w.site.crypto.sha256) && Agreeing(w, seen0)
    requires ValidRun(w, seen0, steps, states) && k < |states|
    ensures InRange(w.arrivals, states[k].order)
    ensures (states[k].seen, states[k].answers) == UncachedRun(w.site, Pick(w.arrivals, states[k].order), seen0)
  {
    forall n | 0 <= n < k ensures HitsCarry(w, states[n]) { AgreeingCarries(w, seen0, steps, states, n); }
    RunSerial(w, seen0, steps, states, k);
  }

  // ---- What makes requests agree ----

  ghost predicate Trusted(w: Setup, back: nat) {
    Injective(w.site.crypto.sha256) && KeysUnchanged(w.site, back) && CertOnlyForBound(w.site)
  }

  /** With keys unchanged as far back as the lookup lags, a vouched hit carries. */
  lemma TrustedCarries(w: Setup, a: Arrival, e: CacheEntry, at: int, v: Verification, back: nat)
    requires Trusted(w, back) && Vouches(w, a, e, at, v) && at <= a.moment.now + back
    ensures Carries(w, a, e)
  {
    assert w.site.checkToken(v.token, a.moment.now, v.cert) == Some(v.result);
    assert w.site.checkToken(v.token, a.moment.now, ClientCert(w.site, a.req)) == Some(v.result);
  }

  /** With keys unchanged as far back as lookups lag behind their readings, the cache is unobservable
      whatever the requests are. */
  lemma TrustedInterleavingsAreUncached(w: Setup, seen0: Seen, steps: seq<Step>, states: seq<State>, k: nat, back: nat)
    requires Trusted(w, back) && ValidRun(w, seen0, steps, states) && k < |states|
    requires forall n :: 0 <= n < k ==> PromptLookups(w, states[n], back)
    ensures InRange(w.arrivals, states[k].order)
    ensures (states[k].seen, states[k].answers) == UncachedRun(w.site, Pick(w.arrivals, states[k].order), seen0)
  {
    forall n | 0 <= n < k ensures HitsCarry(w, states[n]) {
      assert PromptLookups(w, states[n], back);
      forall j: nat | HitInFlight(w, states[n], j)
        ensures Carries(w, w.arrivals[j], states[n].flights[j].entry.value)
      {
        var v := HitsAreBounded(w, seen0, steps, states, n, j);
        TrustedCarries(w, w.arrivals[j], states[n].flights[j].entry.value, states[n].flights[j].at, v, back);
      }
    }
    RunSerial(w, seen0, steps, states, k);
  }

  /** If a token verifies for one request but did not yet at the older reading of another, some run
      lets the other in on the cached verdict although a server without a cache refuses it. */
  lemma OldReadingShows(w: Setup, seen0: Seen, i: nat, j: nat, vt: VerifiedToken)
    returns (steps: seq<Step>, states: seq<State>)
    requires CanHit(w, seen0, i, j, vt) && w.capacity >= 1
    requires var a, b := w.arrivals[i], w.arrivals[j];
             && b.moment.now < a.moment.now && Verdict(w.site, b.req, b.moment.now) == None
             && HitAnswer(w, b, EntryOf(a, vt), Uncached(w.site, a.req, a.moment, seen0).0).1.Some?
             && b.moment.markAt >= 1000 * a.moment.insertNow
    ensures ValidRun(w, seen0, steps, states) && |steps| == 10 && Enabled(w, states[10], Decide(j))
    ensures Decided(w, states[10], j).1 == Some(vt)
    ensures Uncached(w.site, w.arrivals[j].req, w.arrivals[j].moment, states[10].seen).1 == None
  {
    steps, states := HitRun(w, seen0, i, j, vt);
    steps, states := Extend(w, seen0, steps, states, Tick(w.arrivals[j].moment.markAt / 1000 - states[9].now));
  }
}
