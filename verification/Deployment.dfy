/**
 Several server instances, each with a cache of its own, over one Redis (src/redis_replay.rs,
 src/auth_cache.rs).

 A request looks its token up in the cache of its instance, which may return anything; checks its
 proof; calls `mark` on the shared store; and is accepted or refused by the answer.  Steps of
 requests interleave with the steps of `RedisReplay`, other callers included.
 */
module Deployment {
  import opened Text
  import opened DpopProof
  import opened ReplayMarks
  import opened TokenCache
  import opened AuthContext
  import AuthRuns
  import opened AuthTransparency
  import opened SharedReplay
  import R = RedisReplay

  datatype Flight =
    | Looked(entry: Option<CacheEntry>)
    | Calling(jti: string, call: R.CallId)
    | Finished(jti: string, call: R.CallId, accepted: bool)

  datatype State = State(redis: R.State, flights: map<nat, Flight>)

  datatype Step =
    | Redis(step: R.Step)
    | Look(i: nat, entry: Option<CacheEntry>)
    | Call(i: nat, call: R.CallId, instance: R.Instance, wait: nat)
    | Finish(i: nat)

  /** The time to live of a mark, in nanoseconds. */
  function TtlNanos(p: Policy): nat { 1_000_000_000 * Window(p) }

  /** The key the proof has to match: that of the cached token, or of the token just verified. */
  function KeyFor(w: AuthRuns.Setup, a: Arrival, entry: Option<CacheEntry>): Option<string>
    requires AuthRuns.Cacheable(w, a)
  {
    match entry
    case Some(e) => Some(e.cnfJkt)
    case None =>
      var verdict := w.site.checkToken(TokenOf(a.req).value, a.moment.now, ClientCert(w.site, a.req));
      if verdict.Some? then verdict.value.cnfJkt else None
  }

  /** The jti of a good proof. */
  function JtiOf(w: AuthRuns.Setup, a: Arrival, entry: Option<CacheEntry>): Option<string> {
    if !AuthRuns.Cacheable(w, a) || KeyFor(w, a, entry).None? then None
    else
      match AuthRuns.ProofCheck(w, a, KeyFor(w, a, entry).value)
      case Refused(_) => None
      case Fresh(jti) => Some(jti)
  }

  function MarkOf(w: AuthRuns.Setup, jti: string): R.Op { R.Mark(jti, TtlNanos(w.site.policy)) }

  predicate Enabled(w: AuthRuns.Setup, s: State, step: Step) {
    match step
    case Redis(r) => R.Enabled(s.redis, r)
    case Look(i, _) => i < |w.arrivals| && i !in s.flights
    case Call(i, c, inst, wait) =>
      && i < |w.arrivals| && i in s.flights && s.flights[i].Looked? && JtiOf(w, w.arrivals[i], s.flights[i].entry).Some?
      && R.Enabled(s.redis, R.Invoke(c, inst, MarkOf(w, JtiOf(w, w.arrivals[i], s.flights[i].entry).value), wait))
    case Finish(i) =>
      && i in s.flights && s.flights[i].Calling? && s.flights[i].call in s.redis.calls
      && s.redis.calls[s.flights[i].call].outcome.Some?
  }

  /** New is accepted; an error is accepted only by a policy that fails open. */
  predicate Admits(p: Policy, r: R.Reply) { r == R.New || (r == R.Failure && !p.failClosed) }

  function Do(w: AuthRuns.Setup, s: State, step: Step): State
    requires Enabled(w, s, step)
  {
    match step
    case Redis(r) => s.(redis := R.Do(s.redis, r))
    case Look(i, e) => s.(flights := s.flights[i := Looked(e)])
    case Call(i, c, inst, wait) =>
      var jti := JtiOf(w, w.arrivals[i], s.flights[i].entry).value;
      State(R.Do(s.redis, R.Invoke(c, inst, MarkOf(w, jti), wait)), s.flights[i := Calling(jti, c)])
    case Finish(i) =>
      var f := s.flights[i];
      var reply := s.redis.calls[f.call].outcome.value;
      s.(flights := s.flights[i := Finished(f.jti, f.call, Admits(w.site.policy, reply))])
  }

  ghost predicate ValidRun(w: AuthRuns.Setup, instances: set<R.Instance>, start: nat, steps: seq<Step>,
                           states: seq<State>) {
    && |states| == |steps| + 1 && states[0] == State(R.Init(instances, start), map[])
    && forall k :: 0 <= k < |steps| ==> Enabled(w, states[k], steps[k]) && states[k + 1] == Do(w, states[k], steps[k])
  }

  // ---- Each flight has a call of its own ----

  predicate FlightOk(w: AuthRuns.Setup, calls: R.Calls, f: Flight) {
    !f.Looked? ==>
      && f.call in calls && calls[f.call].op == MarkOf(w, f.jti)
      && (f.Finished? && f.accepted ==>
          calls[f.call].outcome.Some? && Admits(w.site.policy, calls[f.call].outcome.value))
  }

  predicate SameCall(f: Flight, g: Flight) { !f.Looked? && !g.Looked? && f.call == g.call }

  predicate FlightsOk(w: AuthRuns.Setup, calls: R.Calls, flights: map<nat, Flight>) {
    && (forall i :: i in flights ==> FlightOk(w, calls, flights[i]))
    && (forall i, j :: i in flights && j in flights && SameCall(flights[i], flights[j]) ==> i == j)
  }

  ghost predicate Inv(w: AuthRuns.Setup, s: State) { R.Inv(s.redis) && FlightsOk(w, s.redis.calls, s.flights) }

  lemma WorkerCallsStay(s: R.State, step: R.Step)
    requires R.Enabled(s, step) && R.OfWorker(step)
    ensures R.Grows(s.calls, R.Do(s, step).calls)
  {
    match step
    case Respond(w) => assert R.Grows(s.calls, R.DoRelease(s, w, R.Answered(s.workers[w].reply), R.Idle).calls);
    case Die(w) =>
    case Take(w) => assert R.DoTake(s, w).calls == s.calls;
    case Send(w) => assert R.DoSend(s, w).calls == s.calls;
    case Receive(w) =>
    case PoolError(w) =>
    case SocketError(w) =>
  }

  lemma CallsStay(s: R.State, step: R.Step)
    requires R.Enabled(s, step)
    ensures R.Grows(s.calls, R.Do(s, step).calls)
  {
    if R.OfWorker(step) {
      WorkerCallsStay(s, step);
    } else {
      match step
      case Invoke(id, i, op, wait) => assert R.Grows(s.calls, R.DoInvoke(s, id, i, op, wait).calls);
      case Return(id) => R.OutcomeLikewise(s, id, s.calls[id].channel.reply);
      case Timeout(id) => R.OutcomeLikewise(s, id, R.Failure);
      case Disconnected(id) => R.OutcomeLikewise(s, id, R.Failure);
      case DropQueue(i) => assert R.Grows(s.calls, R.DoDrop(s, i).calls);
      case Apply(id) => assert R.DoApply(s, id).calls == s.calls;
      case Tick(_) =>
      case Lose(_) =>
      case Expire(_) =>
    }
  }

  lemma FlightStays(w: AuthRuns.Setup, s: R.State, step: R.Step, f: Flight)
    requires R.Enabled(s, step) && FlightOk(w, s.calls, f)
    ensures FlightOk(w, R.Do(s, step).calls, f)
  {
    if !f.Looked? {
      CallsStay(s, step);
      if f.Finished? && f.accepted { R.OutcomeStays(s, step, f.call); }
    }
  }

  lemma RedisInv(w: AuthRuns.Setup, s: State, step: R.Step)
    requires Inv(w, s) && R.Enabled(s.redis, step)
    ensures Inv(w, s.(redis := R.Do(s.redis, step)))
  {
    R.StepInv(s.redis, step);
    forall i | i in s.flights ensures FlightOk(w, R.Do(s.redis, step).calls, s.flights[i]) {
      FlightStays(w, s.redis, step, s.flights[i]);
    }
  }

  lemma InvokedOp(s: R.State, c: R.CallId, inst: R.Instance, op: R.Op, wait: nat)
    requires R.Enabled(s, R.Invoke(c, inst, op, wait))
    ensures var calls := R.Do(s, R.Invoke(c, inst, op, wait)).calls; c in calls && calls[c].op == op
  {
  }

  /** A call's id is new, so no other flight has it. */
  lemma NewFlight(w: AuthRuns.Setup, calls: R.Calls, flights: map<nat, Flight>, calls': R.Calls, i: nat, f: Flight)
    requires FlightsOk(w, calls, flights) && FlightsOk(w, calls', flights)
    requires f.Calling? && f.call !in calls && FlightOk(w, calls', f)
    ensures FlightsOk(w, calls', flights[i := f])
  {
    forall j | j in flights && !flights[j].Looked? ensures flights[j].call != f.call {
      assert FlightOk(w, calls, flights[j]);
    }
  }

  lemma CallInv(w: AuthRuns.Setup, s: State, step: Step)
    requires Inv(w, s) && Enabled(w, s, step) && step.Call?
    ensures Inv(w, Do(w, s, step))
  {
    var jti := JtiOf(w, w.arrivals[step.i], s.flights[step.i].entry).value;
    var invoke := R.Invoke(step.call, step.instance, MarkOf(w, jti), step.wait);
    RedisInv(w, s, invoke);
    InvokedOp(s.redis, step.call, step.instance, MarkOf(w, jti), step.wait);
    NewFlight(w, s.redis.calls, s.flights, R.Do(s.redis, invoke).calls, step.i, Calling(jti, step.call));
  }

  lemma LookFinishInv(w: AuthRuns.Setup, s: State, step: Step)
    requires Inv(w, s) && Enabled(w, s, step) && (step.Look? || step.Finish?)
    ensures Inv(w, Do(w, s, step))
  {
    if step.Finish? { assert FlightOk(w, s.redis.calls, s.flights[step.i]); }
  }

  lemma {:induction false} Reachable(w: AuthRuns.Setup, instances: set<R.Instance>, start: nat, steps: seq<Step>,
                                     states: seq<State>, k: nat)
    requires ValidRun(w, instances, start, steps, states) && k < |states|
    ensures Inv(w, states[k])
  {
    if k == 0 {
      R.InitInv(instances, start);
    } else {
      Reachable(w, instances, start, steps, states, k - 1);
      var s, step := states[k - 1], steps[k - 1];
      if step.Redis? { RedisInv(w, s, step.step); }
      else if step.Call? { CallInv(w, s, step); }
      else { LookFinishInv(w, s, step); }
    }
  }

  // ---- Acceptances anywhere are a window apart ----

  predicate AcceptedOn(s: State, i: nat, jti: string) {
    i in s.flights && s.flights[i].Finished? && s.flights[i].accepted && s.flights[i].jti == jti
  }

  /** The place in Redis's log of the SET behind an acceptance. */
  lemma SetOf(w: AuthRuns.Setup, s: State, i: nat, jti: string) returns (a: nat)
    requires Inv(w, s) && w.site.policy.failClosed && AcceptedOn(s, i, jti)
    ensures a < |s.redis.log| && s.redis.log[a].call == s.flights[i].call
    ensures s.redis.log[a].op == MarkOf(w, jti) && s.redis.log[a].reply == R.New
  {
    var f, redis := s.flights[i], s.redis;
    assert FlightOk(w, redis.calls, f);
    assert R.CallOk(redis.log, redis.replies, f.call, redis.calls[f.call]);
    a := redis.replies[f.call];
    assert R.EntryOk(redis.log[a], redis.calls, redis.now);
  }

  /** With a fail-closed policy, two requests accepted on one jti by any two instances, whatever
      their caches held, have their SETs at least the replay window apart. */
  lemma AcceptancesAreApart(w: AuthRuns.Setup, instances: set<R.Instance>, start: nat, steps: seq<Step>,
                            states: seq<State>,
                            k: nat, i: nat, j: nat, jti: string) returns (a: nat, b: nat)
    requires ValidRun(w, instances, start, steps, states) && k < |states|
    requires w.site.policy.failClosed && 1000 * Window(w.site.policy) <= R.U64_MAX
    requires i != j && AcceptedOn(states[k], i, jti) && AcceptedOn(states[k], j, jti)
    ensures var s := states[k];
            && a < |s.redis.log| && b < |s.redis.log|
            && s.redis.log[a].call == s.flights[i].call && s.redis.log[b].call == s.flights[j].call
            && (|| s.redis.log[a].at >= s.redis.log[b].at + 1000 * Window(w.site.policy)
                || s.redis.log[b].at >= s.redis.log[a].at + 1000 * Window(w.site.policy))
  {
    Reachable(w, instances, start, steps, states, k);
    var s := states[k];
    a := SetOf(w, s, i, jti);
    b := SetOf(w, s, j, jti);
    assert !SameCall(s.flights[i], s.flights[j]);
    WindowIsKept(w.site.policy);
    if a < b { R.LaterNewIsApart(s.redis.log, a, b); } else { R.LaterNewIsApart(s.redis.log, b, a); }
  }

  // ---- The caches are unobservable over Redis ----

  /** Every lookup in flight that hit stands for a verification at the request's own reading. */
  predicate LookupsCarry(w: AuthRuns.Setup, s: State) {
    forall i :: i in s.flights && s.flights[i].Looked? && s.flights[i].entry.Some? ==>
      i < |w.arrivals| && Carries(w, w.arrivals[i], s.flights[i].entry.value)
  }

  function ColdFlight(f: Flight): Flight { if f.Looked? then Looked(None) else f }

  function ColdStep(step: Step): Step { if step.Look? then Look(step.i, None) else step }

  /** The same state with nothing found in any cache. */
  function Cold(s: State): State { State(s.redis, ColdFlights(s.flights)) }

  function ColdFlights(flights: map<nat, Flight>): map<nat, Flight> { map i | i in flights :: ColdFlight(flights[i]) }

  lemma ColdSet(flights: map<nat, Flight>, i: nat, f: Flight)
    ensures ColdFlights(flights[i := f]) == ColdFlights(flights)[i := ColdFlight(f)]
  {
  }

  lemma SameJti(w: AuthRuns.Setup, a: Arrival, e: CacheEntry)
    requires Carries(w, a, e)
    ensures JtiOf(w, a, Some(e)) == JtiOf(w, a, None)
  {
  }

  lemma ColdCall(w: AuthRuns.Setup, s: State, step: Step)
    requires LookupsCarry(w, s) && Enabled(w, s, step) && step.Call?
    ensures Enabled(w, Cold(s), step) && Do(w, Cold(s), step) == Cold(Do(w, s, step))
  {
    var entry := s.flights[step.i].entry;
    if entry.Some? { SameJti(w, w.arrivals[step.i], entry.value); }
    assert Cold(s).flights[step.i] == Looked(None);
    ColdSet(s.flights, step.i, Calling(JtiOf(w, w.arrivals[step.i], entry).value, step.call));
  }

  lemma ColdFinish(w: AuthRuns.Setup, s: State, step: Step)
    requires Enabled(w, s, step) && step.Finish?
    ensures Enabled(w, Cold(s), step) && Do(w, Cold(s), step) == Cold(Do(w, s, step))
  {
    assert Cold(s).flights[step.i] == s.flights[step.i];
    ColdSet(s.flights, step.i, Do(w, s, step).flights[step.i]);
  }

  lemma ColdDoes(w: AuthRuns.Setup, s: State, step: Step)
    requires LookupsCarry(w, s) && Enabled(w, s, step)
    ensures Enabled(w, Cold(s), ColdStep(step)) && Do(w, Cold(s), ColdStep(step)) == Cold(Do(w, s, step))
  {
    if step.Call? { ColdCall(w, s, step); }
    else if step.Finish? { ColdFinish(w, s, step); }
    else if step.Look? { ColdSet(s.flights, step.i, Looked(step.entry)); }
  }

  /** A run with caches, whatever they held, goes through the same Redis states and ends each request
      the same way as a run in which every lookup misses. */
  lemma CachesAreUnobservable(w: AuthRuns.Setup, instances: set<R.Instance>, start: nat, steps: seq<Step>,
                              states: seq<State>)
    requires ValidRun(w, instances, start, steps, states)
    requires forall k :: 0 <= k < |states| ==> LookupsCarry(w, states[k])
    ensures ValidRun(w, instances, start, seq(|steps|, k requires 0 <= k < |steps| => ColdStep(steps[k])),
                     seq(|states|, k requires 0 <= k < |states| => Cold(states[k])))
  {
    var cold := seq(|states|, k requires 0 <= k < |states| => Cold(states[k]));
    var coldSteps := seq(|steps|, k requires 0 <= k < |steps| => ColdStep(steps[k]));
    assert cold[0] == State(R.Init(instances, start), map[]);
    forall k | 0 <= k < |steps|
      ensures Enabled(w, cold[k], coldSteps[k]) && cold[k + 1] == Do(w, cold[k], coldSteps[k])
    {
      ColdDoes(w, states[k], steps[k]);
    }
  }
}
