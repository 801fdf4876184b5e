/**
 Concurrent requests through the token cache (src/auth.rs, src/auth_cache.rs).

 A request takes up to four separate atomic steps: the lookup under the cache lock, the decision
 (whose one effect is the mark in the replay store), and on a cacheable miss the draw of a stamp
 and the insertion under the lock.  The clock reading that the lookup and the decision use may be
 taken any time before the lookup; the mark takes effect between the lookup and the end of the
 decision; the reading that the insertion uses is taken between the decision and the draw.  Runs
 interleave the steps of any number of requests with the passing of time, in any order; a request
 may stop after any step.
 */
module AuthRuns {
  import opened Text
  import opened Recency
  import opened DpopProof
  import opened ReplayMarks
  import opened TokenCache
  import opened AuthContext
  import ReservedPath

  datatype Setup = Setup(site: Site, capacity: nat, maxEntryTtl: int, start: int, arrivals: seq<Arrival>)

  /** `at` is the time of the lookup, or of the decision. */
  datatype Flight =
    | Looked(entry: Option<CacheEntry>, at: int)
    | ToStore(result: VerifiedToken, at: int)
    | Stamped(result: VerifiedToken, tick: nat)
    | Done

  /** `order` and `answers` list the decided requests in the order of their decisions. */
  datatype State = State(
    now: int, table: Entries, verified: seq<Verification>, seen: Seen, flights: map<nat, Flight>,
    order: seq<nat>, answers: seq<Option<VerifiedToken>>)

  datatype Step = Tick(seconds: nat) | Look(i: nat) | Decide(i: nat) | Stamp(i: nat) | Store(i: nat)

  function Start(w: Setup, seen: Seen): State { State(w.start, Table(map[], 0), [], seen, map[], [], []) }

  /** The clock counts seconds, the instant of a mark milliseconds. */
  predicate Enabled(w: Setup, s: State, step: Step) {
    match step
    case Tick(_) => true
    case Look(i) => i < |w.arrivals| && i !in s.flights && w.arrivals[i].moment.now <= s.now
    case Decide(i) =>
      && i < |w.arrivals| && i in s.flights && s.flights[i].Looked?
      && 1000 * s.flights[i].at <= w.arrivals[i].moment.markAt < 1000 * (s.now + 1)
    case Stamp(i) =>
      && i < |w.arrivals| && i in s.flights && s.flights[i].ToStore?
      && s.flights[i].at <= w.arrivals[i].moment.insertNow <= s.now
    case Store(i) => i < |w.arrivals| && i in s.flights && s.flights[i].Stamped?
  }

  predicate Cacheable(w: Setup, a: Arrival) {
    ReservedPath.ParseTarget(w.site.base, a.req.path).Ok? && TokenOf(a.req).Some?
  }

  function Key(w: Setup, a: Arrival): Digest
    requires Cacheable(w, a)
  {
    w.site.crypto.sha256(TokenOf(a.req).value)
  }

  function DoLook(w: Setup, s: State, i: nat): State
    requires Enabled(w, s, Look(i))
  {
    var a := w.arrivals[i];
    if !Cacheable(w, a) then s.(flights := s.flights[i := Looked(None, s.now)])
    else
      var (table, entry) := Found(s.table, w.maxEntryTtl, Key(w, a), a.moment.now);
      s.(table := table, flights := s.flights[i := Looked(entry, s.now)])
  }

  /** The proof check of a request against a key. */
  function ProofCheck(w: Setup, a: Arrival, jkt: string): Checked
    requires Cacheable(w, a)
  {
    var htu := ReservedPath.ParseTarget(w.site.base, a.req.path).value.htu;
    CheckProof(w.site.crypto, w.site.policy, a.req.dpop, Key(w, a), jkt, AsciiUpper(a.req.method_), htu, a.moment.now)
  }

  /** The decision on a hit: the proof check against the cached key, and the mark. */
  function HitAnswer(w: Setup, a: Arrival, e: CacheEntry, seen: Seen): (Seen, Option<VerifiedToken>) {
    if !Cacheable(w, a) then (seen, None)
    else
      match ProofCheck(w, a, e.cnfJkt)
      case Refused(_) => (seen, None)
      case Fresh(jti) =>
        var (after, ok) := Admit(w.site.policy, seen, jti, a.moment);
        (after, if ok then Some(e.token) else None)
  }

  function Decided(w: Setup, s: State, i: nat): (Seen, Option<VerifiedToken>)
    requires Enabled(w, s, Decide(i))
  {
    var a := w.arrivals[i];
    match s.flights[i].entry
    case Some(e) => HitAnswer(w, a, e, s.seen)
    case None => Uncached(w.site, a.req, a.moment, s.seen)
  }

  /** A miss that succeeded is cached, unless certificate binding is on and the token carries one. */
  function After(w: Setup, a: Arrival, hit: bool, r: Option<VerifiedToken>, at: int): Flight {
    if hit || r.None? || !Cacheable(w, a) || (w.site.mtls && r.value.cnfX5t.Some?) then Done else ToStore(r.value, at)
  }

  function DoDecide(w: Setup, s: State, i: nat): State
    requires Enabled(w, s, Decide(i))
  {
    var a := w.arrivals[i];
    var (seen, r) := Decided(w, s, i);
    s.(seen := seen, flights := s.flights[i := After(w, a, s.flights[i].entry.Some?, r, s.now)],
       order := s.order + [i], answers := s.answers + [Finalized(w.site, a.req, r)])
  }

  /** Only a key-bound token with an expiry is cached. */
  function DoStamp(w: Setup, s: State, i: nat): State
    requires Enabled(w, s, Stamp(i))
  {
    var vt := s.flights[i].result;
    if vt.cnfJkt.None? || vt.expiry.None? then s.(flights := s.flights[i := Done])
    else s.(table := Draw(s.table), flights := s.flights[i := Stamped(vt, s.table.clock + 1)])
  }

  function RecordOf(w: Setup, a: Arrival, vt: VerifiedToken): Verification
    requires Cacheable(w, a)
  {
    Verification(TokenOf(a.req).value, ClientCert(w.site, a.req), a.moment.now, vt, a.moment.insertNow)
  }

  ghost function DoStore(w: Setup, s: State, i: nat): State
    requires Enabled(w, s, Store(i))
  {
    var a, vt, tick := w.arrivals[i], s.flights[i].result, s.flights[i].tick;
    var done := s.(flights := s.flights[i := Done]);
    if !Cacheable(w, a) || vt.cnfJkt.None? || vt.expiry.None? then done
    else
      var e := CacheEntry(vt, vt.cnfJkt.value, vt.expiry.value, a.moment.insertNow);
      done.(table := PutAt(s.table, w.capacity, Key(w, a), e, tick), verified := s.verified + [RecordOf(w, a, vt)])
  }

  ghost function Do(w: Setup, s: State, step: Step): State
    requires Enabled(w, s, step)
  {
    match step
    case Tick(d) => s.(now := s.now + d)
    case Look(i) => DoLook(w, s, i)
    case Decide(i) => DoDecide(w, s, i)
    case Stamp(i) => DoStamp(w, s, i)
    case Store(i) => DoStore(w, s, i)
  }

  /** `states` is a run of `steps` from an empty cache. */
  ghost predicate ValidRun(w: Setup, seen0: Seen, steps: seq<Step>, states: seq<State>) {
    && |states| == |steps| + 1 && states[0] == Start(w, seen0)
    && (forall k :: 0 <= k < |steps| ==> Enabled(w, states[k], steps[k]) && states[k + 1] == Do(w, states[k], steps[k]))
  }

  lemma Extend(w: Setup, seen0: Seen, steps: seq<Step>, states: seq<State>, step: Step)
    returns (steps': seq<Step>, states': seq<State>)
    requires ValidRun(w, seen0, steps, states) && Enabled(w, states[|steps|], step)
    ensures ValidRun(w, seen0, steps', states')
    ensures steps' == steps + [step] && states' == states + [Do(w, states[|steps|], step)]
  {
    steps', states' := steps + [step], states + [Do(w, states[|steps|], step)];
  }

  // ---- Entries and lookups trace to verifications ----

  predicate Vouches(w: Setup, a: Arrival, e: CacheEntry, at: int, v: Verification) {
    && Cacheable(w, a) && Honest(w.site, v) && v.at <= at
    && LiveFor(v, TokenOf(a.req).value, w.maxEntryTtl, a.moment.now) && TracesTo(w.site.crypto, e, Key(w, a), v)
  }

  predicate Storable(w: Setup, a: Arrival, vt: VerifiedToken) {
    Cacheable(w, a) && (vt.cnfJkt.Some? ==> Honest(w.site, RecordOf(w, a, vt)))
  }

  predicate FlightOk(w: Setup, now: int, verified: seq<Verification>, a: Arrival, f: Flight) {
    && a.moment.now <= now
    && match f
       case Looked(None, _) => true
       case Looked(Some(e), at) => exists j :: 0 <= j < |verified| && Vouches(w, a, e, at, verified[j])
       case ToStore(vt, _) => Storable(w, a, vt)
       case Stamped(vt, _) => Storable(w, a, vt)
       case Done => true
  }

  predicate FlightsOk(w: Setup, now: int, verified: seq<Verification>, flights: map<nat, Flight>) {
    forall i :: i in flights ==> i < |w.arrivals| && FlightOk(w, now, verified, w.arrivals[i], flights[i])
  }

  /** What needs no trust in the issuer. */
  predicate Sound(w: Setup, s: State) {
    && Traced(w.site.crypto, s.table, s.verified) && AllHonest(w.site, s.verified) && BeforeAll(s.verified, s.now)
    && FlightsOk(w, s.now, s.verified, s.flights)
  }

  lemma FlightSet(w: Setup, now: int, verified: seq<Verification>, flights: map<nat, Flight>, i: nat, f: Flight)
    requires FlightsOk(w, now, verified, flights) && i < |w.arrivals| && FlightOk(w, now, verified, w.arrivals[i], f)
    ensures FlightsOk(w, now, verified, flights[i := f])
  {
  }

  lemma FoundTraced(c: Crypto, t: Entries, verified: seq<Verification>, maxEntryTtl: int, key: Digest, now: int)
    requires Traced(c, t, verified)
    ensures Traced(c, Found(t, maxEntryTtl, key, now).0, verified)
  {
  }

  lemma TickSound(w: Setup, s: State, d: nat)
    requires Sound(w, s)
    ensures Sound(w, s.(now := s.now + d))
  {
    forall i | i in s.flights
      ensures i < |w.arrivals| && FlightOk(w, s.now + d, s.verified, w.arrivals[i], s.flights[i])
    {
      assert FlightOk(w, s.now, s.verified, w.arrivals[i], s.flights[i]);
    }
  }

  lemma LookedOk(w: Setup, s: State, i: nat)
    requires Injective(w.site.crypto.sha256) && Sound(w, s) && Enabled(w, s, Look(i))
    ensures FlightOk(w, s.now, s.verified, w.arrivals[i], DoLook(w, s, i).flights[i])
  {
    var a, f := w.arrivals[i], DoLook(w, s, i).flights[i];
    if f.entry.Some? {
      var j := Origin(w.site.crypto, s.table, s.verified, w.maxEntryTtl, TokenOf(a.req).value, a.moment.now);
      assert Honest(w.site, s.verified[j]);
      assert Vouches(w, a, f.entry.value, f.at, s.verified[j]);
    }
  }

  lemma LookSound(w: Setup, s: State, i: nat)
    requires Injective(w.site.crypto.sha256) && Sound(w, s) && Enabled(w, s, Look(i))
    ensures Sound(w, DoLook(w, s, i))
  {
    var a := w.arrivals[i];
    LookedOk(w, s, i);
    FlightSet(w, s.now, s.verified, s.flights, i, DoLook(w, s, i).flights[i]);
    if Cacheable(w, a) {
      FoundTraced(w.site.crypto, s.table, s.verified, w.maxEntryTtl, Key(w, a), a.moment.now);
    }
  }

  /** The cache-free decision hands on the verifier's verdict or nothing. */
  lemma AnswerIsVerdict(site: Site, req: Request, m: Moment, seen: Seen)
    requires TokenOf(req).Some? && Uncached(site, req, m, seen).1.Some?
    ensures site.checkToken(TokenOf(req).value, m.now, ClientCert(site, req)) == Uncached(site, req, m, seen).1
  {
  }

  lemma DecidedOk(w: Setup, now: int, verified: seq<Verification>, a: Arrival, hit: bool, seen: Seen)
    requires a.moment.now <= now
    ensures FlightOk(w, now, verified, a, After(w, a, hit, Uncached(w.site, a.req, a.moment, seen).1, now))
  {
    if Cacheable(w, a) && Uncached(w.site, a.req, a.moment, seen).1.Some? {
      AnswerIsVerdict(w.site, a.req, a.moment, seen);
    }
  }

  lemma DecideSound(w: Setup, s: State, i: nat)
    requires Sound(w, s) && Enabled(w, s, Decide(i))
    ensures Sound(w, DoDecide(w, s, i))
  {
    assert FlightOk(w, s.now, s.verified, w.arrivals[i], s.flights[i]);
    DecidedOk(w, s.now, s.verified, w.arrivals[i], s.flights[i].entry.Some?, s.seen);
    FlightSet(w, s.now, s.verified, s.flights, i, DoDecide(w, s, i).flights[i]);
  }

  lemma StampSound(w: Setup, s: State, i: nat)
    requires Sound(w, s) && Enabled(w, s, Stamp(i))
    ensures Sound(w, DoStamp(w, s, i))
  {
    assert FlightOk(w, s.now, s.verified, w.arrivals[i], s.flights[i]);
    FlightSet(w, s.now, s.verified, s.flights, i, DoStamp(w, s, i).flights[i]);
  }

  lemma FlightsStayOk(w: Setup, now: int, verified: seq<Verification>, v: Verification, flights: map<nat, Flight>)
    requires FlightsOk(w, now, verified, flights)
    ensures FlightsOk(w, now, verified + [v], flights)
  {
    forall k | k in flights ensures k < |w.arrivals| && FlightOk(w, now, verified + [v], w.arrivals[k], flights[k]) {
      FlightStaysOk(w, now, verified, v, w.arrivals[k], flights[k]);
    }
  }

  lemma FlightStaysOk(w: Setup, now: int, verified: seq<Verification>, v: Verification, a: Arrival, f: Flight)
    requires FlightOk(w, now, verified, a, f)
    ensures FlightOk(w, now, verified + [v], a, f)
  {
    if f.Looked? && f.entry.Some? {
      var j :| 0 <= j < |verified| && Vouches(w, a, f.entry.value, f.at, verified[j]);
      assert (verified + [v])[j] == verified[j];
    }
  }

  /** What a store adds to the table and the log. */
  lemma StoredSound(w: Setup, s: State, a: Arrival, vt: VerifiedToken, tick: nat)
    requires Traced(w.site.crypto, s.table, s.verified) && AllHonest(w.site, s.verified) && BeforeAll(s.verified, s.now)
    requires Storable(w, a, vt) && vt.cnfJkt.Some? && vt.expiry.Some? && a.moment.now <= s.now
    ensures var e := CacheEntry(vt, vt.cnfJkt.value, vt.expiry.value, a.moment.insertNow);
            var verified := s.verified + [RecordOf(w, a, vt)];
            && Traced(w.site.crypto, PutAt(s.table, w.capacity, Key(w, a), e, tick), verified)
            && AllHonest(w.site, verified) && BeforeAll(verified, s.now)
  {
    var e := CacheEntry(vt, vt.cnfJkt.value, vt.expiry.value, a.moment.insertNow);
    PutTraced(w.site.crypto, s.table, s.verified, w.capacity, Key(w, a), e, RecordOf(w, a, vt), tick);
    Logged(w.site, s.verified, RecordOf(w, a, vt), a.moment);
  }

  lemma StoreSound(w: Setup, s: State, i: nat)
    requires Sound(w, s) && Enabled(w, s, Store(i))
    ensures Sound(w, DoStore(w, s, i))
  {
    var a, vt, tick := w.arrivals[i], s.flights[i].result, s.flights[i].tick;
    assert FlightOk(w, s.now, s.verified, a, s.flights[i]);
    FlightSet(w, s.now, s.verified, s.flights, i, Done);
    if vt.cnfJkt.Some? && vt.expiry.Some? {
      StoredSound(w, s, a, vt, tick);
      FlightsStayOk(w, s.now, s.verified, RecordOf(w, a, vt), s.flights[i := Done]);
    }
  }

  lemma StepSound(w: Setup, s: State, step: Step)
    requires Injective(w.site.crypto.sha256) && Sound(w, s) && Enabled(w, s, step)
    ensures Sound(w, Do(w, s, step))
  {
    match step
    case Tick(d) => TickSound(w, s, d);
    case Look(i) => LookSound(w, s, i);
    case Decide(i) => DecideSound(w, s, i);
    case Stamp(i) => StampSound(w, s, i);
    case Store(i) => StoreSound(w, s, i);
  }

  /** In every reachable state entries, and lookups in flight, trace to verifications. */
  lemma {:induction false} RunSound(w: Setup, seen0: Seen, steps: seq<Step>, states: seq<State>, k: nat)
    requires Injective(w.site.crypto.sha256) && ValidRun(w, seen0, steps, states) && k < |states|
    ensures Sound(w, states[k])
  {
    if k > 0 {
      RunSound(w, seen0, steps, states, k - 1);
      StepSound(w, states[k - 1], steps[k - 1]);
    }
  }

  /** No lookup comes more than `back` seconds after its clock reading. */
  predicate PromptLookups(w: Setup, s: State, back: nat) {
    forall i :: i in s.flights && i < |w.arrivals| && s.flights[i].Looked? ==>
      s.flights[i].at <= w.arrivals[i].moment.now + back
  }
}
