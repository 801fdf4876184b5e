/**
 How old a verdict a hit may rest on (src/auth.rs, src/auth_cache.rs), over the interleavings of
 `AuthRuns`.

 The lifetime of an entry counts from a clock reading taken after the verification, so the bound
 counted from the verification is looser by that lag.
 */
module AuthStaleness {
  import opened Text
  import opened Machine
  import opened Recency
  import ReservedPath
  import opened DpopProof
  import opened ReplayMarks
  import opened TokenCache
  import opened AuthContext
  import opened AuthRuns
  import opened AuthReplay

  predicate HitInFlight(w: Setup, s: State, j: nat) {
    j < |w.arrivals| && j in s.flights && s.flights[j].Looked? && s.flights[j].entry.Some?
  }

  /** Whatever the issuer does, an entry that a lookup returned was verified in full for the same
      token before the lookup, and the lookup's reading is before the token's expiry and within the
      lifetime counted from the insertion's reading. */
  lemma HitsAreBounded(w: Setup, seen0: Seen, steps: seq<Step>, states: seq<State>, k: nat, j: nat)
    returns (v: Verification)
    requires Injective(w.site.crypto.sha256) && ValidRun(w, seen0, steps, states) && k < |states|
    requires HitInFlight(w, states[k], j)
    ensures var a, f := w.arrivals[j], states[k].flights[j];
            && v in states[k].verified && Vouches(w, a, f.entry.value, f.at, v)
            && TokenOf(a.req) == Some(v.token) && v.at <= f.at
            && w.site.checkToken(v.token, v.at, v.cert) == Some(f.entry.value.token)
            && a.moment.now < SaturatingAdd(v.insertedAt, w.maxEntryTtl)
            && v.result.expiry.Some? && a.moment.now < v.result.expiry.value
  {
    RunSound(w, seen0, steps, states, k);
    var s, a := states[k], w.arrivals[j];
    assert FlightOk(w, s.now, s.verified, a, s.flights[j]);
    var n :| 0 <= n < |s.verified| && Vouches(w, a, s.flights[j].entry.value, s.flights[j].at, s.verified[n]);
    v := s.verified[n];
  }

  // ---- Where cached verifications come from ----

  /** The request is accepted on a token that the cache may keep. */
  predicate Kept(w: Setup, seen0: Seen, i: nat, vt: VerifiedToken) {
    && i < |w.arrivals| && Cacheable(w, w.arrivals[i])
    && Uncached(w.site, w.arrivals[i].req, w.arrivals[i].moment, seen0).1 == Some(vt)
    && !(w.site.mtls && vt.cnfX5t.Some?)
  }

  /** The mark comes after the start and the request's reading, and by the second of the decision. */
  predicate MarkFits(w: Setup, m: Moment, decided: int) {
    1000 * w.start <= m.markAt && 1000 * m.now <= m.markAt < 1000 * (decided + 1)
  }

  /** The request can end up in the cache, its insertion's reading coming after the decision. */
  predicate Stores(w: Setup, seen0: Seen, i: nat, vt: VerifiedToken) {
    && Kept(w, seen0, i, vt) && vt.cnfJkt.Some? && vt.expiry.Some?
    && MarkFits(w, w.arrivals[i].moment, w.arrivals[i].moment.insertNow)
  }

  lemma AdmittedEarlier(p: Policy, jti: string, m: Moment, before: Seen, after: Seen)
    requires Later(before, after) && Admit(p, after, jti, m).1
    ensures Admit(p, before, jti, m).1
  {
  }

  lemma JudgedEarlier(site: Site, req: Request, token: string, htu: string, verdict: Option<VerifiedToken>, m: Moment,
                      before: Seen, after: Seen)
    requires Later(before, after) && Judge(site, req, token, htu, verdict, m, after).1.Some?
    ensures Judge(site, req, token, htu, verdict, m, before).1 == Judge(site, req, token, htu, verdict, m, after).1
  {
    if verdict.value.cnfJkt.Some? {
      var jti := CheckProof(site.crypto, site.policy, req.dpop, site.crypto.sha256(token), verdict.value.cnfJkt.value,
                            AsciiUpper(req.method_), htu, m.now).jti;
      AdmittedEarlier(site.policy, jti, m, before, after);
    }
  }

  /** What is accepted while more is remembered is accepted while less is. */
  lemma AcceptedEarlier(site: Site, req: Request, m: Moment, before: Seen, after: Seen)
    requires Later(before, after) && Uncached(site, req, m, after).1.Some?
    ensures Uncached(site, req, m, before).1 == Uncached(site, req, m, after).1
  {
    if TokenOf(req).Some? {
      var token := TokenOf(req).value;
      JudgedEarlier(site, req, token, ReservedPath.ParseTarget(site.base, req.path).value.htu,
                    site.checkToken(token, m.now, ClientCert(site, req)), m, before, after);
    }
  }

  predicate CameFrom(w: Setup, seen0: Seen, flights: map<nat, Flight>, v: Verification, i: nat) {
    i in flights && flights[i].Done? && Stores(w, seen0, i, v.result) && v == RecordOf(w, w.arrivals[i], v.result)
  }

  predicate FlightFrom(w: Setup, seen0: Seen, i: nat, f: Flight) {
    && i < |w.arrivals|
    && (f.Looked? ==> w.start <= f.at && w.arrivals[i].moment.now <= f.at)
    && (f.ToStore? ==> Kept(w, seen0, i, f.result) && MarkFits(w, w.arrivals[i].moment, f.at))
    && (f.Stamped? ==> Stores(w, seen0, i, f.result))
  }

  predicate FlightsFrom(w: Setup, seen0: Seen, flights: map<nat, Flight>) {
    forall i :: i in flights ==> FlightFrom(w, seen0, i, flights[i])
  }

  ghost predicate Provenance(w: Setup, seen0: Seen, s: State) {
    && w.start <= s.now && Later(seen0, s.seen)
    && FlightsFrom(w, seen0, s.flights) && LogFrom(w, seen0, s.flights, s.verified)
  }

  ghost predicate HasSource(w: Setup, seen0: Seen, flights: map<nat, Flight>, v: Verification) {
    exists i :: CameFrom(w, seen0, flights, v, i)
  }

  ghost predicate LogFrom(w: Setup, seen0: Seen, flights: map<nat, Flight>, verified: seq<Verification>) {
    forall n :: 0 <= n < |verified| ==> HasSource(w, seen0, flights, verified[n])
  }

  lemma SetFrom(w: Setup, seen0: Seen, flights: map<nat, Flight>, verified: seq<Verification>, i: nat, f: Flight)
    requires FlightsFrom(w, seen0, flights) && LogFrom(w, seen0, flights, verified)
    requires FlightFrom(w, seen0, i, f) && (i in flights ==> !flights[i].Done?)
    ensures FlightsFrom(w, seen0, flights[i := f]) && LogFrom(w, seen0, flights[i := f], verified)
  {
    var after := flights[i := f];
    forall n | 0 <= n < |verified| ensures HasSource(w, seen0, after, verified[n]) {
      assert HasSource(w, seen0, flights, verified[n]);
      var j :| CameFrom(w, seen0, flights, verified[n], j);
      assert CameFrom(w, seen0, after, verified[n], j);
    }
  }

  lemma LookFrom(w: Setup, seen0: Seen, s: State, i: nat)
    requires Provenance(w, seen0, s) && Enabled(w, s, Look(i))
    ensures Provenance(w, seen0, DoLook(w, s, i))
  {
    SetFrom(w, seen0, s.flights, s.verified, i, DoLook(w, s, i).flights[i]);
  }

  lemma DecidedFrom(w: Setup, seen0: Seen, s: State, i: nat)
    requires Later(seen0, s.seen) && Enabled(w, s, Decide(i)) && FlightFrom(w, seen0, i, s.flights[i])
    ensures FlightFrom(w, seen0, i, DoDecide(w, s, i).flights[i])
  {
    var a, f := w.arrivals[i], DoDecide(w, s, i).flights[i];
    if f.ToStore? { AcceptedEarlier(w.site, a.req, a.moment, seen0, s.seen); }
  }

  lemma LaterTrans(a: Seen, b: Seen, c: Seen)
    requires Later(a, b) && Later(b, c)
    ensures Later(a, c)
  {
  }

  lemma DecideFrom(w: Setup, seen0: Seen, s: State, i: nat)
    requires Provenance(w, seen0, s) && Enabled(w, s, Decide(i))
    ensures Provenance(w, seen0, DoDecide(w, s, i))
  {
    StepLater(w, s, Decide(i));
    LaterTrans(seen0, s.seen, DoDecide(w, s, i).seen);
    DecidedFrom(w, seen0, s, i);
    SetFrom(w, seen0, s.flights, s.verified, i, DoDecide(w, s, i).flights[i]);
  }

  lemma StampFrom(w: Setup, seen0: Seen, s: State, i: nat)
    requires Provenance(w, seen0, s) && Enabled(w, s, Stamp(i))
    ensures Provenance(w, seen0, DoStamp(w, s, i))
  {
    assert FlightFrom(w, seen0, i, s.flights[i]);
    SetFrom(w, seen0, s.flights, s.verified, i, DoStamp(w, s, i).flights[i]);
  }

  lemma StoreFrom(w: Setup, seen0: Seen, s: State, i: nat)
    requires Provenance(w, seen0, s) && Enabled(w, s, Store(i))
    ensures Provenance(w, seen0, DoStore(w, s, i))
  {
    var v, after := RecordOf(w, w.arrivals[i], s.flights[i].result), s.flights[i := Done];
    assert FlightFrom(w, seen0, i, s.flights[i]);
    SetFrom(w, seen0, s.flights, s.verified, i, Done);
    assert CameFrom(w, seen0, after, v, i);
    assert HasSource(w, seen0, after, v);
  }

  lemma StepFrom(w: Setup, seen0: Seen, s: State, step: Step)
    requires Provenance(w, seen0, s) && Enabled(w, s, step)
    ensures Provenance(w, seen0, Do(w, s, step))
  {
    match step
    case Tick(_) =>
    case Look(i) => LookFrom(w, seen0, s, i);
    case Decide(i) => DecideFrom(w, seen0, s, i);
    case Stamp(i) => StampFrom(w, seen0, s, i);
    case Store(i) => StoreFrom(w, seen0, s, i);
  }

  /** Every cached verification is that of a request which is accepted on the jtis of the start. */
  lemma {:induction false} RunFrom(w: Setup, seen0: Seen, steps: seq<Step>, states: seq<State>, k: nat)
    requires ValidRun(w, seen0, steps, states) && k < |states|
    ensures Provenance(w, seen0, states[k])
  {
    if k > 0 {
      RunFrom(w, seen0, steps, states, k - 1);
      StepFrom(w, seen0, states[k - 1], steps[k - 1]);
    }
  }

  // ---- The bound counted from the verification ----

  /** Insertions read the clock at most `lag` seconds after the verification. */
  predicate InsertedWithin(w: Setup, lag: nat) {
    forall i :: 0 <= i < |w.arrivals| ==>
      var m := w.arrivals[i].moment; InI64(m.insertNow) && m.insertNow <= m.now + lag
  }

  lemma SourceOf(w: Setup, seen0: Seen, steps: seq<Step>, states: seq<State>, k: nat, v: Verification) returns (i: nat)
    requires ValidRun(w, seen0, steps, states) && k < |states| && v in states[k].verified
    ensures CameFrom(w, seen0, states[k].flights, v, i)
  {
    RunFrom(w, seen0, steps, states, k);
    assert HasSource(w, seen0, states[k].flights, v);
    i :| CameFrom(w, seen0, states[k].flights, v, i);
  }

  lemma LagBound(w: Setup, seen0: Seen, flights: map<nat, Flight>, v: Verification, i: nat, lag: nat)
    requires CameFrom(w, seen0, flights, v, i) && InsertedWithin(w, lag) && w.maxEntryTtl >= 1
    ensures SaturatingAdd(v.insertedAt, w.maxEntryTtl) <= v.at + lag + w.maxEntryTtl
  {
    assert InI64(w.arrivals[i].moment.insertNow);
  }

  /** Over every run, a hit's reading is within the lifetime counted from the verification plus the
      lag; and the verification is at most as far ahead of the reading as the lookup lags behind it. */
  lemma HitsWithinLag(w: Setup, seen0: Seen, steps: seq<Step>, states: seq<State>, k: nat, j: nat, lag: nat, back: nat)
    returns (v: Verification)
    requires Injective(w.site.crypto.sha256) && ValidRun(w, seen0, steps, states) && k < |states| && w.maxEntryTtl >= 1
    requires HitInFlight(w, states[k], j) && InsertedWithin(w, lag) && PromptLookups(w, states[k], back)
    ensures v in states[k].verified && TokenOf(w.arrivals[j].req) == Some(v.token)
    ensures w.site.checkToken(v.token, v.at, v.cert) == Some(states[k].flights[j].entry.value.token)
    ensures v.at - back <= w.arrivals[j].moment.now < v.at + lag + w.maxEntryTtl
  {
    v := HitsAreBounded(w, seen0, steps, states, k, j);
    var i := SourceOf(w, seen0, steps, states, k, v);
    LagBound(w, seen0, states[k].flights, v, i, lag);
  }

  /** A hit none of whose verifications lies within the lifetime. */
  predicate StaleHit(w: Setup, s: State, j: nat) {
    HitInFlight(w, s, j) &&
    forall v :: v in s.verified && Vouches(w, w.arrivals[j], s.flights[j].entry.value, s.flights[j].at, v) ==>
      w.arrivals[j].moment.now >= v.at + w.maxEntryTtl
  }

  ghost predicate BoundFails(w: Setup, seen0: Seen) {
    exists steps, states, k: nat, j ::
      ValidRun(w, seen0, steps, states) && k < |states| && StaleHit(w, states[k], j)
  }

  function EntryOf(a: Arrival, vt: VerifiedToken): CacheEntry
    requires vt.cnfJkt.Some? && vt.expiry.Some?
  {
    CacheEntry(vt, vt.cnfJkt.value, vt.expiry.value, a.moment.insertNow)
  }

  /** A second request for the token that one request caches, while the entry is live. */
  predicate CanHit(w: Setup, seen0: Seen, i: nat, j: nat, vt: VerifiedToken) {
    && Stores(w, seen0, i, vt) && j < |w.arrivals| && j != i && Cacheable(w, w.arrivals[j])
    && TokenOf(w.arrivals[j].req) == TokenOf(w.arrivals[i].req)
    && Live(EntryOf(w.arrivals[i], vt), w.maxEntryTtl, w.arrivals[j].moment.now)
  }

  /** Such a request that comes a whole lifetime after the verification. */
  predicate LateHit(w: Setup, seen0: Seen, i: nat, j: nat, vt: VerifiedToken) {
    CanHit(w, seen0, i, j, vt) && w.arrivals[j].moment.now >= w.arrivals[i].moment.now + w.maxEntryTtl
  }

  function Max(a: int, b: int): int { if a >= b then a else b }

  /** One request looks its token up once its time has come, and misses. */
  lemma LookedRun(w: Setup, seen0: Seen, i: nat) returns (steps: seq<Step>, states: seq<State>)
    requires i < |w.arrivals| && Cacheable(w, w.arrivals[i])
    ensures ValidRun(w, seen0, steps, states) && |steps| == 2
    ensures var at := Max(w.start, w.arrivals[i].moment.now);
            states[2] == State(at, Table(map[], 0), [], seen0, map[i := Looked(None, at)], [], [])
  {
    steps, states := [], [Start(w, seen0)];
    steps, states := Extend(w, seen0, steps, states, Tick(Max(w.start, w.arrivals[i].moment.now) - w.start));
    steps, states := Extend(w, seen0, steps, states, Look(i));
  }

  lemma MarkSecond(w: Setup, m: Moment)
    requires MarkFits(w, m, m.insertNow)
    ensures w.start <= m.markAt / 1000 && m.now <= m.markAt / 1000 <= m.insertNow
    ensures 1000 * (m.markAt / 1000) <= m.markAt < 1000 * (m.markAt / 1000 + 1)
  {
  }

  /** It is marked and accepted. */
  lemma AcceptedRun(w: Setup, seen0: Seen, i: nat, vt: VerifiedToken) returns (steps: seq<Step>, states: seq<State>)
    requires Stores(w, seen0, i, vt)
    ensures ValidRun(w, seen0, steps, states) && |steps| == 4
    ensures var a, s := w.arrivals[i], states[4];
            && s.now == a.moment.markAt / 1000 <= a.moment.insertNow
            && s.flights == map[i := ToStore(vt, s.now)] && s.verified == [] && s.table == Table(map[], 0)
            && s.seen == Uncached(w.site, a.req, a.moment, seen0).0
  {
    var m := w.arrivals[i].moment;
    steps, states := LookedRun(w, seen0, i);
    MarkSecond(w, m);
    steps, states := Extend(w, seen0, steps, states, Tick(m.markAt / 1000 - states[2].now));
    steps, states := Extend(w, seen0, steps, states, Decide(i));
  }

  /** And it is stored under a reading taken after that. */
  lemma CachedRun(w: Setup, seen0: Seen, i: nat, vt: VerifiedToken) returns (steps: seq<Step>, states: seq<State>)
    requires Stores(w, seen0, i, vt) && w.capacity >= 1
    ensures ValidRun(w, seen0, steps, states) && |steps| == 7
    ensures var a, s := w.arrivals[i], states[7];
            && s.now == a.moment.insertNow && s.flights == map[i := Done] && s.verified == [RecordOf(w, a, vt)]
            && s.seen == Uncached(w.site, a.req, a.moment, seen0).0
            && s.table.slots == map[Key(w, a) := Slot(EntryOf(a, vt), 1)]
  {
    var m := w.arrivals[i].moment;
    steps, states := AcceptedRun(w, seen0, i, vt);
    steps, states := Extend(w, seen0, steps, states, Tick(m.insertNow - m.markAt / 1000));
    steps, states := Extend(w, seen0, steps, states, Stamp(i));
    assert states[6].flights[i] == Stamped(vt, 1);
    steps, states := Extend(w, seen0, steps, states, Store(i));
  }

  /** And another request for the same token hits. */
  lemma HitRun(w: Setup, seen0: Seen, i: nat, j: nat, vt: VerifiedToken) returns (steps: seq<Step>, states: seq<State>)
    requires CanHit(w, seen0, i, j, vt) && w.capacity >= 1
    ensures ValidRun(w, seen0, steps, states) && |steps| == 9 && HitInFlight(w, states[9], j)
    ensures var a, s := w.arrivals[i], states[9];
            && s.verified == [RecordOf(w, a, vt)] && s.seen == Uncached(w.site, a.req, a.moment, seen0).0
            && s.now == Max(a.moment.insertNow, w.arrivals[j].moment.now)
            && s.flights[j] == Looked(Some(EntryOf(a, vt)), s.now)
  {
    var stored := w.arrivals[i].moment.insertNow;
    steps, states := CachedRun(w, seen0, i, vt);
    steps, states := Extend(w, seen0, steps, states, Tick(Max(stored, w.arrivals[j].moment.now) - stored));
    steps, states := Extend(w, seen0, steps, states, Look(j));
  }

  /** The bound counted from the verification fails in some run of these requests if and only if one
      of them is cached so late that another comes a whole lifetime after the verification and
      still finds the entry live. */
  lemma BoundFailsIff(w: Setup, seen0: Seen)
    requires Injective(w.site.crypto.sha256) && w.capacity >= 1 && w.maxEntryTtl >= 1
    ensures BoundFails(w, seen0) <==> exists i, j, vt :: LateHit(w, seen0, i, j, vt)
  {
    if BoundFails(w, seen0) {
      var steps, states, k: nat, j :| ValidRun(w, seen0, steps, states) && k < |states| && StaleHit(w, states[k], j);
      var v := HitsAreBounded(w, seen0, steps, states, k, j);
      var i := SourceOf(w, seen0, steps, states, k, v);
      StaleIsLate(w, seen0, states[k], i, j, v);
    }
    if i, j, vt :| LateHit(w, seen0, i, j, vt) {
      var steps, states := HitRun(w, seen0, i, j, vt);
      LateIsStale(w, seen0, states[9], i, j, vt);
    }
  }

  lemma StaleIsLate(w: Setup, seen0: Seen, s: State, i: nat, j: nat, v: Verification)
    requires StaleHit(w, s, j) && v in s.verified && CameFrom(w, seen0, s.flights, v, i)
    requires Vouches(w, w.arrivals[j], s.flights[j].entry.value, s.flights[j].at, v)
    ensures LateHit(w, seen0, i, j, v.result)
  {
  }

  lemma LateIsStale(w: Setup, seen0: Seen, s: State, i: nat, j: nat, vt: VerifiedToken)
    requires LateHit(w, seen0, i, j, vt) && HitInFlight(w, s, j) && s.verified == [RecordOf(w, w.arrivals[i], vt)]
    ensures StaleHit(w, s, j)
  {
  }

  lemma NoLagNotLate(w: Setup, seen0: Seen, i: nat, j: nat, vt: VerifiedToken)
    requires w.maxEntryTtl >= 1 && InsertedWithin(w, 0)
    ensures !LateHit(w, seen0, i, j, vt)
  {
    if i < |w.arrivals| { assert InI64(w.arrivals[i].moment.insertNow); }
  }

  /** Without a lag the bound never fails. */
  lemma NoLagNoFailure(w: Setup, seen0: Seen)
    requires Injective(w.site.crypto.sha256) && w.capacity >= 1 && w.maxEntryTtl >= 1 && InsertedWithin(w, 0)
    ensures !BoundFails(w, seen0)
  {
    BoundFailsIff(w, seen0);
    forall i, j, vt ensures !LateHit(w, seen0, i, j, vt) { NoLagNotLate(w, seen0, i, j, vt); }
  }

  /** With a lag of one second it fails: a request exactly one lifetime after the verification. */
  lemma OneSecondLate(w: Setup, seen0: Seen, vt: VerifiedToken)
    requires Injective(w.site.crypto.sha256) && w.capacity >= 1 && w.maxEntryTtl >= 1 && |w.arrivals| == 2
    requires Stores(w, seen0, 0, vt) && w.arrivals[1].req == w.arrivals[0].req
    requires var first, second := w.arrivals[0].moment, w.arrivals[1].moment;
             && first.insertNow == first.now + 1 && second.now == first.now + w.maxEntryTtl < vt.expiry.value
             && InI64(first.insertNow + w.maxEntryTtl)
    ensures BoundFails(w, seen0)
  {
    assert LateHit(w, seen0, 0, 1, vt);
    BoundFailsIff(w, seen0);
  }
}
