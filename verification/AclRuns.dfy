/**
 Lookups of ACL documents through the cache, interleaved with writes, deletes, other lookups,
 expiries, evictions and invalidations (src/authz/wac.rs, src/acl_cache.rs).

 A lookup is not atomic: it probes the current metadata, consults the cache, and on a miss reads
 the document (again, or through the metadata it holds), draws a stamp and stores the parse.  A
 fetch through held metadata yields the bytes of the probed version, since every write puts its
 bytes under a key of their own, or finds the document gone; any step may fail with a store
 error.  The RDF parser is a parameter.
 */
module AclRuns {
  import opened Text
  import opened Recency
  import opened WacRules
  import opened AclCache

  datatype Resource = Resource(etag: string, contentType: string, body: string)

  /** The versions the store went through, the last one current. */
  type Version = map<string, Resource>

  datatype Stage =
    | Started
    | Probed(v: nat)
    | Missed(v: nat, now: int)
    | Fetched(v: nat, f: nat, now: int)
    | Stamped(v: nat, f: nat, now: int, tick: nat)
    | Failed
    | Done(answer: Option<seq<Triple>>, v: nat, f: nat)

  /** `held`: on a miss, fetch the bytes through the probed metadata instead of reading again. */
  datatype Lookup = Lookup(iri: string, held: bool, stage: Stage)

  datatype State = State(versions: seq<Version>, cache: AclTable, lookups: map<nat, Lookup>)

  /** Parsing a document, given its IRI, media type and bytes; a malformed one parses to no triples. */
  type Parser = (string, string, string) -> seq<Triple>

  datatype Step =
    | Write(iri: string, r: Resource)
    | Delete(iri: string)
    | Start(id: nat, iri: string, held: bool)
    | Probe(id: nat)
    | Consult(id: nat, now: int)
    | Fetch(id: nat)
    | Gone(id: nat, g: nat)
    | Fail(id: nat)
    | Stamp(id: nat)
    | Store(id: nat)
    | Invalidate(iri: string)

  function ParseOf(parse: Parser, iri: string, r: Resource): seq<Triple> { parse(iri, r.contentType, r.body) }

  /** What a lookup without any cache answers on a version of the store. */
  function Uncached(parse: Parser, m: Version, iri: string): Option<seq<Triple>> {
    if iri in m then Some(ParseOf(parse, iri, m[iri])) else None
  }

  predicate At(s: State, id: nat) { id in s.lookups }

  function Current(s: State): Version
    requires s.versions != []
  {
    s.versions[|s.versions| - 1]
  }

  predicate HasVersion(s: State, v: nat, iri: string) { v < |s.versions| && iri in s.versions[v] }

  predicate Enabled(s: State, step: Step) {
    s.versions != [] &&
    match step
    case Write(_, _) => true
    case Delete(_) => true
    case Start(id, _, _) => id !in s.lookups
    case Probe(id) => At(s, id) && s.lookups[id].stage.Started?
    case Consult(id, _) =>
      At(s, id) && s.lookups[id].stage.Probed? && HasVersion(s, s.lookups[id].stage.v, s.lookups[id].iri)
    case Fetch(id) => At(s, id) && s.lookups[id].stage.Missed?
    case Gone(id, g) =>
      && At(s, id) && s.lookups[id].stage.Missed? && s.lookups[id].held
      && s.lookups[id].stage.v <= g < |s.versions| && s.lookups[id].iri !in s.versions[g]
    case Fail(id) => At(s, id) && !s.lookups[id].stage.Done?
    case Stamp(id) =>
      At(s, id) && s.lookups[id].stage.Fetched? && HasVersion(s, s.lookups[id].stage.f, s.lookups[id].iri)
    case Store(id) =>
      At(s, id) && s.lookups[id].stage.Stamped? && HasVersion(s, s.lookups[id].stage.f, s.lookups[id].iri)
    case Invalidate(_) => true
  }

  function Move(s: State, id: nat, stage: Stage): State
    requires At(s, id)
  {
    s.(lookups := s.lookups[id := s.lookups[id].(stage := stage)])
  }

  ghost function Do(c: Config, parse: Parser, s: State, step: Step): State
    requires Enabled(s, step)
  {
    var last := |s.versions| - 1;
    match step
    case Write(iri, r) => s.(versions := s.versions + [Current(s)[iri := r]])
    case Delete(iri) => s.(versions := s.versions + [Current(s) - {iri}])
    case Start(id, iri, held) => s.(lookups := s.lookups[id := Lookup(iri, held, Started)])
    case Probe(id) =>
      Move(s, id, if s.lookups[id].iri in Current(s) then Probed(last) else Done(None, last, last))
    case Consult(id, now) =>
      var l := s.lookups[id];
      var (cache, r) := Looked(c, s.cache, l.iri, s.versions[l.stage.v][l.iri].etag, now);
      Move(s.(cache := cache), id, if r.Some? then Done(r, l.stage.v, l.stage.v) else Missed(l.stage.v, now))
    case Fetch(id) =>
      var l := s.lookups[id];
      Move(s, id, if l.held then Fetched(l.stage.v, l.stage.v, l.stage.now)
                  else if l.iri in Current(s) then Fetched(l.stage.v, last, l.stage.now)
                  else Done(None, l.stage.v, last))
    case Gone(id, g) => Move(s, id, Done(None, s.lookups[id].stage.v, g))
    case Fail(id) => Move(s, id, Failed)
    case Stamp(id) =>
      var st := s.lookups[id].stage;
      Move(if c.capacity == 0 then s else s.(cache := Draw(s.cache)), id,
           Stamped(st.v, st.f, st.now, s.cache.clock + 1))
    case Store(id) =>
      var l, st := s.lookups[id], s.lookups[id].stage;
      var r := s.versions[st.f][l.iri];
      var triples := ParseOf(parse, l.iri, r);
      Move(s.(cache := StoredAt(c, s.cache, l.iri, AclEntry(r.etag, triples, st.now), st.tick)), id,
           Done(Some(triples), st.v, st.f))
    case Invalidate(iri) => s.(cache := Dropped(c, s.cache, iri))
  }

  // --- The invariant ------------------------------------------------------------------------------

  /** Two versions of a document with equal etags parse alike. */
  predicate EtagsFaithful(parse: Parser, versions: seq<Version>) {
    forall g, h, iri :: 0 <= g < |versions| && 0 <= h < |versions| && iri in versions[g] && iri in versions[h]
      && versions[g][iri].etag == versions[h][iri].etag
      ==> ParseOf(parse, iri, versions[g][iri]) == ParseOf(parse, iri, versions[h][iri])
  }

  predicate ParsedFrom(parse: Parser, m: Version, iri: string, e: AclEntry) {
    iri in m && m[iri].etag == e.etag && ParseOf(parse, iri, m[iri]) == e.triples
  }

  /** A cached parse is the parse of some version of the document, under that version's etag. */
  predicate EntryOk(parse: Parser, versions: seq<Version>, iri: string, e: AclEntry) {
    exists h :: 0 <= h < |versions| && ParsedFrom(parse, versions[h], iri, e)
  }

  predicate CacheOk(parse: Parser, versions: seq<Version>, cache: AclTable) {
    forall iri :: iri in cache.slots ==> EntryOk(parse, versions, iri, cache.slots[iri].value)
  }

  predicate LookupOk(parse: Parser, versions: seq<Version>, l: Lookup) {
    match l.stage
    case Started => true
    case Probed(v) => v < |versions| && l.iri in versions[v]
    case Missed(v, _) => v < |versions| && l.iri in versions[v]
    case Fetched(v, f, _) => v <= f < |versions| && l.iri in versions[f] && (l.held ==> f == v)
    case Stamped(v, f, _, _) => v <= f < |versions| && l.iri in versions[f] && (l.held ==> f == v)
    case Failed => true
    case Done(answer, v, f) =>
      && v <= f < |versions| && answer == Uncached(parse, versions[f], l.iri)
      && (l.held ==> f == v || l.iri !in versions[f])
  }

  predicate Inv(parse: Parser, s: State) {
    && s.versions != []
    && CacheOk(parse, s.versions, s.cache)
    && forall id :: id in s.lookups ==> LookupOk(parse, s.versions, s.lookups[id])
  }

  lemma EntryGrows(parse: Parser, versions: seq<Version>, m: Version, iri: string, e: AclEntry)
    requires EntryOk(parse, versions, iri, e)
    ensures EntryOk(parse, versions + [m], iri, e)
  {
    var h :| 0 <= h < |versions| && ParsedFrom(parse, versions[h], iri, e);
    assert (versions + [m])[h] == versions[h];
  }

  lemma StoreStepInv(c: Config, parse: Parser, s: State, step: Step)
    requires Inv(parse, s) && Enabled(s, step) && (step.Write? || step.Delete?)
    ensures Inv(parse, Do(c, parse, s, step))
  {
    var m := if step.Write? then Current(s)[step.iri := step.r] else Current(s) - {step.iri};
    var versions := s.versions + [m];
    assert forall v :: 0 <= v < |s.versions| ==> versions[v] == s.versions[v];
    forall iri | iri in s.cache.slots ensures EntryOk(parse, versions, iri, s.cache.slots[iri].value) {
      EntryGrows(parse, s.versions, m, iri, s.cache.slots[iri].value);
    }
  }

  lemma LookedOk(c: Config, parse: Parser, versions: seq<Version>, cache: AclTable, iri: string, etag: string, now: int)
    requires CacheOk(parse, versions, cache)
    ensures CacheOk(parse, versions, Looked(c, cache, iri, etag, now).0)
  {
  }

  lemma LookedHit(c: Config, parse: Parser, versions: seq<Version>, cache: AclTable, v: nat, iri: string, now: int)
    requires CacheOk(parse, versions, cache) && EtagsFaithful(parse, versions) && v < |versions| && iri in versions[v]
    requires Looked(c, cache, iri, versions[v][iri].etag, now).1.Some?
    ensures Looked(c, cache, iri, versions[v][iri].etag, now).1 == Uncached(parse, versions[v], iri)
  {
  }

  lemma ConsultInv(c: Config, parse: Parser, s: State, step: Step)
    requires Inv(parse, s) && EtagsFaithful(parse, s.versions) && Enabled(s, step) && step.Consult?
    ensures Inv(parse, Do(c, parse, s, step))
  {
    var l := s.lookups[step.id];
    var v, etag := l.stage.v, s.versions[l.stage.v][l.iri].etag;
    LookedOk(c, parse, s.versions, s.cache, l.iri, etag, step.now);
    var r := Looked(c, s.cache, l.iri, etag, step.now).1;
    if r.Some? { LookedHit(c, parse, s.versions, s.cache, v, l.iri, step.now); }
    MoveInv(parse, s.(cache := Looked(c, s.cache, l.iri, etag, step.now).0), step.id,
            if r.Some? then Done(r, v, v) else Missed(v, step.now));
  }

  lemma MoveInv(parse: Parser, s: State, id: nat, stage: Stage)
    requires Inv(parse, s) && At(s, id) && LookupOk(parse, s.versions, s.lookups[id].(stage := stage))
    ensures Inv(parse, Move(s, id, stage))
  {
  }

  lemma StoreInv(c: Config, parse: Parser, s: State, step: Step)
    requires Inv(parse, s) && Enabled(s, step) && step.Store?
    ensures Inv(parse, Do(c, parse, s, step))
  {
  }

  lemma ProbeFetchInv(c: Config, parse: Parser, s: State, step: Step)
    requires Inv(parse, s) && Enabled(s, step) && (step.Probe? || step.Fetch? || step.Gone?)
    ensures Inv(parse, Do(c, parse, s, step))
  {
  }

  lemma StampFailInv(c: Config, parse: Parser, s: State, step: Step)
    requires Inv(parse, s) && Enabled(s, step) && (step.Stamp? || step.Fail?)
    ensures Inv(parse, Do(c, parse, s, step))
  {
  }

  lemma StartDropInv(c: Config, parse: Parser, s: State, step: Step)
    requires Inv(parse, s) && Enabled(s, step) && (step.Start? || step.Invalidate?)
    ensures Inv(parse, Do(c, parse, s, step))
  {
  }

  lemma StepInv(c: Config, parse: Parser, s: State, step: Step)
    requires Inv(parse, s) && EtagsFaithful(parse, s.versions) && Enabled(s, step)
    ensures Inv(parse, Do(c, parse, s, step))
  {
    if step.Write? || step.Delete? { StoreStepInv(c, parse, s, step); }
    else if step.Consult? { ConsultInv(c, parse, s, step); }
    else if step.Store? { StoreInv(c, parse, s, step); }
    else if step.Probe? || step.Fetch? || step.Gone? { ProbeFetchInv(c, parse, s, step); }
    else if step.Stamp? || step.Fail? { StampFailInv(c, parse, s, step); }
    else { StartDropInv(c, parse, s, step); }
  }

  // --- Whole runs -----------------------------------------------------------------------------------

  datatype Run = Run(config: Config, steps: seq<Step>, states: seq<State>)

  ghost predicate ValidRun(parse: Parser, r: Run) {
    && |r.states| == |r.steps| + 1
    && r.states[0] == State([map[]], EMPTY, map[])
    && forall k :: 0 <= k < |r.steps| ==>
         Enabled(r.states[k], r.steps[k]) && r.states[k + 1] == Do(r.config, parse, r.states[k], r.steps[k])
  }

  lemma FaithfulBefore(c: Config, parse: Parser, s: State, step: Step)
    requires Enabled(s, step) && EtagsFaithful(parse, Do(c, parse, s, step).versions)
    ensures EtagsFaithful(parse, s.versions)
  {
    var versions := Do(c, parse, s, step).versions;
    assert forall v :: 0 <= v < |s.versions| ==> versions[v] == s.versions[v];
  }

  lemma {:induction false} RunInv(parse: Parser, r: Run, k: nat)
    requires ValidRun(parse, r) && k < |r.states| && EtagsFaithful(parse, r.states[k].versions)
    ensures Inv(parse, r.states[k])
  {
    if k > 0 {
      FaithfulBefore(r.config, parse, r.states[k - 1], r.steps[k - 1]);
      RunInv(parse, r, k - 1);
      StepInv(r.config, parse, r.states[k - 1], r.steps[k - 1]);
    }
  }

  /** The cache is unobservable: whatever is interleaved, and whatever its capacity and TTL, a
      finished lookup answered what an uncached one answers on a version `f` that was current between
      its probe (of version `v`) and its end; through held metadata it is the probed version, or
      nothing because the document had gone by then. */
  lemma CacheIsUnobservable(parse: Parser, r: Run, k: nat, id: nat)
    requires ValidRun(parse, r) && k < |r.states| && EtagsFaithful(parse, r.states[k].versions)
    requires id in r.states[k].lookups && r.states[k].lookups[id].stage.Done?
    ensures var s, l := r.states[k], r.states[k].lookups[id];
            && l.stage.v <= l.stage.f < |s.versions|
            && l.stage.answer == Uncached(parse, s.versions[l.stage.f], l.iri)
            && (l.held ==> l.stage.f == l.stage.v || (l.stage.answer == None && l.iri !in s.versions[l.stage.f]))
  {
    RunInv(parse, r, k);
  }

  // --- When the answer is that of the probed version ------------------------------------------------

  predicate SameAt(m: Version, n: Version, iri: string) {
    (iri in m <==> iri in n) && (iri in m ==> m[iri] == n[iri])
  }

  predicate Changes(step: Step, iri: string) { (step.Write? || step.Delete?) && step.iri == iri }

  lemma StepVersions(c: Config, parse: Parser, s: State, step: Step, iri: string)
    requires Enabled(s, step)
    ensures var versions := Do(c, parse, s, step).versions;
            && s.versions <= versions && |s.versions| <= |versions| <= |s.versions| + 1
            && (|versions| > |s.versions| && !Changes(step, iri) ==> SameAt(Current(s), versions[|s.versions|], iri))
  {
  }

  /** Two versions differ at a document only if some step in between wrote or deleted it. */
  lemma {:induction false} ChangeNeedsWrite(parse: Parser, r: Run, k: nat, v: nat, f: nat, iri: string) returns (n: nat)
    requires ValidRun(parse, r) && k < |r.states| && v <= f < |r.states[k].versions|
    requires !SameAt(r.states[k].versions[v], r.states[k].versions[f], iri)
    ensures n < k && Changes(r.steps[n], iri) && v < |r.states[n].versions| <= f
  {
    var s, step := r.states[k - 1], r.steps[k - 1];
    StepVersions(r.config, parse, s, step, iri);
    if f < |s.versions| {
      n := ChangeNeedsWrite(parse, r, k - 1, v, f, iri);
    } else if Changes(step, iri) {
      n := k - 1;
    } else {
      n := ChangeNeedsWrite(parse, r, k - 1, v, f - 1, iri);
    }
  }

  /** A lookup answers for the version it probed, unless a write or a deletion of its document made
      a version after the probed one and no later than the one it read. */
  lemma OtherAnswerNeedsWrite(parse: Parser, r: Run, k: nat, id: nat) returns (n: nat)
    requires ValidRun(parse, r) && k < |r.states| && EtagsFaithful(parse, r.states[k].versions)
    requires id in r.states[k].lookups && r.states[k].lookups[id].stage.Done?
    requires var s, l := r.states[k], r.states[k].lookups[id];
             l.stage.v < |s.versions| && l.stage.answer != Uncached(parse, s.versions[l.stage.v], l.iri)
    ensures var l := r.states[k].lookups[id];
            n < k && Changes(r.steps[n], l.iri) && l.stage.v < |r.states[n].versions| <= l.stage.f
  {
    RunInv(parse, r, k);
    var l := r.states[k].lookups[id];
    n := ChangeNeedsWrite(parse, r, k, l.stage.v, l.stage.f, l.iri);
  }

  /** One write, and a lookup that has missed the cache. */
  lemma MissedRun(c: Config, parse: Parser, iri: string, a: Resource) returns (r: Run)
    ensures ValidRun(parse, r) && r.config == c
    ensures r.states[|r.states| - 1]
            == State([map[], map[iri := a]], EMPTY, map[0 := Lookup(iri, false, Missed(1, 0))])
  {
    r := Run(c, [], [State([map[]], EMPTY, map[])]);
    r := Extend(parse, r, Step.Write(iri, a));
    assert r.states[1].versions == [map[], map[iri := a]];
    r := Extend(parse, r, Start(0, iri, false));
    r := Extend(parse, r, Probe(0));
    r := Extend(parse, r, Consult(0, 0));
  }

  /** The change of a document to a representation, or its deletion. */
  function ChangeTo(iri: string, b: Option<Resource>): Step {
    if b.Some? then Step.Write(iri, b.value) else Step.Delete(iri)
  }

  function Parsed(parse: Parser, iri: string, b: Option<Resource>): Option<seq<Triple>> {
    if b.Some? then Some(ParseOf(parse, iri, b.value)) else None
  }

  /** A change that falls between the probe and the fetch of a re-reading miss decides its answer:
      the answer is that of the probed version exactly when the change does not alter the parse. */
  lemma RereadShows(c: Config, parse: Parser, iri: string, a: Resource, b: Option<Resource>) returns (r: Run)
    ensures ValidRun(parse, r) && r.config == c
    ensures var s := r.states[|r.states| - 1];
            && 0 in s.lookups && s.lookups[0].stage.Done? && s.lookups[0].iri == iri && !s.lookups[0].held
            && s.lookups[0].stage.v < |s.versions|
            && Uncached(parse, s.versions[s.lookups[0].stage.v], iri) == Some(ParseOf(parse, iri, a))
            && s.lookups[0].stage.answer == Parsed(parse, iri, b)
            && (s.lookups[0].stage.answer == Uncached(parse, s.versions[s.lookups[0].stage.v], iri)
                <==> b.Some? && ParseOf(parse, iri, b.value) == ParseOf(parse, iri, a))
  {
    r := MissedRun(c, parse, iri, a);
    r := Extend(parse, r, ChangeTo(iri, b));
    r := Extend(parse, r, Fetch(0));
    if b.Some? {
      r := Extend(parse, r, Stamp(0));
      r := Extend(parse, r, Store(0));
    }
  }

  // --- Faithful etags are necessary -------------------------------------------------------------------

  /** If two representations of a document share an etag but parse differently, some run answers a
      lookup with the old parse although the new representation is current from probe to end. */
  lemma UnfaithfulEtagsShow(c: Config, parse: Parser, iri: string, a: Resource, b: Resource) returns (r: Run)
    requires c.capacity >= 1 && c.maxEntryTtl >= 1
    requires a.etag == b.etag && ParseOf(parse, iri, a) != ParseOf(parse, iri, b)
    ensures ValidRun(parse, r) && r.config == c
    ensures var s := r.states[|r.states| - 1];
            && 1 in s.lookups && s.lookups[1].stage.Done? && s.lookups[1].iri == iri
            && s.lookups[1].stage.v == s.lookups[1].stage.f == |s.versions| - 1
            && s.lookups[1].stage.answer != Uncached(parse, Current(s), iri)
  {
    r := WarmRun(c, parse, iri, a);
    r := Extend(parse, r, Step.Write(iri, b));
    r := Extend(parse, r, Start(1, iri, false));
    r := Extend(parse, r, Probe(1));
    r := Extend(parse, r, Consult(1, 0));
  }

  /** One write and one complete lookup leave the parse in the cache. */
  lemma WarmRun(c: Config, parse: Parser, iri: string, a: Resource) returns (r: Run)
    requires c.capacity >= 1
    ensures ValidRun(parse, r) && r.config == c
    ensures var s := r.states[|r.states| - 1];
            && s.versions != [] && s.lookups.Keys == {0}
            && iri in s.cache.slots && s.cache.slots[iri].value == AclEntry(a.etag, ParseOf(parse, iri, a), 0)
  {
    r := MissedRun(c, parse, iri, a);
    r := Extend(parse, r, Fetch(0));
    r := Extend(parse, r, Stamp(0));
    r := Extend(parse, r, Store(0));
  }

  lemma Extend(parse: Parser, r: Run, step: Step) returns (r': Run)
    requires ValidRun(parse, r) && Enabled(r.states[|r.states| - 1], step)
    ensures ValidRun(parse, r') && r'.config == r.config
    ensures |r'.states| == |r.states| + 1
    ensures r'.states[|r.states|] == Do(r.config, parse, r.states[|r.states| - 1], step)
  {
    r' := Run(r.config, r.steps + [step], r.states + [Do(r.config, parse, r.states[|r.states| - 1], step)]);
  }
}
