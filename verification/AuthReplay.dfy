/**
 Replay protection over whole runs (src/auth_cache.rs): when the same proof can be accepted again.

 The runs are the interleavings of `AuthRuns`, so hits and misses mix freely, and nothing is
 assumed about the issuer.  The store marks a jti at an instant in milliseconds; the recency check
 uses the clock in whole seconds, read at most `delay` milliseconds before the mark.
 */
module AuthReplay {
  import opened Text
  import opened Machine
  import opened Recency
  import opened DpopProof
  import opened ReplayMarks
  import opened TokenCache
  import opened AuthContext
  import opened AuthRuns
  import ReservedPath

  /** The decision rests on a proof: a hit, or a token bound to a key. */
  predicate ProofChecked(w: Setup, s: State, i: nat)
    requires Enabled(w, s, Decide(i))
  {
    var a := w.arrivals[i];
    && Cacheable(w, a)
    && (s.flights[i].entry.None? ==>
          var verdict := w.site.checkToken(TokenOf(a.req).value, a.moment.now, ClientCert(w.site, a.req));
          verdict.Some? && verdict.value.cnfJkt.Some?)
  }

  /** The step accepts a request on this proof. */
  predicate AcceptsAt(w: Setup, s: State, step: Step, proof: string) {
    && step.Decide? && Enabled(w, s, step) && ProofChecked(w, s, step.i)
    && w.arrivals[step.i].req.dpop == Some(proof)
    && Decided(w, s, step.i).1.Some?
  }

  predicate Accepts(w: Setup, steps: seq<Step>, states: seq<State>, k: nat, proof: string)
    requires |states| == |steps| + 1
  {
    k < |steps| && AcceptsAt(w, states[k], steps[k], proof)
  }

  function MomentOf(w: Setup, steps: seq<Step>, k: nat): Moment
    requires k < |steps| && steps[k].Decide? && steps[k].i < |w.arrivals|
  {
    w.arrivals[steps[k].i].moment
  }

  /** The proof's own claims, as opened. */
  predicate Claims(c: Crypto, proof: string, jti: string, iat: int) {
    var q := c.open_(proof);
    q.Some? && q.value.jti == Some(jti) && q.value.iat == Some(iat)
  }

  // ---- What one decision does to the remembered jtis ----

  lemma CheckedClaims(c: Crypto, p: Policy, proof: Option<string>, digest: Digest, jkt: string, method_: string,
                      url: string, now: int, jti: string)
    requires CheckProof(c, p, proof, digest, jkt, method_, url, now) == Fresh(jti)
    ensures proof.Some? && c.open_(proof.value).Some? && c.open_(proof.value).value.iat.Some?
    ensures Claims(c, proof.value, jti, c.open_(proof.value).value.iat.value)
    ensures Recent(p, now, c.open_(proof.value).value.iat.value)
  {
  }

  predicate Effect(p: Policy, seen: Seen, after: Seen, m: Moment, jti: Option<string>, accepted: bool) {
    if jti.None? then after == seen else (after, accepted) == Admit(p, seen, jti.value, m)
  }

  /** A decision marks at most one jti, and accepts on a proof only if that mark admits it. */
  lemma DecisionEffect(w: Setup, s: State, i: nat) returns (jti: Option<string>)
    requires Enabled(w, s, Decide(i))
    ensures var (after, r) := Decided(w, s, i); Effect(w.site.policy, s.seen, after, w.arrivals[i].moment, jti, r.Some?)
    ensures ProofChecked(w, s, i) && Decided(w, s, i).1.Some? ==>
              && jti.Some? && w.arrivals[i].req.dpop.Some?
              && exists iat :: Claims(w.site.crypto, w.arrivals[i].req.dpop.value, jti.value, iat)
                               && Recent(w.site.policy, w.arrivals[i].moment.now, iat)
  {
    var a, site := w.arrivals[i], w.site;
    if !Cacheable(w, a) { return None; }
    var verdict := site.checkToken(TokenOf(a.req).value, a.moment.now, ClientCert(site, a.req));
    if s.flights[i].entry.None? && (verdict.None? || verdict.value.cnfJkt.None?) { return None; }
    var jkt := if s.flights[i].entry.Some? then s.flights[i].entry.value.cnfJkt else verdict.value.cnfJkt.value;
    var checked := ProofCheck(w, a, jkt);
    if checked.Refused? { return None; }
    CheckedClaims(site.crypto, site.policy, a.req.dpop, Key(w, a), jkt, AsciiUpper(a.req.method_),
                  ReservedPath.ParseTarget(site.base, a.req.path).value.htu, a.moment.now, checked.jti);
    return Some(checked.jti);
  }

  /** No jti is forgotten earlier than it was going to be. */
  predicate Later(before: Seen, after: Seen) {
    forall j :: j in before ==> j in after && before[j] <= after[j]
  }

  lemma EffectLater(p: Policy, seen: Seen, after: Seen, m: Moment, jti: Option<string>, accepted: bool)
    requires Effect(p, seen, after, m, jti, accepted)
    ensures Later(seen, after)
  {
  }

  lemma StepLater(w: Setup, s: State, step: Step)
    requires Enabled(w, s, step)
    ensures Later(s.seen, Do(w, s, step).seen)
  {
    if step.Decide? {
      var jti := DecisionEffect(w, s, step.i);
      EffectLater(w.site.policy, s.seen, Decided(w, s, step.i).0, w.arrivals[step.i].moment, jti,
                  Decided(w, s, step.i).1.Some?);
    }
  }

  lemma {:induction false} ChainLater(chain: seq<Seen>, k: nat, l: nat)
    requires forall i :: 0 <= i < |chain| - 1 ==> Later(chain[i], chain[i + 1])
    requires k <= l < |chain|
    ensures Later(chain[k], chain[l])
    decreases l
  {
    if k < l {
      ChainLater(chain, k, l - 1);
      assert Later(chain[l - 1], chain[l - 1 + 1]);
    }
  }

  lemma RunStepLater(w: Setup, seen0: Seen, steps: seq<Step>, states: seq<State>, k: nat)
    requires ValidRun(w, seen0, steps, states) && k < |steps|
    ensures Later(states[k].seen, states[k + 1].seen)
  {
    StepLater(w, states[k], steps[k]);
  }

  lemma RunLater(w: Setup, seen0: Seen, steps: seq<Step>, states: seq<State>, k: nat, l: nat)
    requires ValidRun(w, seen0, steps, states) && k <= l < |states|
    ensures Later(states[k].seen, states[l].seen)
  {
    var chain := seq(|states|, i requires 0 <= i < |states| => states[i].seen);
    forall i | 0 <= i < |chain| - 1 ensures Later(chain[i], chain[i + 1]) {
      RunStepLater(w, seen0, steps, states, i);
    }
    ChainLater(chain, k, l);
  }

  lemma AcceptedMarks(w: Setup, seen0: Seen, steps: seq<Step>, states: seq<State>, k: nat, proof: string, jti: string,
                      iat: int)
    requires ValidRun(w, seen0, steps, states) && Accepts(w, steps, states, k, proof)
    requires Claims(w.site.crypto, proof, jti, iat)
    ensures Recent(w.site.policy, MomentOf(w, steps, k).now, iat)
    ensures (states[k + 1].seen, true) == Admit(w.site.policy, states[k].seen, jti, MomentOf(w, steps, k))
  {
    var j := DecisionEffect(w, states[k], steps[k].i);
  }

  // ---- Main results ----

  /** With a fail-closed policy two acceptances of one jti are at least the window apart. */
  lemma AcceptancesAreApart(w: Setup, seen0: Seen, steps: seq<Step>, states: seq<State>, k: nat, l: nat,
                            proof: string, other: string, jti: string, iat: int, iat': int)
    requires ValidRun(w, seen0, steps, states) && w.site.policy.failClosed && k < l
    requires Accepts(w, steps, states, k, proof) && Accepts(w, steps, states, l, other)
    requires Claims(w.site.crypto, proof, jti, iat) && Claims(w.site.crypto, other, jti, iat')
    ensures MomentOf(w, steps, l).markAt >= MomentOf(w, steps, k).markAt + 1000 * Window(w.site.policy)
  {
    AcceptedMarks(w, seen0, steps, states, k, proof, jti, iat);
    AcceptedMarks(w, seen0, steps, states, l, other, jti, iat');
    RunLater(w, seen0, steps, states, k + 1, l);
  }

  /** The clock is read in whole seconds, before the mark and at most `delay` milliseconds before it. */
  predicate Prompt(m: Moment, delay: nat) {
    1000 * m.now <= m.markAt < 1000 * (m.now + 1) + delay
  }

  predicate AllPrompt(w: Setup, delay: nat) {
    forall i :: 0 <= i < |w.arrivals| ==> Prompt(w.arrivals[i].moment, delay)
  }

  /** A proof that is accepted a second time was first accepted early. */
  lemma SecondMeansEarly(w: Setup, seen0: Seen, steps: seq<Step>, states: seq<State>, k: nat, l: nat, proof: string,
                         jti: string, iat: int, delay: nat)
    requires ValidRun(w, seen0, steps, states) && w.site.policy.failClosed && AllPrompt(w, delay)
    requires Claims(w.site.crypto, proof, jti, iat) && k < l
    requires Accepts(w, steps, states, k, proof) && Accepts(w, steps, states, l, proof)
    ensures MomentOf(w, steps, k).markAt < 1000 * (iat + 1) + delay
  {
    AcceptancesAreApart(w, seen0, steps, states, k, l, proof, proof, jti, iat, iat);
    AcceptedMarks(w, seen0, steps, states, l, proof, jti, iat);
    assert Prompt(MomentOf(w, steps, l), delay);
  }

  /** A proof accepted late enough after its `iat` is accepted once in the whole run.  Without a
      delay, "late enough" is a clock reading strictly after `iat`. */
  lemma AcceptedOnce(w: Setup, seen0: Seen, steps: seq<Step>, states: seq<State>, k: nat, proof: string, jti: string,
                     iat: int, delay: nat)
    requires ValidRun(w, seen0, steps, states) && w.site.policy.failClosed && AllPrompt(w, delay)
    requires Claims(w.site.crypto, proof, jti, iat) && Accepts(w, steps, states, k, proof)
    requires MomentOf(w, steps, k).markAt >= 1000 * (iat + 1) + delay
    ensures forall l :: k < l < |steps| ==> !Accepts(w, steps, states, l, proof)
  {
    forall l | k < l < |steps| ensures !Accepts(w, steps, states, l, proof) {
      if Accepts(w, steps, states, l, proof) {
        SecondMeansEarly(w, seen0, steps, states, k, l, proof, jti, iat, delay);
      }
    }
  }

  /** However early it was first accepted, a proof is accepted at most three times. */
  lemma AcceptedAtMostThrice(w: Setup, seen0: Seen, steps: seq<Step>, states: seq<State>, k0: nat, k1: nat, k2: nat,
                             k3: nat,
                             proof: string, jti: string, iat: int, delay: nat)
    requires ValidRun(w, seen0, steps, states) && w.site.policy.failClosed && AllPrompt(w, delay)
    requires delay <= 1000 * (Window(w.site.policy) - 1)
    requires Claims(w.site.crypto, proof, jti, iat) && k0 < k1 < k2 < k3
    requires Accepts(w, steps, states, k0, proof) && Accepts(w, steps, states, k1, proof)
    requires Accepts(w, steps, states, k2, proof)
    ensures !Accepts(w, steps, states, k3, proof)
  {
    if Accepts(w, steps, states, k3, proof) {
      assert Prompt(MomentOf(w, steps, k0), delay) && Prompt(MomentOf(w, steps, k3), delay);
      AcceptedMarks(w, seen0, steps, states, k0, proof, jti, iat);
      AcceptedMarks(w, seen0, steps, states, k3, proof, jti, iat);
      AcceptancesAreApart(w, seen0, steps, states, k0, k1, proof, proof, jti, iat, iat);
      AcceptancesAreApart(w, seen0, steps, states, k1, k2, proof, proof, jti, iat, iat);
      AcceptancesAreApart(w, seen0, steps, states, k2, k3, proof, proof, jti, iat, iat);
    }
  }

  // ---- The condition is exact ----

  /** The verdict on the request's token at an instant. */
  function Verdict(site: Site, req: Request, now: int): Option<VerifiedToken>
    requires TokenOf(req).Some?
  {
    site.checkToken(TokenOf(req).value, now, ClientCert(site, req))
  }

  /** The proof check of a request at an instant. */
  function CheckedAt(site: Site, req: Request, jkt: string, now: int): Checked
    requires TokenOf(req).Some? && ReservedPath.ParseTarget(site.base, req.path).Ok?
  {
    CheckProof(site.crypto, site.policy, req.dpop, site.crypto.sha256(TokenOf(req).value), jkt, AsciiUpper(req.method_),
               ReservedPath.ParseTarget(site.base, req.path).value.htu, now)
  }

  /** A proof-bound token and, at this instant, a good proof for it. */
  predicate Presents(site: Site, req: Request, vt: VerifiedToken, jti: string, iat: int, now: int) {
    && ReservedPath.ParseTarget(site.base, req.path).Ok? && TokenOf(req).Some? && vt.cnfJkt.Some?
    && Verdict(site, req, now) == Some(vt)
    && CheckedAt(site, req, vt.cnfJkt.value, now) == Fresh(jti)
    && req.dpop.Some? && Claims(site.crypto, req.dpop.value, jti, iat)
  }

  /** Only the recency of a good proof depends on the time. */
  lemma OnlyRecencyChanges(site: Site, req: Request, vt: VerifiedToken, jti: string, iat: int, first: int, second: int)
    requires Presents(site, req, vt, jti, iat, first)
    ensures CheckedAt(site, req, vt.cnfJkt.value, second)
            == if Recent(site.policy, second, iat) then Fresh(jti) else Refused(NotRecent)
  {
  }

  lemma PresentedAnswer(site: Site, req: Request, vt: VerifiedToken, jti: string, iat: int, first: int, m: Moment,
                        seen: Seen)
    requires Presents(site, req, vt, jti, iat, first) && Verdict(site, req, m.now) == Some(vt)
    ensures Uncached(site, req, m, seen)
            == if !Recent(site.policy, m.now, iat) then (seen, None)
               else var (after, ok) := Admit(site.policy, seen, jti, m); (after, if ok then Some(vt) else None)
  {
    OnlyRecencyChanges(site, req, vt, jti, iat, first, m.now);
  }

  /** The second presentation is accepted exactly when it is recent and the window has passed. */
  lemma SecondPresentation(site: Site, req: Request, vt: VerifiedToken, jti: string, iat: int, seen: Seen,
                           first: Moment, second: Moment)
    requires Presents(site, req, vt, jti, iat, first.now) && site.policy.failClosed && second.backend.Up?
    requires Uncached(site, req, first, seen).1.Some? && Verdict(site, req, second.now) == Some(vt)
    ensures Uncached(site, req, second, Uncached(site, req, first, seen).0).1.Some?
            <==> Recent(site.policy, second.now, iat) && second.markAt >= first.markAt + Ttl(site.policy)
  {
    PresentedAnswer(site, req, vt, jti, iat, first.now, first, seen);
    PresentedAnswer(site, req, vt, jti, iat, first.now, second, Uncached(site, req, first, seen).0);
  }

  /** Some later presentation, while the token still verifies, is accepted. */
  ghost predicate CanBeAcceptedAgain(site: Site, req: Request, vt: VerifiedToken, seen: Seen, delay: nat) {
    TokenOf(req).Some? &&
    exists second :: Prompt(second, delay) && second.backend.Up? && Verdict(site, req, second.now) == Some(vt)
                     && Uncached(site, req, second, seen).1.Some?
  }

  lemma EarlyMeansAgain(site: Site, req: Request, vt: VerifiedToken, jti: string, iat: int, seen: Seen, first: Moment,
                        delay: nat)
    requires Presents(site, req, vt, jti, iat, first.now) && site.policy.failClosed && InI64(Window(site.policy))
    requires Uncached(site, req, first, seen).1.Some? && Verdict(site, req, iat + Window(site.policy)) == Some(vt)
    requires first.markAt < 1000 * (iat + 1) + delay
    ensures CanBeAcceptedAgain(site, req, vt, Uncached(site, req, first, seen).0, delay)
  {
    var now := iat + Window(site.policy);
    var second := Moment(now, 1000 * (now + 1) + delay - 1, now, Up);
    SecondPresentation(site, req, vt, jti, iat, seen, first, second);
    assert Prompt(second, delay) && Verdict(site, req, second.now) == Some(vt);
  }

  lemma AgainMeansEarly(site: Site, req: Request, vt: VerifiedToken, jti: string, iat: int, seen: Seen, first: Moment,
                        delay: nat)
    requires Presents(site, req, vt, jti, iat, first.now) && site.policy.failClosed
    requires Uncached(site, req, first, seen).1.Some?
    requires CanBeAcceptedAgain(site, req, vt, Uncached(site, req, first, seen).0, delay)
    ensures first.markAt < 1000 * (iat + 1) + delay
  {
    var after := Uncached(site, req, first, seen).0;
    var second :| Prompt(second, delay) && second.backend.Up? && Verdict(site, req, second.now) == Some(vt)
                  && Uncached(site, req, second, after).1.Some?;
    SecondPresentation(site, req, vt, jti, iat, seen, first, second);
  }

  /** A proof can be accepted again exactly when its first mark came early, given that the token
      still verifies at the end of the proof's window. */
  lemma AgainIffEarly(site: Site, req: Request, vt: VerifiedToken, jti: string, iat: int, seen: Seen, first: Moment,
                      delay: nat)
    requires Presents(site, req, vt, jti, iat, first.now) && site.policy.failClosed && InI64(Window(site.policy))
    requires Uncached(site, req, first, seen).1.Some? && Verdict(site, req, iat + Window(site.policy)) == Some(vt)
    ensures CanBeAcceptedAgain(site, req, vt, Uncached(site, req, first, seen).0, delay)
            <==> first.markAt < 1000 * (iat + 1) + delay
  {
    if first.markAt < 1000 * (iat + 1) + delay { EarlyMeansAgain(site, req, vt, jti, iat, seen, first, delay); }
    if CanBeAcceptedAgain(site, req, vt, Uncached(site, req, first, seen).0, delay) {
      AgainMeansEarly(site, req, vt, jti, iat, seen, first, delay);
    }
  }

  // ---- Three acceptances do happen ----

  /** Presentations at the start, the middle and the end of the proof's window. */
  function ThreeMoments(p: Policy, iat: int, n: nat): Moment {
    var now := iat - Window(p) + n * Window(p);
    Moment(now, 1000 * now, now, Up)
  }

  function ThreeSetup(site: Site, req: Request, iat: int): Setup {
    var arrivals := seq(3, n requires n >= 0 => Arrival(req, ThreeMoments(site.policy, iat, n)));
    Setup(site, 1, 1, iat - Window(site.policy), arrivals)
  }

  /** Waiting for a request's time, looking it up and deciding it at once, while nothing is cached. */
  lemma MissRun(w: Setup, seen0: Seen, steps: seq<Step>, states: seq<State>, n: nat)
    returns (steps': seq<Step>, states': seq<State>)
    requires ValidRun(w, seen0, steps, states) && n < |w.arrivals|
    requires n !in states[|steps|].flights && states[|steps|].table == Table(map[], 0)
    requires states[|steps|].now <= w.arrivals[n].moment.now
    requires w.arrivals[n].moment.markAt == 1000 * w.arrivals[n].moment.now
    ensures ValidRun(w, seen0, steps', states') && |steps'| == |steps| + 3 && steps <= steps' && states <= states'
    ensures steps'[|steps| + 2] == Decide(n) && Enabled(w, states'[|steps| + 2], Decide(n))
    ensures states'[|steps| + 2].flights[n].entry == None
    ensures Decided(w, states'[|steps| + 2], n)
            == Uncached(w.site, w.arrivals[n].req, w.arrivals[n].moment, states[|steps|].seen)
    ensures var s, s' := states[|steps|], states'[|steps'|];
            && s'.table == Table(map[], 0) && s'.now == w.arrivals[n].moment.now
            && s'.flights.Keys == s.flights.Keys + {n} && s'.seen == Decided(w, states'[|steps| + 2], n).0
  {
    steps', states' := Extend(w, seen0, steps, states, Tick(w.arrivals[n].moment.now - states[|steps|].now));
    steps', states' := Extend(w, seen0, steps', states', Look(n));
    steps', states' := Extend(w, seen0, steps', states', Decide(n));
  }

  lemma AcceptsNow(w: Setup, steps: seq<Step>, states: seq<State>, k: nat, vt: VerifiedToken, jti: string, iat: int)
    requires |states| == |steps| + 1 && k < |steps| && steps[k].Decide? && Enabled(w, states[k], steps[k])
    requires states[k].flights[steps[k].i].entry == None && Decided(w, states[k], steps[k].i).1.Some?
    requires var a := w.arrivals[steps[k].i]; Presents(w.site, a.req, vt, jti, iat, a.moment.now)
    ensures Accepts(w, steps, states, k, w.arrivals[steps[k].i].req.dpop.value)
  {
  }

  ghost predicate PresentsThrice(site: Site, req: Request, vt: VerifiedToken, jti: string, iat: int) {
    && InI64(Window(site.policy))
    && forall n :: 0 <= n < 3 ==> Presents(site, req, vt, jti, iat, ThreeMoments(site.policy, iat, n).now)
  }

  /** After `n` presentations nothing is cached, it is not yet time for the next, and by then the
      mark has expired. */
  predicate Waiting(w: Setup, s: State, jti: string, n: nat) {
    && s.table == Table(map[], 0) && (forall m :: m in s.flights ==> m < n)
    && (n < |w.arrivals| ==>
          s.now <= w.arrivals[n].moment.now && !Remembers(s.seen, jti, w.arrivals[n].moment.markAt))
  }

  function Acceptor(w: Setup, proof: string): (State, Step) -> bool { (s, step) => AcceptsAt(w, s, step, proof) }

  /** The steps at places 2, 5, 8, ... satisfy `ok`. */
  predicate EveryThird(ok: (State, Step) -> bool, steps: seq<Step>, states: seq<State>, n: nat) {
    |steps| >= 3 * n && |states| >= 3 * n && forall m :: 0 <= m < n ==> ok(states[3 * m + 2], steps[3 * m + 2])
  }

  lemma OneMoreThird(ok: (State, Step) -> bool, steps: seq<Step>, states: seq<State>, steps': seq<Step>,
                     states': seq<State>, n: nat)
    requires steps <= steps' && states <= states' && EveryThird(ok, steps, states, n)
    requires |steps'| >= 3 * n + 3 && |states'| >= 3 * n + 3 && ok(states'[3 * n + 2], steps'[3 * n + 2])
    ensures EveryThird(ok, steps', states', n + 1)
  {
    assert forall m :: 0 <= m < |steps| ==> steps'[m] == steps[m];
    assert forall m :: 0 <= m < |states| ==> states'[m] == states[m];
  }

  lemma NextMark(p: Policy, iat: int, seen: Seen, jti: string, n: nat)
    requires !Remembers(seen, jti, ThreeMoments(p, iat, n).markAt)
    ensures var (after, ok) := Admit(p, seen, jti, ThreeMoments(p, iat, n));
            ok && !Remembers(after, jti, ThreeMoments(p, iat, n + 1).markAt)
  {
  }

  lemma AcceptedMoment(site: Site, req: Request, vt: VerifiedToken, jti: string, iat: int, seen: Seen, n: nat)
    requires PresentsThrice(site, req, vt, jti, iat) && n < 3
    requires !Remembers(seen, jti, ThreeMoments(site.policy, iat, n).markAt)
    ensures var (after, r) := Uncached(site, req, ThreeMoments(site.policy, iat, n), seen);
            r == Some(vt) && !Remembers(after, jti, ThreeMoments(site.policy, iat, n + 1).markAt)
  {
    var m := ThreeMoments(site.policy, iat, n);
    assert Presents(site, req, vt, jti, iat, m.now);
    PresentedAnswer(site, req, vt, jti, iat, m.now, m, seen);
    NextMark(site.policy, iat, seen, jti, n);
  }

  lemma NextWaits(site: Site, req: Request, jti: string, iat: int, w: Setup, s: State, n: nat)
    requires w == ThreeSetup(site, req, iat) && n < 3 && s.table == Table(map[], 0)
    requires s.now == w.arrivals[n].moment.now && (forall m :: m in s.flights ==> m <= n)
    requires !Remembers(s.seen, jti, ThreeMoments(site.policy, iat, n + 1).markAt)
    ensures Waiting(w, s, jti, n + 1)
  {
  }

  lemma PresentOnce(site: Site, req: Request, vt: VerifiedToken, jti: string, iat: int, seen0: Seen, proof: string,
                    w: Setup, steps: seq<Step>, states: seq<State>, n: nat)
    returns (steps': seq<Step>, states': seq<State>)
    requires PresentsThrice(site, req, vt, jti, iat) && req.dpop == Some(proof)
    requires w == ThreeSetup(site, req, iat) && n < 3
    requires ValidRun(w, seen0, steps, states) && |steps| == 3 * n && Waiting(w, states[3 * n], jti, n)
    ensures ValidRun(w, seen0, steps', states') && |steps'| == 3 * n + 3 && steps <= steps' && states <= states'
    ensures Waiting(w, states'[3 * n + 3], jti, n + 1) && Acceptor(w, proof)(states'[3 * n + 2], steps'[3 * n + 2])
  {
    AcceptedMoment(site, req, vt, jti, iat, states[3 * n].seen, n);
    steps', states' := MissRun(w, seen0, steps, states, n);
    NextWaits(site, req, jti, iat, w, states'[3 * n + 3], n);
    assert Presents(site, req, vt, jti, iat, ThreeMoments(site.policy, iat, n).now);
    AcceptsNow(w, steps', states', 3 * n + 2, vt, jti, iat);
  }

  lemma StartWaits(site: Site, req: Request, iat: int, seen0: Seen, jti: string)
    requires jti !in seen0
    ensures var w := ThreeSetup(site, req, iat);
            ValidRun(w, seen0, [], [Start(w, seen0)]) && Waiting(w, Start(w, seen0), jti, 0)
  {
    assert ThreeSetup(site, req, iat).arrivals[0] == Arrival(req, ThreeMoments(site.policy, iat, 0));
  }

  lemma {:induction false} PresentAll(site: Site, req: Request, vt: VerifiedToken, jti: string, iat: int, seen0: Seen,
                                      proof: string, w: Setup, n: nat)
    returns (steps: seq<Step>, states: seq<State>)
    requires PresentsThrice(site, req, vt, jti, iat) && req.dpop == Some(proof)
    requires w == ThreeSetup(site, req, iat) && n <= 3
    requires jti !in seen0
    ensures ValidRun(w, seen0, steps, states) && |steps| == 3 * n && Waiting(w, states[3 * n], jti, n)
    ensures EveryThird(Acceptor(w, proof), steps, states, n)
  {
    if n == 0 {
      steps, states := [], [Start(w, seen0)];
      StartWaits(site, req, iat, seen0, jti);
    } else {
      var before, at := PresentAll(site, req, vt, jti, iat, seen0, proof, w, n - 1);
      steps, states := PresentOnce(site, req, vt, jti, iat, seen0, proof, w, before, at, n - 1);
      OneMoreThird(Acceptor(w, proof), before, at, steps, states, n - 1);
    }
  }

  /** A request presented at the three moments of its proof's window, each looked up, marked and
      decided in the second it comes, is accepted each time: the steps at places 2, 5 and 8 of the
      run accept on it. */
  lemma ThreeAcceptances(site: Site, req: Request, vt: VerifiedToken, jti: string, iat: int, seen0: Seen, proof: string)
    returns (w: Setup, steps: seq<Step>, states: seq<State>)
    requires PresentsThrice(site, req, vt, jti, iat) && jti !in seen0 && req.dpop == Some(proof)
    ensures ValidRun(w, seen0, steps, states) && w.site == site && AllPrompt(w, 0) && |steps| == 9
    ensures EveryThird(Acceptor(w, proof), steps, states, 3)
  {
    w := ThreeSetup(site, req, iat);
    steps, states := PresentAll(site, req, vt, jti, iat, seen0, proof, w, 3);
  }
}
