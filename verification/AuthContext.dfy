/**
 Authenticating a request with the token cache (src/auth.rs): the choice of hit or miss, the rule
 for what is cached, and the certificate-binding check on top.

 The verifier is external.  `checkToken` is its verdict on the access token of a `DPoP` header
 alone, `unbound` whether such a token may come without a proof binding, and `other` its answer
 to every other request.  For a proof-bound token it runs the same proof check as the cache and
 marks the jti last.
 */
module AuthContext {
  import opened Text
  import opened Machine
  import opened DpopProof
  import opened ReplayMarks
  import opened TokenCache
  import ReservedPath

  datatype Request = Request(
    authorization: Option<string>, dpop: Option<string>, method_: string, path: string, cert: Option<Digest>)

  datatype Site = Site(
    base: string, mtls: bool, crypto: Crypto, policy: Policy,
    checkToken: (string, int, Option<string>) -> Option<VerifiedToken>,
    unbound: (Request, int) -> bool,
    other: (Request, int) -> Option<VerifiedToken>,
    decode: string -> Option<Digest>)

  function AsciiUpper(s: string): string {
    seq(|s|, i requires 0 <= i < |s| => if 'a' <= s[i] <= 'z' then s[i] - 32 as char else s[i])
  }

  /** The token of a `DPoP <token>` header. */
  function DpopSchemeToken(header: string): Option<string> {
    var trimmed := Trim(header);
    IndexOfProps(trimmed, ' ');
    var sp := IndexOf(trimmed, ' ');
    if sp == |trimmed| || !EqIgnoreAsciiCase(trimmed[..sp], "dpop") then None
    else
      var token := Trim(trimmed[sp + 1..]);
      if token == "" then None else Some(token)
  }

  function TokenOf(req: Request): Option<string> {
    if req.authorization.None? then None else DpopSchemeToken(req.authorization.value)
  }

  /** The certificate shown to the verifier: only with certificate binding on. */
  function ClientCert(site: Site, req: Request): Option<string> {
    if site.mtls && req.cert.Some? then Some(site.crypto.base64url(req.cert.value)) else None
  }

  /** When, and beside which certificate, the token itself was checked. */
  datatype Basis = Basis(at: int, cert: Option<string>)

  function FreshBasis(site: Site, req: Request, m: Moment): Basis { Basis(m.now, ClientCert(site, req)) }

  /** The full decision on a request whose token verdict is the one given. */
  function Judge(site: Site, req: Request, token: string, htu: string, verdict: Option<VerifiedToken>, m: Moment,
                 seen: Seen): (Seen, Option<VerifiedToken>) {
    if verdict.None? then (seen, None)
    else if verdict.value.cnfJkt.None? then (seen, if site.unbound(req, m.now) then verdict else None)
    else
      match CheckProof(site.crypto, site.policy, req.dpop, site.crypto.sha256(token), verdict.value.cnfJkt.value,
                       AsciiUpper(req.method_), htu, m.now)
      case Refused(_) => (seen, None)
      case Fresh(jti) => (Admit(site.policy, seen, jti, m).0,
                          if Admit(site.policy, seen, jti, m).1 then verdict else None)
  }

  /** The full decision with the token's verdict taken at `b`, and the remembered jtis after it. */
  function Answer(site: Site, req: Request, m: Moment, seen: Seen, b: Basis): (Seen, Option<VerifiedToken>) {
    var target := ReservedPath.ParseTarget(site.base, req.path);
    if target.Err? then (seen, None)
    else if TokenOf(req).None? then (seen, site.other(req, m.now))
    else
      var token := TokenOf(req).value;
      Judge(site, req, token, target.value.htu, site.checkToken(token, b.at, b.cert), m, seen)
  }

  /** The decision without a cache. */
  function Uncached(site: Site, req: Request, m: Moment, seen: Seen): (Seen, Option<VerifiedToken>) {
    Answer(site, req, m, seen, FreshBasis(site, req, m))
  }

  // ---- What the verifier and the issuer promise ----

  ghost predicate Injective(hash: string -> Digest) {
    forall a, b :: hash(a) == hash(b) ==> a == b
  }

  /** With unchanged issuer keys a token that verified keeps its verdict until it expires, and had
      it already `back` seconds earlier. */
  ghost predicate KeysUnchanged(site: Site, back: nat) {
    forall token, at, cert, t ::
      var v := site.checkToken(token, at, cert);
      v.Some? && v.value.expiry.Some? && at - back <= t < v.value.expiry.value ==> site.checkToken(token, t, cert) == v
  }

  /** The presented certificate matters only to tokens that carry a certificate binding. */
  ghost predicate CertOnlyForBound(site: Site) {
    forall token, at, cert, other ::
      var v := site.checkToken(token, at, cert);
      v.Some? && v.value.cnfX5t.None? ==> site.checkToken(token, at, other) == v
  }

  // ---- What the log of verifications says ----

  predicate Honest(site: Site, v: Verification) {
    && site.checkToken(v.token, v.at, v.cert) == Some(v.result)
    && (if site.mtls then v.result.cnfX5t.None? else v.cert.None?)
  }

  predicate AllHonest(site: Site, verified: seq<Verification>) {
    forall i :: 0 <= i < |verified| ==> Honest(site, verified[i])
  }

  predicate LiveFor(v: Verification, token: string, maxEntryTtl: int, now: int) {
    && v.token == token && now < SaturatingAdd(v.insertedAt, maxEntryTtl)
    && v.result.expiry.Some? && now < v.result.expiry.value
  }

  /** The verdict was taken now, or by a logged verification of the same token that is still live. */
  predicate Allowed(site: Site, verified: seq<Verification>, maxEntryTtl: int, req: Request, m: Moment, b: Basis) {
    || b == FreshBasis(site, req, m)
    || (TokenOf(req).Some?
        && exists i :: 0 <= i < |verified| && LiveFor(verified[i], TokenOf(req).value, maxEntryTtl, m.now)
                                          && b == Basis(verified[i].at, verified[i].cert))
  }

  predicate BeforeAll(verified: seq<Verification>, now: int) {
    forall i :: 0 <= i < |verified| ==> verified[i].at <= now
  }

  /** A live entry is a logged verification of this very token. */
  lemma Origin(c: Crypto, t: Entries, verified: seq<Verification>, maxEntryTtl: int, token: string, now: int)
    returns (i: nat)
    requires Injective(c.sha256) && Traced(c, t, verified)
    requires Found(t, maxEntryTtl, c.sha256(token), now).1.Some?
    ensures i < |verified| && LiveFor(verified[i], token, maxEntryTtl, now)
    ensures TracesTo(c, Found(t, maxEntryTtl, c.sha256(token), now).1.value, c.sha256(token), verified[i])
  {
    var key := c.sha256(token);
    assert HasOrigin(c, verified, key, t.slots[key].value);
    i :| 0 <= i < |verified| && TracesTo(c, t.slots[key].value, key, verified[i]);
  }

  predicate Grows(before: seq<Verification>, after: seq<Verification>, m: Moment) {
    || after == before
    || (|after| == |before| + 1 && before == after[..|before|]
        && after[|before|].at == m.now && after[|before|].insertedAt == m.insertNow)
  }

  lemma Logged(site: Site, before: seq<Verification>, v: Verification, m: Moment)
    requires AllHonest(site, before) && Honest(site, v) && v.at == m.now && v.insertedAt == m.insertNow
    ensures AllHonest(site, before + [v]) && Grows(before, before + [v], m)
  {
  }

  lemma GrowsInOrder(before: seq<Verification>, after: seq<Verification>, m: Moment, now: int)
    requires Grows(before, after, m) && BeforeAll(before, m.now) && m.now <= now
    ensures BeforeAll(after, now)
  {
  }

  /** An older verdict that is allowed decides nothing differently. */
  lemma BasisIsIrrelevant(site: Site, verified: seq<Verification>, maxEntryTtl: int, req: Request, m: Moment,
                          seen: Seen, b: Basis, back: nat)
    requires KeysUnchanged(site, back) && CertOnlyForBound(site)
    requires AllHonest(site, verified) && BeforeAll(verified, m.now + back)
    requires Allowed(site, verified, maxEntryTtl, req, m, b)
    ensures Answer(site, req, m, seen, b) == Uncached(site, req, m, seen)
  {
    if b != FreshBasis(site, req, m) {
      var token := TokenOf(req).value;
      var i :| 0 <= i < |verified| && LiveFor(verified[i], token, maxEntryTtl, m.now)
          && b == Basis(verified[i].at, verified[i].cert);
      var v := verified[i];
      assert Honest(site, v);
      assert site.checkToken(token, m.now, v.cert) == site.checkToken(token, v.at, v.cert);
      assert site.checkToken(token, m.now, ClientCert(site, req)) == site.checkToken(token, m.now, v.cert);
    }
  }

  // ---- Certificate binding ----

  datatype Confirmation = Dpop(jkt: string) | CertBound(x5t: Digest) | MultipleBindings | Unbound

  function Select(jkt: Option<string>, x5t: Option<Digest>): Confirmation {
    match (x5t, jkt)
    case (Some(x), None) => CertBound(x)
    case (None, Some(j)) => Dpop(j)
    case (Some(_), Some(_)) => MultipleBindings
    case (None, None) => Unbound
  }

  predicate Dispatch(c: Confirmation, presented: Option<Digest>) {
    match c
    case Dpop(_) => true
    case CertBound(x) => presented == Some(x)
    case MultipleBindings => false
    case Unbound => true
  }

  function FinalizePop(site: Site, token: VerifiedToken, presented: Option<Digest>): Option<VerifiedToken> {
    if !site.mtls then Some(token)
    else
      match token.cnfX5t
      case None => if Dispatch(Select(token.cnfJkt, None), presented) then Some(token) else None
      case Some(Malformed) => None
      case Some(Thumbprint(t)) =>
        var x5t := site.decode(t);
        if x5t.None? then None
        else if Dispatch(Select(token.cnfJkt, x5t), presented) then Some(token) else None
  }

  /** The binding check only refuses, and refuses exactly the tokens that carry a certificate binding
      other than a lone, well-formed one for the presented certificate. */
  lemma FinalizeMeaning(site: Site, token: VerifiedToken, presented: Option<Digest>)
    ensures FinalizePop(site, token, presented) in {None, Some(token)}
    ensures FinalizePop(site, token, presented) == Some(token)
            <==> || !site.mtls || token.cnfX5t.None?
                 || (token.cnfJkt.None? && token.cnfX5t.value.Thumbprint? && presented.Some?
                     && site.decode(token.cnfX5t.value.text) == presented)
  {
  }

  function Finalized(site: Site, req: Request, r: Option<VerifiedToken>): Option<VerifiedToken> {
    if r.None? then None else FinalizePop(site, r.value, req.cert)
  }

  // ---- Runs ----

  datatype Arrival = Arrival(req: Request, moment: Moment)

  /** A server without a cache, request by request. */
  function UncachedRun(site: Site, run: seq<Arrival>, seen: Seen): (Seen, seq<Option<VerifiedToken>>) {
    if run == [] then (seen, [])
    else
      var (before, answers) := UncachedRun(site, run[..|run| - 1], seen);
      var last := run[|run| - 1];
      var (after, r) := Uncached(site, last.req, last.moment, before);
      (after, answers + [Finalized(site, last.req, r)])
  }

  lemma UncachedStep(site: Site, run: seq<Arrival>, i: nat, seen: Seen)
    requires i < |run|
    ensures var (before, answers) := UncachedRun(site, run[..i], seen);
            var (after, r) := Uncached(site, run[i].req, run[i].moment, before);
            UncachedRun(site, run[..i + 1], seen) == (after, answers + [Finalized(site, run[i].req, r)])
  {
    assert run[..i + 1][..i] == run[..i];
  }

  /** Clock readings never go back. */
  predicate ClockInOrder(run: seq<Arrival>) {
    && (forall i :: 0 <= i < |run| ==> run[i].moment.now <= run[i].moment.insertNow)
    && (forall i, j :: 0 <= i < j < |run| ==> run[i].moment.insertNow <= run[j].moment.now)
  }

  class Context {
    const site: Site
    const cache: Cache?
    const replay: ReplayStore

    ghost predicate Valid()
      reads if cache == null then {} else {cache}
    {
      cache != null ==>
        && cache.Valid() && cache.crypto == site.crypto && cache.policy == site.policy
        && AllHonest(site, cache.verified)
    }

    ghost function Log(): seq<Verification>
      reads if cache == null then {} else {cache}
    {
      if cache == null then [] else cache.verified
    }

    ghost function Lifetime(): int { if cache == null then 1 else cache.maxEntryTtl }

    constructor (site: Site, cache: Cache?, replay: ReplayStore)
      requires cache != null ==> cache.Valid() && cache.crypto == site.crypto && cache.policy == site.policy
      requires cache != null ==> cache.verified == []
      ensures Valid() && this.site == site && this.cache == cache && this.replay == replay && Log() == []
    {
      this.site, this.cache, this.replay := site, cache, replay;
    }

    /** The verifier's own decision. */
    method Verify(req: Request, htu: string, m: Moment) returns (r: Option<VerifiedToken>)
      modifies replay
      ensures (replay.seen, r) ==
                if TokenOf(req).None? then (old(replay.seen), site.other(req, m.now))
                else Judge(site, req, TokenOf(req).value, htu,
                           site.checkToken(TokenOf(req).value, m.now, ClientCert(site, req)), m, old(replay.seen))
    {
      if TokenOf(req).None? { return site.other(req, m.now); }
      var token := TokenOf(req).value;
      var verdict := site.checkToken(token, m.now, ClientCert(site, req));
      if verdict.None? { return None; }
      if verdict.value.cnfJkt.None? { return if site.unbound(req, m.now) then verdict else None; }
      match CheckProof(site.crypto, site.policy, req.dpop, site.crypto.sha256(token), verdict.value.cnfJkt.value,
                       AsciiUpper(req.method_), htu, m.now)
      case Refused(_) => return None;
      case Fresh(jti) =>
        var mark := replay.Mark(jti, Ttl(site.policy), m.markAt, m.backend);
        return if mark == New || (mark == BackendError && !site.policy.failClosed) then verdict else None;
    }

    /** A hit: the decision is the full one on a live verdict. */
    method FromCache(req: Request, token: string, htu: string, m: Moment) returns (d: Decision, ghost b: Basis)
      requires cache != null && Valid() && Injective(site.crypto.sha256) && TokenOf(req) == Some(token)
      modifies replay, cache
      ensures Valid() && Log() == old(Log())
      ensures d.Miss? ==> replay.seen == old(replay.seen)
      ensures !d.Miss? ==> Allowed(site, Log(), Lifetime(), req, m, b)
      ensures !d.Miss? ==> (replay.seen, if d.Verified? then Some(d.token) else None)
                           == Judge(site, req, token, htu, site.checkToken(token, b.at, b.cert), m, old(replay.seen))
    {
      ghost var t := cache.table;
      d := cache.Authenticate(token, req.dpop, AsciiUpper(req.method_), htu, m, replay);
      b := FreshBasis(site, req, m);
      if !d.Miss? {
        ghost var i := Origin(site.crypto, t, cache.verified, cache.maxEntryTtl, token, m.now);
        assert Honest(site, cache.verified[i]);
        b := Basis(cache.verified[i].at, cache.verified[i].cert);
      }
    }

    /** A success is cached unless certificate binding rules it out. */
    method Keep(req: Request, token: string, vt: VerifiedToken, m: Moment)
      requires cache != null && Valid() && site.checkToken(token, m.now, ClientCert(site, req)) == Some(vt)
      modifies cache
      ensures Valid() && Grows(old(Log()), Log(), m)
    {
      if site.mtls && vt.cnfX5t.Some? { return; }
      ghost var before := cache.verified;
      cache.Insert(token, vt, m.insertNow, ClientCert(site, req), m.now);
      if cache.verified != before {
        Logged(site, before, Verification(token, ClientCert(site, req), m.now, vt, m.insertNow), m);
      }
    }

    /** A miss: the verifier decides, and its success may be cached. */
    method OnMiss(req: Request, token: string, htu: string, m: Moment) returns (r: Option<VerifiedToken>)
      requires cache != null && Valid() && TokenOf(req) == Some(token)
      modifies replay, cache
      ensures Valid() && Grows(old(Log()), Log(), m)
      ensures (replay.seen, r) == Judge(site, req, token, htu, site.checkToken(token, m.now, ClientCert(site, req)),
                                        m, old(replay.seen))
    {
      r := Verify(req, htu, m);
      if r.Some? { Keep(req, token, r.value, m); }
    }

    /** Hit or miss: the decision is the full one, on a verdict that is fresh or still live. */
    method AuthenticateInner(req: Request, m: Moment) returns (r: Option<VerifiedToken>, ghost b: Basis)
      requires Valid() && Injective(site.crypto.sha256)
      modifies replay, if cache == null then {} else {cache}
      ensures Valid() && Grows(old(Log()), Log(), m)
      ensures (replay.seen, r) == Answer(site, req, m, old(replay.seen), b)
      ensures Allowed(site, old(Log()), Lifetime(), req, m, b)
    {
      b := FreshBasis(site, req, m);
      var target := ReservedPath.ParseTarget(site.base, req.path);
      if target.Err? { return None, b; }
      var token := TokenOf(req);
      if cache == null || token.None? {
        r := Verify(req, target.value.htu, m);
        return r, b;
      }
      var d;
      d, b := FromCache(req, token.value, target.value.htu, m);
      match d
      case Verified(t) => return Some(t), b;
      case Reject(_) => return None, b;
      case Miss =>
        b := FreshBasis(site, req, m);
        r := OnMiss(req, token.value, target.value.htu, m);
    }

    method Authenticate(req: Request, m: Moment) returns (r: Option<VerifiedToken>, ghost b: Basis)
      requires Valid() && Injective(site.crypto.sha256)
      modifies replay, if cache == null then {} else {cache}
      ensures Valid() && Grows(old(Log()), Log(), m)
      ensures replay.seen == Answer(site, req, m, old(replay.seen), b).0
      ensures r == Finalized(site, req, Answer(site, req, m, old(replay.seen), b).1)
      ensures Allowed(site, old(Log()), Lifetime(), req, m, b)
    {
      r, b := AuthenticateInner(req, m);
      if r.Some? { r := FinalizePop(site, r.value, req.cert); }
    }

    method ServeOne(req: Request, m: Moment) returns (r: Option<VerifiedToken>)
      requires Valid() && BeforeAll(Log(), m.now)
      requires Injective(site.crypto.sha256) && KeysUnchanged(site, 0) && CertOnlyForBound(site)
      modifies replay, if cache == null then {} else {cache}
      ensures Valid() && Grows(old(Log()), Log(), m)
      ensures replay.seen == Uncached(site, req, m, old(replay.seen)).0
      ensures r == Finalized(site, req, Uncached(site, req, m, old(replay.seen)).1)
    {
      ghost var log, seen := Log(), replay.seen;
      ghost var b;
      r, b := Authenticate(req, m);
      BasisIsIrrelevant(site, log, Lifetime(), req, m, seen, b, 0);
    }

    /** The cache is unobservable: a server with it answers every run of requests, and remembers
        jtis, exactly as one without it, with certificate binding on or off. */
    method ServeAll(run: seq<Arrival>) returns (answers: seq<Option<VerifiedToken>>)
      requires Valid() && Log() == [] && ClockInOrder(run)
      requires Injective(site.crypto.sha256) && KeysUnchanged(site, 0) && CertOnlyForBound(site)
      modifies replay, if cache == null then {} else {cache}
      ensures Valid()
      ensures (replay.seen, answers) == UncachedRun(site, run, old(replay.seen))
    {
      answers := [];
      for i := 0 to |run|
        invariant Valid()
        invariant (replay.seen, answers) == UncachedRun(site, run[..i], old(replay.seen))
        invariant i < |run| ==> BeforeAll(Log(), run[i].moment.now)
      {
        ghost var log, seen := Log(), replay.seen;
        var r := ServeOne(run[i].req, run[i].moment);
        UncachedStep(site, run, i, old(replay.seen));
        answers := answers + [r];
        if i + 1 < |run| {
          GrowsInOrder(log, Log(), run[i].moment, run[i + 1].moment.now);
        }
      }
      assert run[..|run|] == run;
    }
  }
}
