/**
 The per-request DPoP proof check (src/auth_cache.rs), sections 4.3 and 11.1 of RFC 9449.

 Cryptography and URL normalisation are parameters (`Crypto`).  The same check runs on a cache
 hit and, inside the verifier, on a miss.
 */
module DpopProof {
  import opened Text
  import opened Machine

  /** The claims of a proof whose signature verified, and the thumbprint of its key. */
  datatype Proof = Proof(
    htm: Option<string>, htu: Option<string>, jti: Option<string>, iat: Option<int>, ath: Option<string>,
    hasAth: bool, thumbprint: Option<string>)

  type Digest = seq<bv8>

  datatype Crypto = Crypto(
    open_: string -> Option<Proof>,      // signature, type and algorithm check with the embedded key
    normalize: string -> string,         // `htu` normalisation
    sha256: string -> Digest,
    base64url: Digest -> string)

  datatype Policy = Policy(clockTolerance: nat, allowMissingAth: bool, failClosed: bool)

  const MAX_AGE: nat := 300

  /** Seconds a proof is fresh around its `iat`, and a `jti` is remembered. */
  function Window(p: Policy): nat { MAX_AGE + p.clockTolerance }

  datatype ProofError =
    | NoProof | BadSignature | WrongMethod | WrongUrl | NoJti | NoIat | NotRecent
    | WrongAth | NoAth | BadKey | WrongBinding | Replayed | StoreUnavailable

  datatype Checked = Fresh(jti: string) | Refused(error: ProofError)

  /** `now.checked_sub(iat)` within the window; an overflow is refused. */
  predicate Recent(p: Policy, now: int, iat: int) {
    InI64(now - iat) && -(Window(p) as int) <= now - iat <= Window(p)
  }

  /** All checks before the replay mark, in the order of the code. */
  function CheckProof(c: Crypto, p: Policy, proof: Option<string>, digest: Digest, jkt: string, method_: string,
                      url: string, now: int): Checked {
    if proof.None? then Refused(NoProof)
    else if c.open_(proof.value).None? then Refused(BadSignature)
    else
      var q := c.open_(proof.value).value;
      var expected := c.base64url(digest);
      if !EqIgnoreAsciiCase(if q.htm.Some? then q.htm.value else "", method_) then Refused(WrongMethod)
      else if q.htu.None? || c.normalize(q.htu.value) != c.normalize(url) then Refused(WrongUrl)
      else if q.jti.None? || q.jti.value == "" then Refused(NoJti)
      else if q.iat.None? then Refused(NoIat)
      else if !Recent(p, now, q.iat.value) then Refused(NotRecent)
      else if !(p.allowMissingAth && !q.hasAth) && q.ath.None? then Refused(NoAth)
      else if q.ath.Some? && q.ath.value != expected then Refused(WrongAth)
      else if q.thumbprint.None? then Refused(BadKey)
      else if q.thumbprint.value != jkt then Refused(WrongBinding)
      else Fresh(q.jti.value)
  }

  /** What a proof must show for a request, as the standard words it. */
  predicate Proves(c: Crypto, p: Policy, q: Proof, digest: Digest, jkt: string, method_: string, url: string,
                   now: int) {
    && EqIgnoreAsciiCase(if q.htm.Some? then q.htm.value else "", method_)
    && (q.htu.Some? && c.normalize(q.htu.value) == c.normalize(url))
    && (q.jti.Some? && q.jti.value != "")
    && (q.iat.Some? && Recent(p, now, q.iat.value))
    && (q.ath == Some(c.base64url(digest)) || (p.allowMissingAth && !q.hasAth && q.ath.None?))
    && q.thumbprint == Some(jkt)
  }

  /** The order of the checks does not matter: a proof passes exactly when it shows everything. */
  lemma CheckIsConjunction(c: Crypto, p: Policy, proof: Option<string>, digest: Digest, jkt: string, method_: string,
                           url: string, now: int, jti: string)
    ensures CheckProof(c, p, proof, digest, jkt, method_, url, now) == Fresh(jti)
            <==> proof.Some? && c.open_(proof.value).Some? && c.open_(proof.value).value.jti == Some(jti)
                 && Proves(c, p, c.open_(proof.value).value, digest, jkt, method_, url, now)
  {
  }
}
