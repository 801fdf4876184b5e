/**
 The verified-access-token cache (src/auth_cache.rs).

 A hit skips only the token's own verification: the proof is checked in full and its jti marked
 in the shared store.  `verified` is the history of successful verifications that were offered
 for caching; every entry traces back to one of them.
 */
module TokenCache {
  import opened Text
  import opened Machine
  import opened Recency
  import opened DpopProof
  import opened ReplayMarks

  datatype CertBinding = Thumbprint(text: string) | Malformed

  datatype VerifiedToken = VerifiedToken(
    webId: Option<string>, issuer: Option<string>, clientId: Option<string>, scopes: seq<string>,
    cnfJkt: Option<string>, cnfX5t: Option<CertBinding>, expiry: Option<int>)

  datatype CacheEntry = CacheEntry(token: VerifiedToken, cnfJkt: string, exp: int, insertedAt: int)

  type Entries = Table<Digest, CacheEntry>

  /** A token that verified at `at` with `result`, and was cached at `insertedAt`. */
  datatype Verification = Verification(token: string, cert: Option<string>, at: int, result: VerifiedToken,
                                       insertedAt: int)

  datatype Decision = Verified(token: VerifiedToken) | Miss | Reject(error: ProofError)

  function Min(a: int, b: int): int { if a <= b then a else b }

  function Deadline(e: CacheEntry, maxEntryTtl: int): int { Min(SaturatingAdd(e.insertedAt, maxEntryTtl), e.exp) }

  predicate Live(e: CacheEntry, maxEntryTtl: int, now: int) { now < Deadline(e, maxEntryTtl) }

  /** A live entry is bumped and returned; a stale one is dropped. */
  function Found(t: Entries, maxEntryTtl: int, key: Digest, now: int): (Entries, Option<CacheEntry>) {
    if key !in t.slots then (t, None)
    else if !Live(t.slots[key].value, maxEntryTtl, now) then (Remove(t, key), None)
    else (Bump(t, key), Some(t.slots[key].value))
  }

  /** What a lookup means to its caller: exactly the live entry of the key, which becomes the most
      recent; every other entry is left alone; and an entry it drops is dead at every later reading. */
  lemma FoundMeaning(t: Entries, maxEntryTtl: int, key: Digest, now: int)
    requires forall k :: k in t.slots ==> t.slots[k].tick <= t.clock
    ensures var (t', entry) := Found(t, maxEntryTtl, key, now);
            && (entry.Some? <==> key in t.slots && Live(t.slots[key].value, maxEntryTtl, now))
            && (entry.Some? ==>
                  && key in t'.slots && entry == Some(t.slots[key].value) == Some(t'.slots[key].value)
                  && forall k :: k in t'.slots && k != key ==> t'.slots[k].tick < t'.slots[key].tick)
            && (forall k :: k != key ==>
                (k in t'.slots <==> k in t.slots) && (k in t.slots ==> t'.slots[k] == t.slots[k]))
            && (key in t.slots && key !in t'.slots ==>
                  forall later :: later >= now ==> !Live(t.slots[key].value, maxEntryTtl, later))
            && (entry.None? ==> key !in t'.slots)
  {
  }

  predicate TracesTo(c: Crypto, e: CacheEntry, key: Digest, v: Verification) {
    && c.sha256(v.token) == key && e.token == v.result && e.insertedAt == v.insertedAt
    && v.result.cnfJkt == Some(e.cnfJkt) && v.result.expiry == Some(e.exp)
  }

  predicate HasOrigin(c: Crypto, verified: seq<Verification>, key: Digest, e: CacheEntry) {
    exists i :: 0 <= i < |verified| && TracesTo(c, e, key, verified[i])
  }

  /** Every entry is a logged verification. */
  predicate Traced(c: Crypto, t: Entries, verified: seq<Verification>) {
    forall key :: key in t.slots ==> HasOrigin(c, verified, key, t.slots[key].value)
  }

  function OpsOfFind(t: Entries, maxEntryTtl: int, key: Digest, now: int): seq<CacheOp<Digest>> {
    if Found(t, maxEntryTtl, key, now).1.Some? then [Hit(key)] else if key in t.slots then [Removed(key)] else []
  }

  ghost predicate Keeps(c: Crypto, t: Entries, capacity: nat, history: seq<CacheOp<Digest>>,
                        verified: seq<Verification>) {
    Follows(t, capacity, history) && Traced(c, t, verified)
  }

  lemma FoundKeeps(c: Crypto, t: Entries, capacity: nat, history: seq<CacheOp<Digest>>, verified: seq<Verification>,
                   maxEntryTtl: int, key: Digest, now: int)
    requires Keeps(c, t, capacity, history, verified)
    ensures Keeps(c, Found(t, maxEntryTtl, key, now).0, capacity, history + OpsOfFind(t, maxEntryTtl, key, now),
                  verified)
  {
    if Found(t, maxEntryTtl, key, now).1.Some? {
      HitFollows(t, capacity, history, key);
    } else if key in t.slots {
      RemovedFollows(t, capacity, history, key);
    } else {
      assert history + [] == history;
    }
  }

  lemma PutTraced(c: Crypto, t: Entries, verified: seq<Verification>, capacity: nat, key: Digest, e: CacheEntry,
                  v: Verification, tick: nat)
    requires Traced(c, t, verified) && TracesTo(c, e, key, v)
    ensures Traced(c, PutAt(t, capacity, key, e, tick), verified + [v])
  {
    var more, t' := verified + [v], PutAt(t, capacity, key, e, tick);
    assert more[|verified|] == v;
    forall k | k in t'.slots ensures HasOrigin(c, more, k, t'.slots[k].value) {
      if k != key {
        var i :| 0 <= i < |verified| && TracesTo(c, t.slots[k].value, k, verified[i]);
        assert more[i] == verified[i];
      }
    }
  }

  /** The lookup as the code performs it, under the lock. */
  method Lookup(t: Entries, maxEntryTtl: int, key: Digest, now: int) returns (t': Entries, entry: Option<CacheEntry>)
    ensures (t', entry) == Found(t, maxEntryTtl, key, now)
  {
    if key !in t.slots { return t, None; }
    var e := t.slots[key].value;
    if now >= Min(SaturatingAdd(e.insertedAt, maxEntryTtl), e.exp) {
      return t.(slots := t.slots - {key}), None;
    }
    var tick := t.clock + 1;
    return Table(t.slots[key := t.slots[key].(tick := tick)], tick), Some(e);
  }

  class Cache {
    const crypto: Crypto
    const policy: Policy
    const capacity: nat
    const maxEntryTtl: int
    var table: Entries
    ghost var history: seq<CacheOp<Digest>>
    ghost var verified: seq<Verification>

    ghost predicate Valid()
      reads this
    {
      && capacity >= 1 && maxEntryTtl >= 1
      && Keeps(crypto, table, capacity, history, verified)
    }

    constructor (capacity: nat, crypto: Crypto, policy: Policy, maxEntryTtl: int)
      ensures Valid() && table == Table(map[], 0) && history == [] && verified == []
      ensures this.crypto == crypto && this.policy == policy
      ensures this.capacity == (if capacity < 1 then 1 else capacity)
      ensures this.maxEntryTtl == (if maxEntryTtl < 1 then 1 else maxEntryTtl)
    {
      this.capacity := if capacity < 1 then 1 else capacity;
      this.maxEntryTtl := if maxEntryTtl < 1 then 1 else maxEntryTtl;
      this.crypto, this.policy := crypto, policy;
      table, history, verified := Table(map[], 0), [], [];
    }

    /** Look the token up: a live entry, or nothing. */
    method Find(key: Digest, now: int) returns (entry: Option<CacheEntry>)
      requires Valid()
      modifies `table, `history
      ensures Valid()
      ensures (table, entry) == Found(old(table), maxEntryTtl, key, now)
      ensures history == old(history) + OpsOfFind(old(table), maxEntryTtl, key, now)
    {
      FoundKeeps(crypto, table, capacity, history, verified, maxEntryTtl, key, now);
      history := history + OpsOfFind(table, maxEntryTtl, key, now);
      table, entry := Lookup(table, maxEntryTtl, key, now);
    }

    /** The full check of a fresh proof, the mark last. */
    method VerifyFreshProof(proof: Option<string>, digest: Digest, jkt: string, method_: string, url: string,
                            m: Moment, replay: ReplayStore)
      returns (error: Option<ProofError>)
      modifies replay
      ensures match CheckProof(crypto, policy, proof, digest, jkt, method_, url, m.now)
              case Refused(e) => error == Some(e) && replay.seen == old(replay.seen)
              case Fresh(jti) => (replay.seen, error.None?) == Admit(policy, old(replay.seen), jti, m)
    {
      match CheckProof(crypto, policy, proof, digest, jkt, method_, url, m.now)
      case Refused(e) => return Some(e);
      case Fresh(jti) =>
        var r := replay.Mark(jti, Ttl(policy), m.markAt, m.backend);
        match r
        case New => return None;
        case Replay => return Some(Replayed);
        case BackendError => return if policy.failClosed then Some(StoreUnavailable) else None;
    }

    method Authenticate(token: string, proof: Option<string>, method_: string, url: string, m: Moment,
                        replay: ReplayStore)
      returns (d: Decision)
      requires Valid()
      modifies `table, `history, replay
      ensures Valid()
      ensures table == Found(old(table), maxEntryTtl, crypto.sha256(token), m.now).0
      ensures match Found(old(table), maxEntryTtl, crypto.sha256(token), m.now).1
              case None => d == Miss && replay.seen == old(replay.seen)
              case Some(e) =>
                match CheckProof(crypto, policy, proof, crypto.sha256(token), e.cnfJkt, method_, url, m.now)
                case Refused(error) => d == Reject(error) && replay.seen == old(replay.seen)
                case Fresh(jti) =>
                  && replay.seen == Admit(policy, old(replay.seen), jti, m).0
                  && (if Admit(policy, old(replay.seen), jti, m).1 then d == Verified(e.token) else d.Reject?)
    {
      var key := crypto.sha256(token);
      var entry := Find(key, m.now);
      if entry.None? { return Miss; }
      var error := VerifyFreshProof(proof, key, entry.value.cnfJkt, method_, url, m, replay);
      return if error.None? then Verified(entry.value.token) else Reject(error.value);
    }

    /** Only a bound token with an expiry is cached. */
    method Insert(token: string, result: VerifiedToken, now: int, ghost cert: Option<string>, ghost at: int)
      requires Valid()
      modifies this
      ensures Valid()
      ensures result.cnfJkt.None? || result.expiry.None? ==> table == old(table) && verified == old(verified)
      ensures result.cnfJkt.Some? && result.expiry.Some? ==>
                && table == Put(old(table), capacity, crypto.sha256(token),
                                CacheEntry(result, result.cnfJkt.value, result.expiry.value, now))
                && verified == old(verified) + [Verification(token, cert, at, result, now)]
    {
      if result.cnfJkt.None? || result.expiry.None? { return; }
      var key := crypto.sha256(token);
      var entry := CacheEntry(result, result.cnfJkt.value, result.expiry.value, now);
      ghost var v := Verification(token, cert, at, result, now);
      InsertedFollows(table, capacity, history, key, entry);
      PutTraced(crypto, Draw(table), verified, capacity, key, entry, v, table.clock + 1);
      table := Recency.Insert(table, capacity, key, entry, history);
      history := history + [Inserted(key)];
      verified := verified + [v];
    }
  }
}
