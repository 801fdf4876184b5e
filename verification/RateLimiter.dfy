/**
 The per-source rate limiter (src/rate_limit.rs): token buckets in a sharded map with idle
 collection and a hard cap that evicts the coldest entry.

 `Step` is the effect of one request on the shards.  It allows any of the coldest entries to be
 evicted, as the iteration order of the hash map does.
 */
module RateLimiter {
  import opened TokenBucket
  import opened Sets

  datatype IpAddr = V4(octets: seq<bv8>) | V6(octets: seq<bv8>)

  predicate WellFormed(ip: IpAddr) { |ip.octets| == (if ip.V4? then 4 else 16) }

  // --- Exempt sources ---------------------------------------------------------------------------

  predicate IsInternalV4(o: seq<bv8>)
    requires |o| == 4
  {
    || o[0] == 127
    || o[0] == 10 || (o[0] == 172 && 16 <= o[1] < 32) || (o[0] == 192 && o[1] == 168)
    || (o[0] == 169 && o[1] == 254)
  }

  predicate IsLoopback(ip: IpAddr)
    requires WellFormed(ip)
  {
    if ip.V4? then ip.octets[0] == 127 else ip.octets == Zeros(15) + [1]
  }

  function Zeros(n: nat): seq<bv8> { seq(n, _ => 0) }

  /** `to_ipv4`: the IPv4-mapped and the IPv4-compatible addresses. */
  predicate EmbedsV4(o: seq<bv8>)
    requires |o| == 16
  {
    o[..12] == Zeros(12) || o[..12] == Zeros(10) + [0xff, 0xff]
  }

  predicate IsInternal(ip: IpAddr)
    requires WellFormed(ip)
  {
    if ip.V4? then IsInternalV4(ip.octets)
    else if IsLoopback(ip) then true
    else if EmbedsV4(ip.octets) then IsInternalV4(ip.octets[12..])
    else
      || 0xfc <= ip.octets[0] <= 0xfd
      || (ip.octets[0] == 0xfe && 0x80 <= ip.octets[1] < 0xc0)
  }

  // --- Shards -----------------------------------------------------------------------------------

  const NUM_SHARDS: nat := 64
  const IDLE_TTL: real := 600.0
  const GC_THRESHOLD: nat := 1024
  const MAX_BUCKETS_PER_SHARD: nat := 8192

  const FNV_BASIS: bv64 := 0xcbf2_9ce4_8422_2325
  const FNV_PRIME: bv64 := 0x0000_0100_0000_01b3

  function Mix(hash: bv64, octet: bv8): bv64 { (hash ^ (octet as bv64)) * FNV_PRIME }

  function Fold(mix: (bv64, bv8) -> bv64, basis: bv64, octets: seq<bv8>): bv64 {
    if octets == [] then basis else mix(Fold(mix, basis, octets[..|octets| - 1]), octets[|octets| - 1])
  }

  lemma MaskBelow(h: bv64)
    ensures (h & 63) as int < 64
  {
  }

  function ShardOf(ip: IpAddr): (i: nat)
    ensures i < NUM_SHARDS
  {
    MaskBelow(Fold(Mix, FNV_BASIS, ip.octets));
    (Fold(Mix, FNV_BASIS, ip.octets) & 63) as int
  }

  /** The hash loop, for any mixing step. */
  method HashLoop(mix: (bv64, bv8) -> bv64, basis: bv64, octets: seq<bv8>) returns (hash: bv64)
    ensures hash == Fold(mix, basis, octets)
  {
    hash := basis;
    for k := 0 to |octets|
      invariant hash == Fold(mix, basis, octets[..k])
    {
      assert octets[..k + 1][..k] == octets[..k];
      hash := mix(hash, octets[k]);
    }
    assert octets[..|octets|] == octets;
  }

  method ShardFor(ip: IpAddr) returns (i: nat)
    ensures i == ShardOf(ip)
  {
    var hash := HashLoop(Mix, FNV_BASIS, ip.octets);
    MaskBelow(hash);
    i := (hash & 63) as int;
  }

  // --- One request --------------------------------------------------------------------------------

  type Shard = map<IpAddr, Bucket>

  datatype Config = Config(rate: real, capacity: real, shardCap: nat, exemptLoopback: bool, exemptInternal: bool)

  predicate ValidConfig(c: Config) { Settings(c.rate, c.capacity) && c.shardCap >= 1 }

  predicate Exempt(c: Config, ip: IpAddr)
    requires WellFormed(ip)
  {
    (c.exemptInternal && IsInternal(ip)) || (c.exemptLoopback && IsLoopback(ip))
  }

  predicate Idle(b: Bucket, now: real) { Elapsed(now, b.lastSeen) >= IDLE_TTL }

  function Retain(m: Shard, now: real): (r: Shard)
    ensures r.Keys <= m.Keys && |r| <= |m|
    ensures forall k :: k in r ==> r[k] == m[k]
  {
    var r := map k | k in m && !Idle(m[k], now) :: m[k];
    KeysShrink(r, m);
    r
  }

  lemma KeysShrink(r: Shard, m: Shard)
    requires r.Keys <= m.Keys
    ensures |r| <= |m|
  {
    SubsetSize(r.Keys, m.Keys);
    assert |r.Keys| == |r| && |m.Keys| == |m|;
  }

  predicate Coldest(m: Shard, k: IpAddr) {
    k in m && forall x :: x in m ==> m[k].lastSeen <= m[x].lastSeen
  }

  /** A new source at the cap first drops idle buckets, then one coldest bucket if still full. */
  ghost predicate MakesRoom(m: Shard, cap: nat, ip: IpAddr, now: real, r: Shard) {
    if |m| >= cap && ip !in m then
      var kept := Retain(m, now);
      if |kept| >= cap then exists k :: Coldest(kept, k) && r == kept - {k} else r == kept
    else r == m
  }

  function Charge(m: Shard, rate: real, capacity: real, ip: IpAddr, now: real): (Shard, bool) {
    var (b, ok) := TryTake(if ip in m then m[ip] else Fresh(capacity, now), rate, capacity, now);
    (m[ip := b], ok)
  }

  function Sweep(m: Shard, now: real): Shard { if |m| > GC_THRESHOLD then Retain(m, now) else m }

  ghost predicate ShardStep(c: Config, m: Shard, ip: IpAddr, now: real, m': Shard, ok: bool) {
    exists r :: MakesRoom(m, c.shardCap, ip, now, r) &&
                m' == Sweep(Charge(r, c.rate, c.capacity, ip, now).0, now) &&
                ok == Charge(r, c.rate, c.capacity, ip, now).1
  }

  predicate ValidShards(c: Config, shards: seq<Shard>) {
    |shards| == NUM_SHARDS && forall i :: 0 <= i < NUM_SHARDS ==> |shards[i]| <= c.shardCap
  }

  ghost predicate Step(c: Config, s: seq<Shard>, ip: IpAddr, now: real, s': seq<Shard>, ok: bool)
    requires |s| == |s'| == NUM_SHARDS && WellFormed(ip)
  {
    if Exempt(c, ip) then s' == s && ok
    else
      && ShardStep(c, s[ShardOf(ip)], ip, now, s'[ShardOf(ip)], ok)
      && forall i :: 0 <= i < NUM_SHARDS && i != ShardOf(ip) ==> s'[i] == s[i]
  }

  /** No shard ever holds more than its cap. */
  lemma StepKeepsCap(c: Config, m: Shard, ip: IpAddr, now: real, m': Shard, ok: bool)
    requires ValidConfig(c) && |m| <= c.shardCap && ShardStep(c, m, ip, now, m', ok)
    ensures |m'| <= c.shardCap
  {
  }

  /** The scan for the smallest last-seen time. */
  method FindColdest(m: Shard) returns (coldest: IpAddr)
    requires |m| > 0
    ensures Coldest(m, coldest)
  {
    assert |m| == |m.Keys|;
    var keys := m.Keys;
    coldest :| coldest in keys;
    keys := keys - {coldest};
    while keys != {}
      invariant keys <= m.Keys && coldest in m
      invariant forall x :: x in m && x !in keys ==> m[coldest].lastSeen <= m[x].lastSeen
      decreases |keys|
    {
      var k :| k in keys;
      keys := keys - {k};
      if m[k].lastSeen < m[coldest].lastSeen { coldest := k; }
    }
  }

  method MakeRoom(m: Shard, cap: nat, ip: IpAddr, now: real) returns (r: Shard)
    requires cap >= 1
    ensures MakesRoom(m, cap, ip, now, r)
  {
    r := m;
    if |r| >= cap && ip !in r {
      r := Retain(r, now);
      if |r| >= cap {
        var coldest := FindColdest(r);
        r := r - {coldest};
      }
    }
  }

  const DEFAULT_RATE: real := 500.0
  const DEFAULT_BURST: real := 2000.0

  class Limiter {
    const config: Config
    var shards: seq<Shard>

    ghost predicate Valid()
      reads this
    {
      ValidConfig(config) && ValidShards(config, shards)
    }

    constructor (rate: real, capacity: real, exemptLoopback: bool, exemptInternal: bool)
      ensures Valid()
      ensures shards == seq(NUM_SHARDS, _ => map[])
      ensures config == Config(if rate > 0.0 then rate else DEFAULT_RATE,
                               if capacity >= 1.0 then capacity else DEFAULT_BURST,
                               MAX_BUCKETS_PER_SHARD, exemptLoopback, exemptInternal)
    {
      config := Config(if rate > 0.0 then rate else DEFAULT_RATE, if capacity >= 1.0 then capacity else DEFAULT_BURST,
                       MAX_BUCKETS_PER_SHARD, exemptLoopback, exemptInternal);
      shards := seq(NUM_SHARDS, _ => map[]);
    }

    method Allow(ip: IpAddr, now: real) returns (ok: bool)
      requires Valid() && WellFormed(ip)
      modifies this
      ensures Valid()
      ensures Step(config, old(shards), ip, now, shards, ok)
    {
      if Exempt(config, ip) { return true; }
      var idx := ShardFor(ip);
      var room := MakeRoom(shards[idx], config.shardCap, ip, now);
      var (m, allowed) := Charge(room, config.rate, config.capacity, ip, now);
      if |m| > GC_THRESHOLD { m := Retain(m, now); }
      assert ShardStep(config, shards[idx], ip, now, m, allowed);
      StepKeepsCap(config, shards[idx], ip, now, m, allowed);
      shards := shards[idx := m];
      return allowed;
    }
  }
}
