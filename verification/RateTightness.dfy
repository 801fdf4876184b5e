/**
 The condition of non-interference is tight (src/rate_limit.rs): as many other sources as the cap,
 between two requests of a source, can change what becomes of the second.
 */
module RateTightness {
  import opened TokenBucket
  import opened RateLimiter
  import opened RateRuns

  /** A shard of drained buckets, all at time zero. */
  function Zeros(sources: set<IpAddr>): Shard { map k | k in sources :: Bucket(0.0, 0.0, 0.0) }

  predicate OneToken(c: Config) { ValidConfig(c) && c.capacity == 1.0 }

  lemma ZerosKept(sources: set<IpAddr>)
    ensures Retain(Zeros(sources), 0.0) == Zeros(sources) && |Zeros(sources)| == |sources|
  {
    assert Zeros(sources).Keys == sources && |Zeros(sources).Keys| == |Zeros(sources)|;
    assert forall k :: k in sources ==> !Idle(Zeros(sources)[k], 0.0);
  }

  lemma ChargeZeros(c: Config, sources: set<IpAddr>, x: IpAddr)
    requires OneToken(c) && x !in sources
    ensures Charge(Zeros(sources), c.rate, c.capacity, x, 0.0) == (Zeros(sources + {x}), true)
  {
    FirstAdmitted(c.rate, 1.0, 0.0);
    assert Zeros(sources)[x := Bucket(0.0, 0.0, 0.0)] == Zeros(sources + {x});
  }

  /** A new source while there is room. */
  lemma JoinStep(c: Config, sources: set<IpAddr>, x: IpAddr)
    requires OneToken(c) && x !in sources && |sources| < c.shardCap
    ensures ShardStep(c, Zeros(sources), x, 0.0, Zeros(sources + {x}), true)
  {
    ZerosKept(sources);
    ZerosKept(sources + {x});
    ChargeZeros(c, sources, x);
    assert MakesRoom(Zeros(sources), c.shardCap, x, 0.0, Zeros(sources));
  }

  /** A new source at the cap: any of the others may have to go, since all were last seen together. */
  lemma EvictStep(c: Config, sources: set<IpAddr>, y: IpAddr, x: IpAddr)
    requires OneToken(c) && x !in sources && y in sources && |sources| >= c.shardCap
    ensures ShardStep(c, Zeros(sources), x, 0.0, Zeros(sources - {y} + {x}), true)
  {
    ZerosKept(sources);
    ZerosKept(sources - {y} + {x});
    ChargeZeros(c, sources - {y}, x);
    assert Zeros(sources) - {y} == Zeros(sources - {y});
    assert Coldest(Zeros(sources), y);
    assert MakesRoom(Zeros(sources), c.shardCap, x, 0.0, Zeros(sources - {y}));
  }

  // --- Requests of one shard, all at time zero ------------------------------------------------------

  ghost predicate ShardRun(c: Config, xs: seq<IpAddr>, shards: seq<Shard>) {
    && |shards| == |xs| + 1 && shards[0] == map[]
    && forall k :: 0 <= k < |xs| ==> ShardStep(c, shards[k], xs[k], 0.0, shards[k + 1], true)
  }

  lemma AppendRun(c: Config, xs: seq<IpAddr>, shards: seq<Shard>, x: IpAddr, m: Shard)
    requires ShardRun(c, xs, shards) && ShardStep(c, shards[|xs|], x, 0.0, m, true)
    ensures ShardRun(c, xs + [x], shards + [m])
  {
    var ys, ms := xs + [x], shards + [m];
    forall k | 0 <= k < |ys| ensures ShardStep(c, ms[k], ys[k], 0.0, ms[k + 1], true) {
      if k < |xs| { assert ms[k] == shards[k] && ys[k] == xs[k] && ms[k + 1] == shards[k + 1]; }
    }
  }

  lemma JoinRun(c: Config, xs: seq<IpAddr>, shards: seq<Shard>, sources: set<IpAddr>, x: IpAddr)
    requires OneToken(c) && ShardRun(c, xs, shards) && shards[|xs|] == Zeros(sources)
    requires x !in sources && |sources| < c.shardCap
    ensures ShardRun(c, xs + [x], shards + [Zeros(sources + {x})])
  {
    JoinStep(c, sources, x);
    AppendRun(c, xs, shards, x, Zeros(sources + {x}));
  }

  lemma EvictRun(c: Config, xs: seq<IpAddr>, shards: seq<Shard>, sources: set<IpAddr>, y: IpAddr, x: IpAddr)
    requires OneToken(c) && ShardRun(c, xs, shards) && shards[|xs|] == Zeros(sources)
    requires x !in sources && y in sources && |sources| >= c.shardCap
    ensures ShardRun(c, xs + [x], shards + [Zeros(sources - {y} + {x})])
  {
    EvictStep(c, sources, y, x);
    AppendRun(c, xs, shards, x, Zeros(sources - {y} + {x}));
  }

  predicate Sources(s: IpAddr, others: seq<IpAddr>) {
    s !in others && forall i, j :: 0 <= i < j < |others| ==> others[i] != others[j]
  }

  /** The source and the first `k` others. */
  function Held(s: IpAddr, others: seq<IpAddr>, k: nat): set<IpAddr>
    requires k <= |others|
  {
    if k == 0 then {s} else Held(s, others, k - 1) + {others[k - 1]}
  }

  lemma {:induction false} HeldSize(s: IpAddr, others: seq<IpAddr>, k: nat)
    requires Sources(s, others) && k <= |others|
    ensures |Held(s, others, k)| == k + 1 && s in Held(s, others, k)
    ensures forall i :: k <= i < |others| ==> others[i] !in Held(s, others, k)
  {
    if k > 0 { HeldSize(s, others, k - 1); }
  }

  lemma FirstRun(c: Config, s: IpAddr)
    requires OneToken(c)
    ensures ShardRun(c, [s], [map[], Zeros({s})])
  {
    assert Zeros({}) == map[] && {} + {s} == {s} && [] + [s] == [s] && [map[]] + [Zeros({s})] == [map[], Zeros({s})];
    JoinRun(c, [], [map[]], {}, s);
  }

  /** The source spends its token, and all others but one follow. */
  lemma {:induction false} FillRun(c: Config, s: IpAddr, others: seq<IpAddr>, k: nat) returns (shards: seq<Shard>)
    requires OneToken(c) && Sources(s, others) && k < c.shardCap && k <= |others|
    ensures ShardRun(c, [s] + others[..k], shards) && shards[k + 1] == Zeros(Held(s, others, k))
  {
    if k == 0 {
      FirstRun(c, s);
      assert [s] + others[..0] == [s];
      shards := [map[], Zeros({s})];
    } else {
      var before := FillRun(c, s, others, k - 1);
      HeldSize(s, others, k - 1);
      JoinRun(c, [s] + others[..k - 1], before, Held(s, others, k - 1), others[k - 1]);
      assert [s] + others[..k] == [s] + others[..k - 1] + [others[k - 1]];
      shards := before + [Zeros(Held(s, others, k))];
    }
  }

  /** The last of the others takes the place of the source, which then comes back. */
  lemma ReturnRun(c: Config, s: IpAddr, others: seq<IpAddr>) returns (shards: seq<Shard>)
    requires OneToken(c) && Sources(s, others) && |others| == c.shardCap
    ensures ShardRun(c, [s] + others + [s], shards)
  {
    var n := |others|;
    var x, held := others[n - 1], Held(s, others, n - 1);
    var before := FillRun(c, s, others, n - 1);
    HeldSize(s, others, n - 1);
    EvictRun(c, [s] + others[..n - 1], before, held, s, x);
    assert [s] + others[..n - 1] + [x] == [s] + others;
    var rest := held - {s} + {x};
    assert |rest| == n;
    shards := before + [Zeros(rest)];
    EvictRun(c, [s] + others, shards, rest, x, s);
    shards := shards + [Zeros(rest - {x} + {s})];
  }

  // --- The limiter's run ------------------------------------------------------------------------------

  function EventsOf(xs: seq<IpAddr>): seq<Event> { seq(|xs|, i requires 0 <= i < |xs| => Event(xs[i], 0.0)) }

  predicate AllReach(c: Config, xs: seq<IpAddr>, i: nat) {
    forall k :: 0 <= k < |xs| ==> Reaches(c, Event(xs[k], 0.0), i)
  }

  function OneShard(i: nat, m: Shard): seq<Shard>
    requires i < NUM_SHARDS
  {
    seq(NUM_SHARDS, j => if j == i then m else map[])
  }

  function RunOf(c: Config, i: nat, xs: seq<IpAddr>, shards: seq<Shard>): Run
    requires i < NUM_SHARDS
  {
    Run(c, EventsOf(xs), seq(|shards|, k requires 0 <= k < |shards| => OneShard(i, shards[k])), seq(|xs|, _ => true))
  }

  lemma LiftStep(c: Config, i: nat, x: IpAddr, m: Shard, m': Shard)
    requires i < NUM_SHARDS && Reaches(c, Event(x, 0.0), i) && ShardStep(c, m, x, 0.0, m', true)
    ensures Step(c, OneShard(i, m), x, 0.0, OneShard(i, m'), true)
  {
  }

  lemma LiftRun(c: Config, i: nat, xs: seq<IpAddr>, shards: seq<Shard>)
    requires ValidConfig(c) && i < NUM_SHARDS && AllReach(c, xs, i) && ShardRun(c, xs, shards)
    ensures ValidRun(RunOf(c, i, xs, shards))
  {
    var r := RunOf(c, i, xs, shards);
    forall k | 0 <= k < |xs| ensures WellFormed(r.events[k].ip) && StepAt(r, k) {
      assert Reaches(c, Event(xs[k], 0.0), i);
      LiftStep(c, i, xs[k], shards[k], shards[k + 1]);
    }
    assert OneShard(i, map[]) == seq(NUM_SHARDS, _ => map[]);
  }

  lemma LoneRefuses(rate: real)
    requires rate > 0.0
    ensures !LoneAdmits(rate, 1.0, [0.0, 0.0])
  {
    FirstAdmitted(rate, 1.0, 0.0);
    assert [0.0, 0.0][..1] == [0.0];
    assert Lone(rate, 1.0, [0.0]) == Bucket(0.0, 0.0, 0.0);
  }

  /** A source that has spent its only token is refused if it is alone; after as many others as the
      cap have come in between, it is admitted. */
  lemma OthersInterfere(c: Config, i: nat, s: IpAddr, others: seq<IpAddr>) returns (r: Run)
    requires OneToken(c) && i < NUM_SHARDS && AllReach(c, [s] + others + [s], i)
    requires Sources(s, others) && |others| == c.shardCap
    ensures ValidRun(r) && r.config == c && r.events == EventsOf([s] + others + [s])
    ensures (forall k :: 0 <= k < |r.oks| ==> r.oks[k]) && !LoneAdmits(c.rate, c.capacity, [0.0, 0.0])
  {
    var shards := ReturnRun(c, s, others);
    r := RunOf(c, i, [s] + others + [s], shards);
    LiftRun(c, i, [s] + others + [s], shards);
    LoneRefuses(c.rate);
  }
}
