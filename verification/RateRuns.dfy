/**
 Whole runs of the rate limiter: which part of a source's fate other sources can influence.
 */
module RateRuns {
  import opened TokenBucket
  import opened Sets
  import opened RateLimiter

  datatype Event = Event(ip: IpAddr, now: real)

  /** A run: requests, the shards before and after each, and the decisions. */
  datatype Run = Run(config: Config, events: seq<Event>, states: seq<seq<Shard>>, oks: seq<bool>)

  ghost predicate ValidRun(r: Run) {
    && ValidConfig(r.config)
    && |r.states| == |r.events| + 1 && |r.oks| == |r.events|
    && (forall k :: 0 <= k < |r.states| ==> |r.states[k]| == NUM_SHARDS)
    && (forall k :: 0 <= k < |r.events| ==> WellFormed(r.events[k].ip))
    && r.states[0] == seq(NUM_SHARDS, _ => map[])
    && (forall k :: 0 <= k < |r.events| ==> StepAt(r, k))
  }

  ghost predicate StepAt(r: Run, k: nat)
    requires |r.states| == |r.events| + 1 && |r.oks| == |r.events| && k < |r.events|
    requires |r.states[k]| == |r.states[k + 1]| == NUM_SHARDS && WellFormed(r.events[k].ip)
  {
    Step(r.config, r.states[k], r.events[k].ip, r.events[k].now, r.states[k + 1], r.oks[k])
  }

  /** The event reaches shard `i`. */
  predicate Reaches(c: Config, e: Event, i: nat) { WellFormed(e.ip) && !Exempt(c, e.ip) && ShardOf(e.ip) == i }

  /** The requests that reach one shard come in the order of their times; other shards do not matter. */
  predicate TimesInOrder(c: Config, events: seq<Event>, i: nat) {
    forall a, b :: 0 <= a <= b < |events| && Reaches(c, events[a], i) && Reaches(c, events[b], i) ==>
      events[a].now <= events[b].now
  }

  /** In every reachable state no shard exceeds its cap. */
  lemma {:induction false} ShardsStayWithinCap(r: Run, k: nat)
    requires ValidRun(r) && k < |r.states|
    ensures ValidShards(r.config, r.states[k])
  {
    if k > 0 {
      ShardsStayWithinCap(r, k - 1);
      assert StepAt(r, k - 1);
      var e := r.events[k - 1];
      if !Exempt(r.config, e.ip) {
        StepKeepsCap(r.config, r.states[k - 1][ShardOf(e.ip)], e.ip, e.now, r.states[k][ShardOf(e.ip)], r.oks[k - 1]);
      }
    }
  }

  // --- What one step does to the other entries of its shard ---------------------------------------

  lemma RoomKeepsOthers(m: Shard, cap: nat, x: IpAddr, now: real, room: Shard, s: IpAddr)
    requires MakesRoom(m, cap, x, now, room)
    ensures s in room ==> s in m && room[s] == m[s]
    ensures s in m && s !in room ==>
            Idle(m[s], now) || (x !in m && |Retain(m, now)| >= cap && Coldest(Retain(m, now), s))
    ensures x in m ==> room == m
  {
  }

  lemma SweepKeepsOthers(m: Shard, now: real, s: IpAddr)
    ensures s in Sweep(m, now) ==> s in m && Sweep(m, now)[s] == m[s]
    ensures s in m && s !in Sweep(m, now) ==> Idle(m[s], now)
  {
  }

  lemma StepKeepsOthers(c: Config, m: Shard, x: IpAddr, now: real, m': Shard, ok: bool, s: IpAddr)
    requires ShardStep(c, m, x, now, m', ok) && x != s
    ensures s in m' ==> s in m && m'[s] == m[s]
    ensures s in m && s !in m' ==>
              Idle(m[s], now) || (x !in m && |Retain(m, now)| >= c.shardCap && Coldest(Retain(m, now), s))
  {
    var room :| MakesRoom(m, c.shardCap, x, now, room) && m' == Sweep(Charge(room, c.rate, c.capacity, x, now).0, now);
    RoomKeepsOthers(m, c.shardCap, x, now, room, s);
    SweepKeepsOthers(Charge(room, c.rate, c.capacity, x, now).0, now, s);
  }

  lemma StepSelf(c: Config, m: Shard, x: IpAddr, now: real, m': Shard, ok: bool)
    requires ShardStep(c, m, x, now, m', ok)
    ensures var taken := TryTake(if x in m then m[x] else Fresh(c.capacity, now), c.rate, c.capacity, now);
            x in m' && m'[x] == taken.0 && ok == taken.1
  {
  }

  // --- Entries come from requests ------------------------------------------------------------------

  /** An entry belongs to its shard and was last seen at one of its source's requests. */
  ghost predicate EntryIsRequest(r: Run, k: nat, i: nat, y: IpAddr)
    requires ValidRun(r) && k < |r.states| && i < NUM_SHARDS && y in r.states[k][i]
  {
    ShardOf(y) == i &&
    exists j :: 0 <= j < k && r.events[j].ip == y && !Exempt(r.config, y)
        && r.events[j].now == r.states[k][i][y].lastSeen
  }

  lemma {:induction false} EntriesAreRequests(r: Run, k: nat, i: nat, y: IpAddr)
    requires ValidRun(r) && k < |r.states| && i < NUM_SHARDS && y in r.states[k][i]
    ensures EntryIsRequest(r, k, i, y)
  {
    if k > 0 {
      assert StepAt(r, k - 1);
      var e := r.events[k - 1];
      if Exempt(r.config, e.ip) || i != ShardOf(e.ip) {
        EntriesAreRequests(r, k - 1, i, y);
      } else if y != e.ip {
        StepKeepsOthers(r.config, r.states[k - 1][i], e.ip, e.now, r.states[k][i], r.oks[k - 1], y);
        EntriesAreRequests(r, k - 1, i, y);
      } else {
        StepSelf(r.config, r.states[k - 1][i], e.ip, e.now, r.states[k][i], r.oks[k - 1]);
      }
    }
  }

  /** The other sources of the shard that made a request stamped at `since` or later. */
  function OthersSince(c: Config, events: seq<Event>, k: nat, s: IpAddr, since: real): set<IpAddr>
    requires k <= |events| && forall j :: 0 <= j < |events| ==> WellFormed(events[j].ip)
  {
    set j | 0 <= j < k && events[j].ip != s && !Exempt(c, events[j].ip) && ShardOf(events[j].ip) == ShardOf(s)
            && events[j].now >= since :: events[j].ip
  }

  lemma NewcomerIsOther(r: Run, k: nat, s: IpAddr)
    requires ValidRun(r) && k < |r.events| && TimesInOrder(r.config, r.events, ShardOf(s))
    requires Reaches(r.config, r.events[k], ShardOf(s)) && r.events[k].ip != s
    requires s in r.states[k][ShardOf(s)]
    ensures r.events[k].ip in OthersSince(r.config, r.events, k + 1, s, r.states[k][ShardOf(s)][s].lastSeen)
  {
    EntriesAreRequests(r, k, ShardOf(s), s);
    var j :| 0 <= j < k && r.events[j].ip == s && !Exempt(r.config, s)
        && r.events[j].now == r.states[k][ShardOf(s)][s].lastSeen;
    assert Reaches(r.config, r.events[j], ShardOf(s));
  }

  lemma SwapBound<T>(a: set<T>, out: T, new': T, others: set<T>)
    requires out in a && new' !in a && a - {out} <= others && new' in others
    ensures |a| <= |others|
  {
    SwapSize(a, out, new');
    SubsetSize(a - {out} + {new'}, others);
  }

  /** To evict a source, as many other sources as the cap must have made requests since its last. */
  lemma EvictionNeedsOthers(r: Run, k: nat, s: IpAddr)
    requires ValidRun(r) && k < |r.events| && TimesInOrder(r.config, r.events, ShardOf(s))
    requires Reaches(r.config, r.events[k], ShardOf(s)) && r.events[k].ip != s
    requires var m := r.states[k][ShardOf(s)];
             && s in m && r.events[k].ip !in m
             && |Retain(m, r.events[k].now)| >= r.config.shardCap && Coldest(Retain(m, r.events[k].now), s)
    ensures |OthersSince(r.config, r.events, k + 1, s, r.states[k][ShardOf(s)][s].lastSeen)| >= r.config.shardCap
  {
    var m := r.states[k][ShardOf(s)];
    var kept := Retain(m, r.events[k].now);
    var others := OthersSince(r.config, r.events, k + 1, s, m[s].lastSeen);
    NewcomerIsOther(r, k, s);
    forall y | y in kept.Keys - {s} ensures y in others { WarmerIsOther(r, k, s, y); }
    SwapBound(kept.Keys, s, r.events[k].ip, others);
    assert |kept.Keys| == |kept|;
  }

  lemma WarmerIsOther(r: Run, k: nat, s: IpAddr, y: IpAddr)
    requires ValidRun(r) && k < |r.events| && y != s
    requires var m := r.states[k][ShardOf(s)]; s in m && y in m && m[s].lastSeen <= m[y].lastSeen
    ensures y in OthersSince(r.config, r.events, k + 1, s, r.states[k][ShardOf(s)][s].lastSeen)
  {
    EntriesAreRequests(r, k, ShardOf(s), y);
  }

  lemma SwapSize<T>(a: set<T>, out: T, new': T)
    requires out in a && new' !in a
    ensures |a - {out} + {new'}| == |a|
  {
  }

  lemma OthersGrow(c: Config, events: seq<Event>, k: nat, q: nat, s: IpAddr, since: real)
    requires k <= q <= |events| && forall j :: 0 <= j < |events| ==> WellFormed(events[j].ip)
    ensures |OthersSince(c, events, k, s, since)| <= |OthersSince(c, events, q, s, since)|
  {
    SubsetSize(OthersSince(c, events, k, s, since), OthersSince(c, events, q, s, since));
  }

  // --- Between two requests of a source --------------------------------------------------------------

  /** The bucket is where the lone bucket is, or it was collected after a full idle period, counted
      at the source's next request. */
  predicate Tracks(m: Shard, s: IpAddr, b: Bucket, next: real) {
    if s in m then m[s] == b else next - b.lastSeen >= IDLE_TTL
  }

  /** A request of another source, with few others since the bucket was last used. */
  ghost predicate QuietAt(r: Run, s: IpAddr, k: nat, b: Bucket, next: real)
    requires ValidRun(r)
  {
    && k < |r.events| && r.events[k].ip != s && TimesInOrder(r.config, r.events, ShardOf(s))
    && (Reaches(r.config, r.events[k], ShardOf(s)) ==> b.lastSeen <= r.events[k].now <= next)
    && |OthersSince(r.config, r.events, k + 1, s, b.lastSeen)| < r.config.shardCap
  }

  lemma QuietStep(r: Run, s: IpAddr, k: nat, b: Bucket, next: real)
    requires ValidRun(r) && QuietAt(r, s, k, b, next) && Tracks(r.states[k][ShardOf(s)], s, b, next)
    ensures Tracks(r.states[k + 1][ShardOf(s)], s, b, next)
  {
    assert StepAt(r, k);
    var e := r.events[k];
    var m, m' := r.states[k][ShardOf(s)], r.states[k + 1][ShardOf(s)];
    if Reaches(r.config, e, ShardOf(s)) {
      StepKeepsOthers(r.config, m, e.ip, e.now, m', r.oks[k], s);
      if s in m && s !in m' && !Idle(m[s], e.now) { EvictionNeedsOthers(r, k, s); }
    }
  }

  /** Two consecutive requests of a source, the bucket after the first, and few others in between. */
  ghost predicate Stretch(r: Run, s: IpAddr, p: nat, q: nat, b: Bucket)
    requires ValidRun(r)
  {
    && q < |r.events| && Previous(r.events, s, p, q) && TimesInOrder(r.config, r.events, ShardOf(s))
    && Reaches(r.config, r.events[p], ShardOf(s)) && Reaches(r.config, r.events[q], ShardOf(s))
    && b.lastSeen == r.events[p].now && |OthersSince(r.config, r.events, q, s, b.lastSeen)| < r.config.shardCap
  }

  lemma StretchTimes(r: Run, s: IpAddr, p: nat, k: nat, q: nat, b: Bucket)
    requires ValidRun(r) && Stretch(r, s, p, q, b) && p < k < q
    ensures r.events[k].ip != s
    ensures Reaches(r.config, r.events[k], ShardOf(s)) ==> b.lastSeen <= r.events[k].now <= r.events[q].now
  {
  }

  lemma StretchOthers(r: Run, s: IpAddr, p: nat, k: nat, q: nat, b: Bucket)
    requires ValidRun(r) && Stretch(r, s, p, q, b) && p < k < q
    ensures |OthersSince(r.config, r.events, k + 1, s, b.lastSeen)| < r.config.shardCap
  {
    OthersGrow(r.config, r.events, k + 1, q, s, b.lastSeen);
  }

  lemma StretchIsQuiet(r: Run, s: IpAddr, p: nat, k: nat, q: nat, b: Bucket)
    requires ValidRun(r) && Stretch(r, s, p, q, b) && p < k < q
    ensures QuietAt(r, s, k, b, r.events[q].now)
  {
    StretchTimes(r, s, p, k, q, b);
    StretchOthers(r, s, p, k, q, b);
  }

  lemma QuietNext(r: Run, s: IpAddr, p: nat, k: nat, q: nat, b: Bucket)
    requires ValidRun(r) && Stretch(r, s, p, q, b) && p < k < q
    requires Tracks(r.states[k][ShardOf(s)], s, b, r.events[q].now)
    ensures Tracks(r.states[k + 1][ShardOf(s)], s, b, r.events[q].now)
  {
    StretchIsQuiet(r, s, p, k, q, b);
    QuietStep(r, s, k, b, r.events[q].now);
  }

  lemma {:induction false} QuietStretch(r: Run, s: IpAddr, p: nat, k: nat, q: nat, b: Bucket)
    requires ValidRun(r) && Stretch(r, s, p, q, b) && p < k <= q
    requires s in r.states[p + 1][ShardOf(s)] && r.states[p + 1][ShardOf(s)][s] == b
    ensures Tracks(r.states[k][ShardOf(s)], s, b, r.events[q].now)
    decreases k
  {
    if k > p + 1 {
      QuietStretch(r, s, p, k - 1, q, b);
      QuietNext(r, s, p, k - 1, q, b);
    }
  }

  // --- Non-interference ------------------------------------------------------------------------------

  function TimesOf(events: seq<Event>, s: IpAddr): seq<real> {
    if events == [] then []
    else
      var n := |events| - 1;
      TimesOf(events[..n], s) + if events[n].ip == s then [events[n].now] else []
  }

  /** The decisions of a bucket on a sequence of requests. */
  function Decisions(b: Bucket, rate: real, capacity: real, times: seq<real>): seq<bool>
    decreases times
  {
    if times == [] then []
    else
      var (b', ok) := TryTake(b, rate, capacity, times[0]);
      [ok] + Decisions(b', rate, capacity, times[1..])
  }

  /** A bucket that has been idle when the first of the requests comes. */
  predicate IdleBefore(b: Bucket, capacity: real, times: seq<real>) {
    && 0.0 <= b.tokens <= capacity && b.lastRefill == b.lastSeen
    && times != [] && times[0] - b.lastSeen >= IDLE_TTL && InOrder(times)
  }

  /** Two levels at one instant, however close, are told apart by some requests after it. */
  lemma {:induction false} LevelsShow(x: real, y: real, t: real, rate: real, capacity: real) returns (times: seq<real>)
    requires Settings(rate, capacity) && 0.0 <= x < y <= capacity
    ensures times != [] && InOrder(times) && times[0] >= t && (y >= 1.0 ==> times[0] == t)
    ensures Decisions(Bucket(x, t, t), rate, capacity, times) != Decisions(Bucket(y, t, t), rate, capacity, times)
    decreases y.Floor
  {
    if y < 1.0 {
      var wait := (1.0 - y) / rate;
      times := [t + wait];
      assert wait * rate == 1.0 - y;
      assert Earned(rate, t + wait, t) == 1.0 - y;
      assert Decisions(Bucket(y, t, t), rate, capacity, times)[0];
      assert !Decisions(Bucket(x, t, t), rate, capacity, times)[0];
    } else if x < 1.0 {
      times := [t];
      assert Decisions(Bucket(y, t, t), rate, capacity, times)[0];
      assert !Decisions(Bucket(x, t, t), rate, capacity, times)[0];
    } else {
      assert (y - 1.0).Floor < y.Floor;
      var rest := LevelsShow(x - 1.0, y - 1.0, t, rate, capacity);
      times := [t] + rest;
      assert times[1..] == rest;
      assert TryTake(Bucket(x, t, t), rate, capacity, t) == (Bucket(x - 1.0, t, t), true);
      assert TryTake(Bucket(y, t, t), rate, capacity, t) == (Bucket(y - 1.0, t, t), true);
      assert Decisions(Bucket(x, t, t), rate, capacity, times)[1..]
          == Decisions(Bucket(x - 1.0, t, t), rate, capacity, rest);
      assert Decisions(Bucket(y, t, t), rate, capacity, times)[1..]
          == Decisions(Bucket(y - 1.0, t, t), rate, capacity, rest);
    }
  }

  /** Collecting an idle bucket changes no decision, then or later, exactly when the idle period
      refills any bucket. */
  lemma IdleIsFull(rate: real, capacity: real)
    requires Settings(rate, capacity)
    ensures (forall b: Bucket, times: seq<real> :: IdleBefore(b, capacity, times) ==>
               Decisions(b, rate, capacity, times) == Decisions(Fresh(capacity, times[0]), rate, capacity, times))
            <==> IDLE_TTL * rate >= capacity
  {
    if IDLE_TTL * rate >= capacity {
      forall b: Bucket, times: seq<real> | IdleBefore(b, capacity, times)
        ensures Decisions(b, rate, capacity, times) == Decisions(Fresh(capacity, times[0]), rate, capacity, times)
      {
        RefillsFully(b, rate, capacity, times[0]);
      }
    } else {
      var b, level := Bucket(0.0, 0.0, 0.0), IDLE_TTL * rate;
      var times := LevelsShow(level, capacity, IDLE_TTL, rate, capacity);
      SameLevel(b, level, rate, capacity, times);
      assert Decisions(b, rate, capacity, times) != Decisions(Fresh(capacity, times[0]), rate, capacity, times);
      assert IdleBefore(b, capacity, times);
    }
  }

  lemma SameLevel(b: Bucket, level: real, rate: real, capacity: real, times: seq<real>)
    requires times != [] && times[0] == IDLE_TTL && b == Bucket(0.0, 0.0, 0.0) && level == IDLE_TTL * rate <= capacity
    ensures Decisions(b, rate, capacity, times) == Decisions(Bucket(level, IDLE_TTL, IDLE_TTL), rate, capacity, times)
  {
    assert Earned(rate, IDLE_TTL, 0.0) == level && Earned(rate, IDLE_TTL, IDLE_TTL) == 0.0;
  }

  lemma RefillsFully(b: Bucket, rate: real, capacity: real, now: real)
    requires Settings(rate, capacity) && IDLE_TTL * rate >= capacity
    requires b.tokens >= 0.0 && now - b.lastSeen >= IDLE_TTL && b.lastRefill == b.lastSeen
    ensures TryTake(b, rate, capacity, now) == TryTake(Fresh(capacity, now), rate, capacity, now)
  {
  }

  /** The previous request of the source before `q`, if any. */
  predicate Previous(events: seq<Event>, s: IpAddr, p: nat, q: nat) {
    p < q <= |events| && events[p].ip == s && forall j :: p < j < q ==> events[j].ip != s
  }

  /** Between consecutive requests of the source fewer than the cap of others show up in its shard. */
  predicate Quiet(c: Config, events: seq<Event>, s: IpAddr)
    requires forall j :: 0 <= j < |events| ==> WellFormed(events[j].ip)
  {
    forall p, q :: 0 <= p < q < |events| && events[q].ip == s && Previous(events, s, p, q)
      ==> |OthersSince(c, events, q, s, events[p].now)| < c.shardCap
  }

  lemma {:induction false} NoEarlier(events: seq<Event>, s: IpAddr, q: nat)
    requires q <= |events| && forall j :: 0 <= j < q ==> events[j].ip != s
    ensures TimesOf(events[..q], s) == []
  {
    if q > 0 {
      assert events[..q][..q - 1] == events[..q - 1];
      NoEarlier(events, s, q - 1);
    }
  }

  lemma {:induction false} TimesSince(events: seq<Event>, s: IpAddr, p: nat, q: nat)
    requires Previous(events, s, p, q)
    ensures TimesOf(events[..q], s) == TimesOf(events[..p + 1], s)
    decreases q
  {
    if q > p + 1 {
      assert events[..q][..q - 1] == events[..q - 1];
      TimesSince(events, s, p, q - 1);
    }
  }

  lemma {:induction false} FindPrevious(events: seq<Event>, s: IpAddr, q: nat) returns (found: bool, p: nat)
    requires q <= |events|
    ensures found ==> Previous(events, s, p, q)
    ensures !found ==> forall j :: 0 <= j < q ==> events[j].ip != s
  {
    found, p := false, 0;
    if q > 0 {
      if events[q - 1].ip == s { found, p := true, q - 1; }
      else { found, p := FindPrevious(events, s, q - 1); }
    }
  }

  /** A source that is not exempt decides as if it had the limiter to itself: every decision of a
      quiet source is that of a lone, never collected bucket fed only its own request times. */
  lemma {:induction false} NonInterference(r: Run, s: IpAddr, q: nat)
    requires ValidRun(r) && TimesInOrder(r.config, r.events, ShardOf(s))
    requires IDLE_TTL * r.config.rate >= r.config.capacity
    requires q < |r.events| && r.events[q].ip == s && !Exempt(r.config, s) && Quiet(r.config, r.events, s)
    ensures var times := TimesOf(r.events[..q + 1], s);
            && times != [] && times[|times| - 1] == r.events[q].now
            && r.oks[q] == LoneAdmits(r.config.rate, r.config.capacity, times)
            && s in r.states[q + 1][ShardOf(s)]
            && r.states[q + 1][ShardOf(s)][s] == Lone(r.config.rate, r.config.capacity, times)
  {
    var c, t := r.config, r.events[q].now;
    var m, m' := r.states[q][ShardOf(s)], r.states[q + 1][ShardOf(s)];
    var times := TimesOf(r.events[..q + 1], s);
    assert StepAt(r, q);
    StepSelf(c, m, s, t, m', r.oks[q]);
    assert r.events[..q + 1][..q] == r.events[..q];
    var found, p := FindPrevious(r.events, s, q);
    if found {
      NonInterference(r, s, p);
      TimesSince(r.events, s, p, q);
      var before := TimesOf(r.events[..p + 1], s);
      var b := Lone(c.rate, c.capacity, before);
      LoneLast(c, before);
      assert times == before + [t] && times[..|times| - 1] == before;
      QuietStretch(r, s, p, q, q, b);
      if s !in m { RefillsFully(b, c.rate, c.capacity, t); }
    } else {
      NoEarlier(r.events, s, q);
      assert times == [t];
      if s in m { EntriesAreRequests(r, q, ShardOf(s), s); }
    }
  }

  lemma LoneLast(c: Config, times: seq<real>)
    requires ValidConfig(c) && times != []
    ensures var b := Lone(c.rate, c.capacity, times);
            b.lastSeen == b.lastRefill == times[|times| - 1] && 0.0 <= b.tokens
  {
  }

  predicate StrictlyInOrder(c: Config, events: seq<Event>, i: nat) {
    forall a, b :: 0 <= a < b < |events| && Reaches(c, events[a], i) && Reaches(c, events[b], i) ==>
      events[a].now < events[b].now
  }

  /** With strictly increasing timestamps the others are those that came in between. */
  lemma OthersInBetween(c: Config, events: seq<Event>, p: nat, q: nat, s: IpAddr)
    requires p < q <= |events| && forall j :: 0 <= j < |events| ==> WellFormed(events[j].ip)
    requires StrictlyInOrder(c, events, ShardOf(s))
    requires events[p].ip == s && Reaches(c, events[p], ShardOf(s))
    ensures OthersSince(c, events, q, s, events[p].now)
            == set j | p < j < q && events[j].ip != s && !Exempt(c, events[j].ip)
                && ShardOf(events[j].ip) == ShardOf(s) :: events[j].ip
  {
  }
}
