/**
 Overlapping operations on a tick-stamped map (src/acl_cache.rs, src/auth_cache.rs).

 A hit draws its stamp under the lock.  An insertion draws its stamp before it takes the lock, so
 it is two atomic steps with anything in between.
 */
module TickRuns {
  import opened Recency
  import opened Sets

  datatype Pending<K, V> = Pending(key: K, value: V, tick: nat)

  /** `draws` lists the keys in the order their stamps were drawn, so stamp `n` is its `n`-th
      member; `places` lists them in the order stamps were put into the map, and `placed` says
      where there each present stamp was put. */
  datatype State<!K, V> = State(
    table: Table<K, V>, pending: map<nat, Pending<K, V>>, draws: seq<K>, places: seq<K>, placed: map<K, nat>)

  datatype Step<K, V> = Touch(key: K) | Drop(key: K) | Begin(id: nat, key: K, value: V) | Commit(id: nat)

  predicate Enabled<K, V>(s: State<K, V>, step: Step<K, V>) {
    match step
    case Touch(k) => k in s.table.slots
    case Drop(_) => true
    case Begin(id, _, _) => id !in s.pending
    case Commit(id) => id in s.pending
  }

  ghost function Do<K, V>(capacity: nat, s: State<K, V>, step: Step<K, V>): State<K, V>
    requires Enabled(s, step)
  {
    match step
    case Touch(k) => State(Bump(s.table, k), s.pending, s.draws + [k], s.places + [k], s.placed[k := |s.places|])
    case Drop(k) => s.(table := Remove(s.table, k))
    case Begin(id, k, v) =>
      s.(table := Draw(s.table), pending := s.pending[id := Pending(k, v, s.table.clock + 1)], draws := s.draws + [k])
    case Commit(id) =>
      var p := s.pending[id];
      State(PutAt(s.table, capacity, p.key, p.value, p.tick), s.pending - {id}, s.draws, s.places + [p.key],
            s.placed[p.key := |s.places|])
  }

  /** An insertion whose two steps meet is the insertion of `Recency`. */
  lemma AtomicIsPut<K, V>(capacity: nat, s: State<K, V>, id: nat, k: K, v: V)
    requires id !in s.pending
    ensures var begun := Do(capacity, s, Begin(id, k, v));
            Do(capacity, begun, Commit(id)).table == Put(s.table, capacity, k, v)
  {
  }

  // --- The invariant ---------------------------------------------------------------------------

  predicate DrawnFor<K(==)>(draws: seq<K>, tick: nat, k: K) { 1 <= tick <= |draws| && draws[tick - 1] == k }

  predicate PlacedFor<K(==)>(places: seq<K>, placed: map<K, nat>, k: K) {
    k in placed && placed[k] < |places| && places[placed[k]] == k
  }

  /** Stamps in the map were drawn and placed for their keys; no two keys have the same stamp. */
  predicate SlotsOk<K(==), V>(slots: map<K, Slot<V>>, draws: seq<K>, places: seq<K>, placed: map<K, nat>) {
    && (forall k :: k in slots ==> DrawnFor(draws, slots[k].tick, k))
    && (forall k :: k in slots ==> PlacedFor(places, placed, k))
  }

  predicate PendingOk<K(==), V>(pending: map<nat, Pending<K, V>>, draws: seq<K>) {
    forall id :: id in pending ==> DrawnFor(draws, pending[id].tick, pending[id].key)
  }

  predicate Inv<K, V>(capacity: nat, s: State<K, V>) {
    && |s.draws| == s.table.clock
    && SlotsOk(s.table.slots, s.draws, s.places, s.placed)
    && PendingOk(s.pending, s.draws)
    && |s.table.slots| <= capacity
  }

  lemma SmallerSize<K, V>(m: map<K, V>, n: map<K, V>)
    requires n.Keys <= m.Keys
    ensures |n| <= |m|
  {
    SubsetSize(n.Keys, m.Keys);
    assert |n.Keys| == |n| && |m.Keys| == |m|;
  }

  lemma TouchInv<K, V>(capacity: nat, s: State<K, V>, k: K)
    requires Inv(capacity, s) && k in s.table.slots
    ensures Inv(capacity, Do(capacity, s, Touch(k)))
  {
    SmallerSize(s.table.slots, Bump(s.table, k).slots);
  }

  lemma DropInv<K, V>(capacity: nat, s: State<K, V>, k: K)
    requires Inv(capacity, s)
    ensures Inv(capacity, Do(capacity, s, Drop(k)))
  {
    SmallerSize(s.table.slots, Remove(s.table, k).slots);
  }

  lemma BeginInv<K, V>(capacity: nat, s: State<K, V>, id: nat, k: K, v: V)
    requires Inv(capacity, s) && id !in s.pending
    ensures Inv(capacity, Do(capacity, s, Begin(id, k, v)))
  {
  }

  lemma EvictedKeys<K, V>(m: map<K, Slot<V>>, capacity: nat, k: K)
    requires capacity >= 1 && |m| <= capacity
    ensures var e := Evicted(m, capacity, k);
            (forall x :: x in e ==> x in m && e[x] == m[x]) && |e.Keys + {k}| <= capacity
  {
    var e := Evicted(m, capacity, k);
    assert |m.Keys| == |m|;
    if k !in m && |m| >= capacity && m != map[] {
      OldestExists(m);
      var o :| o in m && Oldest(m, o) && e == m - {o};
      assert e.Keys == m.Keys - {o};
    } else if k in m {
      assert e.Keys + {k} == m.Keys;
    }
  }

  /** Making room keeps part of the map, and leaves a place for the key. */
  lemma EvictedPart<K, V>(m: map<K, Slot<V>>, capacity: nat, k: K, v: V, tick: nat)
    requires capacity >= 1 && |m| <= capacity
    ensures var e := Evicted(m, capacity, k);
            && (forall x :: x in e ==> x in m && e[x] == m[x])
            && |e[k := Slot(v, tick)]| <= capacity
  {
    EvictedKeys(m, capacity, k);
    var e := Evicted(m, capacity, k);
    var put := e[k := Slot(v, tick)];
    assert put.Keys == e.Keys + {k} && |put.Keys| == |put|;
  }

  lemma CommitInv<K, V>(capacity: nat, s: State<K, V>, id: nat)
    requires capacity >= 1 && Inv(capacity, s) && id in s.pending
    ensures Inv(capacity, Do(capacity, s, Commit(id)))
  {
    var p := s.pending[id];
    EvictedPart(s.table.slots, capacity, p.key, p.value, p.tick);
  }

  lemma StepInv<K, V>(capacity: nat, s: State<K, V>, step: Step<K, V>)
    requires capacity >= 1 && Inv(capacity, s) && Enabled(s, step)
    ensures Inv(capacity, Do(capacity, s, step))
  {
    match step
    case Touch(k) => TouchInv(capacity, s, k);
    case Drop(k) => DropInv(capacity, s, k);
    case Begin(id, k, v) => BeginInv(capacity, s, id, k, v);
    case Commit(id) => CommitInv(capacity, s, id);
  }

  // --- Whole runs ------------------------------------------------------------------------------

  ghost predicate ValidRun<K, V>(capacity: nat, steps: seq<Step<K, V>>, states: seq<State<K, V>>) {
    && |states| == |steps| + 1 && states[0] == Start()
    && forall n :: 0 <= n < |steps| ==>
        Enabled(states[n], steps[n]) && states[n + 1] == Do(capacity, states[n], steps[n])
  }

  function Start<K, V>(): State<K, V> { State(Table(map[], 0), map[], [], [], map[]) }

  /** In every interleaving stamps are pairwise distinct and the map stays within its capacity. */
  lemma {:induction false} Reachable<K, V>(capacity: nat, steps: seq<Step<K, V>>, states: seq<State<K, V>>, n: nat)
    requires capacity >= 1 && ValidRun(capacity, steps, states) && n < |states|
    ensures Inv(capacity, states[n]) && |states[n].table.slots| <= capacity
    ensures var slots := states[n].table.slots;
            forall x, y :: x in slots && y in slots && slots[x].tick == slots[y].tick ==> x == y
  {
    if n > 0 {
      Reachable(capacity, steps, states, n - 1);
      StepInv(capacity, states[n - 1], steps[n - 1]);
    }
  }

  // --- What an eviction needs --------------------------------------------------------------------

  /** The other keys drawn after stamp `tick`. */
  function OthersDrawn<K(==)>(draws: seq<K>, k: K, tick: nat): set<K> {
    set i | tick <= i < |draws| && draws[i] != k :: draws[i]
  }

  /** The other keys placed after place `c`. */
  function OthersPlaced<K(==)>(places: seq<K>, k: K, c: nat): set<K> {
    set i | c < i < |places| && places[i] != k :: places[i]
  }

  /** The insertion `id` drops the key. */
  ghost predicate Evicts<K, V>(capacity: nat, s: State<K, V>, id: nat, k: K) {
    id in s.pending && k in s.table.slots && k !in Do(capacity, s, Commit(id)).table.slots
  }

  lemma EvictedIsOldest<K, V>(capacity: nat, s: State<K, V>, id: nat, k: K)
    requires capacity >= 1 && Inv(capacity, s) && Evicts(capacity, s, id, k)
    ensures s.pending[id].key !in s.table.slots && |s.table.slots| == capacity
    ensures forall y :: y in s.table.slots && y != k ==> s.table.slots[k].tick < s.table.slots[y].tick
  {
    forall y | y in s.table.slots && y != k ensures s.table.slots[k].tick < s.table.slots[y].tick {
      assert DrawnFor(s.draws, s.table.slots[k].tick, k) && DrawnFor(s.draws, s.table.slots[y].tick, y);
    }
  }

  lemma KeptWereDrawn<K, V>(capacity: nat, s: State<K, V>, id: nat, k: K)
    requires capacity >= 1 && Inv(capacity, s) && Evicts(capacity, s, id, k)
    ensures s.table.slots.Keys - {k} <= OthersDrawn(s.draws, k, s.table.slots[k].tick)
  {
    EvictedIsOldest(capacity, s, id, k);
    forall y | y in s.table.slots.Keys - {k} ensures y in OthersDrawn(s.draws, k, s.table.slots[k].tick) {
      assert DrawnFor(s.draws, s.table.slots[y].tick, y);
    }
  }

  lemma NewcomerCounts<K>(held: set<K>, k: K, x: K, others: set<K>)
    requires k in held && x !in held && held - {k} <= others && x in others
    ensures |held| <= |others|
  {
    assert |held - {k} + {x}| == |held|;
    SubsetSize(held - {k} + {x}, others);
  }

  /** In every interleaving a key is evicted only if at least `capacity` other keys were drawn
      after its own draw, or placed after it was placed. */
  lemma EvictionNeedsOthers<K, V>(capacity: nat, steps: seq<Step<K, V>>, states: seq<State<K, V>>, n: nat, k: K)
    requires capacity >= 1 && ValidRun(capacity, steps, states) && n < |steps|
    requires steps[n].Commit? && Evicts(capacity, states[n], steps[n].id, k)
    ensures k in states[n].placed
    ensures |OthersDrawn(states[n].draws, k, states[n].table.slots[k].tick)
             + OthersPlaced(states[n + 1].places, k, states[n].placed[k])| >= capacity
  {
    Reachable(capacity, steps, states, n);
    var s, id := states[n], steps[n].id;
    var x, held := s.pending[id].key, s.table.slots.Keys;
    EvictedIsOldest(capacity, s, id, k);
    KeptWereDrawn(capacity, s, id, k);
    assert PlacedFor(s.places, s.placed, k);
    assert states[n + 1].places[|s.places|] == x;
    NewcomerCounts(held, k, x, OthersDrawn(s.draws, k, s.table.slots[k].tick)
                               + OthersPlaced(states[n + 1].places, k, s.placed[k]));
    assert |held| == |s.table.slots|;
  }

  /** Draws alone are enough when the incoming stamp is newer than the evicted one. */
  lemma NewerEvictionNeedsDraws<K, V>(capacity: nat, steps: seq<Step<K, V>>, states: seq<State<K, V>>, n: nat, k: K)
    requires capacity >= 1 && ValidRun(capacity, steps, states) && n < |steps|
    requires steps[n].Commit? && Evicts(capacity, states[n], steps[n].id, k)
    requires states[n].table.slots[k].tick < states[n].pending[steps[n].id].tick
    ensures |OthersDrawn(states[n].draws, k, states[n].table.slots[k].tick)| >= capacity
  {
    Reachable(capacity, steps, states, n);
    var s, id := states[n], steps[n].id;
    var x, held := s.pending[id].key, s.table.slots.Keys;
    EvictedIsOldest(capacity, s, id, k);
    KeptWereDrawn(capacity, s, id, k);
    assert DrawnFor(s.draws, s.pending[id].tick, x);
    NewcomerCounts(held, k, x, OthersDrawn(s.draws, k, s.table.slots[k].tick));
    assert |held| == |s.table.slots|;
  }

  // --- Neither count alone is enough ---------------------------------------------------------------

  lemma Extend<K, V>(capacity: nat, steps: seq<Step<K, V>>, states: seq<State<K, V>>, step: Step<K, V>)
    returns (steps': seq<Step<K, V>>, states': seq<State<K, V>>)
    requires ValidRun(capacity, steps, states) && Enabled(states[|steps|], step)
    ensures ValidRun(capacity, steps', states')
    ensures steps' == steps + [step] && states' == states + [Do(capacity, states[|steps|], step)]
  {
    steps', states' := steps + [step], states + [Do(capacity, states[|steps|], step)];
  }

  lemma EvictedUnique<K, V>(m: map<K, Slot<V>>, capacity: nat, k: K, o: K)
    requires k !in m && |m| >= capacity && o in m
    requires forall x :: x in m && x != o ==> m[o].tick < m[x].tick
    ensures Evicted(m, capacity, k) == m - {o}
  {
    assert Oldest(m, o);
  }

  /** Counting from the draw fails: two insertions overlap, and the one drawn first evicts the other
      although nothing was drawn after it. */
  lemma DrawCountFails<K, V>(x: K, k: K, v: V) returns (steps: seq<Step<K, V>>, states: seq<State<K, V>>)
    requires x != k
    ensures ValidRun(1, steps, states) && |steps| == 4 && steps[3] == Commit(0) && Evicts(1, states[3], 0, k)
    ensures OthersDrawn(states[3].draws, k, states[3].table.slots[k].tick) == {}
  {
    steps, states := [], [Start()];
    steps, states := Extend(1, steps, states, Begin(0, x, v));
    steps, states := Extend(1, steps, states, Begin(1, k, v));
    steps, states := Extend(1, steps, states, Commit(1));
    var m := states[3].table.slots;
    assert m == map[k := Slot(v, 2)];
    EvictedUnique(m, 1, x, k);
    steps, states := Extend(1, steps, states, Commit(0));
  }

  /** One entry, and then an older stamp placed after it was touched. */
  function One<K, V>(b: K, v: V): State<K, V> { State(Table(map[b := Slot(v, 1)], 1), map[], [b], [b], map[b := 0]) }

  function Begun<K, V>(a: K, b: K, v: V): State<K, V> {
    State(Table(map[b := Slot(v, 1)], 2), map[1 := Pending(a, v, 2)], [b, a], [b], map[b := 0])
  }

  function Touched<K, V>(a: K, b: K, v: V): State<K, V> {
    State(Table(map[b := Slot(v, 3)], 3), map[1 := Pending(a, v, 2)], [b, a, b], [b, b], map[b := 1])
  }

  function Late<K, V>(a: K, b: K, v: V): State<K, V> {
    State(Table(map[b := Slot(v, 3), a := Slot(v, 2)], 3), map[], [b, a, b], [b, b, a], map[b := 1, a := 2])
  }

  lemma FirstSteps<K, V>(b: K, v: V) returns (steps: seq<Step<K, V>>, states: seq<State<K, V>>)
    ensures ValidRun(2, steps, states) && |steps| == 2 && states[2] == One(b, v)
  {
    steps, states := [], [Start()];
    steps, states := Extend(2, steps, states, Begin(0, b, v));
    steps, states := Extend(2, steps, states, Commit(0));
  }

  lemma BegunStep<K, V>(a: K, b: K, v: V)
    ensures Do(2, One(b, v), Begin(1, a, v)) == Begun(a, b, v)
  {
  }

  lemma TouchedStep<K, V>(a: K, b: K, v: V)
    ensures Do(2, Begun(a, b, v), Touch(b)) == Touched(a, b, v)
  {
    var s, t := Do(2, Begun(a, b, v), Touch(b)), Touched(a, b, v);
    assert s.table.slots == t.table.slots && s.draws == t.draws && s.places == t.places && s.placed == t.placed;
  }

  lemma LateStep<K, V>(a: K, b: K, v: V)
    requires a != b
    ensures Do(2, Touched(a, b, v), Commit(1)) == Late(a, b, v)
  {
    var s, t := Do(2, Touched(a, b, v), Commit(1)), Late(a, b, v);
    assert s.pending == t.pending && s.table.slots == t.table.slots && s.places == t.places && s.placed == t.placed;
  }

  lemma LateEvicted<K, V>(a: K, b: K, c: K, v: V)
    requires a != b && b != c && a != c
    ensures var s := Do(2, Late(a, b, v), Begin(2, c, v)); Evicts(2, s, 2, a) && s.placed == map[b := 1, a := 2]
    ensures var s := Do(2, Late(a, b, v), Begin(2, c, v)); Do(2, s, Commit(2)).places == [b, b, a] + [c]
  {
    var m := Late(a, b, v).table.slots;
    assert m.Keys == {a, b} && |m.Keys| == |m|;
    EvictedUnique(m, 2, c, a);
  }

  lemma OnlyLast<K>(a: K, b: K, c: K)
    requires c != a
    ensures OthersPlaced([b, b, a] + [c], a, 2) == {c}
  {
    var places := [b, b, a] + [c];
    assert places[3] == c;
  }

  /** Counting from the placing fails: a stamp that was old when it was placed is evicted after one
      other key was placed, at capacity two. */
  lemma PlaceCountFails<K, V>(a: K, b: K, c: K, v: V) returns (steps: seq<Step<K, V>>, states: seq<State<K, V>>)
    requires a != b && b != c && a != c
    ensures ValidRun(2, steps, states) && |steps| == 7 && steps[6] == Commit(2) && Evicts(2, states[6], 2, a)
    ensures a in states[6].placed && OthersPlaced(states[7].places, a, states[6].placed[a]) == {c}
  {
    steps, states := FirstSteps(b, v);
    BegunStep(a, b, v);
    steps, states := Extend(2, steps, states, Begin(1, a, v));
    TouchedStep(a, b, v);
    steps, states := Extend(2, steps, states, Touch(b));
    LateStep(a, b, v);
    steps, states := Extend(2, steps, states, Commit(1));
    LateEvicted(a, b, c, v);
    steps, states := Extend(2, steps, states, Begin(2, c, v));
    steps, states := Extend(2, steps, states, Commit(2));
    OnlyLast(a, b, c);
  }
}
