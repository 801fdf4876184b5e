/**
 Tick-stamped bounded maps: the machinery shared by the parsed-ACL cache (src/acl_cache.rs) and
 the verified-token cache (src/auth_cache.rs).

 The code keeps a map whose entries carry the value of a counter at their last access and evicts
 the smallest stamp.  The simple form it refines is a list of keys, least recently used first.
 */
module Recency {
  import opened Sets

  datatype Slot<V> = Slot(value: V, tick: nat)

  /** A cache as the code holds it. */
  datatype Table<!K, V> = Table(slots: map<K, Slot<V>>, clock: nat)

  // --- The code --------------------------------------------------------------------------------

  /** A hit bumps the stamp. */
  function Bump<K, V>(t: Table<K, V>, k: K): Table<K, V>
    requires k in t.slots
  {
    Table(t.slots[k := t.slots[k].(tick := t.clock + 1)], t.clock + 1)
  }

  function Remove<K, V>(t: Table<K, V>, k: K): Table<K, V> { t.(slots := t.slots - {k}) }

  ghost predicate Oldest<K, V>(m: map<K, Slot<V>>, k: K) {
    k in m && forall x :: x in m ==> m[k].tick <= m[x].tick
  }

  lemma {:induction false} OldestExists<K, V>(m: map<K, Slot<V>>)
    requires m != map[]
    ensures exists k :: k in m && Oldest(m, k)
  {
    var k :| k in m;
    var rest := m - {k};
    if rest == map[] {
      assert forall x :: x in m ==> x == k || x in rest;
      assert Oldest(m, k);
    } else {
      assert rest.Keys < m.Keys;
      OldestExists(rest);
      var j :| j in rest && Oldest(rest, j);
      var o := if m[j].tick < m[k].tick then j else k;
      forall x | x in m ensures m[o].tick <= m[x].tick {
        if x != k { assert x in rest && rest[x] == m[x]; }
      }
      assert Oldest(m, o);
    }
  }

  /** The map after making room for a new key. */
  ghost function Evicted<K, V>(m: map<K, Slot<V>>, capacity: nat, k: K): map<K, Slot<V>> {
    if k !in m && |m| >= capacity && m != map[] then
      OldestExists(m);
      var o :| o in m && Oldest(m, o);
      m - {o}
    else m
  }

  /** Drawing a stamp from the counter. */
  function Draw<K, V>(t: Table<K, V>): Table<K, V> { t.(clock := t.clock + 1) }

  /** Inserting under a stamp drawn before, with an eviction first if the key is new and the map full. */
  ghost function PutAt<K, V>(t: Table<K, V>, capacity: nat, k: K, v: V, tick: nat): Table<K, V> {
    Table(Evicted(t.slots, capacity, k)[k := Slot(v, tick)], t.clock)
  }

  /** An insertion that nothing comes between. */
  ghost function Put<K, V>(t: Table<K, V>, capacity: nat, k: K, v: V): Table<K, V> {
    PutAt(Draw(t), capacity, k, v, t.clock + 1)
  }

  // --- The list it refines -----------------------------------------------------------------------

  function Without<K(==)>(order: seq<K>, k: K): seq<K> {
    if order == [] then []
    else if order[0] == k then Without(order[1..], k)
    else [order[0]] + Without(order[1..], k)
  }

  function MoveToBack<K(==)>(order: seq<K>, k: K): seq<K> { Without(order, k) + [k] }

  function ListPut<K(==)>(order: seq<K>, capacity: nat, k: K): seq<K> {
    if k !in order && |order| >= capacity && order != [] then order[1..] + [k] else MoveToBack(order, k)
  }

  predicate Distinct<K(==)>(order: seq<K>) { forall i, j :: 0 <= i < j < |order| ==> order[i] != order[j] }

  /** The list has the map's keys, in the order of their stamps, none above the counter. */
  ghost predicate Refines<K, V>(t: Table<K, V>, order: seq<K>) {
    && Distinct(order)
    && (forall k :: k in order ==> k in t.slots)
    && (forall k :: k in t.slots ==> k in order)
    && InOrder(order, Ticks(t))
    && (forall k :: k in t.slots ==> t.slots[k].tick <= t.clock)
  }

  function Ticks<K, V>(t: Table<K, V>): map<K, nat> { map k | k in t.slots :: t.slots[k].tick }

  predicate InOrder<K(==)>(order: seq<K>, f: map<K, nat>) {
    (forall x :: x in order ==> x in f) && forall i, j :: 0 <= i < j < |order| ==> f[order[i]] < f[order[j]]
  }

  lemma {:induction false} WithoutProps<K>(order: seq<K>, k: K)
    requires Distinct(order)
    ensures Distinct(Without(order, k))
    ensures forall x :: x in Without(order, k) <==> x in order && x != k
    ensures k !in order ==> Without(order, k) == order
    ensures k in order ==> |Without(order, k)| == |order| - 1
  {
    if order != [] {
      WithoutProps(order[1..], k);
      assert order[0] !in order[1..];
      if order[0] == k { assert Without(order, k) == order[1..]; }
    }
  }

  lemma TailInOrder<K>(order: seq<K>, f: map<K, nat>)
    requires Distinct(order) && InOrder(order, f) && order != []
    ensures Distinct(order[1..]) && InOrder(order[1..], f) && order[0] !in order[1..]
    ensures forall x :: x in order[1..] ==> f[order[0]] < f[x]
  {
  }

  lemma InOrderPrepend<K>(a: K, order: seq<K>, f: map<K, nat>)
    requires InOrder(order, f) && a in f && forall x :: x in order ==> f[a] < f[x]
    ensures InOrder([a] + order, f)
  {
  }

  /** Removing a key keeps the others in order. */
  lemma {:induction false} WithoutInOrder<K>(order: seq<K>, k: K, f: map<K, nat>)
    requires Distinct(order) && InOrder(order, f)
    ensures InOrder(Without(order, k), f)
  {
    if order != [] {
      TailInOrder(order, f);
      WithoutProps(order[1..], k);
      WithoutInOrder(order[1..], k, f);
      if order[0] != k { InOrderPrepend(order[0], Without(order[1..], k), f); }
    }
  }

  lemma RefinesSize<K, V>(t: Table<K, V>, order: seq<K>)
    requires Refines(t, order)
    ensures |t.slots| == |order|
  {
    DistinctSize(order);
    assert t.slots.Keys == set x | x in order;
    assert |t.slots.Keys| == |t.slots|;
  }

  lemma {:induction false} DistinctSize<K>(order: seq<K>)
    requires Distinct(order)
    ensures |set x | x in order| == |order|
  {
    if order != [] {
      DistinctSize(order[1..]);
      assert (set x | x in order) == (set x | x in order[1..]) + {order[0]};
      assert order[0] !in order[1..];
    }
  }

  lemma InOrderSame<K>(order: seq<K>, f: map<K, nat>, g: map<K, nat>)
    requires InOrder(order, f) && forall x :: x in order ==> x in g && g[x] == f[x]
    ensures InOrder(order, g)
  {
  }

  lemma InOrderAppend<K>(order: seq<K>, f: map<K, nat>, k: K)
    requires InOrder(order, f) && k in f && forall x :: x in order ==> f[x] < f[k]
    ensures InOrder(order + [k], f)
  {
  }

  lemma AppendRefines<K, V>(t: Table<K, V>, order: seq<K>, k: K, t': Table<K, V>)
    requires Distinct(order) && k !in order && InOrder(order, Ticks(t))
    requires forall x :: x in t'.slots ==> x in order || x == k
    requires forall x :: x in order ==> x in t.slots && x in t'.slots && t'.slots[x].tick == t.slots[x].tick <= t.clock
    requires k in t'.slots && t'.slots[k].tick == t.clock + 1 == t'.clock
    ensures Refines(t', order + [k])
  {
    InOrderSame(order, Ticks(t), Ticks(t'));
    InOrderAppend(order, Ticks(t'), k);
  }

  /** A hit moves its key to the recent end. */
  lemma BumpRefines<K, V>(t: Table<K, V>, order: seq<K>, k: K)
    requires Refines(t, order) && k in t.slots
    ensures Refines(Bump(t, k), MoveToBack(order, k))
  {
    WithoutProps(order, k);
    WithoutInOrder(order, k, Ticks(t));
    AppendRefines(t, Without(order, k), k, Bump(t, k));
  }

  lemma RemoveRefines<K, V>(t: Table<K, V>, order: seq<K>, k: K)
    requires Refines(t, order)
    ensures Refines(Remove(t, k), Without(order, k))
  {
    WithoutProps(order, k);
    WithoutInOrder(order, k, Ticks(t));
    InOrderSame(Without(order, k), Ticks(t), Ticks(Remove(t, k)));
  }

  /** The smallest stamp is the head of the list, and nothing else. */
  lemma OldestIsHead<K, V>(t: Table<K, V>, order: seq<K>, k: K)
    requires Refines(t, order) && k in t.slots
    ensures Oldest(t.slots, k) <==> k == order[0]
  {
  }

  lemma EvictedRefines<K, V>(t: Table<K, V>, order: seq<K>, capacity: nat, k: K)
    requires Refines(t, order)
    ensures Evicted(t.slots, capacity, k)
            == if k !in order && |order| >= capacity && order != [] then t.slots - {order[0]} else t.slots
  {
    RefinesSize(t, order);
    assert t.slots == map[] <==> order == [];
    if k !in t.slots && |t.slots| >= capacity && t.slots != map[] {
      OldestExists(t.slots);
      forall o | o in t.slots && Oldest(t.slots, o) ensures o == order[0] { OldestIsHead(t, order, o); }
    }
  }

  lemma PutAtCapacity<K, V>(t: Table<K, V>, order: seq<K>, capacity: nat, k: K, v: V)
    requires Refines(t, order) && k !in order && |order| >= capacity && order != []
    ensures Refines(Put(t, capacity, k, v), order[1..] + [k])
  {
    EvictedRefines(t, order, capacity, k);
    TailInOrder(order, Ticks(t));
    assert order == [order[0]] + order[1..];
    AppendRefines(t, order[1..], k, Put(t, capacity, k, v));
  }

  lemma PutWithRoom<K, V>(t: Table<K, V>, order: seq<K>, capacity: nat, k: K, v: V)
    requires Refines(t, order) && (k in order || |order| < capacity || order == [])
    ensures Refines(Put(t, capacity, k, v), MoveToBack(order, k))
  {
    EvictedRefines(t, order, capacity, k);
    WithoutProps(order, k);
    WithoutInOrder(order, k, Ticks(t));
    AppendRefines(t, Without(order, k), k, Put(t, capacity, k, v));
  }

  /** Inserting refines the list's insertion; at capacity it drops the head. */
  lemma PutRefines<K, V>(t: Table<K, V>, order: seq<K>, capacity: nat, k: K, v: V)
    requires Refines(t, order)
    ensures Refines(Put(t, capacity, k, v), ListPut(order, capacity, k))
  {
    if k !in order && |order| >= capacity && order != [] {
      PutAtCapacity(t, order, capacity, k, v);
    } else {
      PutWithRoom(t, order, capacity, k, v);
    }
  }

  /** The scan for the smallest stamp: it finds the head of the list. */
  method EvictOne<K(==), V>(t: Table<K, V>, ghost order: seq<K>) returns (slots: map<K, Slot<V>>)
    requires Refines(t, order) && order != []
    ensures slots == t.slots - {order[0]}
  {
    var keys := t.slots.Keys;
    assert order[0] in keys;
    var oldest :| oldest in keys;
    keys := keys - {oldest};
    while keys != {}
      invariant keys <= t.slots.Keys && oldest in t.slots
      invariant forall x :: x in t.slots && x !in keys ==> t.slots[oldest].tick <= t.slots[x].tick
      decreases |keys|
    {
      var k :| k in keys;
      keys := keys - {k};
      if t.slots[k].tick < t.slots[oldest].tick { oldest := k; }
    }
    OldestIsHead(t, order, oldest);
    slots := t.slots - {oldest};
  }

  // --- Whole histories ---------------------------------------------------------------------------------

  datatype CacheOp<K> = Hit(key: K) | Removed(key: K) | Inserted(key: K)

  predicate Touches<K(==)>(op: CacheOp<K>, k: K) { op.key == k && !op.Removed? }

  function ListStep<K(==)>(order: seq<K>, capacity: nat, op: CacheOp<K>): seq<K> {
    match op
    case Hit(k) => if k in order then MoveToBack(order, k) else order
    case Removed(k) => Without(order, k)
    case Inserted(k) => ListPut(order, capacity, k)
  }

  function ListAfter<K(==)>(capacity: nat, ops: seq<CacheOp<K>>): seq<K> {
    if ops == [] then [] else ListStep(ListAfter(capacity, ops[..|ops| - 1]), capacity, ops[|ops| - 1])
  }

  /** The place of the last operation that touched `k`, counted from 1; 0 if there is none. */
  function LastTouch<K(==)>(ops: seq<CacheOp<K>>, k: K): nat {
    if ops == [] then 0
    else if Touches(ops[|ops| - 1], k) then |ops|
    else LastTouch(ops[..|ops| - 1], k)
  }

  lemma {:induction false} LastTouchProps<K>(ops: seq<CacheOp<K>>, k: K)
    ensures var p := LastTouch(ops, k);
            p <= |ops| && (p > 0 ==> Touches(ops[p - 1], k)) && forall i :: p <= i < |ops| ==> !Touches(ops[i], k)
  {
    if ops != [] && !Touches(ops[|ops| - 1], k) { LastTouchProps(ops[..|ops| - 1], k); }
  }

  function TouchTimes<K(==)>(ops: seq<CacheOp<K>>, order: seq<K>): map<K, nat> {
    map k | k in order :: LastTouch(ops, k)
  }

  /** The list is without duplicates and ordered by last touch. */
  predicate ByLastTouch<K(==)>(ops: seq<CacheOp<K>>, order: seq<K>) {
    && Distinct(order)
    && InOrder(order, TouchTimes(ops, order))
    && forall k :: k in order ==> LastTouch(ops, k) > 0
  }

  lemma KeepStep<K>(ops: seq<CacheOp<K>>, order: seq<K>)
    requires ops != [] && ByLastTouch(ops[..|ops| - 1], order)
    requires forall x :: x in order ==> !Touches(ops[|ops| - 1], x)
    ensures ByLastTouch(ops, order)
  {
  }

  lemma TouchStep<K>(ops: seq<CacheOp<K>>, order: seq<K>, k: K)
    requires ops != [] && ByLastTouch(ops[..|ops| - 1], order) && k !in order && Touches(ops[|ops| - 1], k)
    ensures ByLastTouch(ops, order + [k])
  {
    KeepStep(ops, order);
    var f := TouchTimes(ops, order + [k]);
    forall x | x in order ensures f[x] < f[k] { LastTouchProps(ops[..|ops| - 1], x); }
    InOrderSame(order, TouchTimes(ops, order), f);
    InOrderAppend(order, f, k);
  }

  lemma WithoutByLastTouch<K>(ops: seq<CacheOp<K>>, order: seq<K>, k: K)
    requires ByLastTouch(ops, order)
    ensures ByLastTouch(ops, Without(order, k))
  {
    WithoutProps(order, k);
    WithoutInOrder(order, k, TouchTimes(ops, order));
    InOrderSame(Without(order, k), TouchTimes(ops, order), TouchTimes(ops, Without(order, k)));
  }

  lemma TailByLastTouch<K>(ops: seq<CacheOp<K>>, order: seq<K>)
    requires ByLastTouch(ops, order) && order != []
    ensures ByLastTouch(ops, order[1..])
  {
  }

  /** After any history the list has no duplicates, stays within capacity, and is ordered by last touch. */
  lemma {:induction false} ListInvariant<K>(capacity: nat, ops: seq<CacheOp<K>>)
    requires capacity >= 1
    ensures ByLastTouch(ops, ListAfter(capacity, ops)) && |ListAfter(capacity, ops)| <= capacity
  {
    if ops != [] {
      var init, op := ops[..|ops| - 1], ops[|ops| - 1];
      var before := ListAfter(capacity, init);
      ListInvariant(capacity, init);
      WithoutProps(before, op.key);
      WithoutByLastTouch(init, before, op.key);
      if op.Removed? {
        KeepStep(ops, Without(before, op.key));
      } else if op.Hit? && op.key !in before {
        KeepStep(ops, before);
      } else if op.Inserted? && op.key !in before && |before| >= capacity {
        TailByLastTouch(init, before);
        TouchStep(ops, before[1..], op.key);
      } else {
        TouchStep(ops, Without(before, op.key), op.key);
      }
    }
  }

  /** The keys other than `k` touched at place `from` or later. */
  function OthersTouched<K(==)>(ops: seq<CacheOp<K>>, k: K, from: nat): set<K> {
    set i | from <= i < |ops| && !ops[i].Removed? && ops[i].key != k :: ops[i].key
  }

  lemma DroppedIsHead<K>(order: seq<K>, capacity: nat, x: K, k: K)
    requires Distinct(order) && k in order && k !in ListPut(order, capacity, x)
    ensures x !in order && |order| >= capacity && k == order[0]
  {
    WithoutProps(order, x);
    assert order == [order[0]] + order[1..];
  }

  lemma LaterIsOther<K>(ops: seq<CacheOp<K>>, k: K, y: K)
    requires ops != [] && !Touches(ops[|ops| - 1], k) && y != k
    requires LastTouch(ops[..|ops| - 1], k) < LastTouch(ops[..|ops| - 1], y)
    ensures y in OthersTouched(ops, k, LastTouch(ops, k))
  {
    var p := LastTouch(ops[..|ops| - 1], y);
    LastTouchProps(ops[..|ops| - 1], y);
    assert ops[p - 1].key == y;
  }

  /** An insertion drops a key only if at least `capacity` other keys were touched since its last touch. */
  lemma EvictionNeedsCapacity<K>(capacity: nat, ops: seq<CacheOp<K>>, k: K)
    requires capacity >= 1 && ops != [] && ops[|ops| - 1].Inserted?
    requires k in ListAfter(capacity, ops[..|ops| - 1]) && k !in ListAfter(capacity, ops)
    ensures |OthersTouched(ops, k, LastTouch(ops, k))| >= capacity
  {
    var init, x := ops[..|ops| - 1], ops[|ops| - 1].key;
    var order := ListAfter(capacity, init);
    var times := TouchTimes(init, order);
    ListInvariant(capacity, init);
    DroppedIsHead(order, capacity, x, k);
    TailInOrder(order, times);
    var others := OthersTouched(ops, k, LastTouch(ops, k));
    LastTouchProps(init, k);
    assert ops[|ops| - 1].key in others;
    forall y | y in order[1..] ensures y in others {
      assert times[order[0]] < times[y];
      LaterIsOther(ops, k, y);
    }
    DistinctSize(order[1..]);
    SubsetSize((set y | y in order[1..]) + {x}, others);
  }

  /** The capacity bound, for the map the code holds. */
  lemma TableWithinCapacity<K, V>(t: Table<K, V>, capacity: nat, ops: seq<CacheOp<K>>)
    requires capacity >= 1 && Refines(t, ListAfter(capacity, ops))
    ensures |t.slots| <= capacity
  {
    ListInvariant(capacity, ops);
    RefinesSize(t, ListAfter(capacity, ops));
  }

  lemma AfterOp<K>(capacity: nat, ops: seq<CacheOp<K>>, op: CacheOp<K>)
    ensures ListAfter(capacity, ops + [op]) == ListStep(ListAfter(capacity, ops), capacity, op)
  {
  }

  /** The stamped map refines the list its history leads to. */
  ghost predicate Follows<K, V>(t: Table<K, V>, capacity: nat, ops: seq<CacheOp<K>>) {
    Refines(t, ListAfter(capacity, ops))
  }

  lemma HitFollows<K, V>(t: Table<K, V>, capacity: nat, ops: seq<CacheOp<K>>, k: K)
    requires Follows(t, capacity, ops) && k in t.slots
    ensures Follows(Bump(t, k), capacity, ops + [Hit(k)])
  {
    BumpRefines(t, ListAfter(capacity, ops), k);
    AfterOp(capacity, ops, Hit(k));
  }

  lemma RemovedFollows<K, V>(t: Table<K, V>, capacity: nat, ops: seq<CacheOp<K>>, k: K)
    requires Follows(t, capacity, ops)
    ensures Follows(Remove(t, k), capacity, ops + [Removed(k)])
  {
    RemoveRefines(t, ListAfter(capacity, ops), k);
    AfterOp(capacity, ops, Removed(k));
  }

  lemma InsertedFollows<K, V>(t: Table<K, V>, capacity: nat, ops: seq<CacheOp<K>>, k: K, v: V)
    requires Follows(t, capacity, ops)
    ensures Follows(Put(t, capacity, k, v), capacity, ops + [Inserted(k)])
  {
    PutRefines(t, ListAfter(capacity, ops), capacity, k, v);
    AfterOp(capacity, ops, Inserted(k));
  }

  /** The insertion as the code performs it. */
  method Insert<K(==), V>(t: Table<K, V>, capacity: nat, k: K, v: V, ghost ops: seq<CacheOp<K>>)
    returns (t': Table<K, V>)
    requires Follows(t, capacity, ops) && capacity >= 1
    ensures t' == Put(t, capacity, k, v)
  {
    ghost var order := ListAfter(capacity, ops);
    EvictedRefines(t, order, capacity, k);
    RefinesSize(t, order);
    var slots := t.slots;
    if k !in slots && |slots| >= capacity {
      slots := EvictOne(t, order);
    }
    var tick := t.clock + 1;
    t' := Table(slots[k := Slot(v, tick)], tick);
  }
}
