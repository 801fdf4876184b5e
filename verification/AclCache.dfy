/**
 The ETag-keyed parsed-ACL cache (src/acl_cache.rs).
 */
module AclCache {
  import opened Text
  import opened Machine
  import opened Recency
  import opened WacRules

  datatype AclEntry = AclEntry(etag: string, triples: seq<Triple>, insertedAt: int)

  type AclTable = Table<string, AclEntry>

  /** Capacity 0 is the disabled sentinel. */
  datatype Config = Config(capacity: nat, maxEntryTtl: int)

  const EMPTY: AclTable := Table(map[], 0)

  // --- The operations on values -----------------------------------------------------------------

  predicate Usable(c: Config, e: AclEntry, etag: string, now: int) {
    e.etag == etag && now < SaturatingAdd(e.insertedAt, c.maxEntryTtl)
  }

  /** A usable entry is returned and bumped; an unusable one is dropped. */
  function Looked(c: Config, t: AclTable, iri: string, etag: string, now: int): (AclTable, Option<seq<Triple>>) {
    if c.capacity == 0 || iri !in t.slots then (t, None)
    else if !Usable(c, t.slots[iri].value, etag, now) then (Remove(t, iri), None)
    else (Bump(t, iri), Some(t.slots[iri].value.triples))
  }

  /** What a lookup means to its caller: exactly the parse stored under the current etag within its
      lifetime, which becomes the most recent; other documents are left alone; and an entry it drops
      is of no use for that etag at any later reading. */
  lemma LookedMeaning(c: Config, t: AclTable, iri: string, etag: string, now: int)
    requires c.capacity != 0 && forall k :: k in t.slots ==> t.slots[k].tick <= t.clock
    ensures var (t', r) := Looked(c, t, iri, etag, now);
            && (r.Some? <==> iri in t.slots && Usable(c, t.slots[iri].value, etag, now))
            && (r.Some? ==>
                  && iri in t'.slots && r == Some(t.slots[iri].value.triples)
                  && t'.slots[iri].value == t.slots[iri].value
                  && forall k :: k in t'.slots && k != iri ==> t'.slots[k].tick < t'.slots[iri].tick)
            && (forall k :: k != iri ==>
                (k in t'.slots <==> k in t.slots) && (k in t.slots ==> t'.slots[k] == t.slots[k]))
            && (iri in t.slots && iri !in t'.slots ==>
                  forall later :: later >= now ==> !Usable(c, t.slots[iri].value, etag, later))
            && (r.None? ==> iri !in t'.slots)
  {
  }

  /** Inserting under a stamp drawn before. */
  ghost function StoredAt(c: Config, t: AclTable, iri: string, e: AclEntry, tick: nat): AclTable {
    if c.capacity == 0 then t else PutAt(t, c.capacity, iri, e, tick)
  }

  ghost function Stored(c: Config, t: AclTable, iri: string, etag: string, triples: seq<Triple>, now: int): AclTable {
    if c.capacity == 0 then t else Put(t, c.capacity, iri, AclEntry(etag, triples, now))
  }

  function Dropped(c: Config, t: AclTable, iri: string): AclTable {
    if c.capacity == 0 then t else Remove(t, iri)
  }

  /** The recency operations of a lookup. */
  function OpsOfGet(c: Config, t: AclTable, iri: string, etag: string, now: int): seq<CacheOp<string>> {
    if Looked(c, t, iri, etag, now).1.Some? then [Hit(iri)]
    else if c.capacity != 0 && iri in t.slots then [CacheOp.Removed(iri)] else []
  }

  lemma LookedFollows(c: Config, t: AclTable, history: seq<CacheOp<string>>, iri: string, etag: string, now: int)
    requires Follows(t, c.capacity, history)
    ensures Follows(Looked(c, t, iri, etag, now).0, c.capacity, history + OpsOfGet(c, t, iri, etag, now))
  {
    if Looked(c, t, iri, etag, now).1.Some? {
      HitFollows(t, c.capacity, history, iri);
    } else if c.capacity != 0 && iri in t.slots {
      RemovedFollows(t, c.capacity, history, iri);
    } else {
      assert history + [] == history;
    }
  }

  /** The lookup as the code performs it, under the lock. */
  method Lookup(c: Config, t: AclTable, iri: string, etag: string, now: int)
    returns (t': AclTable, r: Option<seq<Triple>>)
    ensures (t', r) == Looked(c, t, iri, etag, now)
  {
    if c.capacity == 0 { return t, None; }
    if iri !in t.slots { return t, None; }
    var entry := t.slots[iri].value;
    var withinTtl := now < SaturatingAdd(entry.insertedAt, c.maxEntryTtl);
    if entry.etag != etag || !withinTtl {
      return t.(slots := t.slots - {iri}), None;
    }
    var tick := t.clock + 1;
    return Table(t.slots[iri := t.slots[iri].(tick := tick)], tick), Some(entry.triples);
  }

  // --- The cache object ----------------------------------------------------------------------------

  class Shared {
    const config: Config
    var table: AclTable
    ghost var history: seq<CacheOp<string>>

    /** The stamped map refines the recency list of its own history; disabled, it stays empty. */
    ghost predicate Valid()
      reads this
    {
      && config.maxEntryTtl >= 1
      && (config.capacity == 0 ==> table.slots == map[])
      && Follows(table, config.capacity, history)
    }

    constructor (capacity: nat, ttl: int)
      ensures Valid() && table == EMPTY && history == []
      ensures config == Config(capacity, if capacity == 0 || ttl < 1 then 1 else ttl)
    {
      config := Config(capacity, if capacity == 0 || ttl < 1 then 1 else ttl);
      table := EMPTY;
      history := [];
    }

    method Get(iri: string, currentEtag: string, now: int) returns (r: Option<seq<Triple>>)
      requires Valid()
      modifies this
      ensures Valid()
      ensures (table, r) == Looked(config, old(table), iri, currentEtag, now)
      ensures history == old(history) + OpsOfGet(config, old(table), iri, currentEtag, now)
    {
      LookedFollows(config, table, history, iri, currentEtag, now);
      history := history + OpsOfGet(config, table, iri, currentEtag, now);
      table, r := Lookup(config, table, iri, currentEtag, now);
    }

    method Insert(iri: string, etag: string, triples: seq<Triple>, now: int)
      requires Valid()
      modifies this
      ensures Valid()
      ensures table == Stored(config, old(table), iri, etag, triples, now)
      ensures history == old(history) + if config.capacity == 0 then [] else [Inserted(iri)]
    {
      if config.capacity == 0 { return; }
      var entry := AclEntry(etag, triples, now);
      InsertedFollows(table, config.capacity, history, iri, entry);
      table := Recency.Insert(table, config.capacity, iri, entry, history);
      history := history + [Inserted(iri)];
    }

    method Invalidate(iri: string)
      requires Valid()
      modifies this
      ensures Valid()
      ensures table == Dropped(config, old(table), iri)
      ensures history == old(history) + if config.capacity == 0 then [] else [CacheOp.Removed(iri)]
    {
      if config.capacity == 0 { return; }
      RemovedFollows(table, config.capacity, history, iri);
      table := table.(slots := table.slots - {iri});
      history := history + [CacheOp.Removed(iri)];
    }
  }
}
