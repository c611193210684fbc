/**
  The blocking operations of the cache synchroniser (pkg/synq/sync.go) over the
  in-memory driver. The callbacks act on a map, the database, or fail and change
  nothing.
*/
module SyncCache {
  import opened Strings
  import opened InMemoryCache

  /** A value of the database; gob encodes `content` without loss, or refuses the value. */
  datatype Record = Record(content: Bytes, encodable: bool)

  type Table = map<string, Record>

  /** A call; `fault` says that its callback, if it runs, fails. */
  datatype Call =
    | Get(key: string, ttl: int, fault: bool)
    | Set(key: string, record: Record, ttl: int, fault: bool)
    | Delete(key: string, fault: bool)

  datatype Reply = Found(record: Record) | NotFound | Faulted | NotEncodable | Done

  // ---------- the specification of one call ----------

  /** `cache.Set`: an error before the driver is reached when the value does not encode. */
  function Stored(store: map<string, Item>, key: string, record: Record, ttl: int, now: int): map<string, Item> {
    if record.encodable then store[key := Item(record.content, Expiry(ttl, now))] else store
  }

  function Fetched(db: Table, key: string, fault: bool): Reply {
    if fault then Faulted else if key in db then Found(db[key]) else NotFound
  }

  /** One call with the cache: its reply, the database and the cache afterwards. */
  function Cached(db: Table, store: map<string, Item>, call: Call, now: int): (Reply, Table, map<string, Item>) {
    match call
    case Get(key, ttl, fault) =>
      if Live(store, key, now) then (Found(Record(store[key].data, true)), db, store)
      else
        var reply := Fetched(db, key, fault);
        var rest := store - {key};
        (reply, db, if reply.Found? then Stored(rest, key, reply.record, ttl, now) else rest)
    case Set(key, record, ttl, fault) =>
      if fault then (Faulted, db, store)
      else (if record.encodable then Done else NotEncodable, db[key := record], Stored(store, key, record, ttl, now))
    case Delete(key, fault) =>
      if fault then (Faulted, db, store) else (Done, db - {key}, store - {key})
  }

  /** The same call with no cache at all. */
  function Plain(db: Table, call: Call): (Reply, Table) {
    match call
    case Get(key, _, fault) => (Fetched(db, key, fault), db)
    case Set(key, record, _, fault) => if fault then (Faulted, db) else (Done, db[key := record])
    case Delete(key, fault) => if fault then (Faulted, db) else (Done, db - {key})
  }

  // ---------- the object ----------

  class CacheSync {
    const cache: Cache
    var db: Table

    constructor (cache: Cache)
      ensures this.cache == cache && db == map[]
    {
      this.cache := cache;
      db := map[];
    }

    /** `cache.Set` of pkg/cache/cache.go. */
    method Store(key: string, record: Record, ttl: int, now: int) returns (ok: bool)
      modifies cache
      ensures ok == record.encodable
      ensures cache.store == Stored(old(cache.store), key, record, ttl, now)
    {
      ok := record.encodable;
      if ok { cache.Set(key, record.content, ttl, now); }
    }

    method Get(key: string, ttl: int, fault: bool, now: int) returns (r: Reply)
      modifies cache
      ensures (r, db, cache.store) == Cached(old(db), old(cache.store), Call.Get(key, ttl, fault), now)
    {
      var data := cache.Get(key, now);
      if data.Some? { return Found(Record(data.value, true)); }
      if fault { return Faulted; }
      if key !in db { return NotFound; }
      var ignored := Store(key, db[key], ttl, now);
      return Found(db[key]);
    }

    method Set(key: string, record: Record, ttl: int, fault: bool, now: int) returns (r: Reply)
      modifies this, cache
      ensures (r, db, cache.store) == Cached(old(db), old(cache.store), Call.Set(key, record, ttl, fault), now)
    {
      if fault { return Faulted; }
      db := db[key := record];
      var ok := Store(key, record, ttl, now);
      return if ok then Done else NotEncodable;
    }

    method Delete(key: string, fault: bool, now: int) returns (r: Reply)
      modifies this, cache
      ensures (r, db, cache.store) == Cached(old(db), old(cache.store), Call.Delete(key, fault), now)
    {
      if fault { return Faulted; }
      db := db - {key};
      cache.Delete(key);
      return Done;
    }
  }

  // ---------- agreement with the database ----------

  /** Every entry, even an expired one, is the database's. */
  predicate Coherent(db: Table, store: map<string, Item>) {
    forall key | key in store :: key in db && db[key] == Record(store[key].data, true)
  }

  predicate Encodable(call: Call) {
    call.Set? ==> call.record.encodable
  }

  /** The cache answers for a callback that would have failed. */
  predicate Masks(store: map<string, Item>, call: Call, now: int) {
    call.Get? && call.fault && Live(store, call.key, now)
  }

  /**
    One call keeps the entries equal to the database, changes the database as without
    the cache, and replies as without the cache if and only if it does not answer for a
    failing read callback; then it replies with what the database holds.
  */
  lemma CallAgrees(db: Table, store: map<string, Item>, call: Call, now: int)
    requires Coherent(db, store) && Encodable(call)
    ensures var (reply, db', store') := Cached(db, store, call, now);
      var (plain, plainDb) := Plain(db, call);
      && db' == plainDb && Coherent(db', store')
      && (reply == plain <==> !Masks(store, call, now))
      && (Masks(store, call, now) ==> call.key in db && reply == Found(db[call.key]))
  {
  }

  /** The table without a cache: what was set is found until it is deleted, and no other key changes. */
  lemma PlainIsATable(db: Table, key: string, record: Record, ttl: int, other: string)
    ensures var written, deleted := Plain(db, Call.Set(key, record, ttl, false)), Plain(db, Call.Delete(key, false));
      && written.0 == deleted.0 == Done
      && Plain(written.1, Call.Get(key, ttl, false)).0 == Found(record)
      && Plain(deleted.1, Call.Get(key, ttl, false)).0 == NotFound
      && (other != key ==>
            && Plain(written.1, Call.Get(other, ttl, false)).0 == Plain(db, Call.Get(other, ttl, false)).0
            && Plain(deleted.1, Call.Get(other, ttl, false)).0 == Plain(db, Call.Get(other, ttl, false)).0)
    ensures forall call: Call | call.fault :: Plain(db, call) == (Faulted, db)
    ensures forall call: Call | call.Get? :: Plain(db, call).1 == db
  {
  }

  /**
    What one call does to the cache: a read that finds a row fills it for its ttl, a read
    that does not leaves no entry, a hit leaves everything; a write that succeeds fills or
    clears its entry, one that fails leaves it; other keys are never touched.
  */
  lemma FillsExactly(db: Table, store: map<string, Item>, key: string, record: Record, ttl: int, now: int, time: int)
    ensures var (reply, _, store') := Cached(db, store, Call.Get(key, ttl, false), now);
      && (Live(store, key, now) ==> store' == store && reply == Found(Record(store[key].data, true)))
      && (!Live(store, key, now) ==>
            && reply == (if key in db then Found(db[key]) else NotFound)
            && (key in store' <==> key in db && db[key].encodable)
            && (key in store' ==> store'[key].data == db[key].content)
            && (key in store' ==> (Live(store', key, time) <==> ttl <= 0 || time <= now + ttl)))
    ensures var (reply, _, store') := Cached(db, store, Call.Get(key, ttl, true), now);
      !Live(store, key, now) ==> reply == Faulted && store' == store - {key}
    ensures var (reply, _, store') := Cached(db, store, Call.Set(key, record, ttl, false), now);
      && reply == (if record.encodable then Done else NotEncodable)
      && (!record.encodable ==> store' == store)
      && (record.encodable ==>
            && key in store' && store'[key].data == record.content
            && (Live(store', key, time) <==> ttl <= 0 || time <= now + ttl))
    ensures var (reply, _, store') := Cached(db, store, Call.Delete(key, false), now);
      reply == Done && store' == store - {key}
    ensures Cached(db, store, Call.Set(key, record, ttl, true), now) == (Faulted, db, store)
    ensures Cached(db, store, Call.Delete(key, true), now) == (Faulted, db, store)
  {
  }

  lemma OtherEntriesStay(db: Table, store: map<string, Item>, call: Call, now: int)
    ensures var (_, _, store') := Cached(db, store, call, now); store' - {call.key} == store - {call.key}
  {
  }

  /** The replies of a sequence of calls, each with its time. */
  function Replies(db: Table, store: map<string, Item>, calls: seq<(Call, int)>): seq<Reply>
    decreases calls
  {
    if calls == [] then []
    else
      var (reply, db', store') := Cached(db, store, calls[0].0, calls[0].1);
      [reply] + Replies(db', store', calls[1..])
  }

  function PlainReplies(db: Table, calls: seq<(Call, int)>): seq<Reply>
    decreases calls
  {
    if calls == [] then []
    else
      var (reply, db') := Plain(db, calls[0].0);
      [reply] + PlainReplies(db', calls[1..])
  }

  /** Whether each call's read callback fails behind a hit, at its point in the run. */
  function Masked(db: Table, store: map<string, Item>, calls: seq<(Call, int)>): seq<bool>
    decreases calls
  {
    if calls == [] then []
    else
      var (_, db', store') := Cached(db, store, calls[0].0, calls[0].1);
      [Masks(store, calls[0].0, calls[0].1)] + Masked(db', store', calls[1..])
  }

  /**
    Over any sequence of calls whose written values encode, a reply differs from the one
    without a cache exactly at the calls where a hit hides a failing read callback.
    Writes and other reads may fail, and the times need not even increase.
  */
  lemma {:induction false} MaskedRepliesDiffer(db: Table, store: map<string, Item>, calls: seq<(Call, int)>)
    requires Coherent(db, store) && forall c | c in calls :: Encodable(c.0)
    ensures |Replies(db, store, calls)| == |PlainReplies(db, calls)| == |Masked(db, store, calls)| == |calls|
    ensures forall i | 0 <= i < |calls| ::
              Replies(db, store, calls)[i] == PlainReplies(db, calls)[i] <==> !Masked(db, store, calls)[i]
    decreases calls
  {
    if calls != [] {
      hide Coherent, Cached, Plain, Masks;
      var (call, now) := calls[0];
      assert calls[0] in calls && forall c | c in calls[1..] :: c in calls;
      CallAgrees(db, store, call, now);
      var (reply, db', store') := Cached(db, store, call, now);
      MaskedRepliesDiffer(db', store', calls[1..]);
    }
  }

  /** The cache cannot be observed if and only if no hit hides a failing read callback. */
  lemma CacheIsInvisible(db: Table, store: map<string, Item>, calls: seq<(Call, int)>)
    requires Coherent(db, store) && forall c | c in calls :: Encodable(c.0)
    ensures Replies(db, store, calls) == PlainReplies(db, calls) <==> true !in Masked(db, store, calls)
  {
    hide Coherent, Replies, PlainReplies, Masked;
    MaskedRepliesDiffer(db, store, calls);
  }

  /**
    A write whose value does not encode changes the database and leaves the entry: the
    result is coherent if and only if the key was not cached.
  */
  lemma UnencodableWriteGoesStale(db: Table, store: map<string, Item>, key: string, record: Record, ttl: int, now: int)
    requires Coherent(db, store) && !record.encodable
    ensures var (reply, db', store') := Cached(db, store, Call.Set(key, record, ttl, false), now);
      && reply == NotEncodable && db'[key] == record
      && (Coherent(db', store') <==> key !in store)
  {
  }
}
