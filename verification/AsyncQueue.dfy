/**
  The asynchronous synchroniser (pkg/synq/async.go) as an object whose calls are
  serialised and whose background jobs run one at a time in the order they were
  started. Under this discipline the cache agrees with the database whenever no job
  waits; swapping two jobs breaks that.
*/
module AsyncQueue {
  import opened Strings
  import opened AsyncCache
  import InMemoryCache

  /** The cache and the jobs that have been started and have not run. */
  datatype Store<V> = Store(cache: map<string, Entry<V>>, queue: seq<Job<V>>)

  /** What the getFn of a call does when it is run. */
  datatype Fetch<V> = Value(value: V) | Missing | Error

  predicate Live<V>(cache: map<string, Entry<V>>, key: string, now: int) {
    key in cache && !InMemoryCache.Expired(cache[key].expires, now)
  }

  function Got<V>(s: Store<V>, key: string, fetch: Fetch<V>, ttl: int, now: int): (Answer<V>, Store<V>) {
    if Live(s.cache, key, now) then (Hit(s.cache[key].value), s)
    else
      var rest := s.(cache := s.cache - {key});
      match fetch
      case Value(v) => (Fresh(v), rest.(queue := s.queue + [Fill(key, v, ttl)]))
      case Missing => (Absent, rest)
      case Error => (Faulted, rest)
  }

  function Queued<V>(s: Store<V>, ok: bool, job: Job<V>): Store<V> {
    if ok then s.(queue := s.queue + [job]) else s
  }

  /** A job runs; one whose cache operation fails, as for a value that does not encode, only logs. */
  function Ran<V>(s: Store<V>, n: nat, ok: bool, now: int): Store<V>
    requires n < |s.queue|
  {
    Store(if ok then Worked(s.cache, s.queue[n], now) else s.cache, s.queue[..n] + s.queue[n + 1..])
  }

  class CacheAsync<V> {
    var cache: map<string, Entry<V>>
    var queue: seq<Job<V>>

    ghost function View(): Store<V>
      reads this
    {
      Store(cache, queue)
    }

    constructor ()
      ensures View() == Store(map[], [])
    {
      cache, queue := map[], [];
    }

    /** `fetch` is what getFn would yield; it counts only on a miss. */
    method GetAsync(key: string, fetch: Fetch<V>, ttl: int, now: int) returns (r: Answer<V>)
      modifies this
      ensures (r, View()) == Got(old(View()), key, fetch, ttl, now)
    {
      if key in cache {
        var entry := cache[key];
        if !InMemoryCache.Expired(entry.expires, now) { return Hit(entry.value); }
        cache := cache - {key};
      }
      assert cache == old(cache) - {key};
      match fetch
      case Value(v) =>
        queue := queue + [Fill(key, v, ttl)];
        return Fresh(v);
      case Missing => return Absent;
      case Error => return Faulted;
    }

    /** `ok` says that setFn, which has run, succeeded. */
    method SetAsync(key: string, value: V, ok: bool, ttl: int) returns (done: bool)
      modifies this
      ensures done == ok && View() == Queued(old(View()), ok, Fill(key, value, ttl))
    {
      if !ok { return false; }
      queue := queue + [Fill(key, value, ttl)];
      return true;
    }

    method DeleteAsync(key: string, ok: bool) returns (done: bool)
      modifies this
      ensures done == ok && View() == Queued(old(View()), ok, Clear(key))
    {
      if !ok { return false; }
      queue := queue + [Clear(key)];
      return true;
    }

    /** The oldest background job runs; `ok` says whether its cache operation succeeds. */
    method RunNext(ok: bool, now: int)
      requires queue != []
      modifies this
      ensures View() == Ran(old(View()), 0, ok, now)
    {
      assert queue[..0] + queue[1..] == queue[1..];
      if ok {
        match queue[0]
        case Fill(key, value, ttl) => cache := cache[key := Entry(value, InMemoryCache.Expiry(ttl, now))];
        case Clear(key) => cache := cache - {key};
      }
      queue := queue[1..];
    }
  }

  /** What a `GetAsync` answers and starts, by its entry and its callback. */
  lemma GotExactly<V>(s: Store<V>, key: string, fetch: Fetch<V>, ttl: int, now: int)
    ensures var (answer, s') := Got(s, key, fetch, ttl, now);
      if key in s.cache && (s.cache[key].expires.None? || now <= s.cache[key].expires.value) then
        answer == Hit(s.cache[key].value) && s' == s
      else
        && s'.cache == s.cache - {key}
        && match fetch
           case Value(v) => answer == Fresh(v) && s'.queue == s.queue + [Fill(key, v, ttl)]
           case Missing => answer == Absent && s'.queue == s.queue
           case Error => answer == Faulted && s'.queue == s.queue
  {
  }

  /** What a job that succeeds leaves under its key, and for how long; one that fails leaves the cache. */
  lemma RanExactly<V>(s: Store<V>, ok: bool, now: int, time: int)
    requires s.queue != []
    ensures var s', job := Ran(s, 0, ok, now), s.queue[0];
      && s'.queue == s.queue[1..] && (!ok ==> s'.cache == s.cache) && s'.cache - {job.key} == s.cache - {job.key}
      && (ok && job.Clear? ==> job.key !in s'.cache)
      && (ok && job.Fill? ==>
            && job.key in s'.cache && s'.cache[job.key].value == job.value
            && (Live(s'.cache, job.key, time) <==> job.ttl <= 0 || time <= now + job.ttl))
  {
    assert s.queue[..0] + s.queue[1..] == s.queue[1..];
  }

  /** A write that succeeds queues its job behind the others; one that fails queues nothing. */
  lemma QueuedExactly<V>(s: Store<V>, ok: bool, job: Job<V>)
    ensures Queued(s, ok, job) == Store(s.cache, if ok then s.queue + [job] else s.queue)
  {
  }

  // ---------- agreement ----------

  /** The last waiting job for the key. */
  function LastJob<V>(queue: seq<Job<V>>, key: string): Option<Job<V>> {
    if queue == [] then None
    else if queue[|queue| - 1].key == key then Some(queue[|queue| - 1])
    else LastJob(queue[..|queue| - 1], key)
  }

  /** The entry of the key is absent or the database's. */
  ghost predicate EntryAgrees<V(!new)>(db: map<string, V>, s: Store<V>, key: string) {
    key in s.cache ==> Lookup(db, key) == Some(s.cache[key].value)
  }

  /**
    The last waiting job for the key brings what the database holds; with no job
    waiting the entry, if there is one, is the database's.
  */
  ghost predicate Reflects<V(!new)>(db: map<string, V>, s: Store<V>, key: string) {
    match LastJob(s.queue, key)
    case Some(Fill(_, v, _)) => Lookup(db, key) == Some(v)
    case Some(Clear(_)) => Lookup(db, key) == None
    case None => EntryAgrees(db, s, key)
  }

  /** A call or a job of the serialised system; the callbacks act on the map `db` or fail. */
  datatype Op<V> =
    | Get(key: string, ttl: int, fault: bool)
    | Set(key: string, value: V, ttl: int, fault: bool)
    | Delete(key: string, fault: bool)
    | Work(ok: bool)

  function FetchFrom<V>(db: map<string, V>, key: string, fault: bool): Fetch<V> {
    if fault then Error else if key in db then Value(db[key]) else Missing
  }

  function Do<V>(db: map<string, V>, s: Store<V>, op: Op<V>, now: int): (map<string, V>, Store<V>) {
    match op
    case Get(key, ttl, fault) => (db, Got(s, key, FetchFrom(db, key, fault), ttl, now).1)
    case Set(key, value, ttl, fault) =>
      (if fault then db else db[key := value], Queued(s, !fault, Fill(key, value, ttl)))
    case Delete(key, fault) => (if fault then db else db - {key}, Queued(s, !fault, Clear(key)))
    case Work(ok) => (db, if s.queue == [] then s else Ran(s, 0, ok, now))
  }

  lemma LastOfLonger<V>(queue: seq<Job<V>>, job: Job<V>, key: string)
    ensures LastJob(queue + [job], key) == if job.key == key then Some(job) else LastJob(queue, key)
  {
    assert (queue + [job])[..|queue|] == queue;
  }

  /** Dropping the first job changes the last one for a key only when it was the only one. */
  lemma {:induction false} LastOfRest<V>(queue: seq<Job<V>>, key: string)
    requires queue != []
    ensures LastJob(queue[1..], key) == LastJob(queue, key) ||
            (LastJob(queue[1..], key) == None && LastJob(queue, key) == Some(queue[0]) && queue[0].key == key)
  {
    var last := queue[|queue| - 1];
    if |queue| == 1 {
      assert queue[..0] == [];
    } else {
      var front := queue[..|queue| - 1];
      assert queue[1..] == front[1..] + [last];
      LastOfLonger(front[1..], last, key);
      LastOfRest(front, key);
    }
  }

  /** The last job for a key is one of the waiting ones. */
  lemma {:induction false} LastJobKey<V>(queue: seq<Job<V>>, key: string)
    ensures LastJob(queue, key).Some? ==> LastJob(queue, key).value.key == key
  {
    if queue != [] { LastJobKey(queue[..|queue| - 1], key); }
  }

  /** The last job for the key fails and leaves an entry that is not the database's. */
  ghost predicate Spoils<V(!new)>(db: map<string, V>, s: Store<V>, op: Op<V>, key: string) {
    && op == Work(false) && s.queue != [] && s.queue[0].key == key
    && LastJob(s.queue[1..], key) == None && !EntryAgrees(db, s, key)
  }

  lemma WorkReflects<V(!new)>(db: map<string, V>, s: Store<V>, ok: bool, key: string, now: int)
    requires Reflects(db, s, key) && s.queue != []
    ensures Reflects(db, Ran(s, 0, ok, now), key) <==> !Spoils(db, s, Work(ok), key)
  {
    LastOfRest(s.queue, key);
    LastJobKey(s.queue[1..], key);
    assert s.queue[..0] + s.queue[1..] == s.queue[1..];
    var job := s.queue[0];
    if job.key == key && LastJob(s.queue[1..], key) == None {
      OnlyJob(s.queue, key);
    } else if LastJob(s.queue[1..], key) == None {
      assert LastJob(s.queue, key) == None;
    }
  }

  lemma {:induction false} OnlyJob<V>(queue: seq<Job<V>>, key: string)
    requires queue != [] && queue[0].key == key && LastJob(queue[1..], key) == None
    ensures LastJob(queue, key) == Some(queue[0])
  {
    if |queue| > 1 {
      var front, last := queue[..|queue| - 1], queue[|queue| - 1];
      assert queue[1..] == front[1..] + [last];
      LastOfLonger(front[1..], last, key);
      OnlyJob(front, key);
    }
  }

  lemma OpReflects<V(!new)>(db: map<string, V>, s: Store<V>, op: Op<V>, now: int, key: string)
    requires Reflects(db, s, key)
    ensures var (db', s') := Do(db, s, op, now); Reflects(db', s', key) <==> !Spoils(db, s, op, key)
  {
    match op
    case Get(k, ttl, fault) =>
      if k in db { LastOfLonger(s.queue, Fill(k, db[k], ttl), key); }
      LastJobKey(s.queue, key);
    case Set(k, value, ttl, fault) => LastOfLonger(s.queue, Fill(k, value, ttl), key);
    case Delete(k, fault) => LastOfLonger(s.queue, Clear(k), key);
    case Work(ok) => if s.queue != [] { WorkReflects(db, s, ok, key, now); }
  }

  function Done<V>(db: map<string, V>, s: Store<V>, ops: seq<(Op<V>, int)>): (map<string, V>, Store<V>)
    decreases ops
  {
    if ops == [] then (db, s)
    else
      var (db', s') := Do(db, s, ops[0].0, ops[0].1);
      Done(db', s', ops[1..])
  }

  /** Some operation of the run spoils the entry at its point. */
  ghost predicate Spoiled<V(!new)>(db: map<string, V>, s: Store<V>, ops: seq<(Op<V>, int)>, key: string)
    decreases ops
  {
    ops != [] &&
    var (db', s') := Do(db, s, ops[0].0, ops[0].1);
    Spoils(db, s, ops[0].0, key) || Spoiled(db', s', ops[1..], key)
  }

  lemma {:induction false} SuccessfulJobsSpoilNothing<V(!new)>(db: map<string, V>, s: Store<V>,
                                                        ops: seq<(Op<V>, int)>, key: string)
    requires forall op | op in ops :: op.0 != Work(false)
    ensures !Spoiled(db, s, ops, key)
    decreases ops
  {
    if ops != [] {
      hide Do;
      assert ops[0] in ops && forall op | op in ops[1..] :: op in ops;
      var (db', s') := Do(db, s, ops[0].0, ops[0].1);
      SuccessfulJobsSpoilNothing(db', s', ops[1..], key);
    }
  }

  /** The key's last job or entry is the database's after each prefix of the run. */
  ghost predicate AlwaysReflects<V(!new)>(db: map<string, V>, s: Store<V>, ops: seq<(Op<V>, int)>, key: string) {
    forall n | 0 <= n <= |ops| ::
      var (db', s') := Done(db, s, ops[..n]);
      Reflects(db', s', key)
  }

  lemma DoneFirst<V>(db: map<string, V>, s: Store<V>, ops: seq<(Op<V>, int)>, n: nat)
    requires 0 < n <= |ops|
    ensures var (db', s') := Do(db, s, ops[0].0, ops[0].1);
      Done(db, s, ops[..n]) == Done(db', s', ops[1..][..n - 1])
  {
    hide Do;
    assert ops[..n][1..] == ops[1..][..n - 1];
  }

  /** At every point of the run, if and only if no failing job spoils the entry. */
  lemma {:induction false} ReflectsUnlessSpoiled<V(!new)>(db: map<string, V>, s: Store<V>, ops: seq<(Op<V>, int)>,
                                                   key: string)
    requires Reflects(db, s, key)
    ensures AlwaysReflects(db, s, ops, key) <==> !Spoiled(db, s, ops, key)
    decreases ops
  {
    hide Reflects, Do, Spoils, Done;
    assert Done(db, s, ops[..0]) == (db, s) by { NothingDone(db, s, ops[..0]); }
    if ops != [] {
      OpReflects(db, s, ops[0].0, ops[0].1, key);
      var (db', s') := Do(db, s, ops[0].0, ops[0].1);
      forall n: nat | 0 < n <= |ops| ensures Done(db, s, ops[..n]) == Done(db', s', ops[1..][..n - 1]) {
        DoneFirst(db, s, ops, n);
      }
      NothingDone(db', s', ops[1..][..0]);
      if Reflects(db', s', key) {
        ReflectsUnlessSpoiled(db', s', ops[1..], key);
        forall m: nat | m <= |ops[1..]| ensures Done(db, s, ops[..m + 1]) == Done(db', s', ops[1..][..m]) {
        }
      } else {
        assert Done(db, s, ops[..1]) == (db', s');
      }
    }
  }

  lemma NothingDone<V>(db: map<string, V>, s: Store<V>, ops: seq<(Op<V>, int)>)
    requires ops == []
    ensures Done(db, s, ops) == (db, s)
  {
  }

  /**
    Over any sequence of serialised calls and jobs in order, the key's last job or entry
    is the database's at every point if and only if no failing job spoils the entry, and
    jobs that succeed never do. Then, when no job waits for a key, its entry is absent or
    equal to the database's, and a `GetAsync` answers what the database holds.
  */
  lemma InOrderJobsAgree<V(!new)>(db: map<string, V>, s: Store<V>, ops: seq<(Op<V>, int)>, key: string)
    requires Reflects(db, s, key)
    ensures AlwaysReflects(db, s, ops, key) <==> !Spoiled(db, s, ops, key)
    ensures (forall op | op in ops :: op.0 != Work(false)) ==> AlwaysReflects(db, s, ops, key)
    ensures AlwaysReflects(db, s, ops, key) ==>
      var (db', s') := Done(db, s, ops);
      && Reflects(db', s', key)
      && (LastJob(s'.queue, key) == None ==>
            && EntryAgrees(db', s', key)
            && forall ttl, now :: Agrees(Got(s', key, FetchFrom(db', key, false), ttl, now).0, Lookup(db', key)))
  {
    ReflectsUnlessSpoiled(db, s, ops, key);
    if forall op | op in ops :: op.0 != Work(false) { SuccessfulJobsSpoilNothing(db, s, ops, key); }
    assert ops[..|ops|] == ops;
    hide Done, Spoiled;
  }

  // ---------- jobs in any order ----------

  /** Which waiting job runs next, whether its cache operation succeeds, and when. */
  datatype Pick = Pick(at: nat, ok: bool, now: int)

  /** The picks run every waiting job once. */
  predicate RunsAll<V>(s: Store<V>, picks: seq<Pick>) {
    |picks| == |s.queue| && forall i | 0 <= i < |picks| :: picks[i].at < |s.queue| - i
  }

  function RanAll<V>(s: Store<V>, picks: seq<Pick>): Store<V>
    requires RunsAll(s, picks)
    decreases picks
  {
    if picks == [] then s
    else
      PickFirst(s, picks);
      RanAll(Ran(s, picks[0].at, picks[0].ok, picks[0].now), picks[1..])
  }

  lemma PickFirst<V>(s: Store<V>, picks: seq<Pick>)
    requires RunsAll(s, picks) && picks != []
    ensures picks[0].at < |s.queue|
    ensures RunsAll(Ran(s, picks[0].at, picks[0].ok, picks[0].now), picks[1..])
  {
  }

  predicate Succeeds(picks: seq<Pick>) {
    forall p | p in picks :: p.ok
  }

  /** Every waiting fill of the key brings what the database holds. */
  ghost predicate FillsAgree<V(!new)>(db: map<string, V>, s: Store<V>, key: string) {
    forall j | j in s.queue && j.key == key && j.Fill? :: Lookup(db, key) == Some(j.value)
  }

  predicate Waits<V(==)>(s: Store<V>, key: string) {
    exists j :: j in s.queue && j.key == key
  }

  lemma RestOfQueue<V>(s: Store<V>, p: Pick)
    requires p.at < |s.queue|
    ensures forall j :: j in Ran(s, p.at, p.ok, p.now).queue ==> j in s.queue
    ensures forall j | j in s.queue && j != s.queue[p.at] :: j in Ran(s, p.at, p.ok, p.now).queue
  {
    var n, rest := p.at, Ran(s, p.at, p.ok, p.now).queue;
    forall j | j in s.queue && j != s.queue[n] ensures j in rest {
      var i :| 0 <= i < |s.queue| && s.queue[i] == j;
      assert i < n ==> rest[i] == j;
      assert i > n ==> rest[i - 1] == j;
    }
  }

  /** One job in any order keeps: its entry agrees, or a job that will succeed waits for the key. */
  lemma PickAgrees<V(!new)>(db: map<string, V>, s: Store<V>, p: Pick, key: string)
    requires p.at < |s.queue| && FillsAgree(db, s, key)
    ensures var s' := Ran(s, p.at, p.ok, p.now);
      && FillsAgree(db, s', key)
      && (EntryAgrees(db, s, key) ==> EntryAgrees(db, s', key))
      && (p.ok && Waits(s, key) ==> Waits(s', key) || EntryAgrees(db, s', key))
  {
    RestOfQueue(s, p);
  }

  lemma {:induction false} PicksAgree<V(!new)>(db: map<string, V>, s: Store<V>, picks: seq<Pick>, key: string)
    requires RunsAll(s, picks) && FillsAgree(db, s, key)
    requires EntryAgrees(db, s, key) || (Succeeds(picks) && Waits(s, key))
    ensures EntryAgrees(db, RanAll(s, picks), key)
    decreases picks
  {
    hide FillsAgree, EntryAgrees, Ran;
    if picks != [] {
      PickFirst(s, picks);
      PickAgrees(db, s, picks[0], key);
      assert picks[0] in picks && forall p | p in picks[1..] :: p in picks;
      PicksAgree(db, Ran(s, picks[0].at, picks[0].ok, picks[0].now), picks[1..], key);
    }
  }

  lemma PickMore<V>(s: Store<V>, p: Pick, picks: seq<Pick>)
    requires p.at < |s.queue| && RunsAll(Ran(s, p.at, p.ok, p.now), picks)
    ensures RunsAll(s, [p] + picks)
    ensures RanAll(s, [p] + picks) == RanAll(Ran(s, p.at, p.ok, p.now), picks)
  {
    assert ([p] + picks)[1..] == picks;
  }

  /** The order that runs a fill last, with success: its value is then in the cache, unexpired. */
  lemma {:induction false} RunLast<V>(s: Store<V>, n: nat, now: int) returns (picks: seq<Pick>)
    requires n < |s.queue| && s.queue[n].Fill?
    ensures RunsAll(s, picks) && Succeeds(picks)
    ensures var key := s.queue[n].key;
      Live(RanAll(s, picks).cache, key, now) && RanAll(s, picks).cache[key].value == s.queue[n].value
    decreases |s.queue|
  {
    if |s.queue| == 1 {
      picks := [Pick(0, true, now)];
      assert picks[1..] == [];
    } else {
      var p := Pick(if n > 0 then 0 else 1, true, now);
      var s' := Ran(s, p.at, p.ok, p.now);
      var m := if n > 0 then n - 1 else 0;
      assert s'.queue[m] == s.queue[n];
      var rest := RunLast(s', m, now);
      PickMore(s, p, rest);
      picks := [p] + rest;
    }
  }

  lemma BadFillLast<V(!new)>(db: map<string, V>, s: Store<V>, key: string, now: int) returns (picks: seq<Pick>)
    requires !FillsAgree(db, s, key)
    ensures RunsAll(s, picks) && Succeeds(picks)
    ensures Live(RanAll(s, picks).cache, key, now) && !EntryAgrees(db, RanAll(s, picks), key)
  {
    var j :| j in s.queue && j.key == key && j.Fill? && Lookup(db, key) != Some(j.value);
    var n :| 0 <= n < |s.queue| && s.queue[n] == j;
    picks := RunLast(s, n, now);
  }

  /** When every job fails the cache stays as it is. */
  lemma {:induction false} AllFail<V>(s: Store<V>, now: int) returns (picks: seq<Pick>)
    ensures RunsAll(s, picks) && RanAll(s, picks).cache == s.cache
    decreases |s.queue|
  {
    if s.queue == [] {
      picks := [];
    } else {
      var p := Pick(0, false, now);
      var rest := AllFail(Ran(s, 0, false, now), now);
      PickMore(s, p, rest);
      picks := [p] + rest;
    }
  }

  lemma {:induction false} LastWaits<V>(queue: seq<Job<V>>, key: string)
    ensures LastJob(queue, key).Some? ==> LastJob(queue, key).value in queue
  {
    if queue != [] { LastWaits(queue[..|queue| - 1], key); }
  }

  /**
    Goroutines run jobs in any order. After serialised calls, whatever order the waiting
    jobs succeed in leaves the key's entry absent or the database's, if and only if every
    waiting fill of the key brings what the database holds; otherwise some order leaves
    an unexpired entry that is not the database's.
  */
  lemma AnyOrderAgreesExactly<V(!new)>(db: map<string, V>, s: Store<V>, key: string, now: int)
    requires Reflects(db, s, key)
    ensures (forall picks: seq<Pick> | RunsAll(s, picks) && Succeeds(picks) ::
               EntryAgrees(db, RanAll(s, picks), key))
            <==> FillsAgree(db, s, key)
    ensures !FillsAgree(db, s, key) ==>
              exists picks: seq<Pick> :: RunsAll(s, picks) && Succeeds(picks)
                && Live(RanAll(s, picks).cache, key, now) && !EntryAgrees(db, RanAll(s, picks), key)
  {
    if FillsAgree(db, s, key) {
      LastWaits(s.queue, key);
      LastJobKey(s.queue, key);
      assert Waits(s, key) || EntryAgrees(db, s, key);
      forall picks: seq<Pick> | RunsAll(s, picks) && Succeeds(picks) ensures EntryAgrees(db, RanAll(s, picks), key) {
        PicksAgree(db, s, picks, key);
      }
    } else {
      var picks := BadFillLast(db, s, key, now);
    }
  }

  /** When jobs may also fail, the entry that is already there must be the database's too. */
  lemma AnyOutcomeAgreesExactly<V(!new)>(db: map<string, V>, s: Store<V>, key: string, now: int)
    ensures (forall picks: seq<Pick> | RunsAll(s, picks) :: EntryAgrees(db, RanAll(s, picks), key))
            <==> FillsAgree(db, s, key) && EntryAgrees(db, s, key)
  {
    if !EntryAgrees(db, s, key) {
      var picks := AllFail(s, now);
      assert !EntryAgrees(db, RanAll(s, picks), key);
    } else if FillsAgree(db, s, key) {
      forall picks: seq<Pick> | RunsAll(s, picks) ensures EntryAgrees(db, RanAll(s, picks), key) {
        PicksAgree(db, s, picks, key);
      }
    } else {
      var picks := BadFillLast(db, s, key, now);
    }
  }

  /** Two writes of one key whose jobs run in the wrong order leave the older value in the cache. */
  lemma SwappedJobsDisagree<V(!new)>(db: map<string, V>, s: Store<V>, key: string, v: V, w: V, ttl: int, now: int)
    requires s.queue == [] && v != w
    ensures var (db1, s1) := Do(db, s, Set(key, v, ttl, false), now);
      var (db2, s2) := Do(db1, s1, Set(key, w, ttl, false), now);
      && |s2.queue| == 2
      && var s3 := Ran(Ran(s2, 1, true, now), 0, true, now);
         s3.queue == [] && Live(s3.cache, key, now) && s3.cache[key].value == v && db2[key] == w
         && !Reflects(db2, s3, key)
  {
    var (db1, s1) := Do(db, s, Set(key, v, ttl, false), now);
    var (db2, s2) := Do(db1, s1, Set(key, w, ttl, false), now);
    assert s2.queue == [Fill(key, v, ttl), Fill(key, w, ttl)];
    var s3 := Ran(s2, 1, true, now);
    assert s3.queue == [Fill(key, v, ttl)];
    assert Ran(s3, 0, true, now).queue == [];
  }
}
