/**
  The in-memory cache driver (pkg/cache/in-memory.go): the object, and the
  interleaving of its critical sections when many goroutines use it. `Get` reads the
  entry under the read lock, compares its expiry with the clock without a lock, and
  deletes an expired entry in a later critical section.
*/
module InMemoryCache {
  import opened Strings

  /** `expires` is `None` for the zero time, that is for a ttl that is not positive. */
  datatype Item = Item(data: Bytes, expires: Option<int>)

  function Expiry(ttl: int, now: int): Option<int> {
    if ttl > 0 then Some(now + ttl) else None
  }

  predicate Expired(expires: Option<int>, now: int) {
    expires.Some? && now > expires.value
  }

  predicate Live(store: map<string, Item>, key: string, now: int) {
    key in store && !Expired(store[key].expires, now)
  }

  class Cache {
    var store: map<string, Item>

    constructor ()
      ensures store == map[]
    {
      store := map[];
    }

    method Set(key: string, data: Bytes, ttl: int, now: int)
      modifies this
      ensures store == old(store)[key := Item(data, Expiry(ttl, now))]
    {
      var expires := None;
      if ttl > 0 { expires := Some(now + ttl); }
      store := store[key := Item(data, expires)];
    }

    method Get(key: string, now: int) returns (r: Option<Bytes>)
      modifies this
      ensures r == if Live(old(store), key, now) then Some(old(store)[key].data) else None
      ensures store == if Live(old(store), key, now) then old(store) else old(store) - {key}
    {
      if key !in store { return None; }
      var item := store[key];
      if Expired(item.expires, now) {
        Delete(key);
        return None;
      }
      return Some(item.data);
    }

    method Delete(key: string)
      modifies this
      ensures store == old(store) - {key}
    {
      store := store - {key};
    }
  }

  /** How long an entry lives: for ever without a positive ttl, else up to and including its last instant. */
  lemma LivesForItsTtl(store: map<string, Item>, key: string, data: Bytes, ttl: int, now: int, time: int)
    ensures Live(store[key := Item(data, Expiry(ttl, now))], key, time) <==> ttl <= 0 || time <= now + ttl
    ensures !Live(store - {key}, key, time)
  {
  }

  // ---------- critical sections ----------

  /** One critical section that changed the store, in lock order. */
  datatype Event =
    | WasSet(key: string, item: Item)
    | WasDeleted(key: string)
    | WasEvicted(key: string, seen: Item, at: nat, time: int)   // by a `Get` that read `seen` after `at` events

  /** A `Get` under way; `at` is the number of events before its read section. */
  datatype Reader =
    | Checking(key: string, seen: Option<Item>, at: nat)
    | Evicting(key: string, stale: Item, at: nat)

  /** A `Get` that returned data, and when it checked the expiry. */
  datatype Hit = Hit(key: string, data: Bytes, at: nat, time: int)

  datatype State = State(clock: int, store: map<string, Item>, readers: map<nat, Reader>,
                         history: seq<Event>, hits: seq<Hit>)

  datatype Step =
    | Tock(clock: int)
    | Set(key: string, data: Bytes, ttl: int)
    | Delete(key: string)
    | Read(reader: nat, key: string)
    | Check(reader: nat)
    | Evict(reader: nat)

  predicate Enabled(s: State, step: Step) {
    match step
    case Tock(c) => s.clock <= c
    case Set(_, _, _) => true
    case Delete(_) => true
    case Read(r, _) => r !in s.readers
    case Check(r) => r in s.readers && s.readers[r].Checking?
    case Evict(r) => r in s.readers && s.readers[r].Evicting?
  }

  function After(s: State, step: Step): State
    requires Enabled(s, step)
  {
    match step
    case Tock(c) => s.(clock := c)
    case Set(key, data, ttl) =>
      var item := Item(data, Expiry(ttl, s.clock));
      s.(store := s.store[key := item], history := s.history + [WasSet(key, item)])
    case Delete(key) =>
      s.(store := s.store - {key}, history := s.history + [WasDeleted(key)])
    case Read(r, key) =>
      var seen := if key in s.store then Some(s.store[key]) else None;
      s.(readers := s.readers[r := Checking(key, seen, |s.history|)])
    case Check(r) =>
      var Checking(key, seen, at) := s.readers[r];
      if seen.None? then s.(readers := s.readers - {r})
      else if Expired(seen.value.expires, s.clock) then s.(readers := s.readers[r := Evicting(key, seen.value, at)])
      else s.(readers := s.readers - {r}, hits := s.hits + [Hit(key, seen.value.data, at, s.clock)])
    case Evict(r) =>
      var Evicting(key, stale, at) := s.readers[r];
      s.(store := s.store - {key}, readers := s.readers - {r},
         history := s.history + [WasEvicted(key, stale, at, s.clock)])
  }

  ghost predicate Run(trace: seq<State>, steps: seq<Step>) {
    && |trace| == |steps| + 1
    && trace[0] == State(trace[0].clock, map[], map[], [], [])
    && forall k | 0 <= k < |steps| :: Enabled(trace[k], steps[k]) && trace[k + 1] == After(trace[k], steps[k])
  }

  // ---------- the specification: the history alone ----------

  /** The latest `Set` of the key that no `Delete` followed; evictions play no part. */
  function Latest(history: seq<Event>, key: string): Option<Item> {
    if history == [] then None
    else
      match history[|history| - 1]
      case WasSet(k, item) => if k == key then Some(item) else Latest(history[..|history| - 1], key)
      case WasDeleted(k) => if k == key then None else Latest(history[..|history| - 1], key)
      case WasEvicted(_, _, _, _) => Latest(history[..|history| - 1], key)
  }

  /** The latest event on the key other than another key's is an eviction. */
  predicate Lost(history: seq<Event>, key: string) {
    if history == [] then false
    else
      var last := history[|history| - 1];
      if last.key == key then last.WasEvicted? else Lost(history[..|history| - 1], key)
  }

  ghost predicate Explained(history: seq<Event>, e: Event, bound: nat) {
    e.WasEvicted? ==>
      && e.at <= bound <= |history| && Latest(history[..e.at], e.key) == Some(e.seen)
      && Expired(e.seen.expires, e.time)
  }

  ghost predicate ReaderInv(s: State, r: Reader) {
    && r.at <= |s.history|
    && (r.Checking? && r.seen.Some? ==> Latest(s.history[..r.at], r.key) == r.seen)
    && (r.Evicting? ==> Latest(s.history[..r.at], r.key) == Some(r.stale) && Expired(r.stale.expires, s.clock))
  }

  ghost predicate HitInv(s: State, h: Hit) {
    && h.at <= |s.history| && h.time <= s.clock
    && exists expires ::
         Latest(s.history[..h.at], h.key) == Some(Item(h.data, expires)) && !Expired(expires, h.time)
  }

  ghost predicate StoreInv(store: map<string, Item>, history: seq<Event>) {
    && (forall key :: key in store <==> Latest(history, key).Some? && !Lost(history, key))
    && (forall key | key in store :: Latest(history, key) == Some(store[key]))
  }

  ghost predicate Inv(s: State) {
    && StoreInv(s.store, s.history)
    && (forall r | r in s.readers :: ReaderInv(s, s.readers[r]))
    && (forall h | h in s.hits :: HitInv(s, h))
    && (forall k | 0 <= k < |s.history| :: Explained(s.history, s.history[k], k))
    && (forall e | e in s.history && e.WasEvicted? :: e.time <= s.clock)
  }

  /** Reader and hit conditions look only at a prefix of the history. */
  lemma Extended(s: State, s': State)
    requires s.history <= s'.history && s.clock <= s'.clock
    ensures forall r :: ReaderInv(s, r) ==> ReaderInv(s', r)
    ensures forall h :: HitInv(s, h) ==> HitInv(s', h)
    ensures forall k | 0 <= k < |s.history| && Explained(s.history, s.history[k], k) ::
              Explained(s'.history, s'.history[k], k)
  {
    hide Latest;
    forall n: nat | n <= |s.history| ensures s'.history[..n] == s.history[..n] {
    }
    forall h | HitInv(s, h) ensures HitInv(s', h) {
      assert s'.history[..h.at] == s.history[..h.at];
    }
    forall r | ReaderInv(s, r) ensures ReaderInv(s', r) {
      assert s'.history[..r.at] == s.history[..r.at];
    }
    forall k | 0 <= k < |s.history| && Explained(s.history, s.history[k], k)
      ensures Explained(s'.history, s'.history[k], k)
    {
      if s.history[k].WasEvicted? { assert s'.history[..s.history[k].at] == s.history[..s.history[k].at]; }
    }
  }

  lemma Appended(history: seq<Event>, e: Event, key: string)
    ensures Latest(history + [e], key) ==
            if e.WasEvicted? || e.key != key then Latest(history, key)
            else if e.WasSet? then Some(e.item) else None
    ensures Lost(history + [e], key) <==> if e.key == key then e.WasEvicted? else Lost(history, key)
  {
    assert (history + [e])[..|history|] == history;
  }

  /** The store after one more event. */
  function Applied(store: map<string, Item>, e: Event): map<string, Item> {
    if e.WasSet? then store[e.key := e.item] else store - {e.key}
  }

  lemma StoreFollows(store: map<string, Item>, history: seq<Event>, e: Event)
    requires StoreInv(store, history)
    ensures StoreInv(Applied(store, e), history + [e])
  {
    hide Latest, Lost;
    forall key { Appended(history, e, key); }
  }

  lemma StepKeeps(s: State, step: Step)
    requires Inv(s) && Enabled(s, step)
    ensures Inv(After(s, step))
  {
    hide ReaderInv, HitInv, Explained, StoreInv;
    var s' := After(s, step);
    Extended(s, s');
    match step
    case Set(key, data, ttl) =>
      StoreFollows(s.store, s.history, s'.history[|s.history|]);
      NotEvicted(s'.history, |s.history|);
    case Delete(key) =>
      StoreFollows(s.store, s.history, s'.history[|s.history|]);
      NotEvicted(s'.history, |s.history|);
    case Evict(r) =>
      StoreFollows(s.store, s.history, s'.history[|s.history|]);
      EvictionExplained(s, r);
    case Read(r, key) => ReadSection(s, s'.readers[r]);
    case Check(r) => CheckSection(s, r);
    case Tock(_) =>
  }

  lemma NotEvicted(history: seq<Event>, k: nat)
    requires k < |history| && !history[k].WasEvicted?
    ensures Explained(history, history[k], k)
  {
    hide Latest;
  }

  lemma EvictionExplained(s: State, r: nat)
    requires r in s.readers && s.readers[r].Evicting? && ReaderInv(s, s.readers[r])
    ensures var history := After(s, Evict(r)).history;
      Explained(history, history[|s.history|], |s.history|)
  {
    hide Latest;
    var history := After(s, Evict(r)).history;
    assert history[..s.readers[r].at] == s.history[..s.readers[r].at];
  }

  lemma ReadSection(s: State, r: Reader)
    requires Inv(s) && r.Checking? && r.at == |s.history|
    requires r.seen == if r.key in s.store then Some(s.store[r.key]) else None
    ensures ReaderInv(s, r)
  {
    hide Latest, Lost, HitInv, Explained;
    assert s.history[..r.at] == s.history;
  }

  lemma CheckSection(s: State, r: nat)
    requires r in s.readers && s.readers[r].Checking? && ReaderInv(s, s.readers[r])
    ensures var s' := After(s, Check(r));
      && (r in s'.readers ==> ReaderInv(s', s'.readers[r]))
      && (forall h | h in s'.hits && h !in s.hits :: HitInv(s', h))
  {
    hide Latest;
    var s', x := After(s, Check(r)), s.readers[r];
    if x.seen.Some? && !Expired(x.seen.value.expires, s.clock) {
      var expires := x.seen.value.expires;
      assert Latest(s.history[..x.at], x.key) == Some(Item(x.seen.value.data, expires));
    }
  }

  lemma {:induction false} RunInv(trace: seq<State>, steps: seq<Step>, k: nat)
    requires Run(trace, steps) && k <= |steps|
    ensures Inv(trace[k])
  {
    if k > 0 {
      hide Inv, Enabled, After;
      RunInv(trace, steps, k - 1);
      StepKeeps(trace[k - 1], steps[k - 1]);
    } else {
      hide ReaderInv, HitInv, Explained;
    }
  }

  /**
    A hit returns the value of the latest `Set` that no `Delete` had followed when the
    hit's read section ran, and that value was not expired when its expiry was checked.
  */
  lemma HitsAreLatest(trace: seq<State>, steps: seq<Step>, k: nat, h: Hit)
    requires Run(trace, steps) && k <= |steps| && h in trace[k].hits
    ensures h.at <= |trace[k].history| && h.time <= trace[k].clock
    ensures exists expires ::
              Latest(trace[k].history[..h.at], h.key) == Some(Item(h.data, expires)) &&
              !Expired(expires, h.time)
  {
    hide Run, Latest, Lost, ReaderInv, Explained, Expired;
    RunInv(trace, steps, k);
  }

  /**
    The store is a map with expiry and spurious eviction: an entry is there if and only
    if it was set, not deleted since and not evicted since, and it is the latest one,
    so no eviction brings back an older entry. Every eviction was caused by a `Get`
    that had read the entry then latest under that key, and that entry had expired when
    the eviction took place.
  */
  lemma StoreIsLatestOrLost(trace: seq<State>, steps: seq<Step>, k: nat, key: string)
    requires Run(trace, steps) && k <= |steps|
    ensures var s := trace[k];
      && (key in s.store <==> Latest(s.history, key).Some? && !Lost(s.history, key))
      && (key in s.store ==> Latest(s.history, key) == Some(s.store[key]))
      && (forall e | 0 <= e < |s.history| && s.history[e].WasEvicted? ::
            s.history[e].at <= e && Expired(s.history[e].seen.expires, s.history[e].time)
            && s.history[e].time <= s.clock
            && Latest(s.history[..s.history[e].at], s.history[e].key) == Some(s.history[e].seen))
  {
    hide Latest, Lost, ReaderInv, HitInv;
    RunInv(trace, steps, k);
    assert forall e | 0 <= e < |trace[k].history| :: trace[k].history[e] in trace[k].history;
  }

  /** The three sections that change the store, and that each is recorded. */
  lemma WritesExactly(s: State, key: string, data: Bytes, ttl: int)
    ensures var item, s' := Item(data, if ttl > 0 then Some(s.clock + ttl) else None), After(s, Set(key, data, ttl));
      s' == s.(store := s.store[key := item], history := s.history + [WasSet(key, item)])
    ensures After(s, Delete(key)) == s.(store := s.store - {key}, history := s.history + [WasDeleted(key)])
    ensures forall r | r in s.readers && s.readers[r].Evicting? ::
              var x, s' := s.readers[r], After(s, Evict(r));
              s' == s.(store := s.store - {x.key}, readers := s.readers - {r},
                       history := s.history + [WasEvicted(x.key, x.stale, x.at, s.clock)])
  {
  }

  predicate OfReader(step: Step, r: nat) {
    match step
    case Read(q, _) => q == r
    case Check(q) => q == r
    case Evict(q) => q == r
    case _ => false
  }

  lemma {:induction false} ReaderWaits(trace: seq<State>, steps: seq<Step>, k: nat, m: nat, r: nat)
    requires Run(trace, steps) && k <= m <= |steps| && r in trace[k].readers
    requires forall n | k <= n < m :: !OfReader(steps[n], r)
    ensures r in trace[m].readers && trace[m].readers[r] == trace[k].readers[r]
    decreases m
  {
    if k < m {
      ReaderWaits(trace, steps, k, m - 1, r);
      assert Enabled(trace[m - 1], steps[m - 1]) && trace[m] == After(trace[m - 1], steps[m - 1]);
    }
  }

  /**
    A `Get` whole: its second section comes after its read section, hits with the data it
    read if the entry had not expired by then, and otherwise misses; an expired entry is
    then about to be deleted.
  */
  lemma GetsExactly(trace: seq<State>, steps: seq<Step>, k: nat, m: nat, r: nat, key: string)
    requires Run(trace, steps) && k < m < |steps| && steps[k] == Read(r, key)
    requires OfReader(steps[m], r) && forall n | k < n < m :: !OfReader(steps[n], r)
    ensures steps[m] == Check(r)
    ensures var store, s, s' := trace[k].store, trace[m], trace[m + 1];
      && s'.store == s.store && s'.history == s.history
      && (if key in store && (store[key].expires.None? || s.clock <= store[key].expires.value) then
            s'.hits == s.hits + [Hit(key, store[key].data, |trace[k].history|, s.clock)] && r !in s'.readers
          else
            && s'.hits == s.hits
            && (r in s'.readers <==> key in store)
            && (r in s'.readers ==> s'.readers[r] == Evicting(key, store[key], |trace[k].history|)))
  {
    assert Enabled(trace[k], steps[k]) && trace[k + 1] == After(trace[k], steps[k]);
    ReaderWaits(trace, steps, k + 1, m, r);
    assert Enabled(trace[m], steps[m]) && trace[m + 1] == After(trace[m], steps[m]);
  }

  /**
    What the late deletion costs: when a `Get` has found an expired entry, whatever is
    set under the key before its deletion runs is lost, though it is the latest entry.
  */
  lemma LateDeletionLosesAFreshEntry(s: State, r: nat, data: Bytes, ttl: int)
    requires r in s.readers && s.readers[r].Evicting?
    ensures var key := s.readers[r].key;
      var s' := After(After(s, Set(key, data, ttl)), Evict(r));
      && key !in s'.store
      && Latest(s'.history, key) == Some(Item(data, Expiry(ttl, s.clock)))
      && Lost(s'.history, key)
  {
    hide Latest, Lost;
    var key := s.readers[r].key;
    var s1 := After(s, Set(key, data, ttl));
    var s2 := After(s1, Evict(r));
    Appended(s.history, s1.history[|s.history|], key);
    Appended(s1.history, s2.history[|s1.history|], key);
  }
}
