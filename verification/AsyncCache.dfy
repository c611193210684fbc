/**
  The asynchronous operations of the cache synchroniser (pkg/synq/async.go) as a step
  system. A call runs its database callback and then starts a goroutine, here a job,
  that changes the cache; jobs run in any order. `GetAsync` goes through the critical
  sections of the in-memory driver: it reads the entry, checks its expiry, and deletes
  an expired one later.
*/
module AsyncCache {
  import opened Strings
  import InMemoryCache

  datatype Entry<V> = Entry(value: V, expires: Option<int>)

  datatype Job<V> = Fill(key: string, value: V, ttl: int) | Clear(key: string)

  /** A call under way. */
  datatype Call<V> =
    | Looking(key: string, ttl: int, seen: Option<Entry<V>>)   // entry read, expiry not yet checked
    | Stale(key: string, ttl: int)                             // about to delete the expired entry
    | Missed(key: string, ttl: int)                            // about to run getFn
    | Fetched(key: string, ttl: int, value: V)                 // about to start the fill and return
    | Written(key: string, ttl: int, value: V)                 // setFn done, about to start the fill
    | Erased(key: string)                                      // deleteFn done, about to start the clear

  datatype Answer<V> = Hit(value: V) | Fresh(value: V) | Absent | Faulted

  datatype Reply<V> = Reply(key: string, answer: Answer<V>, time: int)

  datatype State<V> = State(clock: int, db: map<string, V>, cache: map<string, Entry<V>>,
                            jobs: map<nat, Job<V>>, calls: map<nat, Call<V>>, replies: seq<Reply<V>>)

  /** `db` is the database after the callback; callbacks that fail change nothing and are no step. */
  datatype Step<V> =
    | Tock(clock: int)
    | GetRead(call: nat, key: string, ttl: int)
    | GetCheck(call: nat)
    | GetEvict(call: nat)
    | GetFetch(call: nat, fault: bool)
    | SetWrite(call: nat, key: string, value: V, ttl: int, db: map<string, V>)
    | DeleteWrite(call: nat, key: string, db: map<string, V>)
    | Start(call: nat, job: nat)                               // the `go` statement and the return
    | RunJob(job: nat, ok: bool)                               // a failing job only logs

  function Lookup<V>(db: map<string, V>, key: string): Option<V> {
    if key in db then Some(db[key]) else None
  }

  function Worked<V>(cache: map<string, Entry<V>>, job: Job<V>, now: int): map<string, Entry<V>> {
    match job
    case Fill(key, value, ttl) => cache[key := Entry(value, InMemoryCache.Expiry(ttl, now))]
    case Clear(key) => cache - {key}
  }

  predicate Enabled<V>(s: State<V>, step: Step<V>) {
    match step
    case Tock(c) => s.clock <= c
    case GetRead(c, _, _) => c !in s.calls
    case GetCheck(c) => c in s.calls && s.calls[c].Looking?
    case GetEvict(c) => c in s.calls && s.calls[c].Stale?
    case GetFetch(c, _) => c in s.calls && s.calls[c].Missed?
    case SetWrite(c, _, _, _, _) => c !in s.calls
    case DeleteWrite(c, _, _) => c !in s.calls
    case Start(c, j) =>
      c in s.calls && (s.calls[c].Fetched? || s.calls[c].Written? || s.calls[c].Erased?) && j !in s.jobs
    case RunJob(j, _) => j in s.jobs
  }

  function Answered<V>(s: State<V>, c: nat, answer: Answer<V>): State<V>
    requires c in s.calls
  {
    s.(calls := s.calls - {c}, replies := s.replies + [Reply(s.calls[c].key, answer, s.clock)])
  }

  function Checked<V>(s: State<V>, c: nat): State<V>
    requires c in s.calls && s.calls[c].Looking?
  {
    var Looking(key, ttl, seen) := s.calls[c];
    if seen.None? then s.(calls := s.calls[c := Missed(key, ttl)])
    else if InMemoryCache.Expired(seen.value.expires, s.clock) then s.(calls := s.calls[c := Stale(key, ttl)])
    else Answered(s, c, Hit(seen.value.value))
  }

  function FetchedFrom<V>(s: State<V>, c: nat, fault: bool): State<V>
    requires c in s.calls && s.calls[c].Missed?
  {
    var Missed(key, ttl) := s.calls[c];
    if fault then Answered(s, c, Faulted)
    else if key in s.db then s.(calls := s.calls[c := Fetched(key, ttl, s.db[key])])
    else Answered(s, c, Absent)
  }

  function Started<V>(s: State<V>, c: nat, j: nat): State<V>
    requires c in s.calls && (s.calls[c].Fetched? || s.calls[c].Written? || s.calls[c].Erased?)
  {
    match s.calls[c]
    case Fetched(key, ttl, value) =>
      Answered(s, c, Fresh(value)).(jobs := s.jobs[j := Fill(key, value, ttl)])
    case Written(key, ttl, value) =>
      s.(calls := s.calls - {c}, jobs := s.jobs[j := Fill(key, value, ttl)])
    case Erased(key) =>
      s.(calls := s.calls - {c}, jobs := s.jobs[j := Clear(key)])
  }

  function After<V>(s: State<V>, step: Step<V>): State<V>
    requires Enabled(s, step)
  {
    match step
    case Tock(c) => s.(clock := c)
    case GetRead(c, key, ttl) =>
      s.(calls := s.calls[c := Looking(key, ttl, if key in s.cache then Some(s.cache[key]) else None)])
    case GetCheck(c) => Checked(s, c)
    case GetEvict(c) =>
      var Stale(key, ttl) := s.calls[c];
      s.(cache := s.cache - {key}, calls := s.calls[c := Missed(key, ttl)])
    case GetFetch(c, fault) => FetchedFrom(s, c, fault)
    case SetWrite(c, key, value, ttl, db) => s.(db := db, calls := s.calls[c := Written(key, ttl, value)])
    case DeleteWrite(c, key, db) => s.(db := db, calls := s.calls[c := Erased(key)])
    case Start(c, j) => Started(s, c, j)
    case RunJob(j, ok) =>
      s.(jobs := s.jobs - {j}, cache := if ok then Worked(s.cache, s.jobs[j], s.clock) else s.cache)
  }

  /** A run with any database, an empty cache and nothing under way at its start. */
  ghost predicate Run<V(!new)>(trace: seq<State<V>>, steps: seq<Step<V>>) {
    && |trace| == |steps| + 1
    && trace[0] == State(trace[0].clock, trace[0].db, map[], map[], map[], [])
    && forall k | 0 <= k < |steps| :: Enabled(trace[k], steps[k]) && trace[k + 1] == After(trace[k], steps[k])
  }

  // ---------- a predicate on everything that carries a value for a key ----------

  /**
    Cache entries and entries in a reader's hands satisfy `entry`; values in jobs and
    calls satisfy `value`; the ttls they carry satisfy `ttl`.
  */
  ghost predicate Carries<V(!new)>(s: State<V>, key: string,
                                   entry: Entry<V> -> bool, value: V -> bool, ttl: int -> bool) {
    && (key in s.cache ==> entry(s.cache[key]))
    && (forall j | j in s.jobs && s.jobs[j].key == key && s.jobs[j].Fill? ::
          value(s.jobs[j].value) && ttl(s.jobs[j].ttl))
    && (forall c | c in s.calls && s.calls[c].key == key :: CallCarries(s.calls[c], entry, value, ttl))
  }

  predicate CallCarries<V>(c: Call<V>, entry: Entry<V> -> bool, value: V -> bool, ttl: int -> bool) {
    match c
    case Looking(_, t, seen) => ttl(t) && (seen.Some? ==> entry(seen.value))
    case Stale(_, t) => ttl(t)
    case Missed(_, t) => ttl(t)
    case Fetched(_, t, v) => ttl(t) && value(v)
    case Written(_, t, v) => ttl(t) && value(v)
    case Erased(_) => true
  }

  /** What a step brings in for the key is allowed. */
  ghost predicate Allowed<V(!new)>(s: State<V>, step: Step<V>, key: string,
                                   entry: Entry<V> -> bool, value: V -> bool, ttl: int -> bool) {
    && (step.GetRead? && step.key == key ==> ttl(step.ttl))
    && (step.SetWrite? && step.key == key ==> ttl(step.ttl) && value(step.value))
    && (step.GetFetch? && key in s.db ==> value(s.db[key]))
    && (forall v, t :: value(v) && ttl(t) ==> entry(Entry(v, InMemoryCache.Expiry(t, s.clock))))
  }

  lemma CarriesJob<V(!new)>(s: State<V>, j: nat, ok: bool, key: string,
                            entry: Entry<V> -> bool, value: V -> bool, ttl: int -> bool)
    requires j in s.jobs && Carries(s, key, entry, value, ttl)
    requires forall v, t :: value(v) && ttl(t) ==> entry(Entry(v, InMemoryCache.Expiry(t, s.clock)))
    ensures Carries(After(s, RunJob(j, ok)), key, entry, value, ttl)
  {
  }

  lemma CarriesStart<V(!new)>(s: State<V>, c: nat, j: nat, key: string,
                              entry: Entry<V> -> bool, value: V -> bool, ttl: int -> bool)
    requires Enabled(s, Start(c, j)) && Carries(s, key, entry, value, ttl)
    ensures Carries(After(s, Start(c, j)), key, entry, value, ttl)
  {
  }

  /** One call goes on or returns, and at most an entry goes; nothing else changes. */
  lemma CarriesMove<V(!new)>(s: State<V>, s': State<V>, c: nat, key: string,
                             entry: Entry<V> -> bool, value: V -> bool, ttl: int -> bool)
    requires Carries(s, key, entry, value, ttl) && s'.jobs == s.jobs
    requires key in s'.cache ==> key in s.cache && s'.cache[key] == s.cache[key]
    requires forall d | d in s'.calls && d != c :: d in s.calls && s'.calls[d] == s.calls[d]
    requires c in s'.calls && s'.calls[c].key == key ==> CallCarries(s'.calls[c], entry, value, ttl)
    ensures Carries(s', key, entry, value, ttl)
  {
    hide CallCarries;
  }

  lemma CarriesCheck<V(!new)>(s: State<V>, c: nat, key: string,
                              entry: Entry<V> -> bool, value: V -> bool, ttl: int -> bool)
    requires Enabled(s, GetCheck(c)) && Carries(s, key, entry, value, ttl)
    ensures Carries(After(s, GetCheck(c)), key, entry, value, ttl)
  {
    assert s.calls[c].key == key ==> CallCarries(s.calls[c], entry, value, ttl);
    hide Carries;
    CarriesMove(s, Checked(s, c), c, key, entry, value, ttl);
  }

  lemma CarriesEvict<V(!new)>(s: State<V>, c: nat, key: string,
                              entry: Entry<V> -> bool, value: V -> bool, ttl: int -> bool)
    requires Enabled(s, GetEvict(c)) && Carries(s, key, entry, value, ttl)
    ensures Carries(After(s, GetEvict(c)), key, entry, value, ttl)
  {
    assert s.calls[c].key == key ==> CallCarries(s.calls[c], entry, value, ttl);
    hide Carries;
    CarriesMove(s, After(s, GetEvict(c)), c, key, entry, value, ttl);
  }

  lemma CarriesFetch<V(!new)>(s: State<V>, c: nat, fault: bool, key: string,
                              entry: Entry<V> -> bool, value: V -> bool, ttl: int -> bool)
    requires Enabled(s, GetFetch(c, fault)) && Carries(s, key, entry, value, ttl)
    requires key in s.db ==> value(s.db[key])
    ensures Carries(After(s, GetFetch(c, fault)), key, entry, value, ttl)
  {
    assert s.calls[c].key == key ==> CallCarries(s.calls[c], entry, value, ttl);
    hide Carries;
    CarriesMove(s, FetchedFrom(s, c, fault), c, key, entry, value, ttl);
  }

  /** The steps that begin a call, and time. */
  lemma CarriesCall<V(!new)>(s: State<V>, step: Step<V>, key: string,
                             entry: Entry<V> -> bool, value: V -> bool, ttl: int -> bool)
    requires step.Tock? || step.GetRead? || step.SetWrite? || step.DeleteWrite?
    requires Enabled(s, step) && Carries(s, key, entry, value, ttl) && Allowed(s, step, key, entry, value, ttl)
    ensures Carries(After(s, step), key, entry, value, ttl)
  {
    CarriesMove(s, After(s, step), if step.Tock? then 0 else step.call, key, entry, value, ttl);
  }

  /** Every step keeps what everything carries. */
  lemma CarriesStep<V(!new)>(s: State<V>, step: Step<V>, key: string,
                             entry: Entry<V> -> bool, value: V -> bool, ttl: int -> bool)
    requires Enabled(s, step) && Carries(s, key, entry, value, ttl) && Allowed(s, step, key, entry, value, ttl)
    ensures Carries(After(s, step), key, entry, value, ttl)
  {
    hide Carries, After;
    match step
    case RunJob(j, ok) => CarriesJob(s, j, ok, key, entry, value, ttl);
    case Start(c, j) => CarriesStart(s, c, j, key, entry, value, ttl);
    case GetCheck(c) => CarriesCheck(s, c, key, entry, value, ttl);
    case GetEvict(c) => CarriesEvict(s, c, key, entry, value, ttl);
    case GetFetch(c, fault) => CarriesFetch(s, c, fault, key, entry, value, ttl);
    case _ => CarriesCall(s, step, key, entry, value, ttl);
  }

  /** Returns are only ever appended, at most one by a step, and at the time of the step. */
  lemma OneReply<V>(s: State<V>, step: Step<V>)
    requires Enabled(s, step)
    ensures var s' := After(s, step);
      && s.replies <= s'.replies && |s'.replies| <= |s.replies| + 1
      && s.clock <= s'.clock
      && (step.SetWrite? ==> s'.db == step.db)
      && (|s'.replies| > |s.replies| ==>
            var r := s'.replies[|s.replies|];
            r.time == s.clock &&
            match r.answer
            case Hit(v) =>
              step.GetCheck? && s.calls[step.call].key == r.key && s.calls[step.call].seen.Some? &&
              s.calls[step.call].seen.value.value == v &&
              !InMemoryCache.Expired(s.calls[step.call].seen.value.expires, s.clock)
            case Fresh(v) => step.Start? && s.calls[step.call] == Fetched(r.key, s.calls[step.call].ttl, v)
            case Absent => r.key !in s.db
            case Faulted => true)
  {
  }

  /** What a step answers for the key was carried for it. */
  lemma ReplyCarried<V(!new)>(s: State<V>, step: Step<V>, key: string,
                              entry: Entry<V> -> bool, value: V -> bool, ttl: int -> bool)
    requires Enabled(s, step) && Carries(s, key, entry, value, ttl)
    ensures var s' := After(s, step);
      |s'.replies| > |s.replies| && s'.replies[|s.replies|].key == key ==>
        var r := s'.replies[|s.replies|];
        match r.answer
        case Hit(v) => exists e :: entry(e) && e.value == v && !InMemoryCache.Expired(e.expires, r.time)
        case Fresh(v) => value(v)
        case Absent => key !in s.db
        case Faulted => true
  {
    OneReply(s, step);
    hide After, Enabled;
    assert forall c | c in s.calls && s.calls[c].key == key :: CallCarries(s.calls[c], entry, value, ttl);
  }

  lemma CarriesWeaker<V(!new)>(s: State<V>, key: string, entry: Entry<V> -> bool, value: V -> bool, ttl: int -> bool,
                         entry': Entry<V> -> bool, value': V -> bool)
    requires Carries(s, key, entry, value, ttl)
    requires (forall e :: entry(e) ==> entry'(e)) && (forall v :: value(v) ==> value'(v))
    ensures Carries(s, key, entry', value', ttl)
  {
  }

  // ---------- what a call answers ----------

  predicate OfCall<V>(step: Step<V>, c: nat) {
    match step
    case GetRead(d, _, _) => d == c
    case GetCheck(d) => d == c
    case GetEvict(d) => d == c
    case GetFetch(d, _) => d == c
    case SetWrite(d, _, _, _, _) => d == c
    case DeleteWrite(d, _, _) => d == c
    case Start(d, _) => d == c
    case _ => false
  }

  lemma OtherStep<V>(s: State<V>, step: Step<V>, c: nat)
    requires Enabled(s, step) && !OfCall(step, c) && c in s.calls
    ensures c in After(s, step).calls && After(s, step).calls[c] == s.calls[c]
  {
  }

  /** A call stands where it stood until its next step. */
  lemma {:induction false} CallWaits<V(!new)>(trace: seq<State<V>>, steps: seq<Step<V>>, k: nat, m: nat, c: nat)
    requires Run(trace, steps) && k <= m <= |steps| && c in trace[k].calls
    requires forall n | k <= n < m :: !OfCall(steps[n], c)
    ensures c in trace[m].calls && trace[m].calls[c] == trace[k].calls[c]
    decreases m
  {
    hide After, Enabled, OfCall;
    if k < m {
      CallWaits(trace, steps, k, m - 1, c);
      OtherStep(trace[m - 1], steps[m - 1], c);
    }
  }

  /** Nobody but a failing callback answers an error. */
  lemma FaultNeedsFailure<V>(s: State<V>, step: Step<V>)
    requires Enabled(s, step)
    ensures var s' := After(s, step);
      |s'.replies| > |s.replies| && s'.replies[|s.replies|].answer.Faulted? ==> step.GetFetch? && step.fault
  {
  }

  /** Reply `n` is the error of a callback that failed between the two states. */
  ghost predicate FailedAt<V(!new)>(trace: seq<State<V>>, steps: seq<Step<V>>, p: nat, k: nat, n: nat)
    requires k <= |steps| && |trace| == |steps| + 1
  {
    exists m :: p <= m < k && |trace[m].replies| == n && steps[m].GetFetch? && steps[m].fault
  }

  lemma {:induction false} OnlyFailuresFault<V(!new)>(trace: seq<State<V>>, steps: seq<Step<V>>, p: nat, k: nat, n: nat)
    requires Run(trace, steps) && p <= k <= |steps|
    requires |trace[p].replies| <= n < |trace[k].replies| && trace[k].replies[n].answer.Faulted?
    ensures FailedAt(trace, steps, p, k, n)
    decreases k
  {
    hide After, Enabled;
    if p < k {
      var s, step := trace[k - 1], steps[k - 1];
      OneReply(s, step);
      if n < |s.replies| {
        OnlyFailuresFault(trace, steps, p, k - 1, n);
        var m :| p <= m < k - 1 && |trace[m].replies| == n && steps[m].GetFetch? && steps[m].fault;
      } else {
        FaultNeedsFailure(s, step);
      }
    }
  }

  /** A callback that does not fail: the next step of the call answers the row and starts its fill. */
  lemma MissAnswersTheRow<V(!new)>(trace: seq<State<V>>, steps: seq<Step<V>>, k: nat, m: nat, c: nat)
    requires Run(trace, steps) && k < m < |steps| && steps[k] == GetFetch(c, false)
    requires c in trace[k].calls && trace[k].calls[c].key in trace[k].db
    requires OfCall(steps[m], c) && forall n | k < n < m :: !OfCall(steps[n], c)
    ensures var key := trace[k].calls[c].key;
      var v := trace[k].db[key];
      && steps[m].Start?
      && trace[m + 1].replies == trace[m].replies + [Reply(key, Fresh(v), trace[m].clock)]
      && steps[m].job !in trace[m].jobs
      && trace[m + 1].jobs == trace[m].jobs[steps[m].job := Fill(key, v, trace[k].calls[c].ttl)]
      && trace[m + 1].db == trace[m].db && trace[m + 1].cache == trace[m].cache && c !in trace[m + 1].calls
  {
    var key, ttl := trace[k].calls[c].key, trace[k].calls[c].ttl;
    assert Enabled(trace[k], steps[k]) && trace[k + 1] == After(trace[k], steps[k]);
    assert trace[k + 1].calls[c] == Fetched(key, ttl, trace[k].db[key]);
    CallWaits(trace, steps, k + 1, m, c);
    assert Enabled(trace[m], steps[m]) && trace[m + 1] == After(trace[m], steps[m]);
  }

  /** A callback that finds no row, or fails, is answered at once, and nothing is filled. */
  lemma MissAnswersNothing<V>(s: State<V>, c: nat, fault: bool)
    requires Enabled(s, GetFetch(c, fault)) && (fault || s.calls[c].key !in s.db)
    ensures After(s, GetFetch(c, fault)) ==
            s.(calls := s.calls - {c},
               replies := s.replies + [Reply(s.calls[c].key, if fault then Faulted else Absent, s.clock)])
  {
  }

  /**
    The beginning of a `GetAsync`: what its second step does depends on the entry that it
    read and on the time of that step. An unexpired entry is the answer; an expired one
    is deleted by the third step; then, and without an entry, the callback comes next.
  */
  lemma ReadAnswersTheEntry<V(!new)>(trace: seq<State<V>>, steps: seq<Step<V>>, k: nat, m: nat, c: nat,
                                     key: string, ttl: int)
    requires Run(trace, steps) && k < m < |steps| && steps[k] == GetRead(c, key, ttl)
    requires OfCall(steps[m], c) && forall n | k < n < m :: !OfCall(steps[n], c)
    ensures steps[m] == GetCheck(c)
    ensures var cache, s, s' := trace[k].cache, trace[m], trace[m + 1];
      && s'.db == s.db && s'.cache == s.cache && s'.jobs == s.jobs
      && (if key in cache && (cache[key].expires.None? || s.clock <= cache[key].expires.value) then
            s'.replies == s.replies + [Reply(key, Hit(cache[key].value), s.clock)] && c !in s'.calls
          else
            && s'.replies == s.replies && c in s'.calls
            && s'.calls[c] == if key in cache then Stale(key, ttl) else Missed(key, ttl))
  {
    assert Enabled(trace[k], steps[k]) && trace[k + 1] == After(trace[k], steps[k]);
    CallWaits(trace, steps, k + 1, m, c);
    assert Enabled(trace[m], steps[m]) && trace[m + 1] == After(trace[m], steps[m]);
  }

  /** The deletion of an expired entry leads to the callback. */
  lemma EvictionMisses<V>(s: State<V>, c: nat)
    requires Enabled(s, GetEvict(c))
    ensures After(s, GetEvict(c)) ==
            s.(cache := s.cache - {s.calls[c].key}, calls := s.calls[c := Missed(s.calls[c].key, s.calls[c].ttl)])
  {
  }

  /** A write: the database at once, then a job, which the call starts without an answer. */
  lemma WritesStartJobs<V(!new)>(trace: seq<State<V>>, steps: seq<Step<V>>, k: nat, m: nat, c: nat)
    requires Run(trace, steps) && k < m < |steps| && (steps[k].SetWrite? || steps[k].DeleteWrite?) && steps[k].call == c
    requires OfCall(steps[m], c) && forall n | k < n < m :: !OfCall(steps[n], c)
    ensures trace[k + 1].db == steps[k].db && trace[k + 1].cache == trace[k].cache && trace[k + 1].jobs == trace[k].jobs
    ensures steps[m].Start? && trace[m + 1].replies == trace[m].replies && trace[m + 1].cache == trace[m].cache
    ensures trace[m + 1].jobs == trace[m].jobs[steps[m].job :=
              if steps[k].SetWrite? then Fill(steps[k].key, steps[k].value, steps[k].ttl) else Clear(steps[k].key)]
  {
    assert Enabled(trace[k], steps[k]) && trace[k + 1] == After(trace[k], steps[k]);
    CallWaits(trace, steps, k + 1, m, c);
    assert Enabled(trace[m], steps[m]) && trace[m + 1] == After(trace[m], steps[m]);
  }

  /** A job that succeeds: its entry lives for its ttl, or for ever when that is not positive. */
  lemma JobsFillAndClear<V>(s: State<V>, j: nat, time: int)
    requires Enabled(s, RunJob(j, true))
    ensures var s', job := After(s, RunJob(j, true)), s.jobs[j];
      && s'.jobs == s.jobs - {j} && s'.db == s.db && s'.calls == s.calls && s'.replies == s.replies
      && (forall other | other != job.key :: other in s'.cache <==> other in s.cache)
      && (forall other | other != job.key && other in s.cache :: s'.cache[other] == s.cache[other])
      && match job
         case Clear(key) => key !in s'.cache
         case Fill(key, value, ttl) =>
           && key in s'.cache && s'.cache[key].value == value
           && (InMemoryCache.Expired(s'.cache[key].expires, time) <==> ttl > 0 && time > s.clock + ttl)
  {
  }

  /** A job that fails leaves the cache. */
  lemma FailedJobs<V>(s: State<V>, j: nat)
    requires Enabled(s, RunJob(j, false))
    ensures After(s, RunJob(j, false)) == s.(jobs := s.jobs - {j})
  {
  }

  // ---------- convergence ----------

  ghost function Any<T>(): T -> bool {
    t => true
  }

  ghost function ExpiresBy<V>(deadline: int): Entry<V> -> bool {
    (e: Entry<V>) => e.expires.Some? && e.expires.value <= deadline
  }

  ghost function Positive(bound: int): int -> bool {
    t => 0 < t <= bound
  }

  ghost function Is<V>(db: Option<V>): V -> bool {
    v => db == Some(v)
  }

  ghost function IsOrExpiresBy<V>(db: Option<V>, deadline: int): Entry<V> -> bool {
    (e: Entry<V>) => db == Some(e.value) || (e.expires.Some? && e.expires.value <= deadline)
  }

  /** The ttls for the key are positive and at most `bound`. */
  ghost predicate PositiveTtls<V>(steps: seq<Step<V>>, key: string, bound: int) {
    forall k | 0 <= k < |steps| ::
      && (steps[k].GetRead? && steps[k].key == key ==> 0 < steps[k].ttl <= bound)
      && (steps[k].SetWrite? && steps[k].key == key ==> 0 < steps[k].ttl <= bound)
  }

  /** From step `p` on a successful setFn for the key makes it hold the value that was set. */
  ghost predicate WritesThrough<V>(steps: seq<Step<V>>, p: nat, key: string) {
    forall k | p <= k < |steps| && steps[k].SetWrite? && steps[k].key == key ::
      Lookup(steps[k].db, key) == Some(steps[k].value)
  }

  /** No job and no call under way carries another value for the key than the database holds. */
  ghost predicate Settled<V(!new)>(s: State<V>, key: string) {
    Carries(s, key, Any(), Is(Lookup(s.db, key)), Any())
  }

  /** Entries expire, and at the latest `bound` from now. */
  ghost predicate EntriesExpire<V(!new)>(s: State<V>, key: string, bound: int) {
    Carries(s, key, ExpiresBy(s.clock + bound), Any(), Positive(bound))
  }

  /** From some time on entries hold `value`, or expire by `deadline`. */
  ghost predicate Converging<V(!new)>(s: State<V>, key: string, value: Option<V>, deadline: int) {
    Carries(s, key, IsOrExpiresBy(value, deadline), Is(value), Any())
  }

  /** The answer is the database's. */
  predicate Agrees<V(==)>(answer: Answer<V>, db: Option<V>) {
    match answer
    case Hit(v) => db == Some(v)
    case Fresh(v) => db == Some(v)
    case Absent => db == None
    case Faulted => false
  }

  lemma {:induction false} EntriesAlwaysExpire<V(!new)>(trace: seq<State<V>>, steps: seq<Step<V>>, k: nat,
                                                 key: string, bound: int)
    requires Run(trace, steps) && k <= |steps| && PositiveTtls(steps, key, bound)
    ensures EntriesExpire(trace[k], key, bound)
  {
    if k > 0 {
      EntriesAlwaysExpire(trace, steps, k - 1, key, bound);
      var s, step := trace[k - 1], steps[k - 1];
      OneReply(s, step);
      CarriesWeaker(s, key, ExpiresBy(s.clock + bound), Any(), Positive(bound),
                    ExpiresBy(trace[k].clock + bound), Any());
      CarriesStep(s, step, key, ExpiresBy(trace[k].clock + bound), Any(), Positive(bound));
    }
  }

  lemma ConvergingStep<V(!new)>(s: State<V>, step: Step<V>, key: string, value: Option<V>, deadline: int)
    requires Enabled(s, step) && Converging(s, key, value, deadline)
    requires Lookup(s.db, key) == value
    requires step.SetWrite? && step.key == key ==> value == Some(step.value)
    ensures Converging(After(s, step), key, value, deadline)
    ensures forall n | |s.replies| <= n < |After(s, step).replies| ::
              var r := After(s, step).replies[n];
              r.key == key && r.time > deadline ==> r.answer.Faulted? || Agrees(r.answer, value)
  {
    CarriesStep(s, step, key, IsOrExpiresBy(value, deadline), Is(value), Any());
    OneReply(s, step);
    ReplyCarried(s, step, key, IsOrExpiresBy(value, deadline), Is(value), Any());
    hide After, Enabled, Carries;
  }

  lemma {:induction false} ConvergingHolds<V(!new)>(trace: seq<State<V>>, steps: seq<Step<V>>, p: nat, k: nat,
                                              key: string, bound: int)
    requires Run(trace, steps) && p <= k <= |steps| && PositiveTtls(steps, key, bound) && WritesThrough(steps, p, key)
    requires forall q | p <= q <= k :: Lookup(trace[q].db, key) == Lookup(trace[p].db, key)
    requires Settled(trace[p], key)
    ensures Converging(trace[k], key, Lookup(trace[p].db, key), trace[p].clock + bound)
    ensures |trace[p].replies| <= |trace[k].replies|
    ensures forall n | |trace[p].replies| <= n < |trace[k].replies| ::
              var r := trace[k].replies[n];
              r.key == key && r.time > trace[p].clock + bound ==>
                r.answer.Faulted? || Agrees(r.answer, Lookup(trace[p].db, key))
    decreases k
  {
    hide After, Enabled, Converging, Settled, EntriesExpire, Lookup, PositiveTtls, Agrees;
    var value, deadline := Lookup(trace[p].db, key), trace[p].clock + bound;
    if k == p {
      EntriesAlwaysExpire(trace, steps, p, key, bound);
      BothCarry(trace[p], key, bound);
    } else {
      ConvergingHolds(trace, steps, p, k - 1, key, bound);
      var s, step := trace[k - 1], steps[k - 1];
      OneReply(s, step);
      ConvergingStep(s, step, key, value, deadline);
    }
  }

  lemma BothCarry<V(!new)>(s: State<V>, key: string, bound: int)
    requires Settled(s, key) && EntriesExpire(s, key, bound)
    ensures Converging(s, key, Lookup(s.db, key), s.clock + bound)
  {
  }

  /**
    Eventual consistency. Let the ttls for a key be positive and at most `bound`, let
    its database value not change any more from some step on, and let no job or call
    under way then carry another value for it. Then every `GetAsync` that answers more
    than `bound` later answers what the database holds, in whatever order jobs ran and
    run, unless it is answered by a callback that fails.
  */
  lemma AsyncConverges<V(!new)>(trace: seq<State<V>>, steps: seq<Step<V>>, p: nat, k: nat, n: nat,
                         key: string, bound: int)
    requires Run(trace, steps) && p <= k <= |steps| && PositiveTtls(steps, key, bound) && WritesThrough(steps, p, key)
    requires forall q | p <= q <= k :: Lookup(trace[q].db, key) == Lookup(trace[p].db, key)
    requires Settled(trace[p], key)
    requires |trace[p].replies| <= n < |trace[k].replies| && trace[k].replies[n].key == key
    requires trace[k].replies[n].time > trace[p].clock + bound
    ensures Agrees(trace[k].replies[n].answer, Lookup(trace[k].db, key)) || FailedAt(trace, steps, p, k, n)
  {
    ConvergingHolds(trace, steps, p, k, key, bound);
    if trace[k].replies[n].answer.Faulted? { OnlyFailuresFault(trace, steps, p, k, n); }
  }

  // ---------- provenance ----------

  /** The database held this value under the key at some step up to `k`. */
  ghost predicate HeldBy<V(!new)>(trace: seq<State<V>>, k: nat, key: string, v: V)
    requires k < |trace|
  {
    exists q :: 0 <= q <= k && Lookup(trace[q].db, key) == Some(v)
  }

  /** Nothing but `GetAsync` fills the key. */
  ghost predicate OnlyRead<V>(steps: seq<Step<V>>, key: string) {
    forall k | 0 <= k < |steps| :: !(steps[k].SetWrite? && steps[k].key == key)
  }

  ghost function Held<V(!new)>(trace: seq<State<V>>, k: nat, key: string): V -> bool
    requires k < |trace|
  {
    v => HeldBy(trace, k, key, v)
  }

  ghost function HeldEntry<V(!new)>(trace: seq<State<V>>, k: nat, key: string): Entry<V> -> bool
    requires k < |trace|
  {
    (e: Entry<V>) => HeldBy(trace, k, key, e.value)
  }

  ghost predicate FromDatabase<V(!new)>(trace: seq<State<V>>, k: nat, key: string)
    requires k < |trace|
  {
    Carries(trace[k], key, HeldEntry(trace, k, key), Held(trace, k, key), Any())
  }

  lemma HeldLonger<V(!new)>(trace: seq<State<V>>, j: nat, k: nat, key: string)
    requires j <= k < |trace|
    ensures forall v :: HeldBy(trace, j, key, v) ==> HeldBy(trace, k, key, v)
    ensures key in trace[j].db ==> HeldBy(trace, k, key, trace[j].db[key])
  {
    if key in trace[j].db { assert Lookup(trace[j].db, key) == Some(trace[j].db[key]); }
  }

  lemma NothingCarried<V(!new)>(trace: seq<State<V>>, key: string)
    requires |trace| > 0 && trace[0].cache == map[] && trace[0].jobs == map[] && trace[0].calls == map[]
    ensures FromDatabase(trace, 0, key)
  {
  }

  lemma {:induction false} ValuesComeFromTheDatabase<V(!new)>(trace: seq<State<V>>, steps: seq<Step<V>>,
                                                       k: nat, key: string)
    requires Run(trace, steps) && k <= |steps| && OnlyRead(steps, key)
    ensures FromDatabase(trace, k, key)
    ensures forall n | 0 <= n < |trace[k].replies| && trace[k].replies[n].key == key ::
              var a := trace[k].replies[n].answer;
              a.Hit? || a.Fresh? ==> HeldBy(trace, k, key, a.value)
  {
    hide After, Enabled, HeldBy, Carries;
    if k > 0 {
      ValuesComeFromTheDatabase(trace, steps, k - 1, key);
      var s, step := trace[k - 1], steps[k - 1];
      HeldLonger(trace, k - 1, k, key);
      CarriesWeaker(s, key, HeldEntry(trace, k - 1, key), Held(trace, k - 1, key), Any(),
                    HeldEntry(trace, k, key), Held(trace, k, key));
      CarriesStep(s, step, key, HeldEntry(trace, k, key), Held(trace, k, key), Any());
      OneReply(s, step);
      ReplyCarried(s, step, key, HeldEntry(trace, k, key), Held(trace, k, key), Any());
    } else {
      NothingCarried(trace, key);
    }
  }
}
