/**
  At-most-once on Redis. Two processes on one sorted set can start the same task twice,
  since `Retrieve` reads the id, fetches its payload and only then removes it. With at
  most one live process at a time, and ids that are queued once, no task is started
  twice, whatever fails and whenever processes crash and come back.
*/
module SchedulerRedis {
  import opened Strings
  import opened Timestamps
  import opened TaskNames
  import opened FileStorage
  import opened Scheduler
  import opened SchedulerInvariants
  import opened SchedulerTheorems
  import opened SchedulerRuns

  // ---------- one live process ----------

  function StartedIds(starts: seq<Start>): set<string> {
    set k | 0 <= k < |starts| && starts[k].backend.Redis? :: starts[k].id
  }

  function QueuedIds(queued: set<(string, int)>): set<string> {
    set e | e in queued :: e.0
  }

  predicate LiveOnRedis(w: Instance) {
    w.alive && w.backend.Redis?
  }

  /** No two live processes are on the sorted set. */
  predicate OneAtATime(s: State) {
    forall i, j | 0 <= i < j < |s.instances| :: !(LiveOnRedis(s.instances[i]) && LiveOnRedis(s.instances[j]))
  }

  /** A task that this step queues on Redis has an id that none had before. */
  predicate QueuesAfresh(s: State, step: Step) {
    step.By? && step.i < |s.instances| && step.action.Schedule? && Valid(step.action.at) ==>
      var w, a := s.instances[step.i], step.action;
      w.backend.Redis? && a.name in w.executors ==>
        RedisId(a.name, Unix(Instant(a.at)), a.salt) !in QueuedIds(s.shared.log.queued)
  }

  ghost predicate OneProcessRun(trace: seq<State>, steps: seq<Step>) {
    && History(trace, steps)
    && (forall k | 0 <= k < |trace| :: OneAtATime(trace[k]))
    && (forall k | 0 <= k < |steps| :: QueuesAfresh(trace[k], steps[k]))
  }

  // ---------- the invariant ----------

  predicate NoTwice(starts: seq<Start>) {
    forall m, n | 0 <= m < n < |starts| && starts[m].backend.Redis? && starts[n].backend.Redis? ::
      starts[m].id != starts[n].id
  }

  /** A started id was queued and has left the sorted set for ever. */
  predicate Once(scores: set<string>, queued: set<string>, started: set<string>) {
    scores <= queued && started <= queued && scores !! started
  }

  /** The id in the loop's hands: not started, and out of the sorted set once it is retrieved. */
  predicate LoopOnce(loop: LoopPc, workers: map<nat, Worker>,
                     scores: set<string>, queued: set<string>, started: set<string>) {
    LoopTask(loop).Some? ==>
      var id := LoopTask(loop).value;
      && id in queued && id !in started && (!loop.Fetching? && !loop.Unlisting? ==> id !in scores)
      && forall k | k in workers :: workers[k].id != id
  }

  /** Each worker has an id of its own, which has left the sorted set. */
  predicate WorkersOnce(workers: map<nat, Worker>, scores: set<string>, queued: set<string>, started: set<string>) {
    && (forall k | k in workers ::
          workers[k].id in queued && workers[k].id !in scores && (workers[k].pc.Spawned? ==> workers[k].id !in started))
    && (forall j, k | j in workers && k in workers && j != k :: workers[j].id != workers[k].id)
  }

  predicate SharedOnce(g: Shared) {
    NoTwice(g.log.starts) && Once(g.queue.scores.Keys, QueuedIds(g.log.queued), StartedIds(g.log.starts))
  }

  predicate InstanceOnce(g: Shared, w: Instance) {
    var scores, queued, started := g.queue.scores.Keys, QueuedIds(g.log.queued), StartedIds(g.log.starts);
    LoopOnce(w.loop, w.workers, scores, queued, started) && WorkersOnce(w.workers, scores, queued, started)
  }

  predicate OnceInv(s: State) {
    && SharedOnce(s.shared)
    && forall i | 0 <= i < |s.instances| && LiveOnRedis(s.instances[i]) :: InstanceOnce(s.shared, s.instances[i])
  }

  // ---------- its preservation ----------

  /** What an action does to the sorted set and to the ids queued and started. */
  predicate SameIds(g: Shared, g': Shared) {
    && g'.queue.scores == g.queue.scores && QueuedIds(g'.log.queued) == QueuedIds(g.log.queued)
    && StartedIds(g'.log.starts) == StartedIds(g.log.starts) && (NoTwice(g.log.starts) ==> NoTwice(g'.log.starts))
  }

  lemma IdsGrow(starts: seq<Start>, start: Start)
    ensures StartedIds(starts + [start]) == StartedIds(starts) + if start.backend.Redis? then {start.id} else {}
    ensures NoTwice(starts) && (start.backend.Redis? ==> start.id !in StartedIds(starts)) ==> NoTwice(starts + [start])
  {
    var all := starts + [start];
    assert forall k | 0 <= k < |starts| :: all[k] == starts[k];
    assert all[|starts|] == start;
    forall id | id in StartedIds(starts) ensures id in StartedIds(all) {
      var k :| 0 <= k < |starts| && starts[k].backend.Redis? && starts[k].id == id;
      assert all[k].id == id;
    }
    assert forall k | 0 <= k < |starts| && starts[k].backend.Redis? :: starts[k].id in StartedIds(starts);
  }

  /** A process on files leaves the ids alone. */
  lemma FilesLeaveIds(g: Shared, w: Instance, i: nat, a: Action)
    requires w.backend.Files? && LoopInv(g, w, i) && Can(g, w, a)
    ensures SameIds(g, Act(g, w, i, a).0) && Act(g, w, i, a).1.backend.Files?
  {
    hide StartedIds, QueuedIds, NoTwice, Ready, DueBy, FileDue, FileTask, Least, RedisTask, FileName, Format, Valid;
    if a.Begin? { IdsGrow(g.log.starts, Start(w.backend, w.workers[a.worker].id, w.workers[a.worker].data, g.clock)); }
  }

  /** Loop actions that leave the sorted set and the workers alone. */
  predicate Inner(a: Action) {
    !a.Schedule? && !a.Unlist? && !a.Spawn? && !a.Begin? && !a.Return? && !a.Send? && !a.Settle? && !a.Release?
  }

  lemma InnerOnce(g: Shared, w: Instance, i: nat, a: Action)
    requires LiveOnRedis(w) && LoopInv(g, w, i) && Can(g, w, a) && Inner(a)
    requires SharedOnce(g) && InstanceOnce(g, w)
    ensures var (g', w') := Act(g, w, i, a); g' == g && (w'.alive ==> InstanceOnce(g, w'))
  {
    hide StartedIds, QueuedIds, NoTwice, DueBy, FileDue, FileTask, IdDue;
    hide Least, RedisTask, FileName, Format, Valid, Leq;
  }

  lemma QueuedGrows(queued: set<(string, int)>, id: string, nanos: int)
    ensures QueuedIds(queued + {(id, nanos)}) == QueuedIds(queued) + {id}
  {
    assert (id, nanos) in queued + {(id, nanos)};
    forall x | x in QueuedIds(queued) ensures x in QueuedIds(queued + {(id, nanos)}) {
      var e :| e in queued && e.0 == x;
      assert e in queued + {(id, nanos)};
    }
  }

  lemma ScheduleOnce(g: Shared, w: Instance, i: nat, a: Action)
    requires LiveOnRedis(w) && Can(g, w, a) && a.Schedule?
    requires SharedOnce(g) && InstanceOnce(g, w)
    requires a.name in w.executors ==> RedisId(a.name, Unix(Instant(a.at)), a.salt) !in QueuedIds(g.log.queued)
    ensures var (g', w') := Act(g, w, i, a); SharedOnce(g') && InstanceOnce(g', w')
  {
    hide StartedIds, QueuedIds, NoTwice, Valid, Instant, RedisId, FileName, Format;
    if a.name in w.executors {
      QueuedGrows(g.log.queued, RedisId(a.name, Unix(Instant(a.at)), a.salt), Instant(a.at));
    }
  }

  lemma UnlistOnce(g: Shared, w: Instance, i: nat, a: Action)
    requires LiveOnRedis(w) && Can(g, w, a) && a.Unlist?
    requires SharedOnce(g) && InstanceOnce(g, w)
    ensures var (g', w') := Act(g, w, i, a); SharedOnce(g') && InstanceOnce(g', w')
  {
    hide StartedIds, QueuedIds, NoTwice, RedisTask;
  }

  lemma SpawnOnce(g: Shared, w: Instance, i: nat, a: Action)
    requires LiveOnRedis(w) && Can(g, w, a) && a.Spawn?
    requires SharedOnce(g) && InstanceOnce(g, w)
    ensures var (g', w') := Act(g, w, i, a); SharedOnce(g') && InstanceOnce(g', w')
  {
    hide StartedIds, QueuedIds, NoTwice;
  }

  lemma BeginOnce(g: Shared, w: Instance, i: nat, a: Action)
    requires LiveOnRedis(w) && Can(g, w, a) && a.Begin?
    requires SharedOnce(g) && InstanceOnce(g, w)
    ensures var (g', w') := Act(g, w, i, a); SharedOnce(g') && InstanceOnce(g', w')
  {
    hide StartedIds, QueuedIds, NoTwice;
    IdsGrow(g.log.starts, Start(w.backend, w.workers[a.worker].id, w.workers[a.worker].data, g.clock));
  }

  /** A worker beyond its start goes on. */
  lemma MovedOnce(g: Shared, g': Shared, w: Instance, k: nat, pc: WorkerPc)
    requires SharedOnce(g) && InstanceOnce(g, w) && k in w.workers && !pc.Spawned?
    requires g'.log == g.log && g'.queue.scores == g.queue.scores
    ensures SharedOnce(g') && InstanceOnce(g', SetPc(w, k, pc))
  {
    hide StartedIds, QueuedIds, NoTwice;
  }

  lemma ReleasedOnce(g: Shared, w: Instance, k: nat)
    requires InstanceOnce(g, w) && k in w.workers
    ensures InstanceOnce(g, w.(workers := w.workers - {k}, permits := w.permits - 1))
  {
    hide StartedIds, QueuedIds;
  }

  lemma WorkerOnce(g: Shared, w: Instance, i: nat, a: Action)
    requires LiveOnRedis(w) && Can(g, w, a) && (a.Return? || a.Send? || a.Settle? || a.Release?)
    requires SharedOnce(g) && InstanceOnce(g, w)
    ensures var (g', w') := Act(g, w, i, a); SharedOnce(g') && InstanceOnce(g', w')
  {
    hide SharedOnce, InstanceOnce;
    var (g', w') := Act(g, w, i, a);
    if a.Release? {
      ReleasedOnce(g, w, a.worker);
    } else {
      MovedOnce(g, g', w, a.worker, w'.workers[a.worker].pc);
    }
  }

  lemma RedisOnce(g: Shared, w: Instance, i: nat, a: Action)
    requires LiveOnRedis(w) && LoopInv(g, w, i) && Can(g, w, a)
    requires SharedOnce(g) && InstanceOnce(g, w)
    requires a.Schedule? && a.name in w.executors ==>
               RedisId(a.name, Unix(Instant(a.at)), a.salt) !in QueuedIds(g.log.queued)
    ensures var (g', w') := Act(g, w, i, a); SharedOnce(g') && (w'.alive ==> InstanceOnce(g', w'))
  {
    hide SharedOnce, InstanceOnce, LoopInv, Act, Can, LiveOnRedis, RedisId, QueuedIds;
    if a.Schedule? { ScheduleOnce(g, w, i, a); }
    else if a.Unlist? { UnlistOnce(g, w, i, a); }
    else if a.Spawn? { SpawnOnce(g, w, i, a); }
    else if a.Begin? { BeginOnce(g, w, i, a); }
    else if Inner(a) { InnerOnce(g, w, i, a); }
    else { WorkerOnce(g, w, i, a); }
  }

  lemma OnceStep(s: State, step: Step)
    requires Inv(s) && Enabled(s, step) && OnceInv(s) && OneAtATime(s) && QueuesAfresh(s, step)
    ensures OnceInv(After(s, step))
  {
    hide SharedOnce, InstanceOnce, SharedInv, LoopInv, Permits, WorkerInv, Act, RedisId, QueuedIds;
    match step {
      case Tock(_) => IdsSurvive(s.shared, s.shared.(clock := step.clock), s.instances);
      case Launch(backend, capacity) => FreshOnce(s.shared, backend, capacity);
      case By(i, a) =>
        var w, g' := s.instances[i], After(s, step).shared;
        if w.backend.Files? {
          FilesLeaveIds(s.shared, w, i, a);
          IdsSurvive(s.shared, g', s.instances);
        } else {
          assert LiveOnRedis(w);
          RedisOnce(s.shared, w, i, a);
        }
    }
  }

  lemma IdsSurvive(g: Shared, g': Shared, instances: seq<Instance>)
    requires SameIds(g, g') && SharedOnce(g)
    ensures SharedOnce(g')
    ensures forall w | w in instances && InstanceOnce(g, w) :: InstanceOnce(g', w)
  {
    hide StartedIds, QueuedIds, NoTwice;
  }

  lemma FreshOnce(g: Shared, backend: Backend, capacity: nat)
    ensures InstanceOnce(g, Fresh(backend, capacity))
  {
  }

  lemma InitialOnce(s: State)
    requires Initial(s)
    ensures OnceInv(s) && PayloadInv(s)
  {
  }

  lemma {:induction false} OnceHolds(trace: seq<State>, steps: seq<Step>, k: nat)
    requires OneProcessRun(trace, steps) && k <= |steps|
    ensures OnceInv(trace[k])
  {
    hide Inv, After, Enabled, OnceInv, OneAtATime, QueuesAfresh, Initial;
    if k == 0 {
      InitialOnce(trace[0]);
    } else {
      OnceHolds(trace, steps, k - 1);
      RunInv(trace, steps, k - 1);
      OnceStep(trace[k - 1], steps[k - 1]);
    }
  }

  /** With one live process at a time and ids queued once, no Redis task is started twice. */
  lemma RedisStartedAtMostOnce(trace: seq<State>, steps: seq<Step>, k: nat)
    requires OneProcessRun(trace, steps) && k <= |steps|
    ensures var g := trace[k].shared;
      && (forall m, n | 0 <= m < n < |g.log.starts|
                        && g.log.starts[m].backend.Redis? && g.log.starts[n].backend.Redis? ::
            g.log.starts[m].id != g.log.starts[n].id)
      && (forall n | 0 <= n < |g.log.starts| && g.log.starts[n].backend.Redis? ::
            g.log.starts[n].id in QueuedIds(g.log.queued) && g.log.starts[n].id !in g.queue.scores)
  {
    OnceHolds(trace, steps, k);
    hide OneProcessRun, InstanceOnce, QueuedIds;
    var starts := trace[k].shared.log.starts;
    assert forall n | 0 <= n < |starts| && starts[n].backend.Redis? :: starts[n].id in StartedIds(starts);
  }

  // ---------- tasks of a dead process ----------

  /** The payloads of ids in a process's hands, up to the start of the executor, are still kept. */
  predicate LoopPayload(loop: LoopPc, keys: map<string, Bytes>) {
    match loop
    case Unlisting(id, data) => id in keys && keys[id] == data
    case Retrieved(id, _, data) => id in keys && keys[id] == data
    case Queueing(id, data) => id in keys && keys[id] == data
    case Permitted(id, data) => id in keys && keys[id] == data
    case _ => true
  }

  predicate WorkersPayload(workers: map<nat, Worker>, keys: map<string, Bytes>) {
    forall k | k in workers && workers[k].pc.Spawned? ::
      workers[k].id in keys && keys[workers[k].id] == workers[k].data
  }

  predicate Payloads(g: Shared, w: Instance) {
    LoopPayload(w.loop, g.queue.keys) && WorkersPayload(w.workers, g.queue.keys)
  }

  predicate PayloadInv(s: State) {
    forall i | 0 <= i < |s.instances| && LiveOnRedis(s.instances[i]) :: Payloads(s.shared, s.instances[i])
  }

  /** The id that the step queues on Redis. */
  function QueuedBy(s: State, step: Step): Option<string> {
    if step.By? && step.i < |s.instances| && step.action.Schedule? && Valid(step.action.at)
       && s.instances[step.i].backend.Redis? && step.action.name in s.instances[step.i].executors
    then Some(RedisId(step.action.name, Unix(Instant(step.action.at)), step.action.salt))
    else None
  }

  /** What an action on Redis does to the payloads. */
  lemma KeysAfter(g: Shared, w: Instance, i: nat, a: Action)
    requires Can(g, w, a)
    ensures var keys := Act(g, w, i, a).0.queue.keys;
      if a.Schedule? && w.backend.Redis? && a.name in w.executors then
        keys == g.queue.keys[RedisId(a.name, Unix(Instant(a.at)), a.salt) := a.payload]
      else if a.Settle? && w.backend.Redis? && w.workers[a.worker].pc.Finishing? && a.ok then
        keys == g.queue.keys - {w.workers[a.worker].id}
      else keys == g.queue.keys
  {
    hide FirstDue, FileDue, FileTask, DueBy, Least, RedisTask, RedisId, FileName, Format, Valid, Instant;
    hide Listing, Checking, Looking, Reading;
  }

  /** How an action on Redis moves the loop and the workers, as far as payloads go. */
  lemma PayloadsMove(g: Shared, w: Instance, i: nat, a: Action)
    requires LiveOnRedis(w) && LoopInv(g, w, i) && Can(g, w, a) && Payloads(g, w)
    ensures var w' := Act(g, w, i, a).1; w'.alive ==> Payloads(g, w')
  {
    hide FirstDue, FileDue, FileTask, DueBy, IdDue, Ready, Least, RedisTask, RedisId, FileName, Format, Valid, Instant;
  }

  lemma PayloadAction(g: Shared, w: Instance, i: nat, a: Action)
    requires LiveOnRedis(w) && LoopInv(g, w, i) && Can(g, w, a) && Payloads(g, w)
    requires InstanceOnce(g, w) && SharedOnce(g)
    requires a.Schedule? && a.name in w.executors ==>
               RedisId(a.name, Unix(Instant(a.at)), a.salt) !in QueuedIds(g.log.queued)
    ensures var (g', w') := Act(g, w, i, a); w'.alive ==> Payloads(g', w')
  {
    hide StartedIds, QueuedIds, NoTwice, RedisId, Instant, LoopInv;
    KeysAfter(g, w, i, a);
    PayloadsMove(g, w, i, a);
    if a.Schedule? || a.Settle? {
      assert a.Schedule? ==> Act(g, w, i, a).1 == w;
      assert a.Settle? ==> Act(g, w, i, a).1 == SetPc(w, a.worker, Act(g, w, i, a).1.workers[a.worker].pc);
      assert a.Settle? ==> Act(g, w, i, a).1.workers[a.worker].pc in {Complaining, Releasing};
    }
    hide Act, Can;
  }

  lemma PayloadStep(s: State, step: Step)
    requires Inv(s) && Enabled(s, step) && OnceInv(s) && OneAtATime(s) && QueuesAfresh(s, step) && PayloadInv(s)
    ensures PayloadInv(After(s, step))
  {
    hide SharedOnce, InstanceOnce, SharedInv, LoopInv, Permits, WorkerInv, Act, RedisId, QueuedIds, Payloads;
    match step {
      case Tock(c) => SamePayloads(s.shared, s.shared.(clock := c), s.instances);
      case Launch(backend, capacity) => FreshPayloads(s.shared, backend, capacity);
      case By(i, a) =>
        var w := s.instances[i];
        if w.backend.Files? {
          KeysAfter(s.shared, w, i, a);
          FilesLeaveIds(s.shared, w, i, a);
          SamePayloads(s.shared, After(s, step).shared, s.instances);
        } else {
          assert LiveOnRedis(w);
          PayloadAction(s.shared, w, i, a);
        }
    }
  }

  lemma SamePayloads(g: Shared, g': Shared, instances: seq<Instance>)
    requires g'.queue.keys == g.queue.keys
    ensures forall w | w in instances && Payloads(g, w) :: Payloads(g', w)
  {
  }

  lemma FreshPayloads(g: Shared, backend: Backend, capacity: nat)
    ensures Payloads(g, Fresh(backend, capacity))
  {
  }

  lemma {:induction false} PayloadHolds(trace: seq<State>, steps: seq<Step>, k: nat)
    requires OneProcessRun(trace, steps) && k <= |steps|
    ensures PayloadInv(trace[k])
  {
    hide Inv, After, Enabled, OnceInv, PayloadInv, OneAtATime, QueuesAfresh, Initial;
    if k == 0 {
      InitialOnce(trace[0]);
    } else {
      PayloadHolds(trace, steps, k - 1);
      OnceHolds(trace, steps, k - 1);
      RunInv(trace, steps, k - 1);
      PayloadStep(trace[k - 1], steps[k - 1]);
    }
  }

  /** The process has taken the id off the sorted set and not begun its executor. */
  predicate HasTaken(w: Instance, id: string) {
    || ((w.loop.Retrieved? || w.loop.Queueing? || w.loop.Permitted?) && w.loop.id == id)
    || (exists k :: k in w.workers && w.workers[k].pc.Spawned? && w.workers[k].id == id)
  }

  /** No live process has the id in its hands. */
  predicate Unheld(w: Instance, id: string) {
    LiveOnRedis(w) ==> LoopTask(w.loop) != Some(id) && forall k | k in w.workers :: w.workers[k].id != id
  }

  /** An id that nothing leads to any more: neither queued nor held nor started, with its payload kept. */
  predicate Stranded(s: State, id: string, payload: Bytes) {
    && id !in s.shared.queue.scores && id !in StartedIds(s.shared.log.starts)
    && id in s.shared.queue.keys && s.shared.queue.keys[id] == payload
    && forall w | w in s.instances :: Unheld(w, id)
  }

  lemma StrandedAction(g: Shared, w: Instance, i: nat, a: Action, id: string)
    requires LiveOnRedis(w) && LoopInv(g, w, i) && Can(g, w, a) && Unheld(w, id)
    requires id !in g.queue.scores && id !in StartedIds(g.log.starts)
    requires a.Schedule? && a.name in w.executors ==> RedisId(a.name, Unix(Instant(a.at)), a.salt) != id
    ensures var (g', w') := Act(g, w, i, a);
      id !in g'.queue.scores && id !in StartedIds(g'.log.starts) && Unheld(w', id)
  {
    hide StartedIds, FileDue, FileTask, DueBy, IdDue, Ready;
    hide Least, RedisTask, RedisId, FileName, Format, Valid, Instant, Leq;
    if a.Begin? { IdsGrow(g.log.starts, Start(w.backend, w.workers[a.worker].id, w.workers[a.worker].data, g.clock)); }
  }

  lemma StrandedStep(s: State, step: Step, id: string, payload: Bytes)
    requires Inv(s) && Enabled(s, step) && Stranded(s, id, payload) && QueuedBy(s, step) != Some(id)
    ensures Stranded(After(s, step), id, payload)
  {
    hide SharedInv, LoopInv, Permits, WorkerInv, Act, RedisId, StartedIds, Unheld;
    var s' := After(s, step);
    match step {
      case Tock(_) =>
      case Launch(backend, capacity) => FreshUnheld(backend, capacity, id);
      case By(i, a) =>
        var w := s.instances[i];
        assert w in s.instances;
        KeysAfter(s.shared, w, i, a);
        if w.backend.Files? {
          FilesLeaveIds(s.shared, w, i, a);
          assert Unheld(s'.instances[i], id) by { NotOnRedis(s'.instances[i], id); }
        } else {
          assert LiveOnRedis(w);
          StrandedAction(s.shared, w, i, a, id);
          if a.Settle? { UnheldWorker(w, a.worker, id); }
        }
    }
  }

  lemma FreshUnheld(backend: Backend, capacity: nat, id: string)
    ensures Unheld(Fresh(backend, capacity), id)
  {
  }

  lemma NotOnRedis(w: Instance, id: string)
    requires w.backend.Files?
    ensures Unheld(w, id)
  {
  }

  lemma UnheldWorker(w: Instance, k: nat, id: string)
    requires LiveOnRedis(w) && Unheld(w, id) && k in w.workers
    ensures w.workers[k].id != id
  {
  }

  /** As long as the id is not queued again it stays so, with any number of processes. */
  lemma {:induction false} StrandedStays(trace: seq<State>, steps: seq<Step>, j: nat, k: nat,
                                         id: string, payload: Bytes)
    requires History(trace, steps) && j <= k <= |steps| && Stranded(trace[j], id, payload)
    requires forall m | j <= m < k :: QueuedBy(trace[m], steps[m]) != Some(id)
    ensures Stranded(trace[k], id, payload)
    decreases k
  {
    hide Inv, After, Enabled, Initial, Stranded, QueuedBy;
    if j < k {
      StrandedStays(trace, steps, j, k - 1, id, payload);
      RunInv(trace, steps, k - 1);
      StrandedStep(trace[k - 1], steps[k - 1], id, payload);
    }
  }

  /** A process that dies strands the ids it had taken. */
  lemma DeathStrands(s: State, step: Step, id: string)
    requires Enabled(s, step) && OnceInv(s) && PayloadInv(s) && OneAtATime(s)
    requires step.By? && (step.action.Crash? || step.action.Panic?)
    requires s.instances[step.i].backend.Redis? && HasTaken(s.instances[step.i], id)
    ensures id in s.shared.queue.keys && id in QueuedIds(s.shared.log.queued)
    ensures Stranded(After(s, step), id, s.shared.queue.keys[id])
  {
    hide StartedIds, QueuedIds, NoTwice;
    var s' := After(s, step);
    assert LiveOnRedis(s.instances[step.i]);
    forall i | 0 <= i < |s'.instances| ensures !LiveOnRedis(s'.instances[i]) {
    }
  }

  lemma {:induction false} QueuedStays(trace: seq<State>, steps: seq<Step>, j: nat, k: nat, id: string)
    requires History(trace, steps) && j <= k <= |steps| && id in QueuedIds(trace[j].shared.log.queued)
    ensures id in QueuedIds(trace[k].shared.log.queued)
    decreases k
  {
    if j < k {
      QueuedStays(trace, steps, j, k - 1, id);
      var s, step := trace[k - 1], steps[k - 1];
      assert Enabled(s, step) && trace[k] == After(s, step);
      hide Act, Can, QueuedIds;
      if step.By? { QueuedOnlyGrows(s.shared, s.instances[step.i], step.i, step.action); }
    }
  }

  lemma QueuedOnlyGrows(g: Shared, w: Instance, i: nat, a: Action)
    requires Can(g, w, a)
    ensures QueuedIds(g.log.queued) <= QueuedIds(Act(g, w, i, a).0.log.queued)
  {
    hide FirstDue, FileDue, FileTask, DueBy, Least, RedisTask, RedisId, FileName, Format, Valid, Instant;
    hide Listing, Checking, Looking, Reading, QueuedIds;
    if a.Schedule? && a.name in w.executors && w.backend.Redis? {
      QueuedGrows(g.log.queued, RedisId(a.name, Unix(Instant(a.at)), a.salt), Instant(a.at));
    }
  }

  /**
    The price of at-most-once on Redis: an id that a process took off the sorted set and
    had not begun when it crashed or panicked is never started and never queued again,
    whatever processes follow, and its payload stays under its key.
  */
  lemma TakenIdsAreLost(trace: seq<State>, steps: seq<Step>, k: nat, n: nat, i: nat, id: string)
    requires OneProcessRun(trace, steps) && k < n <= |steps|
    requires steps[k].By? && steps[k].i == i && (steps[k].action.Crash? || steps[k].action.Panic?)
    requires i < |trace[k].instances| && trace[k].instances[i].backend.Redis?
    requires HasTaken(trace[k].instances[i], id)
    ensures id in trace[k].shared.queue.keys
    ensures Stranded(trace[n], id, trace[k].shared.queue.keys[id])
  {
    OnceHolds(trace, steps, k);
    PayloadHolds(trace, steps, k);
    assert Enabled(trace[k], steps[k]) && trace[k + 1] == After(trace[k], steps[k]);
    hide OnceInv, PayloadInv, OneAtATime, After, Enabled, Initial, Stranded, HasTaken, QueuedIds, RedisId, Valid;
    DeathStrands(trace[k], steps[k], id);
    forall m | k + 1 <= m < n ensures QueuedBy(trace[m], steps[m]) != Some(id) {
      QueuedStays(trace, steps, k, m, id);
      assert QueuesAfresh(trace[m], steps[m]);
    }
    hide Run;
    StrandedStays(trace, steps, k + 1, n, id, trace[k].shared.queue.keys[id]);
  }

  // ---------- two live processes ----------

  lemma Fetches(s: State, i: nat, id: string) returns (steps: seq<Step>, t: State)
    requires i < |s.instances| && LiveOnRedis(s.instances[i]) && s.instances[i].loop == Fetching(id)
    requires id in s.shared.queue.keys && RedisTask(id) in s.instances[i].executors
    ensures Leads(s, steps, t) && NoSchedule(steps)
    ensures t.shared == s.shared.(queue := s.shared.queue.(scores := s.shared.queue.scores - {id}))
    ensures t.instances == s.instances[i := s.instances[i].(loop := Queueing(id, s.shared.queue.keys[id]))]
  {
    hide RedisTask, Leads;
    var s1 := After(s, By(i, Fetch(true)));
    var s2 := After(s1, By(i, Unlist(true)));
    t := After(s2, By(i, Action.Lookup));
    assert Leads(s, [], s) by { Stays(s); }
    LeadsMore(s, [], s, By(i, Fetch(true)));
    LeadsMore(s, [] + [By(i, Fetch(true))], s1, By(i, Unlist(true)));
    steps := [] + [By(i, Fetch(true))] + [By(i, Unlist(true))];
    LeadsMore(s, steps, s2, By(i, Action.Lookup));
    steps := steps + [By(i, Action.Lookup)];
  }

  lemma StartsQueued(s: State, i: nat, id: string, data: Bytes) returns (steps: seq<Step>, t: State)
    requires i < |s.instances| && LiveOnRedis(s.instances[i]) && s.instances[i].loop == Queueing(id, data)
    requires s.instances[i].permits < s.instances[i].capacity && s.instances[i].workers == map[]
    ensures Leads(s, steps, t) && NoSchedule(steps) && By(i, Begin(0)) in steps
    ensures t.shared == s.shared.(log := s.shared.log.(starts :=
                          s.shared.log.starts + [Start(Redis, id, data, s.shared.clock)]))
    ensures |t.instances| == |s.instances|
    ensures forall j | 0 <= j < |s.instances| && j != i :: t.instances[j] == s.instances[j]
  {
    hide Leads;
    var s1 := After(s, By(i, Acquire));
    var s2 := After(s1, By(i, Spawn(0)));
    t := After(s2, By(i, Begin(0)));
    assert Leads(s, [], s) by { Stays(s); }
    LeadsMore(s, [], s, By(i, Acquire));
    LeadsMore(s, [] + [By(i, Acquire)], s1, By(i, Spawn(0)));
    steps := [] + [By(i, Acquire)] + [By(i, Spawn(0))];
    LeadsMore(s, steps, s2, By(i, Begin(0)));
    steps := steps + [By(i, Begin(0))];
  }

  /** A process that has read an id goes on to start its executor, whether or not the id is still in the set. */
  lemma TakesAndStarts(s: State, i: nat, id: string) returns (steps: seq<Step>, t: State)
    requires i < |s.instances| && LiveOnRedis(s.instances[i]) && s.instances[i].loop == Fetching(id)
    requires id in s.shared.queue.keys && RedisTask(id) in s.instances[i].executors
    requires s.instances[i].permits < s.instances[i].capacity && s.instances[i].workers == map[]
    ensures Leads(s, steps, t) && NoSchedule(steps) && By(i, Begin(0)) in steps
    ensures t.shared.queue.keys == s.shared.queue.keys && t.shared.clock == s.shared.clock
    ensures t.shared.log.starts ==
            s.shared.log.starts + [Start(Redis, id, s.shared.queue.keys[id], s.shared.clock)]
    ensures |t.instances| == |s.instances|
    ensures forall j | 0 <= j < |s.instances| && j != i :: t.instances[j] == s.instances[j]
  {
    hide RedisTask, Leads;
    var a, s1 := Fetches(s, i, id);
    var b, s2 := StartsQueued(s1, i, id, s.shared.queue.keys[id]);
    LeadsOn(s, a, s1, b, s2);
    steps, t := a + b, s2;
  }

  /** Two processes that know the executor and have both read the id of the only task. */
  ghost predicate BothFetching(s: State, id: string, name: string, payload: Bytes, clock: int) {
    && s.shared.clock == clock && s.shared.queue.keys == map[id := payload] && s.shared.log.starts == []
    && |s.instances| == 2
    && forall i | 0 <= i < 2 ::
         s.instances[i] == Fresh(Redis, 1).(executors := {name}, loop := Fetching(id))
  }

  lemma TwoRead(name: string, at: Stamp, salt: nat, payload: Bytes) returns (steps: seq<Step>, s: State, t: State)
    requires Valid(at) && salt < 100
    ensures Initial(s) && Leads(s, steps, t) && OneSchedule(steps)
    ensures BothFetching(t, RedisId(name, Unix(Instant(at)), salt), name, payload, Instant(at))
  {
    hide Valid, Instant, RedisId, Leads, FileName, Format, Leq;
    var id := RedisId(name, Unix(Instant(at)), salt);
    LeqTotal(id, id);
    s := State(EMPTY.(clock := Instant(at)), []);
    var s1 := After(s, Launch(Redis, 1));
    var s2 := After(s1, Launch(Redis, 1));
    assert s2.instances == [Fresh(Redis, 1), Fresh(Redis, 1)];
    var s3 := After(s2, By(0, Register(name)));
    var s4 := After(s3, By(1, Register(name)));
    assert {} + {name} == {name};
    var known := Fresh(Redis, 1).(executors := {name});
    assert s4.instances == [known, known];
    var s5 := After(s4, By(0, Schedule(name, at, salt, payload)));
    assert s5.shared.queue.scores == map[id := Unix(Instant(at))];
    var s6 := After(s5, By(0, Query(id)));
    t := After(s6, By(1, Query(id)));
    assert t.instances == [known.(loop := Fetching(id)), known.(loop := Fetching(id))];
    Stays(s);
    steps := [] + [Launch(Redis, 1)];
    LeadsMore(s, [], s, Launch(Redis, 1));
    LeadsMore(s, steps, s1, Launch(Redis, 1));
    steps := steps + [Launch(Redis, 1)];
    LeadsMore(s, steps, s2, By(0, Register(name)));
    steps := steps + [By(0, Register(name))];
    LeadsMore(s, steps, s3, By(1, Register(name)));
    steps := steps + [By(1, Register(name))];
    LeadsMore(s, steps, s4, By(0, Schedule(name, at, salt, payload)));
    steps := steps + [By(0, Schedule(name, at, salt, payload))];
    LeadsMore(s, steps, s5, By(0, Query(id)));
    steps := steps + [By(0, Query(id))];
    LeadsMore(s, steps, s6, By(1, Query(id)));
    steps := steps + [By(1, Query(id))];
  }

  lemma OthersQueueNothing(g: Shared, w: Instance, i: nat, a: Action)
    requires Can(g, w, a) && !a.Schedule?
    ensures Act(g, w, i, a).0.log.queued == g.log.queued
  {
    hide FirstDue, FileDue, FileTask, DueBy, Least, RedisTask, FileName, Format, Valid, Leq, Listing, Checking, Looking;
  }

  lemma {:induction false} NothingQueuedYet(trace: seq<State>, steps: seq<Step>, k: nat)
    requires History(trace, steps) && k <= |steps| && forall j | 0 <= j < k :: !Schedules(steps[j])
    ensures trace[k].shared.log.queued == {}
  {
    if k > 0 {
      NothingQueuedYet(trace, steps, k - 1);
      var s, step := trace[k - 1], steps[k - 1];
      assert Enabled(s, step) && trace[k] == After(s, step);
      hide Act, Can;
      if step.By? { OthersQueueNothing(s.shared, s.instances[step.i], step.i, step.action); }
    }
  }

  /** A run that queues at most one task queues it afresh. */
  lemma OneScheduleIsAfresh(trace: seq<State>, steps: seq<Step>)
    requires History(trace, steps) && OneSchedule(steps)
    ensures forall k | 0 <= k < |steps| :: QueuesAfresh(trace[k], steps[k])
  {
    forall k | 0 <= k < |steps| ensures QueuesAfresh(trace[k], steps[k]) {
      if Schedules(steps[k]) { NothingQueuedYet(trace, steps, k); }
    }
  }

  /**
    Two live processes can start one task twice: for every decodable name, time and
    payload there is a run, with one store in all, in which two processes both begin the
    task. So of the conditions of `RedisStartedAtMostOnce` only the one on live processes
    fails.
  */
  lemma TwoProcessesStartOneTask(name: string, at: Stamp, salt: nat, payload: Bytes)
    returns (trace: seq<State>, steps: seq<Step>)
    requires Valid(at) && salt < 100 && NameDecodes(Redis, name)
    ensures History(trace, steps) && OneSchedule(steps)
    ensures forall k | 0 <= k < |steps| :: QueuesAfresh(trace[k], steps[k])
    ensures By(0, Begin(0)) in steps && By(1, Begin(0)) in steps
    ensures var start := Start(Redis, RedisId(name, Unix(Instant(at)), salt), payload, Instant(at));
      trace[|steps|].shared.log.starts == [start, start]
  {
    hide Valid, Instant, RedisId, RedisTask, Leads, Run, QueuesAfresh;
    var id := RedisId(name, Unix(Instant(at)), salt);
    RedisCodecExact(name, Unix(Instant(at)), salt);
    var a, s, s1 := TwoRead(name, at, salt, payload);
    var b, s2 := TakesAndStarts(s1, 0, id);
    var c, t := TakesAndStarts(s2, 1, id);
    LeadsOn(s, a, s1, b, s2);
    LeadsOn(s, a + b, s2, c, t);
    StillOne(a, b);
    StillOne(a + b, c);
    steps := a + b + c;
    trace := LeadsRun(s, steps, t);
    OneScheduleIsAfresh(trace, steps);
  }
}
