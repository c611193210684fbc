/**
  That tasks do run. The theorems on safety would also hold of a scheduler that stores
  or starts nothing; here are the effects of single steps on the storages, and for every
  decodable task a run in which it is stored, executed once with its payload and ends in
  its place.
*/
module SchedulerRuns {
  import opened Strings
  import opened Timestamps
  import opened TaskNames
  import opened FileStorage
  import opened Scheduler
  import opened SchedulerInvariants
  import opened SchedulerTheorems

  // ---------- single steps ----------

  /** A store on files: the file is pending with its payload, everything else as before. */
  lemma ScheduleStores(s: State, i: nat, name: string, at: Stamp, salt: nat, payload: Bytes)
    requires Enabled(s, By(i, Schedule(name, at, salt, payload)))
    requires name in s.instances[i].executors && s.instances[i].backend.Files?
    ensures var s', file := After(s, By(i, Schedule(name, at, salt, payload))), FileName(name, Format(at));
      && s'.shared.dirs == Dirs(s.shared.dirs.pending[file := payload], s.shared.dirs.executing, s.shared.dirs.failed)
      && s'.shared.log == s.shared.log.(stored := s.shared.log.stored[file := payload])
      && s'.shared.queue == s.shared.queue && s'.shared.clock == s.shared.clock && s'.instances == s.instances
  {
    hide Format, FileName, Valid;
  }

  lemma UnixIsWholeSeconds(nanos: int)
    ensures Unix(nanos) * 1_000_000_000 <= nanos < (Unix(nanos) + 1) * 1_000_000_000
  {
  }

  /** A store on Redis: the id is in the sorted set with its second, the payload under its key. */
  lemma ScheduleQueues(s: State, i: nat, name: string, at: Stamp, salt: nat, payload: Bytes)
    requires Enabled(s, By(i, Schedule(name, at, salt, payload)))
    requires name in s.instances[i].executors && s.instances[i].backend.Redis?
    ensures var s', unix := After(s, By(i, Schedule(name, at, salt, payload))), Unix(Instant(at));
      var id := RedisId(name, unix, salt);
      && s'.shared.queue == Queue(s.shared.queue.scores[id := unix], s.shared.queue.keys[id := payload],
                                  s.shared.queue.failed)
      && s'.shared.log == s.shared.log.(queued := s.shared.log.queued + {(id, Instant(at))})
      && s'.shared.dirs == s.shared.dirs && s'.shared.clock == s.shared.clock && s'.instances == s.instances
  {
    hide Instant, RedisId, Valid, Format, FileName;
  }

  /** A store of an unknown task changes nothing. */
  lemma ScheduleRefused(s: State, i: nat, name: string, at: Stamp, salt: nat, payload: Bytes)
    requires Enabled(s, By(i, Schedule(name, at, salt, payload))) && name !in s.instances[i].executors
    ensures After(s, By(i, Schedule(name, at, salt, payload))) == s
  {
    hide Format, FileName, Valid, RedisId;
  }

  /** The loop waiting at the semaphore gets a permit exactly while fewer workers than its capacity are unreleased. */
  lemma AcquiresExactly(trace: seq<State>, steps: seq<Step>, k: nat, i: nat)
    requires History(trace, steps) && k <= |steps| && i < |trace[k].instances|
    requires trace[k].instances[i].alive && trace[k].instances[i].loop.Queueing?
    ensures var w := trace[k].instances[i];
      Can(trace[k].shared, w, Acquire) <==> |w.workers| < w.capacity
  {
    PermitsCountWorkers(trace, steps, k, i);
    hide History;
  }

  /** `Done` and `Failure` on files when they succeed. */
  lemma SettledOnFiles(g: Shared, w: Instance, i: nat, k: nat)
    requires Can(g, w, Settle(k, true)) && w.backend.Files? && w.workers[k].id in g.dirs.executing
    ensures var g', id := Act(g, w, i, Settle(k, true)).0, w.workers[k].id;
      if w.workers[k].pc.Failing? then
        g' == g.(dirs := Dirs(g.dirs.pending, g.dirs.executing - {id}, g.dirs.failed[id := g.dirs.executing[id]]))
      else
        g' == g.(dirs := Dirs(g.dirs.pending, g.dirs.executing - {id}, g.dirs.failed),
                 log := g.log.(removed := g.log.removed + {id}))
  {
    hide FirstDue;
  }

  lemma SettlingWorker(g: Shared, w: Instance, i: nat, k: nat)
    requires InstanceInv(g, w, i) && w.backend.Files? && WorkerAt(w, k, {Failing, Finishing})
    requires Agrees(g.dirs.executing, g.log.stored)
    ensures var x := w.workers[k];
      && x.id in g.dirs.executing && x.id in g.log.outcome && (g.log.outcome[x.id] <==> x.pc.Finishing?)
      && x.id in g.log.stored && g.dirs.executing[x.id] == g.log.stored[x.id]
  {
    hide LoopInv, Permits, StartedFiles, Ready;
    assert WorkerInv(g, Files, i, k, w.workers[k]);
  }

  /**
    The end of a file task: its file is still executing when its worker calls `Done` or
    `Failure`, and if the operation succeeds it is removed, or failed with its payload.
  */
  lemma SettlesItsFile(trace: seq<State>, steps: seq<Step>, k: nat, i: nat, worker: nat)
    requires History(trace, steps) && k < |steps| && steps[k] == By(i, Settle(worker, true))
    requires i < |trace[k].instances| && trace[k].instances[i].backend.Files?
    ensures worker in trace[k].instances[i].workers
    ensures var g, g', id := trace[k].shared, trace[k + 1].shared, trace[k].instances[i].workers[worker].id;
      && id in g.dirs.executing && id in g.log.outcome && id in g.log.stored
      && (if g.log.outcome[id] then At(g', id, Removed) && g'.dirs.failed == g.dirs.failed
          else At(g', id, Failed) && g'.dirs.failed[id] == g.log.stored[id])
      && g'.dirs.executing == g.dirs.executing - {id} && g'.dirs.pending == g.dirs.pending
  {
    hide Run, Initial, Inv, InstanceInv, Enabled, After, Act, Can, Agrees, WorkerAt;
    StepOfRun(trace, steps, k);
    RunInv(trace, steps, k);
    var s, w := trace[k], trace[k].instances[i];
    SettlingStep(s, i, worker);
    OfInstance(s, i);
    SettlingWorker(s.shared, w, i, worker);
    SettledOnFiles(s.shared, w, i, worker);
  }

  lemma StepOfRun(trace: seq<State>, steps: seq<Step>, k: nat)
    requires Run(trace, steps) && k < |steps|
    ensures |trace| == |steps| + 1 && Enabled(trace[k], steps[k]) && trace[k + 1] == After(trace[k], steps[k])
  {
    hide Enabled, After;
  }

  lemma OfInstance(s: State, i: nat)
    requires Inv(s) && i < |s.instances|
    ensures InstanceInv(s.shared, s.instances[i], i) && Agrees(s.shared.dirs.executing, s.shared.log.stored)
  {
    hide InstanceInv, Stages, Ends, Starts, Queued, Dated;
  }

  lemma SettlingStep(s: State, i: nat, worker: nat)
    requires Enabled(s, By(i, Settle(worker, true)))
    ensures Can(s.shared, s.instances[i], Settle(worker, true))
    ensures WorkerAt(s.instances[i], worker, {Failing, Finishing})
    ensures worker in s.instances[i].workers && s.instances[i].workers[worker].pc in {Failing, Finishing}
    ensures After(s, By(i, Settle(worker, true))).shared ==
            Act(s.shared, s.instances[i], i, Settle(worker, true)).0
  {
  }

  // ---------- runs by their steps ----------

  /** The steps lead from one state to the other. */
  ghost predicate Leads(s: State, steps: seq<Step>, t: State)
    decreases |steps|
  {
    if steps == [] then t == s else Enabled(s, steps[0]) && Leads(After(s, steps[0]), steps[1..], t)
  }

  lemma {:induction false} LeadsRun(s: State, steps: seq<Step>, t: State) returns (trace: seq<State>)
    requires Leads(s, steps, t)
    ensures Run(trace, steps) && trace[0] == s && trace[|steps|] == t
    decreases |steps|
  {
    hide Enabled, After;
    if steps == [] {
      trace := [s];
    } else {
      var rest := LeadsRun(After(s, steps[0]), steps[1..], t);
      trace := [s] + rest;
      forall k | 0 <= k < |steps| ensures Enabled(trace[k], steps[k]) && trace[k + 1] == After(trace[k], steps[k]) {
        if k > 0 { assert trace[k] == rest[k - 1] && steps[k] == steps[1..][k - 1]; }
      }
    }
  }

  lemma {:induction false} LeadsOn(s: State, a: seq<Step>, t: State, b: seq<Step>, u: State)
    requires Leads(s, a, t) && Leads(t, b, u)
    ensures Leads(s, a + b, u)
    decreases |a|
  {
    hide Enabled, After;
    if a == [] {
      assert a + b == b;
    } else {
      assert (a + b)[1..] == a[1..] + b;
      LeadsOn(After(s, a[0]), a[1..], t, b, u);
    }
  }

  lemma LeadsMore(s: State, steps: seq<Step>, t: State, step: Step)
    requires Leads(s, steps, t) && Enabled(t, step)
    ensures Leads(s, steps + [step], After(t, step))
  {
    hide Enabled, After;
    LeadsOn(s, steps, t, [step], After(t, step));
  }

  predicate Schedules(step: Step) {
    step.By? && step.action.Schedule?
  }

  predicate NoSchedule(steps: seq<Step>) {
    forall step | step in steps :: !Schedules(step)
  }

  predicate OneSchedule(steps: seq<Step>) {
    forall j, k | 0 <= j < k < |steps| :: !(Schedules(steps[j]) && Schedules(steps[k]))
  }

  lemma Stays(s: State)
    ensures Leads(s, [], s)
  {
  }

  lemma StillOne(a: seq<Step>, b: seq<Step>)
    requires OneSchedule(a) && NoSchedule(b)
    ensures OneSchedule(a + b)
  {
    var all := a + b;
    assert forall k | |a| <= k < |all| :: all[k] in b;
  }

  lemma JoinedSchedules(a: seq<Step>, b: seq<Step>)
    requires NoSchedule(a) && NoSchedule(b)
    ensures NoSchedule(a + b)
  {
  }

  // ---------- a task on its way ----------

  /** The process waits, has room for one more worker and no worker `k`. */
  predicate CanTake(w: Instance, k: nat) {
    w.alive && w.loop.Waiting? && w.permits < w.capacity && k !in w.workers
  }

  /** From the directory listing to the claim. */
  lemma ClaimsFirst(s: State, i: nat, file: string) returns (steps: seq<Step>, t: State)
    requires i < |s.instances| && s.instances[i].alive && s.instances[i].loop.Waiting? && s.instances[i].backend.Files?
    requires file in s.shared.dirs.pending && DueBy(file, s.shared.clock)
    requires forall other | other in s.shared.dirs.pending :: Leq(file, other)
    ensures Leads(s, steps, t) && NoSchedule(steps)
    ensures var d, data := s.shared.dirs, s.shared.dirs.pending[file];
      && t.shared.dirs == Dirs(d.pending - {file}, d.executing[file := data], d.failed)
      && t.shared.queue == s.shared.queue && t.shared.clock == s.shared.clock
      && t.shared.log == s.shared.log.(owner := s.shared.log.owner[file := LoopOf(i)])
      && t.instances == s.instances[i := s.instances[i].(loop := LoopPc.Retrieved(file, FileTask(file), data))]
  {
    hide Leads, FileDue, FileTask, FileName, Format, Valid, RedisId, RedisTask, FirstDue, Leq;
    LeastUnique(s.shared.dirs.pending.Keys, file);
    var s1 := After(s, By(i, List));
    assert s1.instances == s.instances[i := s.instances[i].(loop := Listed(file))];
    var s2 := After(s1, By(i, Check));
    assert s2.instances == s.instances[i := s.instances[i].(loop := Claiming(file))];
    var s3 := After(s2, By(i, ClaimFile(true)));
    t := After(s3, By(i, Read(true)));
    Stays(s);
    steps := [] + [By(i, List)];
    LeadsMore(s, [], s, By(i, List));
    LeadsMore(s, steps, s1, By(i, Check));
    steps := steps + [By(i, Check)];
    LeadsMore(s, steps, s2, By(i, ClaimFile(true)));
    steps := steps + [By(i, ClaimFile(true))];
    LeadsMore(s, steps, s3, By(i, Read(true)));
    steps := steps + [By(i, Read(true))];
  }

  /** From the lookup to the permit. */
  lemma TakesPermit(s: State, i: nat, k: nat, id: string, name: string, data: Bytes)
    returns (steps: seq<Step>, t: State)
    requires i < |s.instances| && s.instances[i].loop == LoopPc.Retrieved(id, name, data)
    requires CanTake(s.instances[i].(loop := Waiting), k) && name in s.instances[i].executors
    ensures Leads(s, steps, t) && NoSchedule(steps) && t.shared == s.shared
    ensures var w := s.instances[i];
      t.instances == s.instances[i := w.(loop := Permitted(id, data), permits := w.permits + 1)]
  {
    hide Leads;
    var s1 := After(s, By(i, Action.Lookup));
    assert s1.instances == s.instances[i := s.instances[i].(loop := Queueing(id, data))];
    t := After(s1, By(i, Acquire));
    Stays(s);
    steps := [] + [By(i, Action.Lookup)];
    LeadsMore(s, [], s, By(i, Action.Lookup));
    LeadsMore(s, steps, s1, By(i, Acquire));
    steps := steps + [By(i, Acquire)];
  }

  /** From the `go` statement to the start of the executor. */
  lemma BeginsWorker(s: State, i: nat, k: nat, id: string, data: Bytes) returns (steps: seq<Step>, t: State)
    requires i < |s.instances| && s.instances[i].alive && s.instances[i].loop == Permitted(id, data)
    requires k !in s.instances[i].workers
    ensures Leads(s, steps, t) && NoSchedule(steps)
    ensures var start := Start(s.instances[i].backend, id, data, s.shared.clock);
      && t.shared.dirs == s.shared.dirs && t.shared.queue == s.shared.queue && t.shared.clock == s.shared.clock
      && t.shared.log == s.shared.log.(starts := s.shared.log.starts + [start], owner := t.shared.log.owner)
    ensures var w := s.instances[i];
      t.instances == s.instances[i := w.(loop := Waiting, workers := w.workers[k := Worker(id, data, Running)])]
  {
    hide Leads;
    var w := s.instances[i];
    var s1 := After(s, By(i, Spawn(k)));
    assert s1.instances == s.instances[i := w.(loop := Waiting, workers := w.workers[k := Worker(id, data, Spawned)])];
    t := After(s1, By(i, Begin(k)));
    assert t.instances[i].workers == w.workers[k := Worker(id, data, Running)];
    Stays(s);
    steps := [] + [By(i, Spawn(k))];
    LeadsMore(s, [], s, By(i, Spawn(k)));
    LeadsMore(s, steps, s1, By(i, Begin(k)));
    steps := steps + [By(i, Begin(k))];
  }

  /** From the lookup to the start of the executor. */
  lemma StartsRetrieved(s: State, i: nat, k: nat, id: string, name: string, data: Bytes)
    returns (steps: seq<Step>, t: State)
    requires i < |s.instances| && s.instances[i].loop == LoopPc.Retrieved(id, name, data)
    requires CanTake(s.instances[i].(loop := Waiting), k) && name in s.instances[i].executors
    ensures Leads(s, steps, t) && NoSchedule(steps)
    ensures var w, start := s.instances[i], Start(s.instances[i].backend, id, data, s.shared.clock);
      && t.shared.dirs == s.shared.dirs && t.shared.queue == s.shared.queue && t.shared.clock == s.shared.clock
      && t.shared.log == s.shared.log.(starts := s.shared.log.starts + [start], owner := t.shared.log.owner)
      && t.instances == s.instances[i := w.(loop := Waiting, permits := w.permits + 1,
                                            workers := w.workers[k := Worker(id, data, Running)])]
  {
    hide Leads;
    var a, s1 := TakesPermit(s, i, k, id, name, data);
    var b, s2 := BeginsWorker(s1, i, k, id, data);
    LeadsOn(s, a, s1, b, s2);
    steps, t := a + b, s2;
  }

  /** The storages when a worker has called `Done` (or `Failure`) with success. */
  predicate Settled(g: Shared, g': Shared, backend: Backend, id: string, ok: bool) {
    match backend
    case Files =>
      && id in g.dirs.executing && g'.queue == g.queue
      && g'.dirs == Dirs(g.dirs.pending, g.dirs.executing - {id},
                         if ok then g.dirs.failed else g.dirs.failed[id := g.dirs.executing[id]])
    case Redis =>
      && g'.dirs == g.dirs && g'.queue.scores == g.queue.scores
      && (if ok then g'.queue.keys == g.queue.keys - {id} && g'.queue.failed == g.queue.failed
          else g'.queue.keys == g.queue.keys && g'.queue.failed.Keys == g.queue.failed.Keys + {id})
  }

  /** From the executor's return, nil or not, to the call of `Done` or `Failure`. */
  lemma Returns(s: State, i: nat, k: nat, ok: bool) returns (steps: seq<Step>, t: State)
    requires i < |s.instances| && s.instances[i].alive && !s.instances[i].closed
    requires k in s.instances[i].workers && s.instances[i].workers[k].pc.Running?
    ensures Leads(s, steps, t) && NoSchedule(steps)
    ensures t.shared == s.shared.(log := s.shared.log.(outcome := t.shared.log.outcome))
    ensures t.instances == s.instances[i := SetPc(s.instances[i], k, if ok then Finishing else Failing)]
  {
    hide Leads;
    var w := s.instances[i];
    t := After(s, By(i, Return(k, ok)));
    assert t.instances == s.instances[i := SetPc(w, k, if ok then Finishing else Erred)];
    Stays(s);
    steps := [] + [By(i, Return(k, ok))];
    LeadsMore(s, [], s, By(i, Return(k, ok)));
    if !ok {
      LeadsMore(s, steps, t, By(i, Send(k)));
      steps, t := steps + [By(i, Send(k))], After(t, By(i, Send(k)));
      assert t.instances[i].workers == SetPc(w, k, Failing).workers;
    }
  }

  lemma Releases(s: State, i: nat, k: nat) returns (steps: seq<Step>, t: State)
    requires i < |s.instances| && s.instances[i].alive
    requires k in s.instances[i].workers && s.instances[i].workers[k].pc.Releasing?
    ensures Leads(s, steps, t) && NoSchedule(steps) && t.shared == s.shared
    ensures var w := s.instances[i];
      t.instances == s.instances[i := w.(permits := w.permits - 1, workers := w.workers - {k})]
  {
    hide Leads;
    t := After(s, By(i, Release(k)));
    Stays(s);
    LeadsMore(s, [], s, By(i, Release(k)));
    steps := [] + [By(i, Release(k))];
  }

  /** From the executor's return, nil or not, to the release of the permit. */
  lemma Completes(s: State, i: nat, k: nat, ok: bool) returns (steps: seq<Step>, t: State)
    requires i < |s.instances| && s.instances[i].alive && !s.instances[i].closed
    requires k in s.instances[i].workers && s.instances[i].workers[k].pc.Running?
    requires s.instances[i].backend.Files? ==> s.instances[i].workers[k].id in s.shared.dirs.executing
    ensures Leads(s, steps, t) && NoSchedule(steps)
    ensures var w := s.instances[i];
      && Settled(s.shared, t.shared, w.backend, w.workers[k].id, ok)
      && t.shared.clock == s.shared.clock && t.shared.log.starts == s.shared.log.starts
      && t.instances == s.instances[i := w.(permits := w.permits - 1, workers := w.workers - {k})]
  {
    hide Leads;
    var w := s.instances[i];
    var a, s1 := Returns(s, i, k, ok);
    var s2, b := Settles(s1, i, k);
    var c, s3 := Releases(s2, i, k);
    LeadsOn(s, a, s1, b, s2);
    LeadsOn(s, a + b, s2, c, s3);
    steps, t := a + b + c, s3;
    assert s2.instances[i].workers - {k} == w.workers - {k};
  }

  lemma Settles(s: State, i: nat, k: nat) returns (t: State, steps: seq<Step>)
    requires i < |s.instances| && s.instances[i].alive
    requires k in s.instances[i].workers && s.instances[i].workers[k].pc in {Failing, Finishing}
    requires s.instances[i].backend.Files? ==> s.instances[i].workers[k].id in s.shared.dirs.executing
    ensures Leads(s, steps, t) && NoSchedule(steps)
    ensures var w := s.instances[i];
      && Settled(s.shared, t.shared, w.backend, w.workers[k].id, w.workers[k].pc.Finishing?)
      && t.shared.clock == s.shared.clock && t.shared.log.starts == s.shared.log.starts
      && t.instances == s.instances[i := w.(workers := w.workers[k := w.workers[k].(pc := Releasing)])]
  {
    hide Leads;
    t := After(s, By(i, Settle(k, true)));
    Stays(s);
    LeadsMore(s, [], s, By(i, Settle(k, true)));
    steps := [] + [By(i, Settle(k, true))];
  }

  // ---------- whole runs ----------

  /** A new process with two executors and one task stored. */
  lemma StoresOne(backend: Backend, capacity: nat, name: string, also: string, at: Stamp, salt: nat, payload: Bytes)
    returns (s: State, steps: seq<Step>, t: State)
    requires Valid(at) && salt < 100
    ensures Initial(s) && Leads(s, steps, t) && OneSchedule(steps)
    ensures var w := Fresh(backend, capacity).(executors := {name, also});
      && t.instances == [w]
      && t.shared == ScheduleTask(EMPTY.(clock := Instant(at)), w, name, at, salt, payload)
  {
    hide Valid, Instant, RedisId, Leads, FileName, Format, ScheduleTask;
    s := State(EMPTY.(clock := Instant(at)), []);
    var launch, register, other := Launch(backend, capacity), By(0, Register(name)), By(0, Register(also));
    var schedule := By(0, Schedule(name, at, salt, payload));
    var s1 := After(s, launch);
    assert s1.instances == [Fresh(backend, capacity)];
    var s2 := After(s1, register);
    var s3 := After(s2, other);
    assert {} + {name} + {also} == {name, also};
    assert s3.instances == [Fresh(backend, capacity).(executors := {name, also})];
    t := After(s3, schedule);
    Stays(s);
    steps := [] + [launch];
    LeadsMore(s, [], s, launch);
    LeadsMore(s, steps, s1, register);
    steps := steps + [register];
    LeadsMore(s, steps, s2, other);
    steps := steps + [other];
    LeadsMore(s, steps, s3, schedule);
    steps := steps + [schedule];
    assert !Schedules(launch) && !Schedules(register) && !Schedules(other);
  }

  /**
    Every file task whose name leaves the time can run: there is a run with one store in
    which the executor of the decoded name begins once, with the payload, and afterwards
    the file is gone if the executor returned nil, and in the failed directory if not.
  */
  lemma EveryFileTaskCanRun(capacity: nat, name: string, at: Stamp, payload: Bytes, ok: bool)
    returns (trace: seq<State>, steps: seq<Step>)
    requires Valid(at) && !LosesTime(name, at) && capacity > 0
    ensures History(trace, steps) && OneSchedule(steps)
    ensures var g, file := trace[|steps|].shared, FileName(name, Format(at));
      && g.log.starts == [Start(Files, file, payload, Instant(at))] && FileTask(file) == Head(name)
      && g.dirs == Dirs(map[], map[], if ok then map[] else map[file := payload])
    ensures |trace[|steps|].instances| == 1 && trace[|steps|].instances[0].permits == 0
  {
    hide Valid, Instant, Leads, Format, FileName, FileTask, FileDue, LosesTime, Head, Run, OneSchedule;
    var file := FileName(name, Format(at));
    FileDiscardExact(name, at);
    LeqTotal(file, file);
    var s, a, s1 := StoresOne(Files, capacity, name, Head(name), at, 0, payload);
    assert s1.shared.dirs.pending == map[file := payload];
    var b, s2 := ClaimsFirst(s1, 0, file);
    assert s2.shared.dirs == Dirs(map[], map[file := payload], map[]);
    var c, s3 := StartsRetrieved(s2, 0, 0, file, Head(name), payload);
    var d, t := Completes(s3, 0, 0, ok);
    assert t.shared.dirs.executing == map[];
    trace, steps := Chained(s, a, s1, b, s2, c, s3, d, t);
  }

  lemma Chained(s: State, a: seq<Step>, s1: State, b: seq<Step>, s2: State, c: seq<Step>, s3: State, d: seq<Step>,
                t: State) returns (trace: seq<State>, steps: seq<Step>)
    requires Initial(s) && Leads(s, a, s1) && Leads(s1, b, s2) && Leads(s2, c, s3) && Leads(s3, d, t)
    requires OneSchedule(a) && NoSchedule(b) && NoSchedule(c) && NoSchedule(d)
    ensures History(trace, steps) && OneSchedule(steps) && trace[|steps|] == t
  {
    hide Leads, Initial;
    LeadsOn(s, a, s1, b, s2);
    LeadsOn(s, a + b, s2, c, s3);
    LeadsOn(s, a + b + c, s3, d, t);
    StillOne(a, b);
    StillOne(a + b, c);
    StillOne(a + b + c, d);
    steps := a + b + c + d;
    trace := LeadsRun(s, steps, t);
  }

  /** From the query for the first due id to its removal from the sorted set. */
  lemma TakesFirst(s: State, i: nat, id: string) returns (steps: seq<Step>, t: State)
    requires i < |s.instances| && s.instances[i].alive && s.instances[i].loop.Waiting? && s.instances[i].backend.Redis?
    requires FirstDue(s.shared.queue.scores, Unix(s.shared.clock), id) && id in s.shared.queue.keys
    ensures Leads(s, steps, t) && NoSchedule(steps)
    ensures t.shared == s.shared.(queue := s.shared.queue.(scores := s.shared.queue.scores - {id}))
    ensures t.instances ==
            s.instances[i := s.instances[i].(loop := LoopPc.Retrieved(id, RedisTask(id), s.shared.queue.keys[id]))]
  {
    hide Leads, FirstDue, RedisTask;
    var s1 := After(s, By(i, Query(id)));
    var s2 := After(s1, By(i, Fetch(true)));
    t := After(s2, By(i, Unlist(true)));
    Stays(s);
    steps := [] + [By(i, Query(id))];
    LeadsMore(s, [], s, By(i, Query(id)));
    LeadsMore(s, steps, s1, By(i, Fetch(true)));
    steps := steps + [By(i, Fetch(true))];
    LeadsMore(s, steps, s2, By(i, Unlist(true)));
    steps := steps + [By(i, Unlist(true))];
  }

  /**
    Every Redis task with a decodable name can run: there is a run with one store in
    which its executor begins once, with the payload, and afterwards the payload is gone
    if the executor returned nil, and the id is in the failed set if not.
  */
  lemma EveryRedisTaskCanRun(capacity: nat, name: string, at: Stamp, salt: nat, payload: Bytes, ok: bool)
    returns (trace: seq<State>, steps: seq<Step>)
    requires Valid(at) && salt < 100 && NameDecodes(Redis, name) && capacity > 0
    ensures History(trace, steps) && OneSchedule(steps)
    ensures var g, id := trace[|steps|].shared, RedisId(name, Unix(Instant(at)), salt);
      && g.log.starts == [Start(Redis, id, payload, Instant(at))] && RedisTask(id) == name
      && g.queue.scores == map[]
      && (if ok then g.queue.keys == map[] && g.queue.failed == map[]
          else g.queue.keys == map[id := payload] && g.queue.failed.Keys == {id})
    ensures |trace[|steps|].instances| == 1 && trace[|steps|].instances[0].permits == 0
  {
    hide Valid, Instant, Leads, RedisId, RedisTask, FileName, Format, Run, OneSchedule;
    var id := RedisId(name, Unix(Instant(at)), salt);
    RedisCodecExact(name, Unix(Instant(at)), salt);
    LeqTotal(id, id);
    var s, a, s1 := StoresOne(Redis, capacity, name, name, at, salt, payload);
    assert s1.shared.queue == Queue(map[id := Unix(Instant(at))], map[id := payload], map[]);
    var b, s2 := TakesFirst(s1, 0, id);
    assert s2.shared.queue.scores == map[];
    var c, s3 := StartsRetrieved(s2, 0, 0, id, name, payload);
    var d, t := Completes(s3, 0, 0, ok);
    if ok { assert t.shared.queue.keys == map[]; }
    trace, steps := Chained(s, a, s1, b, s2, c, s3, d, t);
  }

  // ---------- errors ----------

  /** A name without an executor is reported, and its task stays where it is. */
  lemma UnknownIsReported(s: State, i: nat)
    requires Enabled(s, By(i, Action.Lookup)) && s.instances[i].loop.name !in s.instances[i].executors
    ensures After(s, By(i, Action.Lookup)) == s.(instances := s.instances[i := s.instances[i].(loop := Reporting)])
  {
  }

  /** A loop that has reported an error waits for the next tick. */
  lemma LoopGoesOn(s: State, i: nat)
    requires i < |s.instances| && s.instances[i].alive && s.instances[i].loop.Reporting?
    ensures Enabled(s, By(i, Report))
    ensures After(s, By(i, Report)) == s.(instances := s.instances[i := s.instances[i].(loop := Waiting)])
  {
  }

  /** A worker whose `Done` or `Failure` fails changes no storage and still gives its permit back. */
  lemma FailedSettlesRelease(s: State, i: nat, k: nat) returns (steps: seq<Step>, t: State)
    requires i < |s.instances| && s.instances[i].alive && !s.instances[i].closed
    requires k in s.instances[i].workers && s.instances[i].workers[k].pc in {Failing, Finishing}
    ensures Leads(s, steps, t) && NoSchedule(steps) && By(i, Settle(k, false)) in steps && t.shared == s.shared
    ensures var w := s.instances[i];
      t.instances == s.instances[i := w.(permits := w.permits - 1, workers := w.workers - {k})]
  {
    hide Leads;
    var w := s.instances[i];
    var s1 := After(s, By(i, Settle(k, false)));
    assert s1.shared == s.shared && s1.instances == s.instances[i := SetPc(w, k, Complaining)];
    var s2 := After(s1, By(i, Send(k)));
    assert s2.shared == s.shared && s2.instances[i].workers == SetPc(w, k, Releasing).workers;
    assert s2.instances == s.instances[i := SetPc(w, k, Releasing)];
    Stays(s);
    LeadsMore(s, [], s, By(i, Settle(k, false)));
    steps := [] + [By(i, Settle(k, false))];
    LeadsMore(s, steps, s1, By(i, Send(k)));
    steps := steps + [By(i, Send(k))];
    var more;
    more, t := Releases(s2, i, k);
    LeadsOn(s, steps, s2, more, t);
    steps := steps + more;
    assert s2.instances[i].workers - {k} == w.workers - {k};
  }

  /** A crash takes the process and leaves the storages. */
  lemma CrashLeavesStorages(s: State, i: nat)
    requires i < |s.instances| && s.instances[i].alive
    ensures Enabled(s, By(i, Crash)) && After(s, By(i, Crash)).shared == s.shared
    ensures var w := After(s, By(i, Crash)).instances[i]; !w.alive && w.workers == map[] && w.loop.Stopped?
    ensures forall j | 0 <= j < |s.instances| && j != i :: After(s, By(i, Crash)).instances[j] == s.instances[j]
  {
  }

  // ---------- cancellation ----------

  /** A worker whose executor failed panics if the loop is cancelled before its error is taken. */
  lemma CancellationCanPanic(s: State, i: nat, k: nat) returns (steps: seq<Step>, t: State)
    requires i < |s.instances| && s.instances[i].alive && s.instances[i].loop.Waiting?
    requires k in s.instances[i].workers && s.instances[i].workers[k].pc.Erred?
    ensures Leads(s, steps, t) && |t.instances| == |s.instances|
    ensures Enabled(t, By(i, Panic(k))) && !Enabled(t, By(i, Send(k)))
    ensures var dead := After(t, By(i, Panic(k))).instances[i]; !dead.alive && dead.workers == map[]
  {
    steps, t := Cancels(s, i);
    hide Leads;
  }

  lemma Cancels(s: State, i: nat) returns (steps: seq<Step>, t: State)
    requires i < |s.instances| && s.instances[i].alive && s.instances[i].loop.Waiting?
    ensures Leads(s, steps, t) && NoSchedule(steps) && t.shared == s.shared
    ensures var w := s.instances[i];
      t.instances == s.instances[i := w.(cancelled := true, loop := Stopped, closed := true,
                                         inFlight := w.workers.Keys)]
  {
    hide Leads;
    var w := s.instances[i];
    var s1 := After(s, By(i, Cancel));
    assert s1.instances == s.instances[i := w.(cancelled := true)];
    var s2 := After(s1, By(i, Leave));
    assert s2.instances == s.instances[i := w.(cancelled := true, loop := Leaving, inFlight := w.workers.Keys)];
    t := After(s2, By(i, Close));
    Stays(s);
    steps := [] + [By(i, Cancel)];
    LeadsMore(s, [], s, By(i, Cancel));
    LeadsMore(s, steps, s1, By(i, Leave));
    steps := steps + [By(i, Leave)];
    LeadsMore(s, steps, s2, By(i, Close));
    steps := steps + [By(i, Close)];
  }
}
