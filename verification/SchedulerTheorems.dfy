/**
  What holds over whole runs of the scheduler: the life of a task, the limit on
  executors, the channels at cancellation, the times of the starts, and the branch
  for unknown executors.
*/
module SchedulerTheorems {
  import opened Strings
  import opened Timestamps
  import opened TaskNames
  import opened FileStorage
  import opened Scheduler
  import opened SchedulerInvariants

  /** A run from empty storages. */
  ghost predicate History(trace: seq<State>, steps: seq<Step>) {
    Run(trace, steps) && Initial(trace[0])
  }

  // ---------- the life of a task ----------

  datatype Stage = Pending | Executing | Failed | Removed | Discarded

  predicate At(g: Shared, file: string, stage: Stage) {
    match stage
    case Pending => file in g.dirs.pending
    case Executing => file in g.dirs.executing
    case Failed => file in g.dirs.failed
    case Removed => file in g.log.removed
    case Discarded => file in g.log.discarded
  }

  /** The stages a task can be in later. */
  predicate Forward(a: Stage, b: Stage) {
    a == b || a == Pending || (a == Executing && b in {Failed, Removed})
  }

  predicate MovesFiles(a: Action) {
    a.Schedule? || a.Discard? || a.ClaimFile? || a.Settle?
  }

  lemma OthersMoveNothing(g: Shared, w: Instance, i: nat, a: Action)
    requires Can(g, w, a) && !MovesFiles(a)
    ensures var g' := Act(g, w, i, a).0;
      g'.dirs == g.dirs && g'.log.removed == g.log.removed && g'.log.discarded == g.log.discarded
  {
    hide FileDue, DueBy, FileTask, Least, RedisTask, RedisId, FileName, Format, Valid, Leq;
  }

  lemma ScheduleForward(g: Shared, w: Instance, name: string, at: Stamp, salt: nat, payload: Bytes,
                        file: string, stage: Stage)
    requires At(g, file, stage) && Valid(at)
    ensures exists later :: Forward(stage, later) && At(ScheduleTask(g, w, name, at, salt, payload), file, later)
  {
    hide FileName, Format, Valid, RedisId;
    var g' := ScheduleTask(g, w, name, at, salt, payload);
    assert At(g', file, stage);
  }

  lemma DiscardForward(g: Shared, w: Instance, bad: string, ok: bool, file: string, stage: Stage)
    requires At(g, file, stage) && Places(g.dirs, g.log.stored, g.log.removed, g.log.discarded)
    ensures exists later :: Forward(stage, later) && At(Scheduler.Discarded(g, bad, ok), file, later)
  {
    hide FileName, Format, Valid, RedisId;
    var g' := Scheduler.Discarded(g, bad, ok);
    assert At(g', file, stage) || At(g', file, Discarded);
  }

  lemma ClaimForward(g: Shared, w: Instance, i: nat, claimed: string, ok: bool, file: string, stage: Stage)
    requires At(g, file, stage) && Places(g.dirs, g.log.stored, g.log.removed, g.log.discarded)
    ensures exists later :: Forward(stage, later) && At(TryClaim(g, w, i, claimed, ok).0, file, later)
  {
    hide FileName, Format, Valid, RedisId;
    var g' := TryClaim(g, w, i, claimed, ok).0;
    assert At(g', file, stage) || At(g', file, Executing);
  }

  lemma SettleForward(g: Shared, w: Instance, k: nat, ok: bool, file: string, stage: Stage)
    requires At(g, file, stage) && k in w.workers && Places(g.dirs, g.log.stored, g.log.removed, g.log.discarded)
    ensures exists later :: Forward(stage, later) && At(Settling(g, w, k, ok).0, file, later)
  {
    hide FileName, Format, Valid, RedisId;
    var g' := Settling(g, w, k, ok).0;
    assert At(g', file, stage) || At(g', file, Failed) || At(g', file, Removed);
  }

  /** What one action does to the places of the files. */
  lemma ActionForward(g: Shared, w: Instance, i: nat, a: Action, file: string, stage: Stage)
    requires SharedInv(g) && Can(g, w, a) && At(g, file, stage)
    ensures exists later :: Forward(stage, later) && At(Act(g, w, i, a).0, file, later)
  {
    hide Valid, Stages, Ends, Starts, Queued, Places, At, Forward;
    hide ScheduleTask, Scheduler.Discarded, TryClaim, Settling;
    match a
    case Schedule(name, at, salt, payload) => ScheduleForward(g, w, name, at, salt, payload, file, stage);
    case Discard(ok) => DiscardForward(g, w, w.loop.file, ok, file, stage);
    case ClaimFile(ok) => ClaimForward(g, w, i, w.loop.file, ok, file, stage);
    case Settle(k, ok) => SettleForward(g, w, k, ok, file, stage);
    case _ =>
      OthersMoveNothing(g, w, i, a);
      hide Act, Can;
      SamePlaces(g, Act(g, w, i, a).0, file, stage);
  }

  lemma SamePlaces(g: Shared, g': Shared, file: string, stage: Stage)
    requires g'.dirs == g.dirs && g'.log.removed == g.log.removed && g'.log.discarded == g.log.discarded
    requires At(g, file, stage)
    ensures exists later :: Forward(stage, later) && At(g', file, later)
  {
    assert At(g', file, stage);
  }

  lemma StepForward(s: State, step: Step, file: string, stage: Stage)
    requires Inv(s) && Enabled(s, step) && At(s.shared, file, stage)
    ensures exists later :: Forward(stage, later) && At(After(s, step).shared, file, later)
  {
    hide SharedInv, InstanceInv, Act, Can;
    if step.By? {
      ActionForward(s.shared, s.instances[step.i], step.i, step.action, file, stage);
    } else {
      assert At(After(s, step).shared, file, stage);
    }
  }

  /** A task only moves forward, over any stretch of any run. */
  lemma {:induction false} OnlyForward(trace: seq<State>, steps: seq<Step>, j: nat, k: nat, file: string, stage: Stage)
    requires History(trace, steps) && j <= k <= |steps|
    requires At(trace[j].shared, file, stage)
    ensures exists later :: Forward(stage, later) && At(trace[k].shared, file, later)
    decreases k
  {
    hide Inv, After, Enabled, Initial, At;
    if j < k {
      OnlyForward(trace, steps, j, k - 1, file, stage);
      var mid :| Forward(stage, mid) && At(trace[k - 1].shared, file, mid);
      RunInv(trace, steps, k - 1);
      StepForward(trace[k - 1], steps[k - 1], file, mid);
    } else {
      assert Forward(stage, stage);
    }
  }

  ghost predicate InOnePlace(g: Shared, file: string) {
    && (file in g.log.stored <==> exists stage :: At(g, file, stage))
    && (forall a, b | At(g, file, a) && At(g, file, b) :: a == b)
    && (file in g.dirs.pending ==> file in g.log.stored && g.dirs.pending[file] == g.log.stored[file])
    && (file in g.dirs.executing ==> file in g.log.stored && g.dirs.executing[file] == g.log.stored[file])
    && (file in g.dirs.failed ==> file in g.log.stored && g.dirs.failed[file] == g.log.stored[file])
  }

  lemma PlacesAreOne(g: Shared, file: string)
    requires Places(g.dirs, g.log.stored, g.log.removed, g.log.discarded)
    ensures InOnePlace(g, file)
  {
    if file in g.log.stored {
      assert At(g, file, Pending) || At(g, file, Executing) || At(g, file, Failed)
          || At(g, file, Removed) || At(g, file, Discarded);
    }
  }

  /** In every state of every run each stored task is in exactly one place, with its payload. */
  lemma ExactlyOnePlace(trace: seq<State>, steps: seq<Step>, k: nat, file: string)
    requires History(trace, steps) && k <= |steps|
    ensures InOnePlace(trace[k].shared, file)
  {
    hide Initial, InstanceInv, Places, Stages, Ends, Starts, Queued, InOnePlace;
    RunInv(trace, steps, k);
    PlacesAreOne(trace[k].shared, file);
  }

  /**
    An executor gets a task at most once, with the stored payload, after it was
    claimed; the task is removed only when its executor returned nil and fails only
    when it returned an error.
  */
  lemma StartedAtMostOnce(trace: seq<State>, steps: seq<Step>, k: nat)
    requires History(trace, steps) && k <= |steps|
    ensures var g := trace[k].shared;
      && (forall m, n | 0 <= m < n < |g.log.starts|
                        && g.log.starts[m].backend.Files? && g.log.starts[n].backend.Files? ::
            g.log.starts[m].id != g.log.starts[n].id)
      && (forall n | 0 <= n < |g.log.starts| && g.log.starts[n].backend.Files? ::
            var start := g.log.starts[n];
            start.id in g.log.stored && start.data == g.log.stored[start.id] && start.id !in g.dirs.pending)
      && (forall file | At(g, file, Removed) ::
            file in StartedFiles(g.log.starts) && file in g.log.outcome && g.log.outcome[file])
      && (forall file | At(g, file, Failed) ::
            file in StartedFiles(g.log.starts) && file in g.log.outcome && !g.log.outcome[file])
  {
    RunInv(trace, steps, k);
    hide Initial, Run, InstanceInv, Places, Queued, FileDue, DueBy;
    var g := trace[k].shared;
    forall n | 0 <= n < |g.log.starts| && g.log.starts[n].backend.Files?
      ensures g.log.starts[n].id in StartedFiles(g.log.starts)
    {
    }
  }

  /**
    For every name: only files whose name loses the time are ever thrown away unread,
    and those are never claimed, started, failed or done.
  */
  lemma DiscardedExactly(trace: seq<State>, steps: seq<Step>, k: nat, name: string, t: Stamp)
    requires History(trace, steps) && k <= |steps| && Valid(t)
    requires FileName(name, Format(t)) in trace[k].shared.log.stored
    ensures var g, file := trace[k].shared, FileName(name, Format(t));
      At(g, file, Pending) || (At(g, file, Discarded) <==> LosesTime(name, t))
    ensures FileName(name, Format(t)) in StartedFiles(trace[k].shared.log.starts) ==> !LosesTime(name, t)
  {
    RunInv(trace, steps, k);
    FileDiscardExact(name, t);
    hide Initial, Run, InstanceInv, Queued, FileName, FileTask, FileDue, Format, Parse, Valid, LosesTime, Head;
  }

  /** No task of a decodable name is ever thrown away unread. */
  lemma DecodableNeverDiscarded(trace: seq<State>, steps: seq<Step>, k: nat, name: string, t: Stamp)
    requires History(trace, steps) && k <= |steps| && Valid(t) && Decodable(name, t)
    ensures !At(trace[k].shared, FileName(name, Format(t)), Discarded)
  {
    hide Initial, InstanceInv, Queued, Starts, Stages, FileName, FileTask, FileDue, Format, Valid, LosesTime;
    hide Decodable, Dated;
    RunInv(trace, steps, k);
    FileDiscardExact(name, t);
    if FileName(name, Format(t)) in trace[k].shared.log.stored { DiscardedExactly(trace, steps, k, name, t); }
  }

  // ---------- tasks of a dead process ----------

  /** An executing file whose claimant is an instance that died. */
  ghost predicate Orphan(s: State, file: string, i: nat) {
    && At(s.shared, file, Executing) && i < |s.instances| && !s.instances[i].alive
    && file in s.shared.log.owner && s.shared.log.owner[file].inst == i
  }

  lemma OrphanStep(s: State, step: Step, file: string, i: nat)
    requires Inv(s) && Enabled(s, step) && Orphan(s, file, i)
    ensures Orphan(After(s, step), file, i)
    ensures file in StartedFiles(After(s, step).shared.log.starts) <==> file in StartedFiles(s.shared.log.starts)
  {
    hide SharedInv, InstanceInv, StartedFiles, Act;
    var g, g' := s.shared, After(s, step).shared;
    match step
    case Tock(c) => TimePasses(g, c);
    case Launch(_, _) => AllSame(g);
    case By(j, a) =>
      ActionKeeps(g, s.instances[j], j, a);
      assert j != i && Spares(g, g', i);
  }

  /**
    The price of at-most-once: when a process crashes or sends on its closed channel, the
    files it had claimed stay in the executing directory for ever, and those that had
    not been started never are, whatever other processes do.
  */
  lemma {:induction false} OrphansStay(trace: seq<State>, steps: seq<Step>, j: nat, k: nat, file: string, i: nat)
    requires History(trace, steps) && j <= k <= |steps| && Orphan(trace[j], file, i)
    ensures Orphan(trace[k], file, i)
    ensures file in StartedFiles(trace[k].shared.log.starts) <==> file in StartedFiles(trace[j].shared.log.starts)
    decreases k
  {
    hide Inv, After, Enabled, Initial, Orphan, StartedFiles;
    if j < k {
      OrphansStay(trace, steps, j, k - 1, file, i);
      RunInv(trace, steps, k - 1);
      OrphanStep(trace[k - 1], steps[k - 1], file, i);
    }
  }

  // ---------- permits and channels ----------

  function RunningExecutors(w: Instance): set<nat> {
    set k | k in w.workers && w.workers[k].pc.Running?
  }

  /**
    In every state the permits taken are those of the unreleased workers plus the one
    the loop has taken for a worker it has not started, so no more executors run at a
    time than the concurrency allows, also after cancellation.
  */
  lemma PermitsCountWorkers(trace: seq<State>, steps: seq<Step>, k: nat, i: nat)
    requires History(trace, steps) && k <= |steps| && i < |trace[k].instances|
    ensures var w := trace[k].instances[i];
      && (w.alive ==> w.permits == |w.workers| + if w.loop.Permitted? then 1 else 0)
      && |RunningExecutors(w)| <= |w.workers| <= w.capacity
  {
    RunInv(trace, steps, k);
    hide Initial, Run, SharedInv, LoopInv, WorkerInv;
    var w := trace[k].instances[i];
    Subset(RunningExecutors(w), w.workers.Keys);
  }

  lemma Subset<T>(a: set<T>, b: set<T>)
    requires a <= b
    ensures |a| <= |b|
  {
    if a != {} {
      var x :| x in a;
      Subset(a - {x}, b - {x});
    }
  }

  /** Only a worker that was in flight at cancellation can send on the closed error channel. */
  lemma OnlyInFlightCanPanic(trace: seq<State>, steps: seq<Step>, k: nat, i: nat, worker: nat)
    requires History(trace, steps) && k <= |steps| && i < |trace[k].instances|
    requires Can(trace[k].shared, trace[k].instances[i], Panic(worker))
    ensures trace[k].instances[i].loop.Stopped? && worker in trace[k].instances[i].inFlight
  {
    hide Initial, Run, SharedInv, LoopInv, WorkerInv;
    RunInv(trace, steps, k);
  }

  // ---------- start times ----------

  /**
    Under the non-decreasing clock no executor of a file task starts before its scheduled
    nanosecond, whatever its name and whichever task it decodes to.
  */
  lemma NoFileStartsEarly(trace: seq<State>, steps: seq<Step>, k: nat, n: nat, name: string, t: Stamp)
    requires History(trace, steps) && k <= |steps| && n < |trace[k].shared.log.starts|
    requires Valid(t)
    requires var start := trace[k].shared.log.starts[n];
      start.backend.Files? && start.id == FileName(name, Format(t))
    ensures Instant(t) <= trace[k].shared.log.starts[n].time <= trace[k].shared.clock
  {
    hide Initial, Run, InstanceInv, Places, Queued, Valid;
    RunInv(trace, steps, k);
    FileDiscardExact(name, t);
    hide Ends, Stages, FileName, FileTask, Format, Parse;
  }

  /** No executor of a Redis task starts a full second or more before its scheduled time. */
  lemma NoRedisStartsASecondEarly(trace: seq<State>, steps: seq<Step>, k: nat, n: nat, nanos: int)
    requires History(trace, steps) && k <= |steps| && n < |trace[k].shared.log.starts|
    requires var start := trace[k].shared.log.starts[n];
      start.backend.Redis? && (start.id, nanos) in trace[k].shared.log.queued
    ensures nanos - trace[k].shared.log.starts[n].time < NANOS_PER_SECOND
  {
    RunInv(trace, steps, k);
    hide Initial, Run, InstanceInv, Places, Starts, Ends, Stages, RedisId;
    var start := trace[k].shared.log.starts[n];
    var unix :| IdAt(start.id, unix) && unix <= Unix(start.time);
    var name, salt :| start.id == RedisId(name, unix, salt);
    assert IdAt(start.id, Unix(nanos));
    var name', salt' :| start.id == RedisId(name', Unix(nanos), salt');
    RedisIdInjective(name, unix, salt, name', Unix(nanos), salt');
  }

  // ---------- the size of the executing directory ----------

  /** One process on file storage, whose executors are found and whose reads and moves succeed. */
  ghost predicate Smooth(s: State, step: Step) {
    match step
    case Tock(_) => true
    case Launch(_, _) => false
    case By(i, a) =>
      && i == 0 && a != Read(false) && (a.Settle? ==> a.ok)
      && (a.Lookup? && |s.instances| > 0 && s.instances[0].loop.Retrieved? ==>
            s.instances[0].loop.name in s.instances[0].executors)
  }

  ghost predicate SmoothRun(trace: seq<State>, steps: seq<Step>, capacity: nat) {
    && Run(trace, steps)
    && (exists c :: trace[0] == State(EMPTY.(clock := c), [Fresh(Files, capacity)]))
    && forall k | 0 <= k < |steps| :: Smooth(trace[k], steps[k])
  }

  /** The files that the loop or a worker still has to move on. */
  function Held(w: Instance): set<string> {
    (if LoopTask(w.loop).Some? then {LoopTask(w.loop).value} else {})
    + set k | k in w.workers && !(w.workers[k].pc in {Complaining, Releasing}) :: w.workers[k].id
  }

  ghost predicate HeldInv(s: State, capacity: nat) {
    && |s.instances| == 1 && s.instances[0].backend.Files? && s.instances[0].capacity == capacity
    && |s.shared.dirs.executing.Keys| <= capacity + 1
    && (s.instances[0].alive ==> s.shared.dirs.executing.Keys <= Held(s.instances[0]))
  }

  lemma {:induction false} ImageSize(workers: map<nat, Worker>, ids: set<string>)
    requires forall id | id in ids :: exists k :: k in workers && workers[k].id == id
    ensures |ids| <= |workers|
    decreases |workers|
  {
    if ids != {} {
      var id :| id in ids;
      var k :| k in workers && workers[k].id == id;
      var fewer := workers - {k};
      assert fewer.Keys == workers.Keys - {k};
      forall other | other in ids - {id} ensures exists m :: m in fewer && fewer[m].id == other {
        var m :| m in workers && workers[m].id == other;
        assert m in fewer && fewer[m].id == other;
      }
      ImageSize(fewer, ids - {id});
    }
  }

  lemma HeldSize(w: Instance)
    requires Permits(w) && w.alive
    ensures |Held(w)| <= w.capacity + 1
  {
    var ids := set k | k in w.workers && !(w.workers[k].pc in {Complaining, Releasing}) :: w.workers[k].id;
    ImageSize(w.workers, ids);
    var own := if LoopTask(w.loop).Some? then {LoopTask(w.loop).value} else {};
    assert Held(w) == own + ids;
    assert |own + ids| <= |own| + |ids|;
  }

  /** The workers that still have a file to move on. */
  function Busy(w: Instance): set<string> {
    set k | k in w.workers && !(w.workers[k].pc in {Complaining, Releasing}) :: w.workers[k].id
  }

  lemma HeldWorker(w: Instance, k: nat, pc: WorkerPc)
    requires k in w.workers
    ensures Busy(w) <= Busy(SetPc(w, k, pc)) + {w.workers[k].id}
    ensures pc !in {Complaining, Releasing} || w.workers[k].pc in {Complaining, Releasing} ==>
              Busy(w) <= Busy(SetPc(w, k, pc))
  {
    var w' := SetPc(w, k, pc);
    forall id | id in Busy(w) && (id != w.workers[k].id || pc !in {Complaining, Releasing}
                                  || w.workers[k].pc in {Complaining, Releasing})
      ensures id in Busy(w')
    {
      var m :| m in w.workers && !(w.workers[m].pc in {Complaining, Releasing}) && w.workers[m].id == id;
      assert m in w'.workers && w'.workers[m].id == id;
    }
  }

  lemma HeldWorkerAction(g: Shared, w: Instance, i: nat, a: Action)
    requires w.backend.Files? && Can(g, w, a) && (a.Settle? ==> a.ok)
    requires a.Begin? || a.Return? || a.Send? || a.Settle?
    requires g.dirs.executing.Keys <= Held(w)
    ensures var (g', w') := Act(g, w, i, a); g'.dirs.executing.Keys <= Held(w')
  {
    hide FileDue, DueBy, FileTask, Least, RedisTask, RedisId, FileName, Format, Valid, Leq;
    var (g', w') := Act(g, w, i, a);
    var k := a.worker;
    assert w' == SetPc(w, k, w'.workers[k].pc);
    HeldWorker(w, k, w'.workers[k].pc);
    assert a.Settle? ==> w.workers[k].id !in g'.dirs.executing;
    assert Held(w) == (if LoopTask(w.loop).Some? then {LoopTask(w.loop).value} else {}) + Busy(w);
    assert Held(w') == (if LoopTask(w.loop).Some? then {LoopTask(w.loop).value} else {}) + Busy(w');
  }

  lemma HeldLoopAction(g: Shared, w: Instance, i: nat, a: Action)
    requires w.backend.Files? && w.alive && Can(g, w, a) && a != Read(false)
    requires !(a.Begin? || a.Return? || a.Send? || a.Settle? || a.Release? || a.Spawn? || a.Crash? || a.Panic?)
    requires a.Lookup? ==> w.loop.name in w.executors
    requires !w.loop.Fetching? && !w.loop.Unlisting?
    requires g.dirs.executing.Keys <= Held(w)
    ensures var (g', w') := Act(g, w, i, a); g'.dirs.executing.Keys <= Held(w')
  {
    hide FileDue, DueBy, FileTask, Least, RedisTask, RedisId, FileName, Format, Valid, Leq;
    var (g', w') := Act(g, w, i, a);
    assert w'.workers == w.workers;
    assert Held(w) == (if LoopTask(w.loop).Some? then {LoopTask(w.loop).value} else {}) + Busy(w);
    assert Held(w') == (if LoopTask(w'.loop).Some? then {LoopTask(w'.loop).value} else {}) + Busy(w);
    hide Busy, Held;
  }

  lemma HeldHandover(g: Shared, w: Instance, i: nat, a: Action)
    requires w.backend.Files? && Can(g, w, a) && (a.Release? || a.Spawn?)
    requires g.dirs.executing.Keys <= Held(w)
    ensures var (g', w') := Act(g, w, i, a); g'.dirs.executing.Keys <= Held(w')
  {
    hide FileDue, DueBy, FileTask, Least, RedisTask, RedisId, FileName, Format, Valid, Leq;
    var (g', w') := Act(g, w, i, a);
    assert g'.dirs == g.dirs;
    forall id | id in Held(w) ensures id in Held(w') {
      if a.Spawn? && id == w.loop.id {
        assert a.worker in w'.workers && w'.workers[a.worker].id == id;
      } else if LoopTask(w.loop) != Some(id) {
        var m :| m in w.workers && !(w.workers[m].pc in {Complaining, Releasing}) && w.workers[m].id == id;
        assert m in w'.workers && w'.workers[m].id == id;
      }
    }
  }

  lemma SameKind(g: Shared, w: Instance, i: nat, a: Action)
    requires Can(g, w, a)
    ensures Act(g, w, i, a).1.backend == w.backend && Act(g, w, i, a).1.capacity == w.capacity
    ensures a.Crash? || a.Panic? ==> Act(g, w, i, a).0 == g && !Act(g, w, i, a).1.alive
    ensures w.alive && (!(a.Crash? || a.Panic?) ==> Act(g, w, i, a).1.alive)
  {
    hide FileDue, DueBy, FileTask, Least, RedisTask, RedisId, FileName, Format, Valid, Leq;
  }

  lemma HeldAction(g: Shared, w: Instance, a: Action)
    requires w.backend.Files? && w.alive && Can(g, w, a) && LoopInv(g, w, 0)
    requires a != Read(false) && (a.Settle? ==> a.ok) && !(a.Crash? || a.Panic?)
    requires a.Lookup? && w.loop.Retrieved? ==> w.loop.name in w.executors
    requires g.dirs.executing.Keys <= Held(w)
    ensures var (g', w') := Act(g, w, 0, a); g'.dirs.executing.Keys <= Held(w')
  {
    CanLookup(g, w, a);
    hide Act, Can, Held, Ready, DueBy, FileDue;
    if a.Begin? || a.Return? || a.Send? || a.Settle? { HeldWorkerAction(g, w, 0, a); }
    else if a.Release? || a.Spawn? { HeldHandover(g, w, 0, a); }
    else { HeldLoopAction(g, w, 0, a); }
  }

  lemma HeldBound(g: Shared, w: Instance, a: Action, capacity: nat)
    requires w.backend.Files? && w.capacity == capacity && Can(g, w, a) && LoopInv(g, w, 0)
    requires a != Read(false) && (a.Settle? ==> a.ok)
    requires a.Lookup? && w.loop.Retrieved? ==> w.loop.name in w.executors
    requires |g.dirs.executing.Keys| <= capacity + 1 && (w.alive ==> g.dirs.executing.Keys <= Held(w))
    requires Permits(Act(g, w, 0, a).1)
    ensures var (g', w') := Act(g, w, 0, a);
      && w'.backend.Files? && w'.capacity == capacity
      && |g'.dirs.executing.Keys| <= capacity + 1 && (w'.alive ==> g'.dirs.executing.Keys <= Held(w'))
  {
    hide LoopInv, Permits, Act, Can, Held;
    SameKind(g, w, 0, a);
    if !(a.Crash? || a.Panic?) {
      HeldAction(g, w, a);
      var (g', w') := Act(g, w, 0, a);
      HeldSize(w');
      Subset(g'.dirs.executing.Keys, Held(w'));
    }
  }

  lemma HeldStep(s: State, step: Step, capacity: nat)
    requires Inv(s) && HeldInv(s, capacity) && Enabled(s, step) && Smooth(s, step)
    ensures HeldInv(After(s, step), capacity)
  {
    hide SharedInv, LoopInv, WorkerInv, Permits, Act, Can, Held;
    StepKeeps(s, step);
    if step.By? {
      var s' := After(s, step);
      assert InstanceInv(s'.shared, s'.instances[0], 0);
      HeldBound(s.shared, s.instances[0], step.action, capacity);
    }
  }

  lemma CanLookup(g: Shared, w: Instance, a: Action)
    requires Can(g, w, a)
    ensures a.Lookup? ==> w.loop.Retrieved?
  {
  }

  /**
    With one process on file storage, found executors and no failing read or move, the
    executing directory holds at most `concurrency + 1` tasks in every state, also
    after cancellation, a crash or a send on the closed channel.
  */
  lemma {:induction false} ExecutingIsBounded(trace: seq<State>, steps: seq<Step>, k: nat, capacity: nat)
    requires SmoothRun(trace, steps, capacity) && k <= |steps|
    ensures HeldInv(trace[k], capacity)
    ensures |trace[k].shared.dirs.executing| <= capacity + 1
  {
    hide Enabled, After, Smooth, Inv, InstanceInv, SharedInv;
    if k == 0 {
      FreshInv(trace[0], capacity);
    } else {
      ExecutingIsBounded(trace, steps, k - 1, capacity);
      FreshInv(trace[0], capacity);
      InvHolds(trace, steps, k - 1);
      HeldStep(trace[k - 1], steps[k - 1], capacity);
    }
  }

  lemma FreshInv(s: State, capacity: nat)
    requires exists c :: s == State(EMPTY.(clock := c), [Fresh(Files, capacity)])
    ensures Inv(s) && HeldInv(s, capacity)
  {
    var c :| s == State(EMPTY.(clock := c), [Fresh(Files, capacity)]);
    FreshInstance(s.shared, Files, capacity, 0);
  }

  // ---------- executors are found ----------

  /** The stored form of this task name reads back as the name. */
  predicate NameDecodes(backend: Backend, name: string) {
    match backend
    case Files => '_' !in name
    case Redis => name != "" && '_' !in name && name[0] !in "task"
  }

  /** A run from empty storages and new processes in which every scheduled name can be decoded. */
  ghost predicate DecodableRun(trace: seq<State>, steps: seq<Step>) {
    && Run(trace, steps)
    && trace[0].shared == EMPTY.(clock := trace[0].shared.clock)
    && (forall w | w in trace[0].instances :: w == Fresh(w.backend, w.capacity))
    && (forall k | 0 <= k < |steps| :: SchedulesDecodable(trace[k], steps[k]))
  }

  predicate SchedulesDecodable(s: State, step: Step) {
    step.By? && step.i < |s.instances| && step.action.Schedule? ==>
      NameDecodes(s.instances[step.i].backend, step.action.name)
  }

  /** One process, no other; every scheduled name can be decoded. Executors are only ever added. */
  ghost predicate OneProcess(trace: seq<State>, steps: seq<Step>, backend: Backend, capacity: nat) {
    && Run(trace, steps)
    && (exists c :: trace[0] == State(EMPTY.(clock := c), [Fresh(backend, capacity)]))
    && forall k | 0 <= k < |steps| ::
         !steps[k].Launch? && (steps[k].By? && steps[k].action.Schedule? ==> NameDecodes(backend, steps[k].action.name))
  }

  /** The names that some process on this storage, alive or dead, has an executor for. */
  function Registered(instances: seq<Instance>, backend: Backend): set<string> {
    set i, name | 0 <= i < |instances| && instances[i].backend == backend && name in instances[i].executors :: name
  }

  /** Every stored task has an executor somewhere. */
  predicate StoresKnown(g: Shared, files: set<string>, redis: set<string>) {
    && (forall file | file in g.dirs.pending :: FileTask(file) in files)
    && (forall id | id in g.queue.scores :: RedisTask(id) in redis)
  }

  /** The task the loop is working on has an executor somewhere. */
  predicate LoopKnown(w: Instance, files: set<string>, redis: set<string>) {
    match w.loop
    case Listed(file) => w.backend.Files? && FileTask(file) in files
    case Discarding(file) => w.backend.Files?
    case Claiming(file) => w.backend.Files? && FileTask(file) in files
    case Claimed(file) => w.backend.Files? && FileTask(file) in files
    case Fetching(id) => w.backend.Redis? && RedisTask(id) in redis
    case Unlisting(id, _) => w.backend.Redis? && RedisTask(id) in redis
    case Retrieved(_, name, _) => name in if w.backend.Files? then files else redis
    case _ => true
  }

  predicate Known(s: State) {
    var files, redis := Registered(s.instances, Files), Registered(s.instances, Redis);
    StoresKnown(s.shared, files, redis) && forall w | w in s.instances :: LoopKnown(w, files, redis)
  }

  lemma ScheduledIsKnown(backend: Backend, name: string, t: Stamp, salt: nat)
    requires Valid(t) && NameDecodes(backend, name)
    ensures backend.Files? ==> FileTask(FileName(name, Format(t))) == name
    ensures backend.Redis? ==> RedisTask(RedisId(name, Unix(Instant(t)), salt)) == name
  {
    hide FileTask, RedisTask, FileName, RedisId, Format, Valid;
    match backend
    case Files =>
      FileDiscardExact(name, t);
      HeadIsPrefix(name);
    case Redis => RedisCodecExact(name, Unix(Instant(t)), salt);
  }

  lemma ScheduleIsKnown(g: Shared, w: Instance, a: Action, files: set<string>, redis: set<string>)
    requires StoresKnown(g, files, redis) && a.Schedule? && Valid(a.at) && NameDecodes(w.backend, a.name)
    requires w.executors <= if w.backend.Files? then files else redis
    ensures StoresKnown(ScheduleTask(g, w, a.name, a.at, a.salt, a.payload), files, redis)
  {
    ScheduledIsKnown(w.backend, a.name, a.at, a.salt);
    hide FileTask, RedisTask, RedisId, FileName, Format, Valid;
  }

  lemma StoresOnlyShrink(g: Shared, w: Instance, i: nat, a: Action)
    requires Can(g, w, a) && !a.Schedule?
    ensures var (g', w') := Act(g, w, i, a);
      && g'.dirs.pending.Keys <= g.dirs.pending.Keys && g'.queue.scores.Keys <= g.queue.scores.Keys
      && w.executors <= w'.executors
  {
    hide FileDue, DueBy, FileTask, RedisTask, RedisId, FileName, Format, Valid, Leq;
  }

  lemma LoopStaysKnown(g: Shared, w: Instance, i: nat, a: Action, files: set<string>, redis: set<string>)
    requires StoresKnown(g, files, redis) && LoopKnown(w, files, redis) && Can(g, w, a)
    ensures LoopKnown(Act(g, w, i, a).1, files, redis)
  {
    hide FileDue, DueBy, FileTask, RedisTask, RedisId, FileName, Format, Valid, Leq;
  }

  lemma StoresStayKnown(g: Shared, w: Instance, i: nat, a: Action, files: set<string>, redis: set<string>)
    requires StoresKnown(g, files, redis) && Can(g, w, a)
    requires a.Schedule? ==> NameDecodes(w.backend, a.name)
    requires w.executors <= if w.backend.Files? then files else redis
    ensures StoresKnown(Act(g, w, i, a).0, files, redis) && w.executors <= Act(g, w, i, a).1.executors
  {
    if a.Schedule? {
      hide StoresKnown, ScheduleTask, FileName, Format, Valid;
      ScheduleIsKnown(g, w, a, files, redis);
    } else {
      StoresOnlyShrink(g, w, i, a);
      hide Act, Can, FileTask, RedisTask;
    }
  }

  lemma RegisteredGrows(a: seq<Instance>, b: seq<Instance>, backend: Backend)
    requires |a| <= |b|
    requires forall i | 0 <= i < |a| :: b[i].backend == a[i].backend && a[i].executors <= b[i].executors
    ensures Registered(a, backend) <= Registered(b, backend)
  {
  }

  lemma StillKnown(g: Shared, w: Instance, files: set<string>, redis: set<string>,
                   files': set<string>, redis': set<string>)
    requires files <= files' && redis <= redis'
    ensures StoresKnown(g, files, redis) ==> StoresKnown(g, files', redis')
    ensures LoopKnown(w, files, redis) ==> LoopKnown(w, files', redis')
  {
    hide FileTask, RedisTask;
  }

  lemma KnownAction(s: State, i: nat, a: Action)
    requires Known(s) && i < |s.instances| && Can(s.shared, s.instances[i], a)
    requires a.Schedule? ==> NameDecodes(s.instances[i].backend, a.name)
    ensures Known(After(s, By(i, a)))
  {
    var s', w := After(s, By(i, a)), s.instances[i];
    var files, redis := Registered(s.instances, Files), Registered(s.instances, Redis);
    var files', redis' := Registered(s'.instances, Files), Registered(s'.instances, Redis);
    assert w in s.instances;
    SameKind(s.shared, w, i, a);
    StoresStayKnown(s.shared, w, i, a, files, redis);
    LoopStaysKnown(s.shared, w, i, a, files, redis);
    hide Act, Can, LoopKnown, StoresKnown;
    RegisteredGrows(s.instances, s'.instances, Files);
    RegisteredGrows(s.instances, s'.instances, Redis);
    hide Registered;
    StillKnown(s'.shared, w, files, redis, files', redis');
    forall x | x in s'.instances ensures LoopKnown(x, files', redis') {
      StillKnown(s'.shared, x, files, redis, files', redis');
    }
  }

  lemma KnownOther(s: State, step: Step)
    requires Known(s) && Enabled(s, step) && !step.By?
    ensures Known(After(s, step))
  {
    var s' := After(s, step);
    var files, redis := Registered(s.instances, Files), Registered(s.instances, Redis);
    var files', redis' := Registered(s'.instances, Files), Registered(s'.instances, Redis);
    RegisteredGrows(s.instances, s'.instances, Files);
    RegisteredGrows(s.instances, s'.instances, Redis);
    hide FileTask, RedisTask, Registered;
    forall x | x in s'.instances ensures LoopKnown(x, files', redis') {
      if x in s.instances { StillKnown(s.shared, x, files, redis, files', redis'); }
    }
  }

  lemma {:induction false} KnownHolds(trace: seq<State>, steps: seq<Step>, k: nat)
    requires DecodableRun(trace, steps) && k <= |steps|
    ensures Known(trace[k])
  {
    if k > 0 {
      hide Known;
      KnownHolds(trace, steps, k - 1);
      var s, step := trace[k - 1], steps[k - 1];
      assert Enabled(s, step) && trace[k] == After(s, step) && SchedulesDecodable(s, step);
      if step.By? {
        hide After, Act, Can, NameDecodes;
        KnownAction(s, step.i, step.action);
      } else {
        KnownOther(s, step);
      }
    } else {
      hide FileTask, RedisTask, Registered;
    }
  }

  /**
    With any number of processes: a retrieved name is registered at some process on the
    same storage, so only a process that lacks another's executor takes the branch for
    an unknown one.
  */
  lemma ExecutorIsFoundSomewhere(trace: seq<State>, steps: seq<Step>, k: nat, i: nat)
    requires DecodableRun(trace, steps) && k < |steps| && steps[k] == By(i, Lookup)
    ensures i < |trace[k].instances| && trace[k].instances[i].loop.Retrieved?
    ensures var w := trace[k].instances[i]; w.loop.name in Registered(trace[k].instances, w.backend)
  {
    KnownHolds(trace, steps, k);
    assert Enabled(trace[k], steps[k]);
    assert trace[k].instances[i] in trace[k].instances;
    hide FileTask, RedisTask, Registered;
  }

  lemma {:induction false} StillOneProcess(trace: seq<State>, steps: seq<Step>, backend: Backend, capacity: nat, k: nat)
    requires OneProcess(trace, steps, backend, capacity) && k <= |steps|
    ensures |trace[k].instances| == 1 && trace[k].instances[0].backend == backend
  {
    if k > 0 {
      StillOneProcess(trace, steps, backend, capacity, k - 1);
      var s, step := trace[k - 1], steps[k - 1];
      assert Enabled(s, step) && trace[k] == After(s, step);
      hide Act, Can;
      if step.By? { SameKind(s.shared, s.instances[0], 0, step.action); }
    }
  }

  /** With one process the branch for an unknown executor is never reached: every retrieved name is registered. */
  lemma ExecutorIsFound(trace: seq<State>, steps: seq<Step>, backend: Backend, capacity: nat, k: nat)
    requires OneProcess(trace, steps, backend, capacity) && k < |steps| && steps[k] == By(0, Lookup)
    ensures trace[k].instances[0].loop.Retrieved?
    ensures trace[k].instances[0].loop.name in trace[k].instances[0].executors
  {
    forall m | 0 <= m < |steps| ensures SchedulesDecodable(trace[m], steps[m]) {
      StillOneProcess(trace, steps, backend, capacity, m);
    }
    assert DecodableRun(trace, steps) by { hide NameDecodes, SchedulesDecodable; }
    StillOneProcess(trace, steps, backend, capacity, k);
    hide OneProcess, DecodableRun;
    ExecutorIsFoundSomewhere(trace, steps, k, 0);
  }

  // ---------- an undisturbed Retrieve ----------

  ghost function Then(g: Shared, w: Instance, i: nat, a: Action): (Shared, Instance) {
    if Can(g, w, a) then Act(g, w, i, a) else (g, w)
  }

  /** The loop goes through `Retrieve` with nobody else taking a step. */
  ghost function Undisturbed(g: Shared, w: Instance, i: nat, fault: Fault): (Shared, Instance) {
    if fault == OnList then Then(g, w, i, StorageError)
    else
      var (g1, w1) := Then(g, w, i, List);
      var (g2, w2) := Then(g1, w1, i, Check);
      var (g3, w3) := Then(g2, w2, i, Action.Discard(fault != OnRemove));
      var (g4, w4) := Then(g3, w3, i, ClaimFile(fault != OnMove));
      Then(g4, w4, i, Read(fault != OnRead))
  }

  /** The last three actions of a listed file's `Retrieve`. */
  lemma AfterCheck(g: Shared, w: Instance, i: nat, fault: Fault)
    requires w.alive && w.backend.Files? && fault != OnList
    requires w.loop.Waiting? || ((w.loop.Discarding? || w.loop.Claiming?) && w.loop.file in g.dirs.pending)
    ensures var (g3, w3) := Then(g, w, i, Action.Discard(fault != OnRemove));
      var (g4, w4) := Then(g3, w3, i, ClaimFile(fault != OnMove));
      var (g5, w5) := Then(g4, w4, i, Read(fault != OnRead));
      match w.loop
      case Waiting => g5 == g && w5 == w
      case Discarding(file) =>
        && g5.dirs == (if fault == OnRemove then g.dirs else FileStorage.Discard(g.dirs, file))
        && w5.loop.Reporting?
      case Claiming(file) =>
        && g5.dirs == (if fault == OnMove then g.dirs else Claim(g.dirs, file))
        && w5.loop == (if fault in {OnMove, OnRead} then Reporting
                       else LoopPc.Retrieved(file, FileTask(file), g.dirs.pending[file]))
      case _ => true
  {
    hide FileDue, FileTask, FileName, Format, Valid, RedisId, RedisTask, FirstDue, DueBy, Least;
  }

  /** Then the steps do what the storage object's `Retrieve` does as a whole, whatever operation fails. */
  lemma StepsRefineRetrieve(g: Shared, w: Instance, i: nat, fault: Fault)
    requires w.alive && w.loop.Waiting? && w.backend.Files?
    ensures var (g', w') := Undisturbed(g, w, i, fault);
      var (r, d) := FileStorage.Retrieved(g.dirs, g.clock, fault);
      && g'.dirs == d
      && w'.loop == match r
                    case Nothing => Waiting
                    case BadTime => Reporting
                    case IoError => Reporting
                    case Task(id, name, data) => LoopPc.Retrieved(id, name, data)
  {
    hide FileDue, FileTask, FileName, Format, Valid, RedisId, RedisTask, FirstDue, Leq;
    if fault != OnList {
      var (g1, w1) := Then(g, w, i, List);
      assert g1 == g && w1 == w.(loop := Listing(g));
      var (g2, w2) := Then(g1, w1, i, Check);
      assert g2 == g && w2 == if w1.loop.Listed? then w1.(loop := Checking(g, w1.loop.file)) else w1;
      hide Then, Can, Act;
      AfterCheck(g2, w2, i, fault);
    }
  }
}
