/**
  The scheduler of pkg/scheduler/scheduler.go as a step system. Any number of
  scheduler instances (processes) share the file directories, or the Redis sorted
  set, a non-decreasing clock and nothing else. Each instance has the program counter
  of its `Start` loop, its workers with theirs, the permits held in `sem`, and knows
  whether `errCh` and `sem` are closed. An action is one atomic piece of code between
  two points where another goroutine or process can interfere; I/O calls take their
  outcome as a parameter.
*/
module Scheduler {
  import opened Strings
  import opened Timestamps
  import opened TaskNames
  import opened FileStorage

  datatype Backend = Files | Redis

  /** Where the goroutine of `Start` stands. */
  datatype LoopPc =
    | Waiting                                        // at the select
    | Listed(file: string)                           // `files[0]` is known, its time not yet parsed
    | Discarding(file: string)                       // about to remove a file with a bad time
    | Claiming(file: string)                         // due: about to rename it
    | Claimed(file: string)                          // renamed: about to read it
    | Fetching(id: string)                           // id came from the sorted set
    | Unlisting(id: string, data: Bytes)             // about to ZREM the id
    | Retrieved(id: string, name: string, data: Bytes)
    | Queueing(id: string, data: Bytes)              // blocked on `sem <-`
    | Permitted(id: string, data: Bytes)             // permit taken, goroutine not yet started
    | Reporting                                      // blocked on `errCh <- err`
    | Leaving                                        // ctx done: blocked on `errCh <- ctx.Err()`
    | Stopped                                        // both channels closed, or the process is gone

  datatype WorkerPc =
    | Spawned
    | Running                                        // inside the executor
    | Erred                                          // blocked on `errCh <- err` of the executor
    | Failing                                        // about to call `Failure`
    | Finishing                                      // about to call `Done`
    | Complaining                                    // blocked on `errCh <- err` of the storage
    | Releasing                                      // in the deferred `<-sem`

  datatype Worker = Worker(id: string, data: Bytes, pc: WorkerPc)

  datatype Instance = Instance(
    backend: Backend, capacity: nat, executors: set<string>,
    alive: bool, cancelled: bool, loop: LoopPc, workers: map<nat, Worker>, permits: int,
    closed: bool,
    inFlight: set<nat>)                              // history: the workers at cancellation

  datatype Queue = Queue(scores: map<string, int>, keys: map<string, Bytes>, failed: map<string, int>)

  datatype Slot = LoopOf(inst: nat) | WorkerOf(inst: nat, worker: nat)

  /** History: the start of one executor. */
  datatype Start = Start(backend: Backend, id: string, data: Bytes, time: int)

  /** History variables; no action is guarded by them except that file names are fresh. */
  datatype Log = Log(
    stored: map<string, Bytes>,                      // every file ever stored, with its payload
    owner: map<string, Slot>,                        // who claimed a file last
    starts: seq<Start>,
    outcome: map<string, bool>,                      // file whose executor returned: was it nil?
    removed: set<string>, discarded: set<string>,    // files deleted by `Done`, or for a bad time
    queued: set<(string, int)>)                      // Redis ids with their scheduled nanosecond

  datatype Shared = Shared(clock: int, dirs: Dirs, queue: Queue, log: Log)

  datatype Action =
    | Register(name: string)
    | Schedule(name: string, at: Stamp, salt: nat, payload: Bytes)
    | Cancel
    | StorageError
    | List | Check | Discard(ok: bool) | ClaimFile(ok: bool) | Read(ok: bool)
    | Query(id: string) | Fetch(ok: bool) | Unlist(ok: bool)
    | Lookup | Acquire | Spawn(worker: nat) | Report
    | Leave | Close
    | Begin(worker: nat) | Return(worker: nat, ok: bool) | Send(worker: nat)
    | Settle(worker: nat, ok: bool) | Release(worker: nat)
    | Panic(worker: nat) | Crash

  const NO_FILES := Dirs(map[], map[], map[])
  const EMPTY_LOG := Log(map[], map[], [], map[], {}, {}, {})
  const EMPTY := Shared(0, NO_FILES, Queue(map[], map[], map[]), EMPTY_LOG)

  function Fresh(backend: Backend, capacity: nat): Instance {
    Instance(backend, capacity, {}, true, false, Waiting, map[], 0, false, {})
  }

  /** `Unix()` of a time given in nanoseconds since 1970. */
  function Unix(nanos: int): int {
    nanos / NANOS_PER_SECOND
  }

  /** The member that `ZRANGEBYSCORE -inf now COUNT 1` returns. */
  predicate FirstDue(scores: map<string, int>, now: int, id: string) {
    && id in scores && scores[id] <= now
    && forall other | other in scores ::
         scores[id] < scores[other] || (scores[id] == scores[other] && Leq(id, other))
  }

  // ---------- guards ----------

  predicate WorkerAt(w: Instance, k: nat, pcs: set<WorkerPc>) {
    k in w.workers && w.workers[k].pc in pcs
  }

  ghost predicate Can(g: Shared, w: Instance, a: Action) {
    w.alive &&
    match a
    case Register(_) => true
    case Schedule(name, at, salt, _) =>
      Valid(at) && salt < 100 &&
      (name in w.executors && w.backend.Files? ==> FileName(name, Format(at)) !in g.log.stored)
    case Cancel => true
    case StorageError => w.loop.Waiting?
    case List => w.loop.Waiting? && w.backend.Files?
    case Check => w.loop.Listed?
    case Discard(_) => w.loop.Discarding?
    case ClaimFile(_) => w.loop.Claiming?
    case Read(_) => w.loop.Claimed?
    case Query(id) => w.loop.Waiting? && w.backend.Redis? && FirstDue(g.queue.scores, Unix(g.clock), id)
    case Fetch(_) => w.loop.Fetching?
    case Unlist(_) => w.loop.Unlisting?
    case Lookup => w.loop.Retrieved?
    case Acquire => w.loop.Queueing? && w.permits < w.capacity
    case Spawn(k) => w.loop.Permitted? && k !in w.workers
    case Report => w.loop.Reporting?
    case Leave => w.loop.Waiting? && w.cancelled
    case Close => w.loop.Leaving?
    case Begin(k) => WorkerAt(w, k, {Spawned})
    case Return(k, _) => WorkerAt(w, k, {Running})
    case Send(k) => WorkerAt(w, k, {Erred, Complaining}) && !w.closed
    case Settle(k, _) => WorkerAt(w, k, {Failing, Finishing})
    case Release(k) => WorkerAt(w, k, {Releasing})
    case Panic(k) => WorkerAt(w, k, {Erred, Complaining}) && w.closed
    case Crash => true
  }

  // ---------- effects ----------

  function SetPc(w: Instance, k: nat, pc: WorkerPc): Instance
    requires k in w.workers
  {
    w.(workers := w.workers[k := w.workers[k].(pc := pc)])
  }

  /** The process dies: its goroutines are gone, the storages stay as they are. */
  function Dead(w: Instance): Instance {
    w.(alive := false, loop := Stopped, workers := map[], permits := 0)
  }

  /** `ZADD` and `SET` of a new id. */
  function Enqueue(q: Queue, id: string, unix: int, payload: Bytes): Queue {
    q.(scores := q.scores[id := unix], keys := q.keys[id := payload])
  }

  function ScheduleTask(g: Shared, w: Instance, name: string, at: Stamp, salt: nat, payload: Bytes): Shared
    requires Valid(at)
  {
    if name !in w.executors then g
    else if w.backend.Files? then
      var file := FileName(name, Format(at));
      g.(dirs := Put(g.dirs, file, payload), log := g.log.(stored := g.log.stored[file := payload]))
    else
      var id := RedisId(name, Unix(Instant(at)), salt);
      g.(queue := Enqueue(g.queue, id, Unix(Instant(at)), payload),
         log := g.log.(queued := g.log.queued + {(id, Instant(at))}))
  }

  /** `Glob`, sort and `files[0]`. */
  ghost function Listing(g: Shared): LoopPc {
    if g.dirs.pending == map[] then Waiting else Listed(Least(g.dirs.pending.Keys))
  }

  /** Parse the time in the file name and compare it with the clock. */
  function Checking(g: Shared, file: string): LoopPc {
    if FileDue(file).None? then Discarding(file)
    else if DueBy(file, g.clock) then Claiming(file)
    else Waiting
  }

  function Discarded(g: Shared, file: string, ok: bool): Shared {
    if ok && file in g.dirs.pending then
      g.(dirs := FileStorage.Discard(g.dirs, file), log := g.log.(discarded := g.log.discarded + {file}))
    else g
  }

  /** The rename succeeds only while the file is still pending. */
  function TryClaim(g: Shared, w: Instance, i: nat, file: string, ok: bool): (Shared, Instance) {
    if ok && file in g.dirs.pending then
      (g.(dirs := Claim(g.dirs, file), log := g.log.(owner := g.log.owner[file := LoopOf(i)])),
       w.(loop := Claimed(file)))
    else (g, w.(loop := Reporting))
  }

  function Reading(g: Shared, file: string, ok: bool): LoopPc {
    if ok && file in g.dirs.executing then LoopPc.Retrieved(file, FileTask(file), g.dirs.executing[file])
    else Reporting
  }

  function Looking(w: Instance, id: string, name: string, data: Bytes): LoopPc {
    if name in w.executors then Queueing(id, data) else Reporting
  }

  function Spawning(g: Shared, w: Instance, i: nat, k: nat, id: string, data: Bytes): (Shared, Instance) {
    (if w.backend.Files? then g.(log := g.log.(owner := g.log.owner[id := WorkerOf(i, k)])) else g,
     w.(loop := Waiting, workers := w.workers[k := Worker(id, data, Spawned)]))
  }

  function Beginning(g: Shared, w: Instance, k: nat): Shared
    requires k in w.workers
  {
    var start := Start(w.backend, w.workers[k].id, w.workers[k].data, g.clock);
    g.(log := g.log.(starts := g.log.starts + [start]))
  }

  function Returning(g: Shared, w: Instance, k: nat, ok: bool): Shared
    requires k in w.workers
  {
    if w.backend.Files? then g.(log := g.log.(outcome := g.log.outcome[w.workers[k].id := ok])) else g
  }

  /** `Failure` and `Done` of the two storages. */
  function Settling(g: Shared, w: Instance, k: nat, ok: bool): (Shared, Instance)
    requires k in w.workers
  {
    var id, failed := w.workers[k].id, w.workers[k].pc.Failing?;
    if !ok || (w.backend.Files? && id !in g.dirs.executing) then (g, SetPc(w, k, Complaining))
    else
      (match w.backend
       case Files =>
         if failed then g.(dirs := Fail(g.dirs, id))
         else g.(dirs := Remove(g.dirs, id), log := g.log.(removed := g.log.removed + {id}))
       case Redis =>
         if failed then g.(queue := g.queue.(failed := g.queue.failed[id := Unix(g.clock)]))
         else g.(queue := g.queue.(keys := g.queue.keys - {id})),
       SetPc(w, k, Releasing))
  }

  ghost function Act(g: Shared, w: Instance, i: nat, a: Action): (Shared, Instance)
    requires Can(g, w, a)
  {
    match a
    case Register(name) => (g, w.(executors := w.executors + {name}))
    case Schedule(name, at, salt, payload) => (ScheduleTask(g, w, name, at, salt, payload), w)
    case Cancel => (g, w.(cancelled := true))
    case StorageError => (g, w.(loop := Reporting))
    case List => (g, w.(loop := Listing(g)))
    case Check => (g, w.(loop := Checking(g, w.loop.file)))
    case Discard(ok) => (Discarded(g, w.loop.file, ok), w.(loop := Reporting))
    case ClaimFile(ok) => TryClaim(g, w, i, w.loop.file, ok)
    case Read(ok) => (g, w.(loop := Reading(g, w.loop.file, ok)))
    case Query(id) => (g, w.(loop := Fetching(id)))
    case Fetch(ok) =>
      var id := w.loop.id;
      (g, w.(loop := if ok && id in g.queue.keys then Unlisting(id, g.queue.keys[id]) else Reporting))
    case Unlist(ok) =>
      var id := w.loop.id;
      if ok then
        (g.(queue := g.queue.(scores := g.queue.scores - {id})),
         w.(loop := LoopPc.Retrieved(id, RedisTask(id), w.loop.data)))
      else (g, w.(loop := Reporting))
    case Lookup => (g, w.(loop := Looking(w, w.loop.id, w.loop.name, w.loop.data)))
    case Acquire => (g, w.(loop := Permitted(w.loop.id, w.loop.data), permits := w.permits + 1))
    case Spawn(k) => Spawning(g, w, i, k, w.loop.id, w.loop.data)
    case Report => (g, w.(loop := Waiting))
    case Leave => (g, w.(loop := Leaving, inFlight := w.workers.Keys))
    case Close => (g, w.(loop := Stopped, closed := true))
    case Begin(k) => (Beginning(g, w, k), SetPc(w, k, Running))
    case Return(k, ok) => (Returning(g, w, k, ok), SetPc(w, k, if ok then Finishing else Erred))
    case Send(k) => (g, SetPc(w, k, if w.workers[k].pc.Erred? then Failing else Releasing))
    case Settle(k, ok) => Settling(g, w, k, ok)
    case Release(k) => (g, w.(workers := w.workers - {k}, permits := w.permits - 1))
    case Panic(_) => (g, Dead(w))
    case Crash => (g, Dead(w))
  }

  // ---------- the whole system ----------

  datatype State = State(shared: Shared, instances: seq<Instance>)

  datatype Step =
    | Tock(clock: int)                               // time passes
    | Launch(backend: Backend, capacity: nat)        // another process starts
    | By(i: nat, action: Action)

  ghost predicate Enabled(s: State, step: Step) {
    match step
    case Tock(c) => s.shared.clock <= c
    case Launch(_, _) => true
    case By(i, a) => i < |s.instances| && Can(s.shared, s.instances[i], a)
  }

  ghost function After(s: State, step: Step): State
    requires Enabled(s, step)
  {
    match step
    case Tock(c) => s.(shared := s.shared.(clock := c))
    case Launch(backend, capacity) => s.(instances := s.instances + [Fresh(backend, capacity)])
    case By(i, a) =>
      var (g, w) := Act(s.shared, s.instances[i], i, a);
      State(g, s.instances[i := w])
  }

  /** The states of a run: one after another by enabled steps. */
  ghost predicate Run(trace: seq<State>, steps: seq<Step>) {
    && |trace| == |steps| + 1
    && forall k | 0 <= k < |steps| :: Enabled(trace[k], steps[k]) && trace[k + 1] == After(trace[k], steps[k])
  }

  /** Runs start with empty storages and no process, at any time. */
  ghost predicate Initial(s: State) {
    s == State(EMPTY.(clock := s.shared.clock), [])
  }
}
