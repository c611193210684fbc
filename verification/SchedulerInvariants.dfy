/**
  What every step of the scheduler system keeps. The proof is rely/guarantee: an
  action of one instance keeps the global invariant and its own, and what it does to
  the shared state leaves the files of every other instance alone (`Spares`).
*/
module SchedulerInvariants {
  import opened Strings
  import opened Timestamps
  import opened TaskNames
  import opened FileStorage
  import opened Scheduler

  // ---------- the shared part ----------

  function StartedFiles(starts: seq<Start>): set<string> {
    set k | 0 <= k < |starts| && starts[k].backend.Files? :: starts[k].id
  }

  predicate Agrees(m: map<string, Bytes>, stored: map<string, Bytes>) {
    forall f | f in m :: f in stored && m[f] == stored[f]
  }

  /** Every stored file is in exactly one place, with the payload it was stored with. */
  predicate Places(d: Dirs, stored: map<string, Bytes>, removed: set<string>, discarded: set<string>) {
    && Agrees(d.pending, stored) && Agrees(d.executing, stored) && Agrees(d.failed, stored)
    && stored.Keys == d.pending.Keys + d.executing.Keys + d.failed.Keys + removed + discarded
    && d.pending.Keys !! d.executing.Keys !! d.failed.Keys !! removed !! discarded
  }

  /** A file is stored before it is claimed, claimed before it is started, started before it returns. */
  predicate Stages(pending: set<string>, stored: set<string>, claimed: set<string>, started: set<string>,
                   returned: set<string>) {
    claimed <= stored && claimed !! pending && started <= claimed && returned <= started
  }

  /** Files leave the executing directory as their executor ended, or with a bad time unread. */
  predicate Ends(failed: set<string>, outcome: map<string, bool>, removed: set<string>, discarded: set<string>) {
    && (forall f | f in removed :: f in outcome && outcome[f])
    && (forall f | f in failed :: f in outcome && !outcome[f])
    && (forall f | f in discarded :: FileDue(f).None?)
  }

  /** No two starts of one file; each start is due and gets the stored payload. */
  predicate Starts(starts: seq<Start>, stored: map<string, Bytes>, clock: int) {
    && (forall j, k | 0 <= j < k < |starts| && starts[j].backend.Files? && starts[k].backend.Files? ::
          starts[j].id != starts[k].id)
    && (forall k | 0 <= k < |starts| && starts[k].backend.Files? ::
          var s := starts[k];
          DueBy(s.id, s.time) && s.time <= clock && s.id in stored && stored[s.id] == s.data)
  }

  /** The id names this second. */
  ghost predicate IdAt(id: string, unix: int) {
    exists name, salt :: id == RedisId(name, unix, salt)
  }

  ghost predicate IdDue(id: string, clock: int) {
    exists unix :: IdAt(id, unix) && unix <= Unix(clock)
  }

  ghost predicate Queued(scores: map<string, int>, queued: set<(string, int)>, starts: seq<Start>) {
    && (forall id | id in scores :: IdAt(id, scores[id]))
    && (forall e | e in queued :: IdAt(e.0, Unix(e.1)))
    && (forall k | 0 <= k < |starts| && starts[k].backend.Redis? :: IdDue(starts[k].id, starts[k].time))
  }

  /** The names of these files have a time. */
  predicate Dated(files: set<string>) {
    forall f | f in files :: FileDue(f).Some?
  }

  ghost predicate SharedInv(g: Shared) {
    && Dated(g.dirs.executing.Keys)
    && Places(g.dirs, g.log.stored, g.log.removed, g.log.discarded)
    && Stages(g.dirs.pending.Keys, g.log.stored.Keys, g.log.owner.Keys, StartedFiles(g.log.starts),
              g.log.outcome.Keys)
    && Ends(g.dirs.failed.Keys, g.log.outcome, g.log.removed, g.log.discarded)
    && Starts(g.log.starts, g.log.stored, g.clock)
    && Queued(g.queue.scores, g.log.queued, g.log.starts)
  }

  // ---------- one instance ----------

  /** The task a loop is working on, from the claim or the sorted-set query on. */
  function LoopTask(loop: LoopPc): Option<string> {
    match loop
    case Claimed(file) => Some(file)
    case Fetching(id) => Some(id)
    case Unlisting(id, _) => Some(id)
    case Retrieved(id, _, _) => Some(id)
    case Queueing(id, _) => Some(id)
    case Permitted(id, _) => Some(id)
    case _ => None
  }

  /** A claimed file that has not been handed to an executor. */
  predicate Ready(g: Shared, slot: Slot, file: string) {
    && file in g.log.owner && g.log.owner[file] == slot && file in g.dirs.executing
    && file !in StartedFiles(g.log.starts) && DueBy(file, g.clock)
  }

  predicate LoopData(g: Shared, loop: LoopPc, data: Bytes) {
    LoopTask(loop).Some? && LoopTask(loop).value in g.log.stored ==> g.log.stored[LoopTask(loop).value] == data
  }

  ghost predicate LoopInv(g: Shared, w: Instance, i: nat) {
    match w.backend
    case Redis =>
      && !w.loop.Claimed? && !w.loop.Claiming? && !w.loop.Discarding? && !w.loop.Listed?
      && (LoopTask(w.loop).Some? ==> IdDue(LoopTask(w.loop).value, g.clock))
    case Files =>
      && !w.loop.Fetching? && !w.loop.Unlisting?
      && (w.loop.Discarding? ==> FileDue(w.loop.file).None?)
      && (w.loop.Claiming? ==> DueBy(w.loop.file, g.clock))
      && (LoopTask(w.loop).Some? ==> Ready(g, LoopOf(i), LoopTask(w.loop).value))
      && (w.loop.Retrieved? || w.loop.Queueing? || w.loop.Permitted? ==> LoopData(g, w.loop, w.loop.data))
  }

  ghost predicate WorkerInv(g: Shared, backend: Backend, i: nat, k: nat, x: Worker) {
    match backend
    case Redis => x.pc.Spawned? ==> IdDue(x.id, g.clock)
    case Files =>
      && x.id in g.log.owner && g.log.owner[x.id] == WorkerOf(i, k)
      && (x.id in g.log.stored ==> g.log.stored[x.id] == x.data)
      && (x.pc.Spawned? ==> Ready(g, WorkerOf(i, k), x.id))
      && (!x.pc.Spawned? ==> x.id in StartedFiles(g.log.starts))
      && (x.pc in {Complaining, Releasing} || x.id in g.dirs.executing)
      && (x.pc.Running? ==> x.id !in g.log.outcome)
      && (x.pc in {Erred, Failing} ==> x.id in g.log.outcome && !g.log.outcome[x.id])
      && (x.pc.Finishing? ==> x.id in g.log.outcome && g.log.outcome[x.id])
  }

  /** The semaphore and the channels. */
  predicate Permits(w: Instance) {
    && (w.alive ==> w.permits == |w.workers| + (if w.loop.Permitted? then 1 else 0))
    && (!w.alive ==> w.workers == map[] && w.permits == 0 && w.loop.Stopped?)
    && 0 <= w.permits <= w.capacity
    && (w.alive ==> (w.closed <==> w.loop.Stopped?))
    && (w.loop.Leaving? || w.loop.Stopped? ==> w.workers.Keys <= w.inFlight)
  }

  ghost predicate InstanceInv(g: Shared, w: Instance, i: nat) {
    && Permits(w) && LoopInv(g, w, i)
    && forall k | k in w.workers :: WorkerInv(g, w.backend, i, k, w.workers[k])
  }

  ghost predicate Inv(s: State) {
    && SharedInv(s.shared)
    && forall i | 0 <= i < |s.instances| :: InstanceInv(s.shared, s.instances[i], i)
  }

  // ---------- what one instance owes the others ----------

  /** The file is where it was, with the same owner and history. */
  predicate Same(g: Shared, g': Shared, f: string) {
    && f in g.log.owner && f in g'.log.owner && g'.log.owner[f] == g.log.owner[f]
    && (f in g.dirs.executing ==> f in g'.dirs.executing)
    && (f in StartedFiles(g.log.starts) <==> f in StartedFiles(g'.log.starts))
    && (f in g.log.outcome <==> f in g'.log.outcome)
    && (f in g.log.outcome ==> g.log.outcome[f] == g'.log.outcome[f])
    && f in g.log.stored && f in g'.log.stored && g.log.stored[f] == g'.log.stored[f]
  }

  /** No file of instance `j` is touched, and time does not go back. */
  ghost predicate Spares(g: Shared, g': Shared, j: nat) {
    g.clock <= g'.clock && forall f | f in g.log.owner && g.log.owner[f].inst == j :: Same(g, g', f)
  }

  lemma DueStays(id: string, c: int, d: int)
    requires c <= d
    ensures IdDue(id, c) ==> IdDue(id, d)
    ensures DueBy(id, c) ==> DueBy(id, d)
  {
    hide FileDue, IdAt;
  }

  lemma SparedLoop(g: Shared, g': Shared, w: Instance, w': Instance, j: nat)
    requires LoopInv(g, w, j) && w'.loop == w.loop && w'.backend == w.backend && g.clock <= g'.clock
    requires forall f | f in g.log.owner && g.log.owner[f] == LoopOf(j) :: Same(g, g', f)
    ensures LoopInv(g', w', j)
  {
    hide DueBy, FileDue, IdDue, StartedFiles;
    if LoopTask(w.loop).Some? { DueStays(LoopTask(w.loop).value, g.clock, g'.clock); }
    if w.loop.Claiming? { DueStays(w.loop.file, g.clock, g'.clock); }
  }

  lemma SparedWorker(g: Shared, g': Shared, backend: Backend, j: nat, k: nat, x: Worker)
    requires WorkerInv(g, backend, j, k, x)
    requires g.clock <= g'.clock && (backend.Files? ==> Same(g, g', x.id))
    ensures WorkerInv(g', backend, j, k, x)
  {
    hide DueBy, FileDue, IdDue, StartedFiles;
    DueStays(x.id, g.clock, g'.clock);
  }

  /** Workers other than `k` keep their condition when only the file of `k` is touched. */
  lemma OtherWorkers(g: Shared, g': Shared, w: Instance, i: nat, k: nat)
    requires forall m | m in w.workers :: WorkerInv(g, w.backend, i, m, w.workers[m])
    requires g.clock <= g'.clock
    requires forall m: nat, f | f in g.log.owner && m != k && g.log.owner[f] == WorkerOf(i, m) :: Same(g, g', f)
    ensures forall m | m in w.workers && m != k :: WorkerInv(g', w.backend, i, m, w.workers[m])
  {
    hide Same, Ready;
    forall m | m in w.workers && m != k ensures WorkerInv(g', w.backend, i, m, w.workers[m]) {
      SparedWorker(g, g', w.backend, i, m, w.workers[m]);
    }
  }

  lemma SparedInstance(g: Shared, g': Shared, w: Instance, j: nat)
    requires InstanceInv(g, w, j) && Spares(g, g', j)
    ensures InstanceInv(g', w, j)
  {
    hide LoopInv, Same, Ready, Permits;
    SparedLoop(g, g', w, w, j);
    forall k | k in w.workers ensures WorkerInv(g', w.backend, j, k, w.workers[k]) {
      SparedWorker(g, g', w.backend, j, k, w.workers[k]);
    }
  }

  /** A change of the shared state that concerns no claimed file spares every instance. */
  lemma Untouched(g: Shared, g': Shared)
    requires SharedInv(g)
    requires g.clock <= g'.clock && g'.log.owner == g.log.owner && g'.log.outcome == g.log.outcome
    requires g'.log.starts == g.log.starts && g.dirs.executing.Keys <= g'.dirs.executing.Keys
    requires forall f | f in g.log.stored :: f in g'.log.stored && g'.log.stored[f] == g.log.stored[f]
    ensures forall j: nat :: Spares(g, g', j)
  {
    hide Places, Dated, Ends, Starts, Queued, StartedFiles;
  }

  // ---------- actions of the loop ----------

  /** The actions that only move the loop or settle a flag. */
  predicate LocalAction(a: Action) {
    a.Register? || a.Cancel? || a.StorageError? || a.List? || a.Check? || a.Read? || a.Query? || a.Fetch? ||
    a.Lookup? || a.Acquire? || a.Report? || a.Leave? || a.Close? || a.Panic? || a.Crash?
  }

  lemma LocalLoopOnFiles(g: Shared, w: Instance, i: nat, a: Action)
    requires Agrees(g.dirs.executing, g.log.stored) && w.backend.Files?
    requires LoopInv(g, w, i) && Can(g, w, a) && LocalAction(a)
    ensures LoopInv(g, Act(g, w, i, a).1, i)
  {
    hide Ready, DueBy, FileDue, FileTask, Least, RedisTask, FileName, Format, Valid, FirstDue;
  }

  lemma LocalLoopOnRedis(g: Shared, w: Instance, i: nat, a: Action)
    requires Queued(g.queue.scores, g.log.queued, g.log.starts) && w.backend.Redis?
    requires LoopInv(g, w, i) && Can(g, w, a) && LocalAction(a)
    ensures LoopInv(g, Act(g, w, i, a).1, i)
  {
    hide Ready, LoopData, FileDue, DueBy, FileTask, Least, IdAt, RedisTask, FileName, Format, Valid, Leq;
  }

  lemma LocalLoop(g: Shared, w: Instance, i: nat, a: Action)
    requires Queued(g.queue.scores, g.log.queued, g.log.starts) && Agrees(g.dirs.executing, g.log.stored)
    requires LoopInv(g, w, i) && Can(g, w, a) && LocalAction(a)
    ensures LoopInv(g, Act(g, w, i, a).1, i)
  {
    hide LoopInv, Queued, Can, Act;
    if w.backend.Files? { LocalLoopOnFiles(g, w, i, a); } else { LocalLoopOnRedis(g, w, i, a); }
  }

  lemma LocalShape(g: Shared, w: Instance, i: nat, a: Action)
    requires Can(g, w, a) && LocalAction(a)
    ensures var (g', w') := Act(g, w, i, a);
      g' == g && w'.backend == w.backend && (w'.workers == w.workers || w'.workers == map[])
  {
    hide FirstDue, FileName, Format, Valid, Listing, Checking, Reading, Looking;
  }

  /** The local actions that end a wait at the semaphore, the loop or the process. */
  predicate Turn(a: Action) {
    a.Acquire? || a.Leave? || a.Close? || a.Panic? || a.Crash?
  }

  predicate Quiet(loop: LoopPc) {
    !loop.Permitted? && !loop.Leaving? && !loop.Stopped?
  }

  /** The others move the loop between states without a permit, or settle a flag. */
  lemma LocalMove(g: Shared, w: Instance, i: nat, a: Action)
    requires Can(g, w, a) && LocalAction(a) && !Turn(a)
    ensures var w' := Act(g, w, i, a).1;
      && w' == w.(loop := w'.loop, executors := w'.executors, cancelled := w'.cancelled)
      && (w'.loop == w.loop || (Quiet(w.loop) && Quiet(w'.loop)))
  {
    hide FirstDue, FileDue, FileTask, DueBy, Least, RedisTask, FileName, Format, Valid, Leq;
  }

  lemma LocalPermits(g: Shared, w: Instance, i: nat, a: Action)
    requires Permits(w) && Can(g, w, a) && LocalAction(a)
    ensures Permits(Act(g, w, i, a).1)
  {
    if Turn(a) {
      LocalTurn(g, w, i, a);
      hide Act, Can;
    } else {
      LocalMove(g, w, i, a);
      hide Act, Can;
    }
  }

  lemma LocalTurn(g: Shared, w: Instance, i: nat, a: Action)
    requires Can(g, w, a) && Turn(a)
    ensures var w' := Act(g, w, i, a).1;
      match a
      case Acquire =>
        w.loop.Queueing? && w.permits < w.capacity &&
        w' == w.(loop := Permitted(w.loop.id, w.loop.data), permits := w.permits + 1)
      case Leave => w.loop.Waiting? && w' == w.(loop := Leaving, inFlight := w.workers.Keys)
      case Close => w.loop.Leaving? && w' == w.(loop := Stopped, closed := true)
      case _ => w' == Dead(w)
  {
    hide FirstDue, FileName, Format, Valid, Listing, Checking, Reading, Looking;
  }

  lemma LocalKeeps(g: Shared, w: Instance, i: nat, a: Action)
    requires SharedInv(g) && InstanceInv(g, w, i) && Can(g, w, a) && LocalAction(a)
    ensures Act(g, w, i, a).0 == g && InstanceInv(g, Act(g, w, i, a).1, i)
  {
    LocalLoop(g, w, i, a);
    LocalShape(g, w, i, a);
    LocalPermits(g, w, i, a);
    hide Act, Can, LoopInv, WorkerInv, Permits, Starts, Stages, Ends, Queued;
  }

  // ---------- actions on the storages ----------

  /** What the proof of every action establishes. */
  ghost predicate Kept(g: Shared, w: Instance, i: nat, a: Action)
    requires Can(g, w, a)
  {
    var (g', w') := Act(g, w, i, a);
    SharedInv(g') && InstanceInv(g', w', i) && forall j: nat | j != i :: Spares(g, g', j)
  }

  lemma Reflexive(g: Shared)
    requires SharedInv(g)
    ensures forall j: nat :: Spares(g, g, j)
  {
    Untouched(g, g);
  }

  /** A live loop that moves between states in which it holds no permit. */
  lemma MovedLoop(g: Shared, w: Instance, i: nat, loop: LoopPc)
    requires InstanceInv(g, w, i) && w.alive
    requires !w.loop.Permitted? && !w.loop.Leaving? && !w.loop.Stopped?
    requires !loop.Permitted? && !loop.Leaving? && !loop.Stopped?
    requires LoopInv(g, w.(loop := loop), i)
    ensures InstanceInv(g, w.(loop := loop), i)
  {
    hide LoopInv, WorkerInv;
  }

  lemma PutPlaces(d: Dirs, stored: map<string, Bytes>, removed: set<string>, discarded: set<string>,
                  file: string, payload: Bytes)
    requires Places(d, stored, removed, discarded) && file !in stored
    ensures Places(Put(d, file, payload), stored[file := payload], removed, discarded)
  {
  }

  lemma DiscardPlaces(d: Dirs, stored: map<string, Bytes>, removed: set<string>, discarded: set<string>, file: string)
    requires Places(d, stored, removed, discarded) && file in d.pending
    ensures Places(FileStorage.Discard(d, file), stored, removed, discarded + {file})
  {
  }

  lemma ClaimPlaces(d: Dirs, stored: map<string, Bytes>, removed: set<string>, discarded: set<string>, file: string)
    requires Places(d, stored, removed, discarded) && file in d.pending
    ensures Places(Claim(d, file), stored, removed, discarded)
  {
  }

  lemma FailPlaces(d: Dirs, stored: map<string, Bytes>, removed: set<string>, discarded: set<string>, file: string)
    requires Places(d, stored, removed, discarded) && file in d.executing
    ensures Places(Fail(d, file), stored, removed, discarded)
    ensures Fail(d, file).failed.Keys == d.failed.Keys + {file}
  {
  }

  lemma RemovePlaces(d: Dirs, stored: map<string, Bytes>, removed: set<string>, discarded: set<string>, file: string)
    requires Places(d, stored, removed, discarded) && file in d.executing
    ensures Places(Remove(d, file), stored, removed + {file}, discarded)
  {
  }

  lemma ScheduleFileKeeps(g: Shared, file: string, payload: Bytes) returns (g': Shared)
    requires SharedInv(g) && file !in g.log.stored
    ensures g' == g.(dirs := Put(g.dirs, file, payload), log := g.log.(stored := g.log.stored[file := payload]))
    ensures SharedInv(g') && forall j: nat :: Spares(g, g', j)
  {
    g' := g.(dirs := Put(g.dirs, file, payload), log := g.log.(stored := g.log.stored[file := payload]));
    Untouched(g, g');
    PutPlaces(g.dirs, g.log.stored, g.log.removed, g.log.discarded, file, payload);
    hide Places, Dated, Ends, Queued, DueBy, StartedFiles, Spares;
  }

  lemma ScheduleIdKeeps(g: Shared, name: string, nanos: int, salt: nat, payload: Bytes) returns (g': Shared)
    requires SharedInv(g)
    ensures var id := RedisId(name, Unix(nanos), salt);
      g' == g.(queue := Enqueue(g.queue, id, Unix(nanos), payload),
               log := g.log.(queued := g.log.queued + {(id, nanos)}))
    ensures SharedInv(g') && forall j: nat :: Spares(g, g', j)
  {
    hide Places, Dated, Stages, Ends, Starts, IdDue, StartedFiles, RedisId, Spares;
    var id := RedisId(name, Unix(nanos), salt);
    assert IdAt(id, Unix(nanos));
    g' := g.(queue := Enqueue(g.queue, id, Unix(nanos), payload),
             log := g.log.(queued := g.log.queued + {(id, nanos)}));
    hide IdAt;
    Untouched(g, g');
  }

  lemma ScheduleKeeps(g: Shared, w: Instance, i: nat, a: Action)
    requires SharedInv(g) && InstanceInv(g, w, i) && Can(g, w, a) && a.Schedule?
    ensures Kept(g, w, i, a)
  {
    hide SharedInv, InstanceInv, Spares, FileName, Format, RedisId, Valid;
    var (g', w') := Act(g, w, i, a);
    if a.name !in w.executors {
      Reflexive(g);
    } else if w.backend.Files? {
      var x := ScheduleFileKeeps(g, FileName(a.name, Format(a.at)), a.payload);
    } else {
      var x := ScheduleIdKeeps(g, a.name, Instant(a.at), a.salt, a.payload);
    }
    SparedInstance(g, g', w, i);
  }

  lemma DiscardShared(g: Shared, file: string)
    requires SharedInv(g) && file in g.dirs.pending && FileDue(file).None?
    ensures var g' := g.(dirs := FileStorage.Discard(g.dirs, file),
                         log := g.log.(discarded := g.log.discarded + {file}));
      SharedInv(g') && forall j: nat :: Spares(g, g', j)
  {
    DiscardPlaces(g.dirs, g.log.stored, g.log.removed, g.log.discarded, file);
    var g' := g.(dirs := FileStorage.Discard(g.dirs, file), log := g.log.(discarded := g.log.discarded + {file}));
    FewerPending(g.dirs.pending.Keys, g'.dirs.pending.Keys, g.log.stored.Keys, g.log.owner.Keys,
                 StartedFiles(g.log.starts), g.log.outcome.Keys);
    MoreEnds(g.dirs.failed.Keys, g.log.outcome, g.log.removed, g.log.discarded, file);
    hide Places, Stages, Ends, Starts, Queued, FileDue, StartedFiles, Same, Spares;
    Untouched(g, g');
  }

  lemma FewerPending(pending: set<string>, pending': set<string>, stored: set<string>, claimed: set<string>,
                     started: set<string>, returned: set<string>)
    requires Stages(pending, stored, claimed, started, returned) && pending' <= pending
    ensures Stages(pending', stored, claimed, started, returned)
  {
  }

  lemma MoreEnds(failed: set<string>, outcome: map<string, bool>, removed: set<string>, discarded: set<string>,
                 file: string)
    requires Ends(failed, outcome, removed, discarded)
    ensures file in outcome && outcome[file] ==> Ends(failed, outcome, removed + {file}, discarded)
    ensures file in outcome && !outcome[file] ==> Ends(failed + {file}, outcome, removed, discarded)
    ensures FileDue(file).None? ==> Ends(failed, outcome, removed, discarded + {file})
  {
    hide FileDue;
  }

  lemma DiscardKeeps(g: Shared, w: Instance, i: nat, a: Action)
    requires SharedInv(g) && InstanceInv(g, w, i) && Can(g, w, a) && a.Discard?
    ensures Kept(g, w, i, a)
  {
    hide SharedInv, Spares, FileDue, WorkerInv, Ready, Permits;
    var (g', w') := Act(g, w, i, a);
    if a.ok && w.loop.file in g.dirs.pending { DiscardShared(g, w.loop.file); } else { Reflexive(g); }
    SparedInstance(g, g', w, i);
    MovedLoop(g', w, i, Reporting);
  }

  lemma ClaimDated(d: Dirs, file: string, now: int)
    requires Dated(d.executing.Keys) && file in d.pending && DueBy(file, now)
    ensures Dated(Claim(d, file).executing.Keys)
  {
    hide FileDue;
  }

  lemma ClaimShared(g: Shared, file: string, slot: Slot)
    requires SharedInv(g) && file in g.dirs.pending && DueBy(file, g.clock)
    ensures var g' := g.(dirs := Claim(g.dirs, file), log := g.log.(owner := g.log.owner[file := slot]));
      SharedInv(g') && (forall j: nat :: Spares(g, g', j)) && Ready(g', slot, file)
  {
    hide Places, Dated, Stages, Ends, Starts, Queued, DueBy, StartedFiles, Same;
    ClaimDated(g.dirs, file, g.clock);
    ClaimPlaces(g.dirs, g.log.stored, g.log.removed, g.log.discarded, file);
    ClaimStages(g.dirs.pending.Keys, g.log.stored.Keys, g.log.owner.Keys, StartedFiles(g.log.starts),
                g.log.outcome.Keys, file);
    PendingIsStored(g, file);
    var g' := g.(dirs := Claim(g.dirs, file), log := g.log.(owner := g.log.owner[file := slot]));
    assert g'.log.owner.Keys == g.log.owner.Keys + {file};
    assert g'.dirs.pending.Keys == g.dirs.pending.Keys - {file};
    forall f | f in g.log.owner ensures Same(g, g', f) { ClaimSpares(g, file, slot, f); }
  }

  lemma ClaimStages(pending: set<string>, stored: set<string>, claimed: set<string>, started: set<string>,
                    returned: set<string>, file: string)
    requires Stages(pending, stored, claimed, started, returned) && file in pending && file in stored
    ensures Stages(pending - {file}, stored, claimed + {file}, started, returned)
    ensures file !in claimed && file !in started
  {
  }

  lemma PendingIsStored(g: Shared, file: string)
    requires Places(g.dirs, g.log.stored, g.log.removed, g.log.discarded) && file in g.dirs.pending
    ensures file in g.log.stored
  {
  }

  lemma ClaimSpares(g: Shared, file: string, slot: Slot, f: string)
    requires SharedInv(g) && file in g.dirs.pending && f in g.log.owner
    ensures Same(g, g.(dirs := Claim(g.dirs, file), log := g.log.(owner := g.log.owner[file := slot])), f)
  {
    hide Places, Dated, Ends, Starts, Queued, StartedFiles;
  }

  lemma ClaimKeeps(g: Shared, w: Instance, i: nat, a: Action)
    requires SharedInv(g) && InstanceInv(g, w, i) && Can(g, w, a) && a.ClaimFile?
    ensures Kept(g, w, i, a)
  {
    hide SharedInv, Spares, DueBy, WorkerInv, Ready, Permits;
    var (g', w') := Act(g, w, i, a);
    if a.ok && w.loop.file in g.dirs.pending {
      ClaimShared(g, w.loop.file, LoopOf(i));
    } else {
      Reflexive(g);
    }
    SparedInstance(g, g', w, i);
    MovedLoop(g', w, i, w'.loop);
  }

  lemma UnlistShared(g: Shared, id: string)
    requires SharedInv(g)
    ensures var g' := g.(queue := g.queue.(scores := g.queue.scores - {id}));
      SharedInv(g') && forall j: nat :: Spares(g, g', j)
  {
    var g' := g.(queue := g.queue.(scores := g.queue.scores - {id}));
    Untouched(g, g');
    hide Places, Dated, Stages, Ends, Starts, IdAt, IdDue, Spares;
  }

  lemma UnlistKeeps(g: Shared, w: Instance, i: nat, a: Action)
    requires SharedInv(g) && InstanceInv(g, w, i) && Can(g, w, a) && a.Unlist?
    ensures Kept(g, w, i, a)
  {
    hide SharedInv, Spares, IdDue, WorkerInv, Ready, Permits, RedisTask;
    var (g', w') := Act(g, w, i, a);
    if a.ok { UnlistShared(g, w.loop.id); } else { Reflexive(g); }
    SparedInstance(g, g', w, i);
    MovedLoop(g', w, i, w'.loop);
  }

  // ---------- actions of the workers ----------

  lemma SpawnShared(g: Shared, i: nat, k: nat, id: string)
    requires SharedInv(g) && Ready(g, LoopOf(i), id)
    ensures var g' := g.(log := g.log.(owner := g.log.owner[id := WorkerOf(i, k)]));
      && SharedInv(g') && Ready(g', WorkerOf(i, k), id)
      && (forall j: nat | j != i :: Spares(g, g', j))
      && (forall f | f in g.log.owner && g.log.owner[f].WorkerOf? :: Same(g, g', f))
  {
    hide Places, Dated, Ends, Starts, Queued, DueBy, StartedFiles;
  }

  /** The new worker joins the others. */
  lemma SpawnInstance(g: Shared, g': Shared, w: Instance, i: nat, k: nat, x: Worker)
    requires InstanceInv(g, w, i) && w.alive && w.loop.Permitted? && k !in w.workers
    requires g.clock <= g'.clock && WorkerInv(g', w.backend, i, k, x)
    requires forall f | f in g.log.owner && g.log.owner[f].WorkerOf? :: Same(g, g', f)
    ensures InstanceInv(g', w.(loop := Waiting, workers := w.workers[k := x]), i)
  {
    hide WorkerInv, Same;
    OtherWorkers(g, g', w, i, k);
  }

  lemma SpawnFile(g: Shared, w: Instance, i: nat, k: nat)
    requires SharedInv(g) && InstanceInv(g, w, i) && w.alive && w.loop.Permitted? && k !in w.workers
    requires w.backend.Files?
    ensures var (g', w') := Spawning(g, w, i, k, w.loop.id, w.loop.data);
      SharedInv(g') && InstanceInv(g', w', i) && forall j: nat | j != i :: Spares(g, g', j)
  {
    hide SharedInv, DueBy, StartedFiles, Permits, Same, Spares;
    var id, x := w.loop.id, Worker(w.loop.id, w.loop.data, Spawned);
    SpawnShared(g, i, k, id);
    var g' := g.(log := g.log.(owner := g.log.owner[id := WorkerOf(i, k)]));
    assert WorkerInv(g', w.backend, i, k, x);
    SpawnInstance(g, g', w, i, k, x);
  }

  lemma SpawnId(g: Shared, w: Instance, i: nat, k: nat)
    requires SharedInv(g) && InstanceInv(g, w, i) && w.alive && w.loop.Permitted? && k !in w.workers
    requires w.backend.Redis?
    ensures var (g', w') := Spawning(g, w, i, k, w.loop.id, w.loop.data);
      g' == g && InstanceInv(g', w', i)
  {
    hide SharedInv, IdDue, Permits, Same;
    AllSame(g);
    SpawnInstance(g, g, w, i, k, Worker(w.loop.id, w.loop.data, Spawned));
  }

  lemma SpawnKeeps(g: Shared, w: Instance, i: nat, a: Action)
    requires SharedInv(g) && InstanceInv(g, w, i) && Can(g, w, a) && a.Spawn?
    ensures Kept(g, w, i, a)
  {
    hide SharedInv, InstanceInv, Spares, Spawning;
    if w.backend.Files? {
      SpawnFile(g, w, i, a.worker);
    } else {
      SpawnId(g, w, i, a.worker);
      assert Spawning(g, w, i, a.worker, w.loop.id, w.loop.data).0 == g;
      Reflexive(g);
    }
  }

  lemma AllSame(g: Shared)
    requires SharedInv(g)
    ensures forall f | f in g.log.owner :: Same(g, g, f)
  {
    hide Places, Dated, Ends, Starts, Queued, StartedFiles;
  }

  /** Worker `k` goes on; the others and the loop keep their conditions. */
  lemma MovedWorker(g: Shared, g': Shared, w: Instance, i: nat, k: nat, pc: WorkerPc)
    requires InstanceInv(g, w, i) && w.alive && k in w.workers
    requires g.clock <= g'.clock && WorkerInv(g', w.backend, i, k, w.workers[k].(pc := pc))
    requires forall f | f in g.log.owner && g.log.owner[f].inst == i && g.log.owner[f] != WorkerOf(i, k) ::
               Same(g, g', f)
    ensures InstanceInv(g', SetPc(w, k, pc), i)
  {
    hide LoopInv, WorkerInv, Same;
    var w' := SetPc(w, k, pc);
    assert w'.workers.Keys == w.workers.Keys;
    OtherWorkers(g, g', w, i, k);
    SparedLoop(g, g', w, w', i);
  }

  lemma StartedGrows(starts: seq<Start>, start: Start)
    ensures StartedFiles(starts + [start]) == StartedFiles(starts) + if start.backend.Files? then {start.id} else {}
  {
    var all := starts + [start];
    assert forall k | 0 <= k < |starts| :: all[k] == starts[k];
    assert all[|starts|] == start;
    forall f | f in StartedFiles(starts) + (if start.backend.Files? then {start.id} else {})
      ensures f in StartedFiles(all)
    {
      if f in StartedFiles(starts) {
        var k :| 0 <= k < |starts| && starts[k].backend.Files? && starts[k].id == f;
        assert all[k].id == f;
      }
    }
  }

  lemma StartsGrow(starts: seq<Start>, stored: map<string, Bytes>, clock: int, start: Start)
    requires Starts(starts, stored, clock)
    requires start.backend.Files? ==>
      && start.id !in StartedFiles(starts) && DueBy(start.id, start.time) && start.time <= clock
      && start.id in stored && stored[start.id] == start.data
    ensures Starts(starts + [start], stored, clock)
  {
    hide DueBy;
    forall k | 0 <= k < |starts| && starts[k].backend.Files? ensures starts[k].id in StartedFiles(starts) {
    }
  }

  lemma BeginFile(g: Shared, i: nat, k: nat, id: string, data: Bytes)
    requires SharedInv(g) && Ready(g, WorkerOf(i, k), id) && (id in g.log.stored ==> g.log.stored[id] == data)
    ensures var g' := g.(log := g.log.(starts := g.log.starts + [Start(Files, id, data, g.clock)]));
      && SharedInv(g') && id in StartedFiles(g'.log.starts) && id !in g'.log.outcome
      && (forall j: nat | j != i :: Spares(g, g', j))
      && (forall f | f in g.log.owner && f != id :: Same(g, g', f))
  {
    var start := Start(Files, id, data, g.clock);
    hide Places, Dated, Ends, DueBy, IdDue, IdAt;
    StartsGrow(g.log.starts, g.log.stored, g.clock, start);
    StartedGrows(g.log.starts, start);
    hide Starts, StartedFiles;
  }

  lemma BeginId(g: Shared, id: string, data: Bytes)
    requires SharedInv(g) && IdDue(id, g.clock)
    ensures var g' := g.(log := g.log.(starts := g.log.starts + [Start(Redis, id, data, g.clock)]));
      SharedInv(g') && forall j: nat :: Spares(g, g', j)
  {
    var start := Start(Redis, id, data, g.clock);
    hide Places, Dated, Ends, DueBy, IdDue, IdAt;
    StartsGrow(g.log.starts, g.log.stored, g.clock, start);
    StartedGrows(g.log.starts, start);
    hide Starts, StartedFiles;
  }

  lemma BeginKeeps(g: Shared, w: Instance, i: nat, a: Action)
    requires SharedInv(g) && InstanceInv(g, w, i) && Can(g, w, a) && a.Begin?
    ensures Kept(g, w, i, a)
  {
    hide SharedInv, LoopInv, Spares, IdDue, Same, Permits, DueBy, StartedFiles;
    var k := a.worker;
    var x := w.workers[k];
    var (g', w') := Act(g, w, i, a);
    assert g' == Beginning(g, w, k);
    hide Act;
    if w.backend.Files? { BeginFile(g, i, k, x.id, x.data); } else { BeginId(g, x.id, x.data); Spared(g, g', i); }
    MovedWorker(g, g', w, i, k, Running);
  }

  lemma Spared(g: Shared, g': Shared, i: nat)
    requires Spares(g, g', i)
    ensures forall f | f in g.log.owner && g.log.owner[f].inst == i :: Same(g, g', f)
  {
    hide Same;
  }

  lemma ReturnFile(g: Shared, i: nat, k: nat, id: string, ok: bool)
    requires SharedInv(g) && id in StartedFiles(g.log.starts) && id !in g.log.outcome
    requires id in g.log.owner && g.log.owner[id] == WorkerOf(i, k)
    ensures var g' := g.(log := g.log.(outcome := g.log.outcome[id := ok]));
      && SharedInv(g') && (forall j: nat | j != i :: Spares(g, g', j))
      && (forall f | f in g.log.owner && f != id :: Same(g, g', f))
  {
    hide Places, Dated, Starts, Queued, FileDue, StartedFiles;
  }

  lemma ReturnKeeps(g: Shared, w: Instance, i: nat, a: Action)
    requires SharedInv(g) && InstanceInv(g, w, i) && Can(g, w, a) && a.Return?
    ensures Kept(g, w, i, a)
  {
    hide SharedInv, LoopInv, Spares, Same, Permits, DueBy, StartedFiles;
    var k := a.worker;
    var x := w.workers[k];
    var (g', w') := Act(g, w, i, a);
    assert g' == Returning(g, w, k, a.ok);
    if w.backend.Files? { ReturnFile(g, i, k, x.id, a.ok); } else { Reflexive(g); AllSame(g); }
    MovedWorker(g, g', w, i, k, if a.ok then Finishing else Erred);
  }

  lemma SendKeeps(g: Shared, w: Instance, i: nat, a: Action)
    requires SharedInv(g) && InstanceInv(g, w, i) && Can(g, w, a) && a.Send?
    ensures Kept(g, w, i, a)
  {
    hide SharedInv, LoopInv, Spares, Same, Permits, DueBy, StartedFiles;
    var k := a.worker;
    Reflexive(g);
    AllSame(g);
    MovedWorker(g, g, w, i, k, if w.workers[k].pc.Erred? then Failing else Releasing);
  }

  lemma FailFile(g: Shared, i: nat, k: nat, id: string)
    requires SharedInv(g) && id in g.dirs.executing && id in g.log.outcome && !g.log.outcome[id]
    requires id in g.log.owner && g.log.owner[id] == WorkerOf(i, k)
    ensures var g' := g.(dirs := Fail(g.dirs, id));
      && SharedInv(g') && (forall j: nat | j != i :: Spares(g, g', j))
      && (forall f | f in g.log.owner && f != id :: Same(g, g', f))
  {
    hide Places, Stages, Ends, Starts, Queued, StartedFiles, Same, Spares;
    FailPlaces(g.dirs, g.log.stored, g.log.removed, g.log.discarded, id);
    MoreEnds(g.dirs.failed.Keys, g.log.outcome, g.log.removed, g.log.discarded, id);
    OtherFilesStay(g, g.(dirs := Fail(g.dirs, id)), i, id);
  }

  lemma RemoveFile(g: Shared, i: nat, k: nat, id: string)
    requires SharedInv(g) && id in g.dirs.executing && id in g.log.outcome && g.log.outcome[id]
    requires id in g.log.owner && g.log.owner[id] == WorkerOf(i, k)
    ensures var g' := g.(dirs := Remove(g.dirs, id), log := g.log.(removed := g.log.removed + {id}));
      && SharedInv(g') && (forall j: nat | j != i :: Spares(g, g', j))
      && (forall f | f in g.log.owner && f != id :: Same(g, g', f))
  {
    hide Places, Stages, Ends, Starts, Queued, StartedFiles, Same, Spares;
    RemovePlaces(g.dirs, g.log.stored, g.log.removed, g.log.discarded, id);
    MoreEnds(g.dirs.failed.Keys, g.log.outcome, g.log.removed, g.log.discarded, id);
    OtherFilesStay(g, g.(dirs := Remove(g.dirs, id), log := g.log.(removed := g.log.removed + {id})), i, id);
  }

  /** Only one executing file, owned by instance `i`, is gone. */
  lemma OtherFilesStay(g: Shared, g': Shared, i: nat, id: string)
    requires SharedInv(g) && id in g.log.owner && g.log.owner[id].inst == i
    requires g' == g.(dirs := g'.dirs, log := g.log.(removed := g'.log.removed))
    requires g'.dirs.executing == g.dirs.executing - {id}
    ensures forall j: nat | j != i :: Spares(g, g', j)
    ensures forall f | f in g.log.owner && f != id :: Same(g, g', f)
  {
    hide Places, Dated, Ends, Starts, Queued, StartedFiles;
  }

  lemma SettleKeeps(g: Shared, w: Instance, i: nat, a: Action)
    requires SharedInv(g) && InstanceInv(g, w, i) && Can(g, w, a) && a.Settle?
    ensures Kept(g, w, i, a)
  {
    hide SharedInv, LoopInv, Spares, Same, Permits, DueBy, StartedFiles;
    var k := a.worker;
    var x := w.workers[k];
    var (g', w') := Act(g, w, i, a);
    assert (g', w') == Settling(g, w, k, a.ok);
    hide Act;
    if w'.workers[k].pc.Complaining? {
      Reflexive(g);
      AllSame(g);
    } else if w.backend.Files? {
      if x.pc.Failing? { FailFile(g, i, k, x.id); } else { RemoveFile(g, i, k, x.id); }
    } else {
      SettleId(g, g');
    }
    MovedWorker(g, g', w, i, k, w'.workers[k].pc);
  }

  lemma SettleId(g: Shared, g': Shared)
    requires SharedInv(g) && g' == g.(queue := g'.queue) && g'.queue.scores == g.queue.scores
    ensures SharedInv(g') && forall j: nat :: Spares(g, g', j)
    ensures forall f | f in g.log.owner :: Same(g, g', f)
  {
    hide Places, Dated, Ends, Starts, Queued, StartedFiles;
    Untouched(g, g');
  }

  lemma ReleaseKeeps(g: Shared, w: Instance, i: nat, a: Action)
    requires SharedInv(g) && InstanceInv(g, w, i) && Can(g, w, a) && a.Release?
    ensures Kept(g, w, i, a)
  {
    hide SharedInv, WorkerInv, Spares, Same, DueBy, StartedFiles, IdDue, Ready, FileDue;
    Reflexive(g);
    var (g', w') := Act(g, w, i, a);
    assert w'.workers.Keys == w.workers.Keys - {a.worker};
  }

  // ---------- every step ----------

  lemma ActionKeeps(g: Shared, w: Instance, i: nat, a: Action)
    requires SharedInv(g) && InstanceInv(g, w, i) && Can(g, w, a)
    ensures Kept(g, w, i, a)
  {
    hide SharedInv, InstanceInv, Spares, Act, Can;
    match a
    case Schedule(_, _, _, _) => ScheduleKeeps(g, w, i, a);
    case Discard(_) => DiscardKeeps(g, w, i, a);
    case ClaimFile(_) => ClaimKeeps(g, w, i, a);
    case Unlist(_) => UnlistKeeps(g, w, i, a);
    case Spawn(_) => SpawnKeeps(g, w, i, a);
    case Begin(_) => BeginKeeps(g, w, i, a);
    case Return(_, _) => ReturnKeeps(g, w, i, a);
    case Send(_) => SendKeeps(g, w, i, a);
    case Settle(_, _) => SettleKeeps(g, w, i, a);
    case Release(_) => ReleaseKeeps(g, w, i, a);
    case _ =>
      LocalKeeps(g, w, i, a);
      Reflexive(g);
  }

  lemma TimePasses(g: Shared, c: int)
    requires SharedInv(g) && g.clock <= c
    ensures var g' := g.(clock := c); SharedInv(g') && forall j: nat :: Spares(g, g', j)
  {
    Untouched(g, g.(clock := c));
    hide Places, Dated, Stages, Ends, Queued, Spares, DueBy;
  }

  /** Every step of the system keeps the invariant. */
  lemma StepKeeps(s: State, step: Step)
    requires Inv(s) && Enabled(s, step)
    ensures Inv(After(s, step))
  {
    hide SharedInv, InstanceInv, Spares, Act, Can;
    var s' := After(s, step);
    match step
    case Tock(c) =>
      TimePasses(s.shared, c);
      forall j | 0 <= j < |s.instances| ensures InstanceInv(s'.shared, s.instances[j], j) {
        SparedInstance(s.shared, s'.shared, s.instances[j], j);
      }
    case Launch(backend, capacity) =>
      FreshInstance(s.shared, backend, capacity, |s.instances|);
    case By(i, a) =>
      ActionKeeps(s.shared, s.instances[i], i, a);
      forall j | 0 <= j < |s.instances| && j != i ensures InstanceInv(s'.shared, s.instances[j], j) {
        SparedInstance(s.shared, s'.shared, s.instances[j], j);
      }
  }

  lemma FreshInstance(g: Shared, backend: Backend, capacity: nat, i: nat)
    ensures InstanceInv(g, Fresh(backend, capacity), i)
  {
  }

  lemma InitialInv(s: State)
    requires Initial(s)
    ensures Inv(s)
  {
  }

  /** The invariant holds in every state of a run that starts with it. */
  lemma {:induction false} InvHolds(trace: seq<State>, steps: seq<Step>, k: nat)
    requires Run(trace, steps) && Inv(trace[0]) && k <= |steps|
    ensures Inv(trace[k])
  {
    hide Inv, After, Enabled;
    if k > 0 {
      InvHolds(trace, steps, k - 1);
      StepKeeps(trace[k - 1], steps[k - 1]);
    }
  }

  /** The invariant holds in every state of every run from empty storages. */
  lemma RunInv(trace: seq<State>, steps: seq<Step>, k: nat)
    requires Run(trace, steps) && Initial(trace[0]) && k <= |steps|
    ensures Inv(trace[k])
  {
    InitialInv(trace[0]);
    hide Inv, Run, Initial;
    InvHolds(trace, steps, k);
  }
}
