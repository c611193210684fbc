/**
  One scheduler process on file storage as an object (pkg/scheduler/scheduler.go):
  registering, scheduling, one tick of the loop up to the start of a worker, and a
  worker. How these interleave is the subject of module Scheduler.
*/
module SchedulerProcess {
  import opened Strings
  import opened Timestamps
  import opened TaskNames
  import opened FileStorage

  /** How far a tick got: the loop goes on, reports an error, blocks on the semaphore, or has spawned. */
  datatype Tick =
    | Idle
    | Bad
    | Unknown(id: string)
    | Blocked(id: string, data: Bytes)
    | Spawned(id: string, data: Bytes)

  datatype Scheduling = Scheduled | ExecutorNotDefined | NotStored

  class Process {
    const storage: Storage
    const capacity: nat
    var executors: set<string>
    var permits: nat

    constructor (storage: Storage, capacity: nat)
      ensures this.storage == storage && this.capacity == capacity && executors == {} && permits == 0
    {
      this.storage, this.capacity, executors, permits := storage, capacity, {}, 0;
    }

    method RegisterExecutor(task: string)
      modifies this
      ensures executors == old(executors) + {task} && permits == old(permits)
    {
      executors := executors + {task};
    }

    /** An unknown task is refused and nothing is stored; a write that fails leaves what was written. */
    method ScheduleTask(task: string, at: Stamp, payload: Bytes, created: bool, written: nat) returns (r: Scheduling)
      requires written <= |payload|
      modifies storage
      ensures r == if task !in executors then ExecutorNotDefined
                   else if created && written == |payload| then Scheduled
                   else NotStored
      ensures storage.View() == if task in executors && created
                                then Put(old(storage.View()), FileName(task, Format(at)), payload[..written])
                                else old(storage.View())
      ensures r.Scheduled? ==> storage.View() == Put(old(storage.View()), FileName(task, Format(at)), payload)
      ensures storage.pending == if task in executors && created
                                 then old(storage.pending)[FileName(task, Format(at)) := payload[..written]]
                                 else old(storage.pending)
    {
      if task !in executors { return ExecutorNotDefined; }
      var ok := storage.Store(task, at, payload, created, written);
      return if ok then Scheduled else NotStored;
    }

    /** Retrieve, look up the executor, take a permit. */
    method OnTick(now: int, fault: Fault) returns (t: Tick)
      requires permits <= capacity
      modifies this, storage
      ensures executors == old(executors) && permits <= capacity
      ensures var (r, d) := Retrieved(old(storage.View()), now, fault);
        && storage.View() == d
        && permits == old(permits) + (if t.Spawned? then 1 else 0)
        && t == match r
                case Nothing => Idle
                case BadTime => Bad
                case IoError => Bad
                case Task(id, name, data) =>
                  if name !in executors then Unknown(id)
                  else if old(permits) == capacity then Blocked(id, data)
                  else Spawned(id, data)
    {
      var r := storage.Retrieve(now, fault);
      match r
      case Nothing => return Idle;
      case BadTime => return Bad;
      case IoError => return Bad;
      case Task(id, name, data) =>
        if name !in executors { return Unknown(id); }
        if permits == capacity { return Blocked(id, data); }
        permits := permits + 1;
        return Spawned(id, data);
    }

    /** A worker after its executor returned, nil or not: it moves the file on and gives the permit back. */
    method Finish(id: string, succeeded: bool, fault: bool) returns (ok: bool)
      requires permits > 0
      modifies this, storage
      ensures ok == (id in old(storage.View()).executing && !fault)
      ensures storage.View() == if !ok then old(storage.View())
                                else if succeeded then Remove(old(storage.View()), id)
                                else Fail(old(storage.View()), id)
      ensures permits == old(permits) - 1 && executors == old(executors)
    {
      if succeeded { ok := storage.Done(id, fault); } else { ok := storage.Failure(id, fault); }
      permits := permits - 1;
    }
  }
}
