/**
  The file storage of the scheduler (pkg/scheduler/file.go): a task is a file that
  moves from the pending directory to the executing one and from there is removed or
  moved to the failed one.
*/
module FileStorage {
  import opened Strings
  import opened Timestamps
  import opened TaskNames

  /** `task_scheduler`, `executing_task_scheduler` and `failed_task_scheduler`. */
  datatype Dirs = Dirs(pending: map<string, Bytes>, executing: map<string, Bytes>, failed: map<string, Bytes>)

  /** What `Retrieve` returns; a task's name is what its file name decodes to. */
  datatype Retrieval = Nothing | Task(id: string, name: string, data: Bytes) | BadTime | IoError

  /** The file operation of a `Retrieve` that would fail if it were reached. */
  datatype Fault = NoFault | OnList | OnRemove | OnMove | OnRead

  // ---------- the single moves ----------

  /** `os.Create` and the write in `Store`. */
  function Put(d: Dirs, file: string, payload: Bytes): Dirs {
    d.(pending := d.pending[file := payload])
  }

  /** `os.Remove` of a file whose time does not parse. */
  function Discard(d: Dirs, file: string): Dirs {
    d.(pending := d.pending - {file})
  }

  /** The rename that claims a pending file. */
  function Claim(d: Dirs, file: string): Dirs
    requires file in d.pending
  {
    d.(pending := d.pending - {file}, executing := d.executing[file := d.pending[file]])
  }

  /** The rename in `Failure`. */
  function Fail(d: Dirs, file: string): Dirs
    requires file in d.executing
  {
    d.(executing := d.executing - {file}, failed := d.failed[file := d.executing[file]])
  }

  /** `os.Remove` in `Done`. */
  function Remove(d: Dirs, file: string): Dirs {
    d.(executing := d.executing - {file})
  }

  predicate DueBy(file: string, now: int) {
    FileDue(file).Some? && FileDue(file).value <= now
  }

  /** A whole `Retrieve` that no other process disturbs. A claimed file that cannot be read stays claimed. */
  ghost function Retrieved(d: Dirs, now: int, fault: Fault): (Retrieval, Dirs) {
    if fault == OnList then (IoError, d)
    else if d.pending == map[] then (Nothing, d)
    else
      var file := Least(d.pending.Keys);
      if FileDue(file).None? then (BadTime, if fault == OnRemove then d else Discard(d, file))
      else if !DueBy(file, now) then (Nothing, d)
      else if fault == OnMove then (IoError, d)
      else if fault == OnRead then (IoError, Claim(d, file))
      else (Task(file, FileTask(file), d.pending[file]), Claim(d, file))
  }

  /** When a file is due: exactly from its instant on, if its name leaves the time. */
  lemma DueExactly(name: string, t: Stamp, now: int)
    requires Valid(t)
    ensures DueBy(FileName(name, Format(t)), now) <==> !LosesTime(name, t) && Instant(t) <= now
  {
    hide FileDue, FileTask, FileName, Format, LosesTime, Instant;
    FileDiscardExact(name, t);
  }

  /**
    What a `Retrieve` does to the three directories, by the name that is first in string
    order: a bad name goes, an early task stays, a due one moves with its payload.
  */
  lemma RetrievedExactly(d: Dirs, name: string, t: Stamp, now: int, fault: Fault)
    requires Valid(t) && fault != OnList
    requires FileName(name, Format(t)) in d.pending
    requires forall other | other in d.pending :: Leq(FileName(name, Format(t)), other)
    ensures var file := FileName(name, Format(t));
      Retrieved(d, now, fault) ==
        if LosesTime(name, t) then
          (BadTime, if fault == OnRemove then d else Dirs(d.pending - {file}, d.executing, d.failed))
        else if now < Instant(t) then (Nothing, d)
        else if fault == OnMove then (IoError, d)
        else
          (if fault == OnRead then IoError else Task(file, Head(name), d.pending[file]),
           Dirs(d.pending - {file}, d.executing[file := d.pending[file]], d.failed))
  {
    hide FileDue, FileTask, FileName, Format, LosesTime, Instant, Head;
    FileDiscardExact(name, t);
    LeastUnique(d.pending.Keys, FileName(name, Format(t)));
  }

  /** The moves of a claimed file: into one directory or out of all. */
  lemma MovesExactly(d: Dirs, file: string)
    requires file in d.executing
    ensures Fail(d, file) == Dirs(d.pending, d.executing - {file}, d.failed[file := d.executing[file]])
    ensures Remove(d, file) == Dirs(d.pending, d.executing - {file}, d.failed)
    ensures forall payload :: Put(d, file, payload) == Dirs(d.pending[file := payload], d.executing, d.failed)
  {
  }

  // ---------- the storage object ----------

  class Storage {
    var pending: map<string, Bytes>
    var executing: map<string, Bytes>
    var failed: map<string, Bytes>

    ghost function View(): Dirs
      reads this
    {
      Dirs(pending, executing, failed)
    }

    constructor ()
      ensures View() == Dirs(map[], map[], map[])
    {
      pending, executing, failed := map[], map[], map[];
    }

    /** `created` says whether the file could be made, `written` how many bytes of the payload got into it. */
    method Store(name: string, at: Stamp, payload: Bytes, created: bool, written: nat) returns (ok: bool)
      requires written <= |payload|
      modifies this
      ensures ok == (created && written == |payload|)
      ensures View() == if created then Put(old(View()), FileName(name, Format(at)), payload[..written])
                        else old(View())
      ensures ok ==> View() == Put(old(View()), FileName(name, Format(at)), payload)
      ensures pending == if created then old(pending)[FileName(name, Format(at)) := payload[..written]]
                         else old(pending)
      ensures executing == old(executing) && failed == old(failed)
    {
      var file := FileName(name, Format(at));
      if !created { return false; }
      pending := pending[file := []];
      pending := pending[file := pending[file] + payload[..written]];
      assert [] + payload[..written] == payload[..written] && payload[..|payload|] == payload;
      return written == |payload|;
    }

    /** `files[0]` of the sorted directory listing. */
    method First(files: set<string>) returns (first: string)
      requires files != {}
      ensures first == Least(files)
    {
      first :| first in files;
      LeqTotal(first, first);
      var rest := files - {first};
      while rest != {}
        invariant rest < files && first in files - rest
        invariant forall g | g in files - rest :: Leq(first, g)
        decreases rest
      {
        var f :| f in rest;
        LeqTotal(f, first);
        LeqTotal(f, f);
        ghost var seen := files - rest;
        rest := rest - {f};
        if Leq(f, first) {
          forall g | g in seen ensures Leq(f, g) { LeqTransitive(f, first, g); }
          first := f;
        }
        assert files - rest == seen + {f};
      }
      assert files - rest == files;
      LeastUnique(files, first);
    }

    method Retrieve(now: int, fault: Fault) returns (r: Retrieval)
      modifies this
      ensures (r, View()) == Retrieved(old(View()), now, fault)
    {
      if fault == OnList { return IoError; }
      if pending == map[] { return Nothing; }
      var file := First(pending.Keys);
      match Parse(FileTime(file))
      case None =>
        if fault != OnRemove { pending := pending - {file}; }
        return BadTime;
      case Some(at) =>
        if Instant(at) > now { return Nothing; }
        if fault == OnMove { return IoError; }
        executing := executing[file := pending[file]];
        pending := pending - {file};
        if fault == OnRead { return IoError; }
        return Task(file, FileTask(file), executing[file]);
    }

    /** `fault` says that the rename, or the making of its directory, fails although the file is there. */
    method Failure(file: string, fault: bool) returns (ok: bool)
      modifies this
      ensures ok == (file in old(View()).executing && !fault)
      ensures View() == if ok then Fail(old(View()), file) else old(View())
      ensures pending == old(pending) && executing == (if ok then old(executing) - {file} else old(executing))
      ensures failed == if ok then old(failed)[file := old(executing)[file]] else old(failed)
    {
      ok := file in executing && !fault;
      if ok {
        failed := failed[file := executing[file]];
        executing := executing - {file};
      }
    }

    method Done(file: string, fault: bool) returns (ok: bool)
      modifies this
      ensures ok == (file in old(View()).executing && !fault)
      ensures View() == if ok then Remove(old(View()), file) else old(View())
      ensures pending == old(pending) && executing == (if ok then old(executing) - {file} else old(executing))
      ensures failed == old(failed)
    {
      ok := file in executing && !fault;
      if ok { executing := executing - {file}; }
    }
  }

  // ---------- earliest first ----------

  /** The file of a task of this decodable name in this zone. */
  ghost predicate FileOf(name: string, zone: int, t: Stamp, file: string) {
    Valid(t) && t.offset == zone && Decodable(name, t) && file == FileName(name, Format(t))
  }

  /**
    Every pending file is a task of this one decodable name and zone, and no two times
    are confused by their printed fractions. Whole seconds never are, nor is any zone
    but UTC.
  */
  ghost predicate OneSeries(d: Dirs, name: string, zone: int) {
    && (forall file | file in d.pending :: exists t :: FileOf(name, zone, t, file))
    && (forall f, g, t, u | f in d.pending && g in d.pending && FileOf(name, zone, t, f) && FileOf(name, zone, u, g) ::
          !Confused(t, u))
  }

  ghost function DueFiles(d: Dirs, now: int): set<string> {
    set file | file in d.pending && DueBy(file, now)
  }

  lemma OneSeriesDecodes(name: string, zone: int, t: Stamp, file: string)
    requires FileOf(name, zone, t, file)
    ensures FileTask(file) == name && FileDue(file) == Some(Instant(t))
  {
    FileCodecExact(name, t);
    ParseFormat(t);
  }

  /** The file that is first in string order is the earliest task. */
  lemma FirstIsEarliest(d: Dirs, name: string, zone: int)
    requires OneSeries(d, name, zone) && d.pending != map[]
    ensures var first := Least(d.pending.Keys);
      && FileTask(first) == name && FileDue(first).Some?
      && forall g | g in d.pending :: FileDue(g).Some? && FileDue(first).value <= FileDue(g).value
  {
    hide FileDue, FileTask, Format, FileName, Confused, Decodable, Valid, Leq;
    var first := Least(d.pending.Keys);
    var t :| FileOf(name, zone, t, first);
    OneSeriesDecodes(name, zone, t, first);
    forall g | g in d.pending ensures FileDue(g).Some? && FileDue(first).value <= FileDue(g).value {
      var u :| FileOf(name, zone, u, g);
      OneSeriesDecodes(name, zone, u, g);
      FileOrderExact(name, t, u);
    }
  }

  /**
    Two confused tasks, the only ones, both due: `Retrieve` takes the later one first.
    So the condition of earliest-first dispatch cannot be dropped for any such pair.
  */
  lemma ConfusedTasksSwap(d: Dirs, name: string, a: Stamp, b: Stamp, now: int)
    requires Valid(a) && Valid(b) && Confused(a, b) && Instant(a) < Instant(b) <= now
    requires Decodable(name, a) && Decodable(name, b)
    requires d.pending.Keys == {FileName(name, Format(a)), FileName(name, Format(b))}
    ensures Retrieved(d, now, NoFault).0.Task?
    ensures Retrieved(d, now, NoFault).0.id == FileName(name, Format(b))
    ensures FileName(name, Format(a)) in DueFiles(d, now)
  {
    hide FileDue, FileTask, Format, FileName, Confused, Decodable, Valid, Leq, Instant;
    var x, y := FileName(name, Format(a)), FileName(name, Format(b));
    OneSeriesDecodes(name, 0, a, x) by { assert FileOf(name, 0, a, x) by { Utc(a, b); } }
    OneSeriesDecodes(name, 0, b, y) by { assert FileOf(name, 0, b, y) by { Utc(a, b); } }
    Utc(a, b);
    FileOrderExact(name, a, b);
    LeqTotal(x, y);
    LeqTotal(y, y);
    LeastUnique(d.pending.Keys, y);
  }

  lemma Utc(a: Stamp, b: Stamp)
    requires Valid(a) && Valid(b) && Confused(a, b)
    ensures a.offset == b.offset == 0
  {
  }

  /** `Retrieve` yields the earliest task, and nothing if and only if none is due. */
  lemma RetrievesEarliest(d: Dirs, name: string, zone: int, now: int)
    requires OneSeries(d, name, zone)
    ensures var (r, d') := Retrieved(d, now, NoFault);
      && (r == Nothing <==> DueFiles(d, now) == {})
      && (r == Nothing ==> d' == d)
      && (r != Nothing ==>
            && r.Task? && r.name == name && r.id in DueFiles(d, now) && r.data == d.pending[r.id]
            && d' == Claim(d, r.id)
            && forall g | g in d.pending :: FileDue(g).Some? && FileDue(r.id).value <= FileDue(g).value)
  {
    hide FileDue, FileTask, FileOf, Confused, Leq;
    if d.pending != map[] {
      FirstIsEarliest(d, name, zone);
      var first := Least(d.pending.Keys);
      if DueBy(first, now) { assert first in DueFiles(d, now); }
    }
  }

  /** The results of one `Retrieve` at each of the given times, and the directories afterwards. */
  ghost function Drained(d: Dirs, clock: seq<int>): (seq<Retrieval>, Dirs)
    decreases clock
  {
    if clock == [] then ([], d)
    else
      var (r, d1) := Retrieved(d, clock[0], NoFault);
      var (rs, d2) := Drained(d1, clock[1..]);
      ([r] + rs, d2)
  }

  /** The due file that `Retrieve` takes is the earliest, and taking it leaves the others as they are. */
  lemma RetrievesOneDue(d: Dirs, name: string, zone: int, now: int, c: int)
    requires OneSeries(d, name, zone) && now <= c && DueFiles(d, now) != {}
    ensures var (r, d') := Retrieved(d, c, NoFault);
      && r.Task? && r.name == name && r.id in DueFiles(d, now) && r.data == d.pending[r.id]
      && (forall g | g in DueFiles(d, now) :: FileDue(r.id).value <= FileDue(g).value)
      && OneSeries(d', name, zone) && DueFiles(d', now) == DueFiles(d, now) - {r.id}
      && d'.pending == d.pending - {r.id} && d'.failed == d.failed
  {
    hide FileDue, FileOf;
    var f :| f in DueFiles(d, now);
    assert f in DueFiles(d, c);
    RetrievesEarliest(d, name, zone, c);
  }

  /** Results that dispatch the due files of `d` as of `now`, earliest first. */
  ghost predicate InOrder(d: Dirs, name: string, now: int, rs: seq<Retrieval>) {
    && (forall k | 0 <= k < |rs| ::
          && rs[k].Task? && rs[k].name == name && rs[k].id in DueFiles(d, now)
          && rs[k].data == d.pending[rs[k].id])
    && (forall j, k | 0 <= j < k < |rs| ::
          rs[j].id != rs[k].id && FileDue(rs[j].id).value <= FileDue(rs[k].id).value)
  }

  lemma InOrderExtends(d: Dirs, name: string, now: int, r: Retrieval, d1: Dirs, rs: seq<Retrieval>)
    requires r.Task? && r.name == name && r.id in DueFiles(d, now) && r.data == d.pending[r.id]
    requires forall g | g in DueFiles(d, now) :: FileDue(r.id).value <= FileDue(g).value
    requires d1.pending == d.pending - {r.id}
    requires InOrder(d1, name, now, rs)
    ensures InOrder(d, name, now, [r] + rs)
  {
    hide FileDue;
    var all := [r] + rs;
    forall k | 0 < k < |all|
      ensures all[k].Task? && all[k].name == name && all[k].id in DueFiles(d, now)
      ensures all[k].data == d.pending[all[k].id] && all[k].id != r.id
    {
      assert all[k] == rs[k - 1] && rs[k - 1].id in DueFiles(d1, now);
    }
    forall j, k | 0 <= j < k < |all|
      ensures all[j].id != all[k].id && FileDue(all[j].id).value <= FileDue(all[k].id).value
    {
      if j > 0 { assert all[j] == rs[j - 1] && all[k] == rs[k - 1]; }
    }
  }

  /**
    If n tasks are due at some time, the next n retrievals, whenever after it they
    happen, dispatch exactly those tasks with their payloads, earliest first, and
    leave every other task pending.
  */
  lemma {:induction false} DueTasksLeaveInOrder(d: Dirs, name: string, zone: int, now: int, clock: seq<int>)
    requires OneSeries(d, name, zone)
    requires |clock| == |DueFiles(d, now)| && forall c | c in clock :: now <= c
    ensures var (rs, d') := Drained(d, clock);
      && |rs| == |DueFiles(d, now)| && InOrder(d, name, now, rs)
      && d'.pending == d.pending - DueFiles(d, now) && d'.failed == d.failed
    decreases clock
  {
    hide FileDue, OneSeries, Retrieved;
    if clock == [] {
      assert d.pending - DueFiles(d, now) == d.pending;
    } else {
      var c := clock[0];
      assert c in clock && forall x | x in clock[1..] :: x in clock;
      RetrievesOneDue(d, name, zone, now, c);
      var (r, d1) := Retrieved(d, c, NoFault);
      DueTasksLeaveInOrder(d1, name, zone, now, clock[1..]);
      var (rs, d2) := Drained(d1, clock[1..]);
      InOrderExtends(d, name, now, r, d1, rs);
      assert d1.pending - DueFiles(d1, now) == d.pending - DueFiles(d, now);
    }
  }
}
