/**
  The Redis storage of the scheduler (pkg/scheduler/redis.go): a sorted set of task ids
  by scheduled second, and a key for each payload.
*/
module RedisStorage {
  import opened Strings
  import opened Timestamps
  import opened TaskNames
  import opened Scheduler

  /** What `Retrieve` returns; `Lost` is the error for an id without a payload, `Failed` any other. */
  datatype Reply = Nobody | Lost(id: string) | Got(id: string, name: string, data: Bytes) | Failed

  /** The command of a `Retrieve` that would fail if it were reached. */
  datatype Fault = NoFault | OnQuery | OnGet | OnRemove

  /** No id is due. */
  predicate NoneDue(scores: map<string, int>, now: int) {
    forall id | id in scores :: now < scores[id]
  }

  /** A whole `Retrieve` that nothing disturbs. A command that fails changes nothing. */
  ghost predicate Retrieves(q: Queue, now: int, fault: Fault, r: Reply, q': Queue) {
    match r
    case Nobody => NoneDue(q.scores, now) && fault != OnQuery && q' == q
    case Lost(id) => FirstDue(q.scores, now, id) && id !in q.keys && fault !in {OnQuery, OnGet} && q' == q
    case Failed =>
      && q' == q
      && (fault == OnQuery
          || (fault == OnGet && !NoneDue(q.scores, now))
          || (fault == OnRemove && exists id :: FirstDue(q.scores, now, id) && id in q.keys))
    case Got(id, name, data) =>
      && fault == NoFault && FirstDue(q.scores, now, id) && id in q.keys && data == q.keys[id] && name == RedisTask(id)
      && q' == q.(scores := q.scores - {id})
  }

  class Storage {
    var scores: map<string, int>
    var keys: map<string, Bytes>
    var failed: map<string, int>

    ghost function View(): Queue
      reads this
    {
      Queue(scores, keys, failed)
    }

    constructor ()
      ensures View() == Queue(map[], map[], map[])
    {
      scores, keys, failed := map[], map[], map[];
    }

    /**
      `salt` is the random number below 100 in the id. The pipeline is not a transaction:
      `listed` and `kept` say which of its two commands took effect.
    */
    method Store(name: string, at: Stamp, salt: nat, payload: Bytes, listed: bool, kept: bool) returns (ok: bool)
      requires Valid(at) && salt < 100
      modifies this
      ensures ok == (listed && kept)
      ensures var id := RedisId(name, Unix(Instant(at)), salt);
        View() == old(View()).(scores := if listed then old(scores)[id := Unix(Instant(at))] else old(scores),
                               keys := if kept then old(keys)[id := payload] else old(keys))
      ensures failed == old(failed)
      ensures ok ==> View() == Enqueue(old(View()), RedisId(name, Unix(Instant(at)), salt), Unix(Instant(at)), payload)
    {
      var id := RedisId(name, Unix(Instant(at)), salt);
      if listed { scores := scores[id := Unix(Instant(at))]; }
      if kept { keys := keys[id := payload]; }
      return listed && kept;
    }

    /** `ZRANGEBYSCORE scheduler -inf now LIMIT 0 1`. */
    method First(now: int) returns (first: Option<string>)
      ensures match first
              case None => NoneDue(scores, now)
              case Some(id) => FirstDue(scores, now, id)
      ensures match first
              case None => forall id | id in scores :: now < scores[id]
              case Some(id) =>
                && id in scores && scores[id] <= now
                && forall other | other in scores ::
                     scores[id] < scores[other] || (scores[id] == scores[other] && Leq(id, other))
    {
      hide Leq;
      first := None;
      var rest := scores.Keys;
      while rest != {}
        invariant rest <= scores.Keys
        invariant first.None? ==> forall id | id in scores.Keys - rest :: now < scores[id]
        invariant first.Some? ==>
          && first.value in scores.Keys - rest && scores[first.value] <= now
          && forall id | id in scores.Keys - rest ::
               scores[first.value] < scores[id] || (scores[first.value] == scores[id] && Leq(first.value, id))
        decreases rest
      {
        var id :| id in rest;
        ghost var seen := scores.Keys - rest;
        rest := rest - {id};
        assert scores.Keys - rest == seen + {id};
        LeqTotal(id, id);
        if scores[id] <= now {
          if first.None? {
            first := Some(id);
          } else {
            LeqTotal(id, first.value);
            if scores[id] < scores[first.value] || (scores[id] == scores[first.value] && Leq(id, first.value)) {
              forall g | g in seen && scores[g] == scores[first.value] == scores[id] ensures Leq(id, g) {
                LeqTransitive(id, first.value, g);
              }
              first := Some(id);
            }
          }
        }
      }
    }

    method Retrieve(nanos: int, fault: Fault) returns (r: Reply)
      modifies this
      ensures Retrieves(old(View()), Unix(nanos), fault, r, View())
    {
      hide FirstDue, RedisTask;
      if fault == OnQuery { return Failed; }
      var first := First(Unix(nanos));
      if first.None? { return Nobody; }
      var id := first.value;
      assert id in scores && scores[id] <= Unix(nanos) by { FirstIsDue(scores, Unix(nanos), id); }
      var name := RedisTask(id);
      if fault == OnGet { return Failed; }
      if id !in keys { return Lost(id); }
      var data := keys[id];
      if fault == OnRemove { return Failed; }
      scores := scores - {id};
      return Got(id, name, data);
    }

    method Failure(id: string, nanos: int, fault: bool) returns (ok: bool)
      modifies this
      ensures ok == !fault
      ensures View() == if fault then old(View()) else old(View()).(failed := old(failed)[id := Unix(nanos)])
    {
      if fault { return false; }
      failed := failed[id := Unix(nanos)];
      return true;
    }

    method Done(id: string, fault: bool) returns (ok: bool)
      modifies this
      ensures ok == !fault
      ensures View() == if fault then old(View()) else old(View()).(keys := old(keys) - {id})
    {
      if fault { return false; }
      keys := keys - {id};
      return true;
    }
  }

  lemma FirstIsDue(scores: map<string, int>, now: int, id: string)
    requires FirstDue(scores, now, id)
    ensures id in scores && scores[id] <= now && !NoneDue(scores, now)
  {
  }

  /**
    The loop's three Redis actions with nobody in between do what `Retrieve` does as a
    whole, whichever command fails.
  */
  lemma StepsRefineRetrieve(g: Shared, w: Instance, i: nat, id: string, fault: Fault)
    requires w.alive && w.loop.Waiting? && w.backend.Redis? && FirstDue(g.queue.scores, Unix(g.clock), id)
    ensures fault == OnQuery ==>
      var (g1, w1) := Act(g, w, i, StorageError);
      w1.loop.Reporting? && Retrieves(g.queue, Unix(g.clock), fault, Failed, g1.queue)
    ensures fault != OnQuery ==>
      var (g1, w1) := Act(g, w, i, Query(id));
      var (g2, w2) := Act(g1, w1, i, Fetch(fault != OnGet));
      && w2.loop.Unlisting? == (id in g.queue.keys && fault != OnGet)
      && (w2.loop.Unlisting? ==>
            var (g3, w3) := Act(g2, w2, i, Unlist(fault != OnRemove));
            if w3.loop.Retrieved? then
              Retrieves(g.queue, Unix(g.clock), fault, Got(w3.loop.id, w3.loop.name, w3.loop.data), g3.queue)
            else w3.loop.Reporting? && Retrieves(g.queue, Unix(g.clock), fault, Failed, g3.queue))
      && (!w2.loop.Unlisting? ==>
            w2.loop.Reporting? &&
            Retrieves(g.queue, Unix(g.clock), fault, if fault == OnGet then Failed else Lost(id), g2.queue))
  {
    FirstIsDue(g.queue.scores, Unix(g.clock), id);
    hide FirstDue, RedisTask, NoneDue;
    assert Can(g, w, Query(id)) && Can(g, w, StorageError);
  }

  // ---------- earliest second first ----------

  ghost function DueIds(scores: map<string, int>, now: int): set<string> {
    set id | id in scores && scores[id] <= now
  }

  /** `a` is dispatched before `b`: by its second, and by string order among equals. */
  predicate Before(scores: map<string, int>, a: string, b: string)
    requires a in scores && b in scores
  {
    scores[a] < scores[b] || (scores[a] == scores[b] && Leq(a, b))
  }

  /** The id that `Retrieve` takes comes before every other id in the sorted set, and the others stay. */
  lemma TakesTheEarliest(q: Queue, now: int, id: string, name: string, data: Bytes, q': Queue)
    requires Retrieves(q, now, NoFault, Got(id, name, data), q')
    ensures id in q.scores && q.scores[id] <= now && forall other | other in q.scores :: Before(q.scores, id, other)
    ensures name == RedisTask(id) && id in q.keys && data == q.keys[id]
    ensures q' == Queue(q.scores - {id}, q.keys, q.failed)
  {
    hide Leq, RedisTask;
  }

  lemma FirstExists(scores: map<string, int>, now: int) returns (first: string)
    requires DueIds(scores, now) != {}
    ensures FirstDue(scores, now, first)
  {
    hide Leq;
    var id :| id in DueIds(scores, now);
    first := Lowest(scores, scores.Keys, id);
  }

  lemma {:induction false} Lowest(scores: map<string, int>, ids: set<string>, id: string) returns (first: string)
    requires id in ids && ids <= scores.Keys
    ensures first in ids && forall other | other in ids :: Before(scores, first, other)
    decreases ids
  {
    hide Leq;
    LeqTotal(id, id);
    if ids == {id} {
      first := id;
    } else {
      assert ids - {id} != {};
      var next :| next in ids - {id};
      var low := Lowest(scores, ids - {id}, next);
      LeqTotal(id, low);
      first := if Before(scores, id, low) then id else low;
      forall other | other in ids ensures Before(scores, first, other) {
        if other != id {
          assert other in ids - {id} && Before(scores, low, other);
          if first == id && scores[id] == scores[low] == scores[other] { LeqTransitive(id, low, other); }
        }
      }
    }
  }

  /** The results of one undisturbed `Retrieve` without a fault at each of the given times. */
  ghost predicate DrainedBy(q: Queue, clock: seq<int>, rs: seq<Reply>, q': Queue)
    decreases clock
  {
    if clock == [] then rs == [] && q' == q
    else
      rs != [] && exists q1 :: Retrieves(q, clock[0], NoFault, rs[0], q1) && DrainedBy(q1, clock[1..], rs[1..], q')
  }

  /** Replies that are ids due at `now`, each with name and payload. */
  ghost predicate Dispatched(q: Queue, now: int, rs: seq<Reply>) {
    forall k | 0 <= k < |rs| ::
      && rs[k].Got? && rs[k].id in q.scores && q.scores[rs[k].id] <= now
      && rs[k].id in q.keys && rs[k].data == q.keys[rs[k].id] && rs[k].name == RedisTask(rs[k].id)
  }

  ghost predicate InSeconds(q: Queue, now: int, rs: seq<Reply>)
    requires Dispatched(q, now, rs)
  {
    forall j, k | 0 <= j < k < |rs| :: rs[j].id != rs[k].id && Before(q.scores, rs[j].id, rs[k].id)
  }

  lemma OneDue(q: Queue, now: int, c: int, r: Reply, q1: Queue)
    requires DueIds(q.scores, now) != {} && DueIds(q.scores, now) <= q.keys.Keys && now <= c
    requires Retrieves(q, c, NoFault, r, q1)
    ensures r.Got? && r.id in DueIds(q.scores, now) && r.data == q.keys[r.id] && r.name == RedisTask(r.id)
    ensures forall other | other in q.scores :: Before(q.scores, r.id, other)
    ensures q1 == Queue(q.scores - {r.id}, q.keys, q.failed)
    ensures DueIds(q1.scores, now) == DueIds(q.scores, now) - {r.id}
  {
    hide Leq, RedisTask;
    var due :| due in DueIds(q.scores, now);
    assert due in q.scores && q.scores[due] <= c;
    match r
    case Nobody => assert false;
    case Failed => assert false;
    case Lost(id) => assert false;
    case Got(id, name, data) => TakesTheEarliest(q, c, id, name, data, q1);
  }

  /**
    If the payloads of all n due ids are kept, n retrievals, whenever after it they
    happen, dispatch exactly those ids, earliest second first, and leave every later one.
  */
  lemma {:induction false} DueIdsLeaveInOrder(q: Queue, now: int, clock: seq<int>, rs: seq<Reply>, q': Queue)
    requires DueIds(q.scores, now) <= q.keys.Keys
    requires |clock| == |DueIds(q.scores, now)| && forall c | c in clock :: now <= c
    requires DrainedBy(q, clock, rs, q')
    ensures |rs| == |DueIds(q.scores, now)| && Dispatched(q, now, rs) && InSeconds(q, now, rs)
    ensures q' == Queue(q.scores - DueIds(q.scores, now), q.keys, q.failed)
    decreases clock
  {
    hide Retrieves, Before, RedisTask;
    if clock == [] {
      assert q.scores - DueIds(q.scores, now) == q.scores;
    } else {
      assert clock[0] in clock && forall c | c in clock[1..] :: c in clock;
      var q1 :| Retrieves(q, clock[0], NoFault, rs[0], q1) && DrainedBy(q1, clock[1..], rs[1..], q');
      OneDue(q, now, clock[0], rs[0], q1);
      DueIdsLeaveInOrder(q1, now, clock[1..], rs[1..], q');
      MoreInSeconds(q, now, rs, q1);
      assert q1.scores - DueIds(q1.scores, now) == q.scores - DueIds(q.scores, now);
    }
  }

  lemma MoreInSeconds(q: Queue, now: int, rs: seq<Reply>, q1: Queue)
    requires rs != [] && rs[0].Got? && rs[0].id in q.scores && q.scores[rs[0].id] <= now
    requires rs[0].id in q.keys && rs[0].data == q.keys[rs[0].id] && rs[0].name == RedisTask(rs[0].id)
    requires q1 == Queue(q.scores - {rs[0].id}, q.keys, q.failed)
    requires forall other | other in q.scores :: Before(q.scores, rs[0].id, other)
    requires Dispatched(q1, now, rs[1..]) && InSeconds(q1, now, rs[1..])
    ensures Dispatched(q, now, rs) && InSeconds(q, now, rs)
  {
    hide Leq, RedisTask;
    assert forall k | 0 < k < |rs| :: rs[k] == rs[1..][k - 1];
  }

  /** Such retrievals exist: nothing but the two errors stops a `Retrieve`. */
  lemma {:induction false} DrainExists(q: Queue, clock: seq<int>) returns (rs: seq<Reply>, q': Queue)
    ensures DrainedBy(q, clock, rs, q')
    decreases clock
  {
    hide RedisTask, Leq;
    if clock == [] {
      rs, q' := [], q;
    } else {
      var r, q1 := Nobody, q;
      if DueIds(q.scores, clock[0]) != {} {
        var id := FirstExists(q.scores, clock[0]);
        if id in q.keys {
          r, q1 := Got(id, RedisTask(id), q.keys[id]), q.(scores := q.scores - {id});
        } else {
          r := Lost(id);
        }
      } else {
        assert forall id | id in q.scores :: id !in DueIds(q.scores, clock[0]);
      }
      assert Retrieves(q, clock[0], NoFault, r, q1);
      hide Retrieves;
      rs, q' := DrainExists(q1, clock[1..]);
      assert ([r] + rs)[1..] == rs;
      rs := [r] + rs;
    }
  }

  /**
    Two tasks stored one after the other are both kept if and only if they differ in
    name, second or random number; otherwise they share an id and the later payload
    replaces the earlier.
  */
  lemma BothTasksKept(q: Queue, name: string, unix: int, salt: nat, payload: Bytes,
                      name': string, unix': int, salt': nat, payload': Bytes)
    ensures var id, id' := RedisId(name, unix, salt), RedisId(name', unix', salt');
      var after := Enqueue(Enqueue(q, id, unix, payload), id', unix', payload');
      var both := id != id' && after.keys[id] == payload && after.keys[id'] == payload'
                  && after.scores[id] == unix && after.scores[id'] == unix';
      && (both <==> name != name' || unix != unix' || salt != salt')
      && (!both ==> id == id' && after.keys[id] == payload')
      && (id !in q.scores && id' !in q.scores ==> |after.scores| == |q.scores| + if both then 2 else 1)
  {
    hide RedisId;
    var id, id' := RedisId(name, unix, salt), RedisId(name', unix', salt');
    if id == id' { RedisIdInjective(name, unix, salt, name', unix', salt'); }
    var once := q.scores[id := unix];
    assert once.Keys == q.scores.Keys + {id};
    assert once[id' := unix'].Keys == once.Keys + {id'};
    assert id' !in q.scores && id != id' ==> id' !in once;
  }

  /**
    A payload that was not kept blocks the queue: while its id is the first due one,
    every `Retrieve` is an error and the tasks behind it wait.
  */
  lemma LostIdBlocks(q: Queue, now: int, id: string, fault: Fault, r: Reply, q': Queue)
    requires FirstDue(q.scores, now, id) && id !in q.keys && Retrieves(q, now, fault, r, q')
    ensures q' == q && r in {Lost(id), Failed}
  {
    hide Leq;
    forall other | FirstDue(q.scores, now, other) ensures other == id { OneFirst(q.scores, now, id, other); }
  }

  lemma OneFirst(scores: map<string, int>, now: int, a: string, b: string)
    requires FirstDue(scores, now, a) && FirstDue(scores, now, b)
    ensures a == b
  {
    LeqAntisymmetric(a, b);
  }
}
