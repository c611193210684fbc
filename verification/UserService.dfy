/**
  The user service (internal/service/user.go) over the SQL repository
  (internal/repository/user/sql.go): which cache keys each operation reads, fills and
  clears, and what that means for the records it returns.
*/
module UserService {
  import opened Strings
  import opened Timestamps
  import opened AsyncCache
  import opened AsyncQueue

  /** The text of a uuid. */
  predicate IsId(s: string) {
    && |s| == 36
    && forall i | 0 <= i < 36 ::
         if i in {8, 13, 18, 23} then s[i] == '-' else '0' <= s[i] <= '9' || 'a' <= s[i] <= 'f'
  }

  type Uuid = s: string | IsId(s) witness "00000000-0000-0000-0000-000000000000"

  datatype Status = New | Active | Banned | Deleted

  datatype User = User(id: Uuid, name: string, phone: string, email: string, password: string,
                       status: Status, role: string, createdAt: int)

  type Rows = map<Uuid, User>

  const MINUTE := 60 * NANOS_PER_SECOND
  const HOUR := 60 * MINUTE

  datatype Result = Ok(user: User) | Existed | NotFound | Internal

  /** What the repository answers to an insert. */
  datatype Insert = Inserted | Duplicate | Broken

  // ---------- the repository ----------

  /** The record that `Create` makes of the caller's. */
  function Made(user: User, id: Uuid, now: int): User {
    user.(id := id, status := New, createdAt := now)
  }

  /** The row that an insert leaves: the creation time is printed in whole seconds. */
  function InsertedRow(user: User): User {
    user.(createdAt := user.createdAt - user.createdAt % NANOS_PER_SECOND)
  }

  /** The row that `UPDATE` leaves: status, role and creation time are not written. */
  function UpdatedRow(row: User, user: User): User {
    row.(name := user.name, phone := user.phone, email := user.email, password := user.password)
  }

  /** Every row is stored under its id. */
  predicate Keyed(rows: Rows) {
    forall id | id in rows :: rows[id].id == id
  }

  /** `u` may be what `SELECT ... WHERE email=? LIMIT 1` yields. */
  predicate HasEmail(rows: Rows, email: string, u: User) {
    u.id in rows && rows[u.id] == u && u.email == email
  }

  ghost predicate SelectsEmail(rows: Rows, email: string, r: Option<User>) {
    match r
    case Some(u) => HasEmail(rows, email, u)
    case None => forall id | id in rows :: rows[id].email != email
  }

  // ---------- the service ----------

  class Service {
    var rows: Rows
    const dbcache: CacheAsync<User>

    constructor (dbcache: CacheAsync<User>)
      ensures this.dbcache == dbcache && rows == map[]
    {
      this.dbcache := dbcache;
      rows := map[];
    }

    /** `id` is the new uuid. The job fills the record with the full creation time. */
    method Create(user: User, id: Uuid, insert: Insert, now: int) returns (r: Result)
      requires id !in rows
      modifies this, dbcache
      ensures var made := Made(user, id, now);
        && r == (match insert case Inserted => Ok(made) case Duplicate => Existed case Broken => Internal)
        && rows == (if insert.Inserted? then old(rows)[id := InsertedRow(made)] else old(rows))
        && dbcache.View() == Queued(old(dbcache.View()), insert.Inserted?, Fill(id, made, HOUR))
    {
      var made := user.(id := id, status := New, createdAt := now);
      if insert.Inserted? { rows := rows[id := InsertedRow(made)]; }
      var ok := dbcache.SetAsync(id, made, insert.Inserted?, HOUR);
      if ok { return Ok(made); }
      return if insert.Duplicate? then Existed else Internal;
    }

    /** The job fills the caller's record, not the row. */
    method Update(user: User, fault: bool) returns (r: Result)
      modifies this, dbcache
      ensures var ok := !fault && user.id in old(rows);
        && r == (if ok then Ok(user) else if fault then Internal else NotFound)
        && rows == (if ok then old(rows)[user.id := UpdatedRow(old(rows)[user.id], user)] else old(rows))
        && dbcache.View() == Queued(old(dbcache.View()), ok, Fill(user.id, user, MINUTE))
    {
      var ok := !fault && user.id in rows;
      if ok { rows := rows[user.id := UpdatedRow(rows[user.id], user)]; }
      var done := dbcache.SetAsync(user.id, user, ok, MINUTE);
      return if done then Ok(user) else if fault then Internal else NotFound;
    }

    /** A user is marked as deleted, and its id key is cleared; its email key is not. */
    method Delete(id: Uuid, fault: bool) returns (r: Result)
      modifies this, dbcache
      ensures var ok := !fault && id in old(rows);
        && rows == (if ok then old(rows)[id := old(rows)[id].(status := Deleted)] else old(rows))
        && dbcache.View() == Queued(old(dbcache.View()), ok, Clear(id))
        && (r.Ok? <==> ok) && (r.NotFound? <==> !fault && id !in old(rows))
    {
      var ok := !fault && id in rows;
      if ok { rows := rows[id := rows[id].(status := Deleted)]; }
      var done := dbcache.DeleteAsync(id, ok);
      return if done then Ok(rows[id]) else if fault then Internal else NotFound;
    }

    method GetByID(id: Uuid, fault: bool, now: int) returns (r: Result)
      modifies dbcache
      ensures var (answer, store) := Got(old(dbcache.View()), id, FetchFrom(rows, id, fault), MINUTE, now);
        r == Converted(answer) && dbcache.View() == store
    {
      var answer := dbcache.GetAsync(id, FetchFrom(rows, id, fault), MINUTE, now);
      return Converted(answer);
    }

    /** `row` is the row that the query yields. */
    method GetByEmail(email: string, row: Option<User>, fault: bool, now: int) returns (r: Result)
      requires SelectsEmail(rows, email, row)
      modifies dbcache
      ensures var fetch := if fault then Error else if row.Some? then Value(row.value) else Missing;
        var (answer, store) := Got(old(dbcache.View()), email, fetch, MINUTE, now);
        r == Converted(answer) && dbcache.View() == store
    {
      var fetch := if fault then Error else if row.Some? then Value(row.value) else Missing;
      var answer := dbcache.GetAsync(email, fetch, MINUTE, now);
      return Converted(answer);
    }
  }

  function Converted(answer: Answer<User>): Result {
    match answer
    case Hit(u) => Ok(u)
    case Fresh(u) => Ok(u)
    case Absent => NotFound
    case Faulted => Internal
  }

  /** The ttls, in nanoseconds. */
  lemma Ttls()
    ensures MINUTE == 60_000_000_000 && HOUR == 3_600_000_000_000
  {
  }

  /** What a read by id answers: an unexpired entry, or else the row, or else the source's error. */
  lemma GetByIDAnswers(rows: Rows, s: Store<User>, id: Uuid, fault: bool, now: int)
    ensures var (answer, s') := Got(s, id, FetchFrom(rows, id, fault), MINUTE, now);
      if id in s.cache && (s.cache[id].expires.None? || now <= s.cache[id].expires.value) then
        Converted(answer) == Ok(s.cache[id].value) && s' == s
      else
        && s'.cache == s.cache - {id}
        && Converted(answer) == (if fault then Internal else if id in rows then Ok(rows[id]) else NotFound)
        && s'.queue == s.queue + if !fault && id in rows then [Fill(id, rows[id], 60_000_000_000)] else []
  {
    GotExactly(s, id, FetchFrom(rows, id, fault), MINUTE, now);
  }

  /** The same for a read by email; `row` is the row that the query yields. */
  lemma GetByEmailAnswers(s: Store<User>, email: string, row: Option<User>, fault: bool, now: int)
    ensures var fetch := if fault then Error else if row.Some? then Value(row.value) else Missing;
      var (answer, s') := Got(s, email, fetch, MINUTE, now);
      if email in s.cache && (s.cache[email].expires.None? || now <= s.cache[email].expires.value) then
        Converted(answer) == Ok(s.cache[email].value) && s' == s
      else
        && s'.cache == s.cache - {email}
        && Converted(answer) == (if fault then Internal else if row.Some? then Ok(row.value) else NotFound)
        && s'.queue == s.queue + if !fault && row.Some? then [Fill(email, row.value, 60_000_000_000)] else []
  {
    GotExactly(s, email, if fault then Error else if row.Some? then Value(row.value) else Missing, MINUTE, now);
  }

  /** The records and rows of the three writes, field by field. */
  lemma WrittenRows(user: User, row: User, id: Uuid, now: int)
    ensures Made(user, id, now) == User(id, user.name, user.phone, user.email, user.password, New, user.role, now)
    ensures UpdatedRow(row, user) ==
            User(row.id, user.name, user.phone, user.email, user.password, row.status, row.role, row.createdAt)
    ensures var kept := InsertedRow(user);
      && kept == User(user.id, user.name, user.phone, user.email, user.password, user.status, user.role, kept.createdAt)
      && kept.createdAt % 1_000_000_000 == 0 && kept.createdAt <= user.createdAt < kept.createdAt + 1_000_000_000
  {
  }

  /**
    After an update whose job has run, `GetByID` answers the caller's record. It is the
    row if and only if the caller's status, role and creation time are the row's.
  */
  lemma UpdateCachesTheCallersRecord(rows: Rows, s: Store<User>, user: User, now: int)
    requires Keyed(rows) && user.id in rows && s.queue == []
    ensures var row := UpdatedRow(rows[user.id], user);
      var filled := Ran(Queued(s, true, Fill(user.id, user, MINUTE)), 0, true, now);
      && Converted(Got(filled, user.id, FetchFrom(rows[user.id := row], user.id, false), MINUTE, now).0) == Ok(user)
      && (user == row <==> user.status == rows[user.id].status && user.role == rows[user.id].role
                           && user.createdAt == rows[user.id].createdAt)
  {
    var queued := Queued(s, true, Fill(user.id, user, MINUTE));
    assert queued.queue == [Fill(user.id, user, MINUTE)];
  }

  // ---------- the service in the step system ----------

  /**
    The database as the cache keys see it: under an id its row, under another text a row
    with that email, and nothing else.
  */
  ghost predicate IsView(db: map<string, User>, rows: Rows) {
    && (forall id | id in rows :: id in db && (!IsId(rows[id].email) ==> rows[id].email in db))
    && (forall key | key in db ::
          if IsId(key) then key in rows && db[key] == rows[key] else HasEmail(rows, key, db[key]))
  }

  ghost function RowWith(rows: Rows, email: string): (u: User)
    requires Keyed(rows) && exists id :: id in rows && rows[id].email == email
    ensures HasEmail(rows, email, u)
  {
    var id :| id in rows && rows[id].email == email;
    rows[id]
  }

  /** Every table has a view: some row for each email that is not the text of a uuid. */
  lemma EveryTableHasAView(rows: Rows) returns (db: map<string, User>)
    requires Keyed(rows)
    ensures IsView(db, rows)
  {
    hide IsId;
    var emails := set id | id in rows && !IsId(rows[id].email) :: rows[id].email;
    var byEmail := map email | email in emails :: RowWith(rows, email);
    db := map id | id in rows :: rows[id];
    db := byEmail + db;
    forall key | key in db
      ensures if IsId(key) then key in rows && db[key] == rows[key] else HasEmail(rows, key, db[key])
    {
      if key !in rows { assert key in emails; }
    }
    forall id | id in rows ensures id in db && (!IsId(rows[id].email) ==> rows[id].email in db) {
      if !IsId(rows[id].email) { assert rows[id].email in emails; }
    }
  }

  /**
    The service's operations, as they begin: the database part of a write that succeeds,
    the read section of a `GetAsync`. `Goes` is anything that happens later, in calls and
    jobs under way.
  */
  datatype Op =
    | Create(call: nat, user: User, id: Uuid)
    | Update(call: nat, user: User)
    | Delete(call: nat, id: Uuid)
    | GetByID(call: nat, id: Uuid)
    | GetByEmail(call: nat, email: string)
    | Goes(step: Step<User>)

  predicate Begins(rows: Rows, op: Op) {
    match op
    case Create(_, _, id) => id !in rows
    case Update(_, user) => user.id in rows
    case Delete(_, id) => id in rows
    case GetByID(_, _) => true
    case GetByEmail(_, email) => !IsId(email)
    case Goes(step) => !step.SetWrite? && !step.DeleteWrite? && !step.GetRead?
  }

  function RowsAfter(rows: Rows, op: Op, now: int): Rows
    requires Begins(rows, op)
  {
    match op
    case Create(_, user, id) => rows[id := InsertedRow(Made(user, id, now))]
    case Update(_, user) => rows[user.id := UpdatedRow(rows[user.id], user)]
    case Delete(_, id) => rows[id := rows[id].(status := Deleted)]
    case _ => rows
  }

  /** What the operation asks of `dbcache`; `db` is the database behind a write. */
  function StepOf(op: Op, now: int, db: map<string, User>): Step<User> {
    match op
    case Create(call, user, id) => SetWrite(call, id, Made(user, id, now), HOUR, db)
    case Update(call, user) => SetWrite(call, user.id, user, MINUTE, db)
    case Delete(call, id) => DeleteWrite(call, id, db)
    case GetByID(call, id) => GetRead(call, id, MINUTE)
    case GetByEmail(call, email) => GetRead(call, email, MINUTE)
    case Goes(step) => step
  }

  function Steps(trace: seq<State<User>>, ops: seq<Op>): seq<Step<User>>
    requires |trace| == |ops| + 1
  {
    seq(|ops|, k requires 0 <= k < |ops| => StepOf(ops[k], trace[k].clock, trace[k + 1].db))
  }

  predicate Writes(op: Op) {
    op.Create? || op.Update? || op.Delete?
  }

  /** One operation or step of the service. */
  ghost predicate Moves(s: State<User>, rows: Rows, op: Op, s': State<User>, rows': Rows) {
    var step := StepOf(op, s.clock, s'.db);
    && Begins(rows, op) && rows' == RowsAfter(rows, op, s.clock)
    && Enabled(s, step) && s' == After(s, step)
    && (Writes(op) ==> IsView(s'.db, rows'))
  }

  /** A run of the service from any rows: calls and jobs interleave in any way. */
  ghost predicate ServiceRun(trace: seq<State<User>>, rows: seq<Rows>, ops: seq<Op>) {
    && |trace| == |rows| == |ops| + 1
    && trace[0] == State(trace[0].clock, trace[0].db, map[], map[], map[], [])
    && Keyed(rows[0]) && IsView(trace[0].db, rows[0])
    && forall k | 0 <= k < |ops| :: Moves(trace[k], rows[k], ops[k], trace[k + 1], rows[k + 1])
  }

  function RowOf(rows: Rows, id: Uuid): Option<User> {
    if id in rows then Some(rows[id]) else None
  }

  /** The operation writes the row or the cache entry of this id. */
  predicate Concerns(op: Op, id: Uuid) {
    match op
    case Create(_, _, i) => i == id
    case Update(_, user) => user.id == id
    case Delete(_, i) => i == id
    case _ => false
  }

  /** What each operation does to the rows. */
  lemma RowsExactly(rows: Rows, op: Op, now: int)
    requires Begins(rows, op)
    ensures RowsAfter(rows, op, now) ==
            match op
            case Create(_, user, id) => rows[id := InsertedRow(Made(user, id, now))]
            case Update(_, user) => rows[user.id := UpdatedRow(rows[user.id], user)]
            case Delete(_, id) =>
              var row := rows[id];
              rows[id := User(row.id, row.name, row.phone, row.email, row.password, Deleted, row.role, row.createdAt)]
            case _ => rows
  {
  }

  /** Which key each operation asks for, with which record and ttl. */
  lemma StepsExactly(call: nat, user: User, id: Uuid, email: string, now: int, db: map<string, User>)
    ensures StepOf(Create(call, user, id), now, db) == SetWrite(call, id, Made(user, id, now), 3_600_000_000_000, db)
    ensures StepOf(Update(call, user), now, db) == SetWrite(call, user.id, user, 60_000_000_000, db)
    ensures StepOf(Op.Delete(call, id), now, db) == DeleteWrite(call, id, db)
    ensures StepOf(GetByID(call, id), now, db) == GetRead(call, id, 60_000_000_000)
    ensures StepOf(GetByEmail(call, email), now, db) == GetRead(call, email, 60_000_000_000)
  {
  }

  /** Only writes change the database. */
  lemma ReadsKeepTheDatabase(s: State<User>, step: Step<User>)
    requires Enabled(s, step) && !step.SetWrite? && !step.DeleteWrite?
    ensures After(s, step).db == s.db
  {
  }

  /** The operations keep every row under its id. */
  lemma RowsStayKeyed(rows: Rows, op: Op, now: int)
    requires Keyed(rows) && Begins(rows, op)
    ensures Keyed(RowsAfter(rows, op, now))
  {
  }

  lemma MoveKeepsView(s: State<User>, rows: Rows, op: Op, s': State<User>, rows': Rows)
    requires Moves(s, rows, op, s', rows') && Keyed(rows) && IsView(s.db, rows)
    ensures Keyed(rows') && IsView(s'.db, rows')
  {
    hide IsView, After, Enabled, Keyed;
    RowsStayKeyed(rows, op, s.clock);
    if !Writes(op) { ReadsKeepTheDatabase(s, StepOf(op, s.clock, s'.db)); }
  }

  lemma {:induction false} ViewHolds(trace: seq<State<User>>, rows: seq<Rows>, ops: seq<Op>, k: nat)
    requires ServiceRun(trace, rows, ops) && k <= |ops|
    ensures Keyed(rows[k]) && IsView(trace[k].db, rows[k])
  {
    hide IsView, Keyed, Moves;
    if k > 0 {
      ViewHolds(trace, rows, ops, k - 1);
      MoveKeepsView(trace[k - 1], rows[k - 1], ops[k - 1], trace[k], rows[k]);
    }
  }

  /** What the operations ask of `dbcache`. */
  lemma StepShape(rows: Rows, op: Op, now: int, db: map<string, User>)
    requires Begins(rows, op)
    ensures var step := StepOf(op, now, db);
      && (step.SetWrite? ==> IsId(step.key) && step.ttl in {MINUTE, HOUR} && (op.Create? || op.Update?))
      && (step.GetRead? ==> step.ttl == MINUTE)
      && (forall id: Uuid :: step.SetWrite? && step.key == id ==> Concerns(op, id))
  {
    hide IsId;
  }

  /**
    The service's operations make an asynchronous run: only id keys are written, with
    ttls of a minute or an hour, and the database is at every step the rows' view.
  */
  lemma ServiceIsAsync(trace: seq<State<User>>, rows: seq<Rows>, ops: seq<Op>)
    requires ServiceRun(trace, rows, ops)
    ensures Run(trace, Steps(trace, ops))
    ensures forall k | 0 <= k < |trace| :: Keyed(rows[k]) && IsView(trace[k].db, rows[k])
    ensures forall key :: !IsId(key) ==> OnlyRead(Steps(trace, ops), key)
    ensures forall key :: PositiveTtls(Steps(trace, ops), key, HOUR)
  {
    hide IsView, After, Enabled, IsId, Keyed, StepOf, Begins, RowsAfter;
    forall k | 0 <= k < |trace| ensures Keyed(rows[k]) && IsView(trace[k].db, rows[k]) {
      ViewHolds(trace, rows, ops, k);
    }
    var steps := Steps(trace, ops);
    forall k | 0 <= k < |ops|
      ensures Enabled(trace[k], steps[k]) && trace[k + 1] == After(trace[k], steps[k])
      ensures steps[k].SetWrite? ==> IsId(steps[k].key) && steps[k].ttl in {MINUTE, HOUR}
      ensures steps[k].GetRead? ==> steps[k].ttl == MINUTE
    {
      assert Moves(trace[k], rows[k], ops[k], trace[k + 1], rows[k + 1]);
      StepShape(rows[k], ops[k], trace[k].clock, trace[k + 1].db);
    }
    hide Moves;
  }

  /**
    Whatever the order of the jobs, a record that `GetByEmail` returns was at that or an
    earlier step a row with that email, as long as the email is not the text of a uuid.
  */
  lemma EmailAnswersWereRows(trace: seq<State<User>>, rows: seq<Rows>, ops: seq<Op>, k: nat, n: nat, email: string)
    requires ServiceRun(trace, rows, ops) && k <= |ops| && !IsId(email)
    requires n < |trace[k].replies| && trace[k].replies[n].key == email
    requires var a := trace[k].replies[n].answer; a.Hit? || a.Fresh?
    ensures exists q :: 0 <= q <= k && HasEmail(rows[q], email, trace[k].replies[n].answer.value)
  {
    ServiceIsAsync(trace, rows, ops);
    hide IsId, ServiceRun, Run, OnlyRead, PositiveTtls, Keyed;
    ValuesComeFromTheDatabase(trace, Steps(trace, ops), k, email);
    var v := trace[k].replies[n].answer.value;
    var q :| 0 <= q <= k && Lookup(trace[q].db, email) == Some(v);
    assert HasEmail(rows[q], email, v);
  }

  lemma {:induction false} RowStays(trace: seq<State<User>>, rows: seq<Rows>, ops: seq<Op>, p: nat, q: nat, id: Uuid)
    requires ServiceRun(trace, rows, ops) && p <= q <= |ops|
    requires forall m | p <= m < |ops| :: !Concerns(ops[m], id)
    ensures RowOf(rows[q], id) == RowOf(rows[p], id)
    decreases q
  {
    hide IsView, After, Enabled, Keyed, StepOf;
    if p < q {
      RowStays(trace, rows, ops, p, q - 1, id);
      assert Moves(trace[q - 1], rows[q - 1], ops[q - 1], trace[q], rows[q]);
    }
  }

  /** Operations that do not concern an id write nothing under its key. */
  lemma NoWrites(trace: seq<State<User>>, rows: seq<Rows>, ops: seq<Op>, p: nat, id: Uuid)
    requires ServiceRun(trace, rows, ops)
    requires forall m | p <= m < |ops| :: !Concerns(ops[m], id)
    ensures WritesThrough(Steps(trace, ops), p, id)
  {
    hide IsView, After, Enabled, Keyed, StepOf, Concerns, IsId;
    forall m | p <= m < |ops| ensures !(Steps(trace, ops)[m].SetWrite? && Steps(trace, ops)[m].key == id) {
      assert Moves(trace[m], rows[m], ops[m], trace[m + 1], rows[m + 1]);
      StepShape(rows[m], ops[m], trace[m].clock, trace[m + 1].db);
    }
  }

  lemma RowIsLookup(db: map<string, User>, rows: Rows, id: Uuid)
    requires IsView(db, rows)
    ensures Lookup(db, id) == RowOf(rows, id)
  {
  }

  /**
    Though writes cache other records than the rows, they do so for a time: once a user
    is not written any more and no call or job under way carries another record for it
    than its row, every `GetByID` more than an hour later answers that row.
  */
  lemma ServiceConverges(trace: seq<State<User>>, rows: seq<Rows>, ops: seq<Op>, p: nat, k: nat, n: nat, id: Uuid)
    requires ServiceRun(trace, rows, ops) && p <= k <= |ops|
    requires forall m | p <= m < |ops| :: !Concerns(ops[m], id)
    requires Settled(trace[p], id)
    requires |trace[p].replies| <= n < |trace[k].replies| && trace[k].replies[n].key == id
    requires trace[k].replies[n].time > trace[p].clock + HOUR
    ensures Agrees(trace[k].replies[n].answer, RowOf(rows[k], id)) || FailedAt(trace, Steps(trace, ops), p, k, n)
  {
    ServiceIsAsync(trace, rows, ops);
    NoWrites(trace, rows, ops, p, id);
    hide IsView, Run, PositiveTtls, WritesThrough, After, Enabled, Settled, Agrees, IsId, Keyed, Moves, Concerns, RowOf;
    forall q | p <= q <= k ensures Lookup(trace[q].db, id) == RowOf(rows[k], id) {
      RowStays(trace, rows, ops, p, q, id);
      RowStays(trace, rows, ops, p, k, id);
      RowIsLookup(trace[q].db, rows[q], id);
    }
    AsyncConverges(trace, Steps(trace, ops), p, k, n, id, HOUR);
  }

  /** An address with an `@` is never the text of a uuid. */
  lemma AddressesAreNotIds(email: string)
    requires '@' in email
    ensures !IsId(email)
  {
    var i :| 0 <= i < |email| && email[i] == '@';
  }
}
