/**
 The SQLite storage: a table of rows with NULLs, changed by statements. `Scan` is the job a
 row decodes to and `View` the decoded table; every operation is specified on it with the
 same definitions as the in-memory storage.
 A statement that would break the primary key or the partial unique index fails and changes
 nothing.
 */
module SqliteStore {
  import opened Types
  import opened StoreSpec
  import opened StoreRuns
  import opened Effects

  // ------------------------------------------------------------------ 64-bit arithmetic

  const MAX_INT64 := 0x7FFF_FFFF_FFFF_FFFF
  const TWO_64 := 0x1_0000_0000_0000_0000

  /** A sum or product as Go's int64 keeps it. */
  function Wrap64(x: int): int {
    (x + MAX_INT64 + 1) % TWO_64 - MAX_INT64 - 1
  }

  /** Go's `/`, which truncates toward zero. */
  function TruncDiv(a: int, b: int): int
    requires b > 0
  {
    if a >= 0 then a / b else -(-a / b)
  }

  // ------------------------------------------------------------------ rows

  datatype Row = Row(
    id: Id,
    typ: string,
    payload: seq<bv8>,
    status: Status,
    attempts: int,
    maxRetries: int,
    runAt: Time,
    createdAt: Time,
    updatedAt: Time,
    lastError: Option<string>,
    dedupKey: Option<Key>,
    ttlSeconds: Option<int>,
    expiresAt: Option<Time>)

  type Table = map<Id, Row>

  function NullStr(s: string): Option<string> {
    if s == "" then None else Some(s)
  }

  function NullSeconds(d: Duration): Option<int> {
    if d <= 0 then None else Some(TruncDiv(Wrap64(d + SECOND - 1), SECOND))
  }

  /** The row the INSERT statement stores; `last_error` is not in its column list. */
  function RowOf(j: Job): Row {
    Row(j.id, j.typ, j.payload, j.status, j.attempts, j.maxAttempts, j.runAt, j.createdAt, j.updatedAt,
        None, NullStr(j.key), NullSeconds(j.ttl), j.expiresAt)
  }

  function Positive(secs: Option<int>): bool { secs.Some? && secs.value > 0 }

  function Lasting(secs: int): Duration { Wrap64(secs * SECOND) }

  function Scan(r: Row): Job {
    Job(r.id, r.typ, r.payload, r.status, r.attempts, r.maxRetries, r.runAt, r.createdAt, r.updatedAt,
        if r.lastError.Some? then r.lastError.value else "",
        if r.dedupKey.Some? then r.dedupKey.value else "",
        if Positive(r.ttlSeconds) then Lasting(r.ttlSeconds.value) else 0,
        r.expiresAt)
  }

  /** The job as SQLite gives it back: the TTL in whole seconds. */
  function Stored(j: Job): Job { Scan(RowOf(j)) }

  function View(t: Table): Rows { map id | id in t :: Scan(t[id]) }

  predicate RowOk(id: Id, r: Row) {
    && r.id == id && r.dedupKey != Some("")
    && (r.ttlSeconds.Some? ==> -MAX_INT64 <= r.ttlSeconds.value && r.ttlSeconds.value * SECOND <= MAX_INT64)
    && (r.expiresAt.Some? ==> Positive(r.ttlSeconds))
  }

  predicate RowActive(r: Row) { r.status == Pending || r.status == Running }

  /** The partial unique index: at most one active row per non-NULL key. */
  predicate IndexOk(t: Table) {
    forall a, b | a in t && b in t && t[a].dedupKey.Some? && t[a].dedupKey == t[b].dedupKey
                  && RowActive(t[a]) && RowActive(t[b]) :: a == b
  }

  predicate TableOk(t: Table) {
    IndexOk(t) && forall id | id in t :: RowOk(id, t[id])
  }

  // ------------------------------------------------------------------ statements

  function Commit(t: Table): Result<Table> {
    if IndexOk(t) then Ok(t) else Err(ConstraintViolation)
  }

  function Insert(t: Table, r: Row): Result<Table> {
    if r.id in t then Err(ConstraintViolation) else Commit(t[r.id := r])
  }

  function DeleteExpired(t: Table, key: Key, now: Time): Table {
    map id | id in t
             && !(t[id].dedupKey == Some(key)
                  && (t[id].status == Done || t[id].status == Failed)
                  && (t[id].expiresAt.None? || t[id].expiresAt.value <= now))
        :: t[id]
  }

  /** `WHERE dedup_key = ? ORDER BY CASE status ... LIMIT 1` */
  ghost predicate Selected(t: Table, key: Key, c: Option<Id>) {
    match c
    case None => forall id | id in t :: t[id].dedupKey != Some(key)
    case Some(e) =>
      && e in t && t[e].dedupKey == Some(key)
      && forall o | o in t && t[o].dedupKey == Some(key) :: Rank(t[e].status) <= Rank(t[o].status)
  }

  function UpdateClaimed(t: Table, ids: seq<Id>, now: Time): Table {
    map id | id in t :: if id in ids then t[id].(status := Running, updatedAt := now) else t[id]
  }

  function UpdateRescheduled(t: Table, id: Id, err: string, retryAt: Time, now: Time): Table {
    if id in t
    then t[id := t[id].(status := Pending, attempts := t[id].attempts + 1, lastError := Some(err), runAt := retryAt,
                        updatedAt := now)]
    else t
  }

  /** `SELECT dedup_ttl_seconds`: no row, or the column. */
  function SelectTtl(t: Table, id: Id): Option<Option<int>> {
    if id in t then Some(t[id].ttlSeconds) else None
  }

  function ExpiryFor(secs: Option<int>, now: Time): Option<Time> {
    if Positive(secs) then Some(now + Lasting(secs.value)) else None
  }

  function UpdateDone(t: Table, id: Id, now: Time, expiresAt: Option<Time>): Table {
    if id in t then t[id := t[id].(status := Done, updatedAt := now, expiresAt := expiresAt)] else t
  }

  function UpdateFailed(t: Table, id: Id, err: string, now: Time, expiresAt: Option<Time>): Table {
    if id in t
    then t[id := t[id].(status := Failed, attempts := t[id].attempts + 1, lastError := Some(err), updatedAt := now,
                        expiresAt := expiresAt)]
    else t
  }

  /** The UPDATE of `markCompleted`. */
  function Completed(t: Table, id: Id, status: Status, err: string, now: Time, expiresAt: Option<Time>): Table {
    if status == Failed then UpdateFailed(t, id, err, now, expiresAt) else UpdateDone(t, id, now, expiresAt)
  }

  function CompletionOp(id: Id, status: Status, err: string): Op {
    if status == Failed then Op.MarkFailed(id, err, None) else Op.MarkDone(id)
  }

  function UpdateRecovered(t: Table, now: Time): Table {
    map id | id in t :: if t[id].status == Running then t[id].(status := Pending, updatedAt := now) else t[id]
  }

  function UpdateRetried(t: Table, id: Id, now: Time): Table {
    if id in t && t[id].status == Failed
    then t[id := t[id].(status := Pending, runAt := now, attempts := 0, lastError := Some(""), updatedAt := now)]
    else t
  }

  /** `ON CONFLICT(name) DO UPDATE`: last run and creation time of a known name are kept. */
  function UpsertedCron(crons: Crons, c: CronEntry): Crons {
    if c.name in crons
    then crons[c.name := crons[c.name].(schedule := c.schedule, nextRun := c.nextRun)]
    else crons[c.name := c]
  }

  // ------------------------------------------------------------------ calls, as their statements

  /** The table after the INSERT, DELETE and INSERT, or nothing, that follows the query of EnqueueDedup. */
  function Resolved(kept: Table, job: Job, mode: DedupMode, c: Option<Id>): Result<Table> {
    match c
    case None => Insert(kept, RowOf(job))
    case Some(e) =>
      if mode == Ignore || (e in kept && kept[e].status == Running) then Ok(kept)
      else Insert(kept - {e}, RowOf(job))
  }

  /** The table after a storage call, given the free choice recorded in the step. */
  function SqlApply(t: Table, st: Step): Result<Table> {
    match st.op
    case Nop => Ok(t)
    case Enqueue(job) => Insert(t, RowOf(job))
    case EnqueueDedup(job, mode, c) => Resolved(DeleteExpired(t, job.key, st.now), job, mode, c)
    case Claim(_, ids) => Commit(UpdateClaimed(t, ids, st.now))
    case MarkDone(id) =>
      (match SelectTtl(t, id)
       case None => Ok(t)
       case Some(secs) => Commit(UpdateDone(t, id, st.now, ExpiryFor(secs, st.now))))
    case MarkFailed(id, err, retryAt) =>
      if retryAt.Some? then Commit(UpdateRescheduled(t, id, err, retryAt.value, st.now))
      else (match SelectTtl(t, id)
            case None => Ok(t)
            case Some(secs) => Commit(UpdateFailed(t, id, err, st.now, ExpiryFor(secs, st.now))))
    case RecoverStuck => Commit(UpdateRecovered(t, st.now))
    case RetryJob(id) => Commit(UpdateRetried(t, id, st.now))
  }

  // ------------------------------------------------------------------ statements, seen through View

  lemma NewRowOk(j: Job)
    requires NewJob(j) && j.ttl <= MAX_INT64
    ensures RowOk(j.id, RowOf(j))
  {
    if j.ttl > 0 {
      var sum := j.ttl + SECOND - 1;
      assert Wrap64(sum) == if sum <= MAX_INT64 then sum else sum - TWO_64;
    }
  }

  lemma ScanFacts(id: Id, r: Row)
    requires RowOk(id, r)
    ensures Scan(r).id == id
    ensures Scan(r).ttl > 0 <==> Positive(r.ttlSeconds)
    ensures Positive(r.ttlSeconds) ==> Scan(r).ttl == r.ttlSeconds.value * SECOND
    ensures ExpiryFor(r.ttlSeconds, 0) == Expiry(Scan(r).(expiresAt := None), 0)
  {
    if Positive(r.ttlSeconds) {
      var p := r.ttlSeconds.value * SECOND;
      assert 0 < p <= MAX_INT64;
      assert Wrap64(p) == p;
    }
  }

  lemma ScanExpiry(id: Id, r: Row, now: Time)
    requires RowOk(id, r)
    ensures ExpiryFor(r.ttlSeconds, now) == Expiry(Scan(r), now)
  {
    ScanFacts(id, r);
  }

  lemma ViewPurge(t: Table, key: Key, now: Time)
    requires TableOk(t) && key != ""
    ensures View(DeleteExpired(t, key, now)) == Purge(View(t), key, now)
    ensures TableOk(DeleteExpired(t, key, now))
  {
    assert forall id | id in t :: RowOk(id, t[id]) && View(t)[id] == Scan(t[id]);
  }

  lemma ViewSelected(t: Table, key: Key, c: Option<Id>)
    requires TableOk(t) && key != ""
    ensures Selected(t, key, c) <==> ConflictFor(View(t), key, c)
  {
    assert forall id | id in t :: RowOk(id, t[id]) && View(t)[id] == Scan(t[id]);
    assert forall id | id in t :: t[id].dedupKey == Some(key) <==> View(t)[id].key == key;
  }

  lemma LeastRankExists(t: Table, key: Key) returns (c: Option<Id>)
    ensures Selected(t, key, c)
  {
    var ids := set id | id in t && t[id].dedupKey == Some(key);
    if ids == {} {
      assert forall id | id in t :: id !in ids;
      return None;
    }
    var best :| best in ids;
    var left := ids;
    while left != {}
      invariant left <= ids && best in ids
      invariant forall o | o in ids && o !in left :: Rank(t[best].status) <= Rank(t[o].status)
    {
      var o :| o in left;
      left := left - {o};
      if Rank(t[o].status) < Rank(t[best].status) {
        best := o;
      }
    }
    c := Some(best);
  }

  /** An active job meets an active row of its key. */
  predicate Blocked(t: Table, j: Job) {
    Active(j) && j.key != "" && exists id :: id in t && RowActive(t[id]) && t[id].dedupKey == Some(j.key)
  }

  /** Inserting under a new ID fails only on the unique index. */
  lemma InsertFits(t: Table, j: Job)
    requires TableOk(t) && j.id !in t && !Blocked(t, j)
    ensures Insert(t, RowOf(j)) == Ok(t[j.id := RowOf(j)])
    ensures RowOk(j.id, RowOf(j)) ==> TableOk(t[j.id := RowOf(j)])
    ensures View(t[j.id := RowOf(j)]) == View(t)[j.id := Stored(j)]
  {
  }

  lemma InsertBlocked(t: Table, j: Job)
    requires j.id !in t && Blocked(t, j)
    ensures Insert(t, RowOf(j)) == Err(ConstraintViolation)
  {
    var id :| id in t && RowActive(t[id]) && t[id].dedupKey == Some(j.key);
    var t' := t[j.id := RowOf(j)];
    assert RowActive(t'[id]) && RowActive(t'[j.id]) && t'[id].dedupKey == t'[j.id].dedupKey && id != j.id;
  }

  lemma ViewClaimed(t: Table, ids: seq<Id>, now: Time)
    requires TableOk(t) && forall id | id in ids :: id in t && t[id].status == Pending
    ensures View(UpdateClaimed(t, ids, now)) == Claimed(View(t), now, ids)
    ensures ClaimEffect(View(t), View(UpdateClaimed(t, ids, now)), ids, now)
    ensures TableOk(UpdateClaimed(t, ids, now))
  {
    var t', rows' := UpdateClaimed(t, ids, now), Claimed(View(t), now, ids);
    ClaimHasEffect(View(t), ids, now);
    SameActiveKeys(t, t');
    forall id | id in t ensures Scan(t'[id]) == rows'[id] && RowOk(id, t'[id]) {
      assert RowOk(id, t[id]) && View(t)[id] == Scan(t[id]);
    }
    ViewByRow(t', rows');
  }

  lemma ViewByRow(t: Table, rows: Rows)
    requires t.Keys == rows.Keys && forall id | id in t :: Scan(t[id]) == rows[id]
    ensures View(t) == rows
  {
  }

  lemma ViewRecovered(t: Table, now: Time)
    requires TableOk(t)
    ensures View(UpdateRecovered(t, now)) == Recovered(View(t), now)
    ensures TableOk(UpdateRecovered(t, now))
  {
    var t', rows' := UpdateRecovered(t, now), Recovered(View(t), now);
    SameActiveKeys(t, t');
    forall id | id in t ensures Scan(t'[id]) == rows'[id] && RowOk(id, t'[id]) {
      assert RowOk(id, t[id]) && View(t)[id] == Scan(t[id]);
    }
    ViewByRow(t', rows');
  }

  /** The index only sees the keys of active rows. */
  lemma SameActiveKeys(t: Table, t': Table)
    requires IndexOk(t) && t'.Keys == t.Keys
    requires forall id | id in t :: t'[id].dedupKey == t[id].dedupKey && (RowActive(t'[id]) ==> RowActive(t[id]))
    ensures IndexOk(t')
  {
  }

  lemma ViewRescheduled(t: Table, id: Id, err: string, retryAt: Time, now: Time)
    requires TableOk(t)
    ensures var t' := UpdateRescheduled(t, id, err, retryAt, now);
            && View(t') == MarkedFailed(View(t), id, err, Some(retryAt), now)
            && (IndexOk(t') ==> TableOk(t'))
  {
  }

  lemma ViewRetried(t: Table, id: Id, now: Time)
    requires TableOk(t)
    ensures var t' := UpdateRetried(t, id, now);
            && View(t') == Retried(View(t), id, now)
            && (IndexOk(t') ==> TableOk(t'))
  {
  }

  lemma ViewDone(t: Table, id: Id, now: Time)
    requires TableOk(t) && id in t
    ensures var t' := UpdateDone(t, id, now, ExpiryFor(t[id].ttlSeconds, now));
            View(t') == MarkedDone(View(t), id, now) && TableOk(t')
  {
    ScanExpiry(id, t[id], now);
  }

  lemma ViewFailed(t: Table, id: Id, err: string, now: Time)
    requires TableOk(t) && id in t
    ensures var t' := UpdateFailed(t, id, err, now, ExpiryFor(t[id].ttlSeconds, now));
            View(t') == MarkedFailed(View(t), id, err, None, now) && TableOk(t')
  {
    ScanExpiry(id, t[id], now);
  }

  /** A completion makes no row active. */
  lemma CompletedFits(t: Table, id: Id, status: Status, err: string, now: Time, expiresAt: Option<Time>)
    requires TableOk(t)
    ensures IndexOk(Completed(t, id, status, err, now, expiresAt))
  {
    SameActiveKeys(t, Completed(t, id, status, err, now, expiresAt));
  }

  /** The column read from one table serves for another in which the job reads the same. */
  lemma SameTtlSameExpiry(a: Table, b: Table, id: Id, clock: Time)
    requires TableOk(a) && TableOk(b) && id in a && id in b && View(a)[id].ttl == View(b)[id].ttl
    ensures ExpiryFor(a[id].ttlSeconds, clock) == ExpiryFor(b[id].ttlSeconds, clock)
  {
    ScanFacts(id, a[id]);
    ScanFacts(id, b[id]);
  }

  /** The index is weaker than one row per key: no statement can trip over it while that holds. */
  lemma OneRowPerKeyFitsIndex(t: Table)
    requires OneRowPerKey(View(t)) && forall id | id in t :: t[id].dedupKey != Some("")
    ensures IndexOk(t)
  {
    forall a, b | a in t && b in t && t[a].dedupKey.Some? && t[a].dedupKey == t[b].dedupKey
      ensures a == b
    {
      assert View(t)[a].key == View(t)[b].key != "";
    }
  }

  // ------------------------------------------------------------------ the storage

  class SqliteStorage {
    var table: Table
    var crons: Crons

    constructor ()
      ensures TableOk(table) && View(table) == map[] && crons == map[]
    {
      table, crons := map[], map[];
    }

    /** One statement outside a transaction. */
    method Exec(next: Result<Table>) returns (r: Result<()>)
      modifies this`table
      ensures r == (if next.Ok? then Ok(()) else Err(next.error))
      ensures table == if next.Ok? then next.value else old(table)
    {
      match next {
        case Ok(t) => table := t; r := Ok(());
        case Err(e) => r := Err(e);
      }
    }

    /** Stores the job as it is, whatever its status and key. */
    method Enqueue(job: Job) returns (r: Result<()>)
      requires TableOk(table)
      modifies this`table
      ensures r.Ok? <==> job.id !in old(table) && !Blocked(old(table), job)
      ensures table == if r.Ok? then old(table)[job.id := RowOf(job)] else old(table)
      ensures View(table) == if r.Ok? then View(old(table))[job.id := Stored(job)] else View(old(table))
      ensures RowOk(job.id, RowOf(job)) ==> TableOk(table)
      ensures SqlApply(old(table), Step(Op.Enqueue(job), 0)) == if r.Ok? then Ok(table) else Err(r.error)
    {
      if job.id !in table {
        if Blocked(table, job) {
          InsertBlocked(table, job);
        } else {
          InsertFits(table, job);
        }
      }
      r := Exec(Insert(table, RowOf(job)));
    }

    /** Fails, and rolls back, exactly if it comes to insert and the ID is taken by another row. */
    method EnqueueDedup(job: Job, mode: DedupMode, now: Time) returns (r: Result<EnqueueResult>, ghost c: Option<Id>)
      requires TableOk(table)
      modifies this`table
      ensures RowOk(job.id, RowOf(job)) ==> TableOk(table)
      ensures r.Err? ==> table == old(table)
      ensures job.key == "" ==> (r.Err? <==> job.id in old(table))
      ensures r.Ok? && job.key == "" ==>
                r.value == EnqueueResult(Inserted, None) && View(table) == View(old(table))[job.id := Stored(job)]
      ensures job.key != "" ==>
                var kept := Purge(View(old(table)), job.key, now);
                && ConflictFor(kept, job.key, c)
                && (r.Err? <==> Accepted(DedupAction(kept, mode, c)) && job.id in kept && c != Some(job.id))
                && (r.Ok? ==> r.value == DedupResult(kept, mode, c)
                              && View(table) == Enqueued(kept, Stored(job), mode, c))
                && SqlApply(old(table), Step(Op.EnqueueDedup(job, mode, c), now))
                   == if r.Ok? then Ok(table) else Err(r.error)
      ensures r.Ok? && job.key != "" ==>
                DedupEffect(View(old(table)), View(table), Stored(job), mode, now, r.value)
    {
      c := None;
      if job.key == "" {
        var e := Enqueue(job);
        r := if e.Ok? then Ok(EnqueueResult(Inserted, None)) else Err(e.error);
        return;
      }
      ghost var before := View(table);
      r, c := Transact(job, mode, now);
      DedupHasEffect(before, Stored(job), mode, now, c);
    }

    /** The transaction of EnqueueDedup. */
    method Transact(job: Job, mode: DedupMode, now: Time) returns (r: Result<EnqueueResult>, ghost c: Option<Id>)
      requires TableOk(table) && job.key != ""
      modifies this`table
      ensures RowOk(job.id, RowOf(job)) ==> TableOk(table)
      ensures r.Err? ==> table == old(table)
      ensures var kept := Purge(View(old(table)), job.key, now);
              && ConflictFor(kept, job.key, c)
              && (r.Err? <==> Accepted(DedupAction(kept, mode, c)) && job.id in kept && c != Some(job.id))
              && (r.Ok? ==> r.value == DedupResult(kept, mode, c)
                            && View(table) == Enqueued(kept, Stored(job), mode, c))
      ensures SqlApply(old(table), Step(Op.EnqueueDedup(job, mode, c), now))
           == if r.Ok? then Ok(table) else Err(r.error)
    {
      var begin := table;                                     // a failed transaction rolls back to here
      ViewPurge(table, job.key, now);
      table := DeleteExpired(table, job.key, now);
      var existing := SelectBlocking(job.key);
      c := existing;
      ViewSelected(table, job.key, existing);
      r := Resolve(job, mode, existing);
      if r.Err? {
        table := begin;
      }
    }

    /** The last step of EnqueueDedup: insert, replace or skip, given what the query has found. */
    method Resolve(job: Job, mode: DedupMode, existing: Option<Id>) returns (r: Result<EnqueueResult>)
      requires TableOk(table) && job.key != "" && Selected(table, job.key, existing)
      modifies this`table
      ensures RowOk(job.id, RowOf(job)) ==> TableOk(table)
      ensures r.Err? <==> Accepted(DedupAction(View(old(table)), mode, existing))
                          && job.id in old(table) && existing != Some(job.id)
      ensures r.Ok? ==> r.value == DedupResult(View(old(table)), mode, existing)
      ensures r.Ok? && existing.None? ==> r.value == EnqueueResult(Inserted, None)
      ensures r.Ok? && existing.Some? ==>
                var status := View(old(table))[existing.value].status;
                && r.value.existing == Some(Conflict(existing.value, status))
                && r.value.action == (if mode == Ignore then SkippedDuplicate
                                      else if status == Running then SkippedRunning
                                      else Replaced)
      ensures r.Ok? ==> View(table) == Enqueued(View(old(table)), Stored(job), mode, existing)
      ensures Resolved(old(table), job, mode, existing) == if r.Ok? then Ok(table) else Err(r.error)
    {
      if existing.None? {
        var e := InsertUnblocked(job);
        return if e.Ok? then Ok(EnqueueResult(Inserted, None)) else Err(e.error);
      }
      var status := table[existing.value].status;
      var conflict := Some(Conflict(existing.value, status));
      match mode {
        case Replace =>
          if status == Running {
            return Ok(EnqueueResult(SkippedRunning, conflict));
          }
          DeleteBlocking(table, job.key, existing.value);
          table := table - {existing.value};
          var e := InsertUnblocked(job);
          return if e.Ok? then Ok(EnqueueResult(Replaced, conflict)) else Err(e.error);
        case Ignore =>
          return Ok(EnqueueResult(SkippedDuplicate, conflict));
      }
    }

    /** The INSERT inside EnqueueDedup, where no active row of the key is left. */
    method InsertUnblocked(job: Job) returns (r: Result<()>)
      requires TableOk(table) && !Blocked(table, job)
      modifies this`table
      ensures r.Ok? <==> job.id !in old(table)
      ensures Insert(old(table), RowOf(job)) == if r.Ok? then Ok(table) else Err(r.error)
      ensures RowOk(job.id, RowOf(job)) ==> TableOk(table)
      ensures r.Ok? ==> View(table) == View(old(table))[job.id := Stored(job)]
    {
      if job.id !in table {
        InsertFits(table, job);
      }
      r := Exec(Insert(table, RowOf(job)));
    }

    method SelectBlocking(key: Key) returns (c: Option<Id>)
      ensures Selected(table, key, c)
    {
      ghost var w := LeastRankExists(table, key);
      if forall id | id in table :: table[id].dedupKey != Some(key) {
        return None;
      }
      var e :| e in table && table[e].dedupKey == Some(key)
               && forall o | o in table && table[o].dedupKey == Some(key) ::
                    Rank(table[e].status) <= Rank(table[o].status);
      c := Some(e);
    }

    /** The subquery of Claim: `ORDER BY run_at ASC LIMIT ?` over the due rows. */
    method SelectDue(limit: int, now: Time) returns (ids: seq<Id>)
      requires TableOk(table) && 0 <= limit
      ensures ClaimChoice(View(table), now, limit, ids)
    {
      var rows := View(table);
      var left := DueIds(rows, now);
      ids := [];
      while |ids| < limit && left != {}
        invariant left <= DueIds(rows, now) && |ids| <= limit && Distinct(ids)
        invariant forall id :: id in ids <==> id in DueIds(rows, now) && id !in left
        invariant |ids| + |left| == |DueIds(rows, now)|
        invariant forall c, u | c in ids && u in left :: rows[c].runAt <= rows[u].runAt
        decreases |left|
      {
        ghost var w := EarliestExists(rows, left);
        var id :| id in left && forall o | o in left :: rows[id].runAt <= rows[o].runAt;
        ids := ids + [id];
        left := left - {id};
      }
    }

    method Claim(limit: int, now: Time) returns (r: Result<seq<Job>>, ghost ids: seq<Id>)
      requires TableOk(table) && 0 <= limit
      modifies this`table
      ensures TableOk(table) && r.Ok?
      ensures ClaimChoice(View(old(table)), now, limit, ids)
      ensures View(table) == Claimed(View(old(table)), now, ids)
      ensures ClaimEffect(View(old(table)), View(table), ids, now)
      ensures SqlApply(old(table), Step(Op.Claim(limit, ids), now)) == Ok(table)
      ensures |r.value| == |ids| && forall i | 0 <= i < |ids| :: ids[i] in table && r.value[i] == View(table)[ids[i]]
    {
      var batch := SelectDue(limit, now);
      ids := batch;
      ViewClaimed(table, batch, now);
      ClaimHasEffect(View(table), batch, now);
      var e := Exec(Commit(UpdateClaimed(table, batch, now)));
      var out := ScanJobs(batch);
      r := Ok(out);
    }

    method ScanJobs(ids: seq<Id>) returns (out: seq<Job>)
      requires forall id | id in ids :: id in table
      ensures |out| == |ids| && forall k | 0 <= k < |ids| :: out[k] == View(table)[ids[k]]
    {
      out := [];
      for i := 0 to |ids|
        invariant |out| == i && forall k | 0 <= k < i :: out[k] == View(table)[ids[k]]
      {
        out := out + [Scan(table[ids[i]])];
      }
    }

    method MarkDone(id: Id, now: Time) returns (r: Result<()>)
      requires TableOk(table)
      modifies this`table
      ensures TableOk(table) && r == Ok(()) && View(table) == MarkedDone(View(old(table)), id, now)
      ensures DoneEffect(View(old(table)), View(table), id, now)
      ensures SqlApply(old(table), Step(Op.MarkDone(id), now)) == Ok(table)
    {
      DoneHasEffect(View(table), id, now);
      r := MarkCompleted(id, Done, "", now, table);
    }

    method MarkFailed(id: Id, errMsg: string, retryAt: Option<Time>, now: Time) returns (r: Result<()>)
      requires TableOk(table)
      modifies this`table
      ensures TableOk(table)
      ensures r.Err? ==> table == old(table)
      ensures r.Ok? ==> View(table) == MarkedFailed(View(old(table)), id, errMsg, retryAt, now)
      ensures r.Ok? ==> FailedEffect(View(old(table)), View(table), id, errMsg, retryAt, now)
      ensures OneRowPerKey(View(old(table))) || retryAt.None? ==> r == Ok(())
      ensures SqlApply(old(table), Step(Op.MarkFailed(id, errMsg, retryAt), now))
           == if r.Ok? then Ok(table) else Err(r.error)
    {
      FailedHasEffect(View(table), id, errMsg, retryAt, now);
      if retryAt.Some? {
        ViewRescheduled(table, id, errMsg, retryAt.value, now);
        RescheduleFits(table, id, errMsg, retryAt.value, now);
        r := Exec(Commit(UpdateRescheduled(table, id, errMsg, retryAt.value, now)));
        return;
      }
      r := MarkCompleted(id, Failed, errMsg, now, table);
    }

    /**
     SELECT, then UPDATE. `between` is the table as the other users of the database have left
     it in the meantime; if they kept the TTL of the row, the effect is one atomic completion.
     */
    method MarkCompleted(id: Id, status: Status, errMsg: string, now: Time, between: Table) returns (r: Result<()>)
      requires TableOk(table) && TableOk(between) && (status == Done || status == Failed)
      modifies this`table
      ensures r == Ok(())
      ensures table == if id in old(table)
                       then Completed(between, id, status, errMsg, now, ExpiryFor(old(table)[id].ttlSeconds, now))
                       else between
      ensures id in old(table) && (id in between ==> View(between)[id].ttl == View(old(table))[id].ttl) ==>
                && TableOk(table)
                && View(table) == (if status == Failed then MarkedFailed(View(between), id, errMsg, None, now)
                                   else MarkedDone(View(between), id, now))
                && SqlApply(between, Step(CompletionOp(id, status, errMsg), now)) == Ok(table)
    {
      var secs := SelectTtl(table, id);
      ghost var before := table;
      table := between;
      if secs.None? {
        return Ok(());
      }
      var expiresAt := ExpiryFor(secs.value, now);
      CompletedFits(table, id, status, errMsg, now, expiresAt);
      if id in between && View(between)[id].ttl == View(before)[id].ttl {
        SameTtlSameExpiry(before, between, id, now);
        ViewDone(between, id, now);
        ViewFailed(between, id, errMsg, now);
      }
      r := Exec(Commit(Completed(table, id, status, errMsg, now, expiresAt)));
    }

    method RecoverStuck(now: Time) returns (r: Result<()>)
      requires TableOk(table)
      modifies this`table
      ensures TableOk(table) && r == Ok(()) && View(table) == Recovered(View(old(table)), now)
      ensures RecoverEffect(View(old(table)), View(table), now)
      ensures SqlApply(old(table), Step(Op.RecoverStuck, now)) == Ok(table)
    {
      ViewRecovered(table, now);
      RecoveryHasEffect(View(table), now);
      r := Exec(Commit(UpdateRecovered(table, now)));
    }

    method RetryJob(id: Id, now: Time) returns (r: Result<()>)
      requires TableOk(table)
      modifies this`table
      ensures TableOk(table)
      ensures r.Err? ==> table == old(table)
      ensures r.Ok? ==> View(table) == Retried(View(old(table)), id, now)
      ensures r.Ok? ==> RetryEffect(View(old(table)), View(table), id, now)
      ensures OneRowPerKey(View(old(table))) ==> r == Ok(())
      ensures SqlApply(old(table), Step(Op.RetryJob(id), now)) == if r.Ok? then Ok(table) else Err(r.error)
    {
      ViewRetried(table, id, now);
      RetryHasEffect(View(table), id, now);
      RetryFits(table, id, now);
      r := Exec(Commit(UpdateRetried(table, id, now)));
    }

    method UpsertCron(c: CronEntry)
      modifies this`crons
      ensures crons == UpsertedCron(old(crons), c)
      ensures c.name in old(crons) ==>
                crons == old(crons)[c.name := old(crons)[c.name].(schedule := c.schedule, nextRun := c.nextRun)]
      ensures c.name !in old(crons) ==> crons == old(crons)[c.name := c]
    {
      if c.name in crons {
        crons := crons[c.name := crons[c.name].(schedule := c.schedule, nextRun := c.nextRun)];
      } else {
        crons := crons[c.name := c];
      }
    }

    method DueCrons(now: Time) returns (due: seq<CronEntry>)
      requires forall n | n in crons :: crons[n].name == n
      ensures forall i, k | 0 <= i < k < |due| :: due[i].name != due[k].name
      ensures forall i | 0 <= i < |due| :: due[i].name in crons && due[i] == crons[due[i].name]
      ensures forall n :: n in DueCronNames(crons, now) <==> exists i :: 0 <= i < |due| && due[i].name == n
    {
      var left := DueCronNames(crons, now);
      due := [];
      // scanCrons
      while left != {}
        invariant left <= DueCronNames(crons, now)
        invariant forall i, k | 0 <= i < k < |due| :: due[i].name != due[k].name
        invariant forall i | 0 <= i < |due| :: due[i].name in crons && due[i] == crons[due[i].name]
        invariant forall n :: n in DueCronNames(crons, now) && n !in left
                              <==> exists i :: 0 <= i < |due| && due[i].name == n
      {
        var n :| n in left;
        left := left - {n};
        ghost var before := due;
        due := due + [crons[n]];
        assert due[|before|].name == n && forall i | 0 <= i < |before| :: due[i] == before[i];
      }
    }

    /** A missing name is no error here. */
    method UpdateCronRun(name: string, last: Time, next: Time)
      modifies this`crons
      ensures crons == CronAdvanced(old(crons), name, last, next)
    {
      if name in crons {
        crons := crons[name := crons[name].(lastRun := Some(last), nextRun := next)];
      }
    }
  }

  // ------------------------------------------------------------------ proof helpers

  /** A stored job reads back as it was, but for the TTL in whole seconds and an error text, which INSERT omits. */
  lemma StoredKeepsJob(j: Job)
    ensures Stored(j) == j.(ttl := LockTime(j.ttl), lastError := "")
    ensures j.ttl <= 0 ==> LockTime(j.ttl) == 0
  {
  }

  lemma DeleteBlocking(t: Table, key: Key, e: Id)
    requires TableOk(t) && Selected(t, key, Some(e)) && t[e].status != Running
    ensures TableOk(t - {e}) && View(t - {e}) == View(t) - {e}
    ensures forall id | id in t - {e} && RowActive(t[id]) :: t[id].dedupKey != Some(key)
  {
  }

  lemma EarliestExists(rows: Rows, ids: set<Id>) returns (e: Id)
    requires ids != {} && ids <= rows.Keys
    ensures e in ids && forall o | o in ids :: rows[e].runAt <= rows[o].runAt
  {
    e :| e in ids;
    var left := ids;
    while left != {}
      invariant left <= ids && e in ids
      invariant forall o | o in ids && o !in left :: rows[e].runAt <= rows[o].runAt
    {
      var o :| o in left;
      left := left - {o};
      if rows[o].runAt < rows[e].runAt {
        e := o;
      }
    }
  }

  /** While rows are one per key, an UPDATE that sets no key cannot break the index. */
  lemma SameKeysFitIndex(t: Table, t': Table)
    requires TableOk(t) && OneRowPerKey(View(t)) && t'.Keys == t.Keys
    requires forall id | id in t :: t'[id].dedupKey == t[id].dedupKey
    ensures IndexOk(t')
  {
    forall a, b | a in t && b in t && t[a].dedupKey.Some? && t[a].dedupKey == t[b].dedupKey ensures a == b {
      assert RowOk(a, t[a]) && View(t)[a].key == View(t)[b].key;
    }
  }

  lemma RescheduleFits(t: Table, id: Id, err: string, retryAt: Time, now: Time)
    requires TableOk(t)
    ensures OneRowPerKey(View(t)) ==> IndexOk(UpdateRescheduled(t, id, err, retryAt, now))
  {
    if OneRowPerKey(View(t)) {
      SameKeysFitIndex(t, UpdateRescheduled(t, id, err, retryAt, now));
    }
  }

  lemma RetryFits(t: Table, id: Id, now: Time)
    requires TableOk(t)
    ensures OneRowPerKey(View(t)) ==> IndexOk(UpdateRetried(t, id, now))
  {
    if OneRowPerKey(View(t)) {
      SameKeysFitIndex(t, UpdateRetried(t, id, now));
    }
  }

  // ------------------------------------------------------------------ TTL rounding

  /** How long SQLite keeps the key of a finished job reserved. */
  function LockTime(d: Duration): Duration { Stored(Job("", "", [], Pending, 0, 0, 0, 0, 0, "", "", d, None)).ttl }

  /**
   A positive TTL is kept, rounded up by less than a second, exactly when the rounding sum
   fits in an int64; from there on the lock is lost altogether.
   */
  lemma TtlRoundsUp(d: Duration)
    requires 0 < d <= MAX_INT64
    ensures d <= LockTime(d) < d + SECOND <==> d + SECOND - 1 <= MAX_INT64
    ensures d + SECOND - 1 > MAX_INT64 ==> LockTime(d) == 0
    ensures d % SECOND == 0 && d + SECOND - 1 <= MAX_INT64 ==> LockTime(d) == d
  {
    var sum := d + SECOND - 1;
    if sum <= MAX_INT64 {
      assert Wrap64(sum) == sum;
      var secs := sum / SECOND;
      assert 0 < secs * SECOND <= sum;
      assert Wrap64(secs * SECOND) == secs * SECOND;
    } else {
      assert Wrap64(sum) == sum - TWO_64 < 0;
    }
  }

  /** The largest Duration is such a TTL: SQLite frees its key at once. */
  lemma LargestTtlIsLost()
    ensures LockTime(MAX_INT64) == 0
  {
    TtlRoundsUp(MAX_INT64);
  }
}
