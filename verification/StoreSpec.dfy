/**
 What each storage operation means, on a finite map from job ID to job. Both storage
 classes are proved against these definitions, and the worker-pool and store runs are
 built from them, so the run theorems speak about the code.
 */
module StoreSpec {
  import opened Types

  type Rows = map<Id, Job>

  ghost predicate KeyedById(rows: Rows) {
    forall id | id in rows :: rows[id].id == id
  }

  predicate Finished(j: Job) { j.status == Done || j.status == Failed }

  predicate Active(j: Job) { j.status == Pending || j.status == Running }

  /** A finished row whose key is no longer reserved at `now`. */
  predicate Unlocked(j: Job, now: Time) {
    Finished(j) && (j.expiresAt.None? || j.expiresAt.value <= now)
  }

  /** What `enqueueRaw` hands to storage. */
  predicate NewJob(j: Job) {
    j.status == Pending && j.attempts == 0 && j.lastError == "" && j.expiresAt.None?
  }

  // ---------------------------------------------------------------- EnqueueDedup

  function Purge(rows: Rows, key: Key, now: Time): Rows {
    map id | id in rows && !(rows[id].key == key && Unlocked(rows[id], now)) :: rows[id]
  }

  function Rank(s: Status): nat {
    match s
    case Running => 0
    case Pending => 1
    case _ => 2
  }

  /** `c` is a row that blocks `key`: none if there is no row, else one of least rank. */
  ghost predicate ConflictFor(rows: Rows, key: Key, c: Option<Id>) {
    match c
    case None => forall id | id in rows :: rows[id].key != key
    case Some(e) =>
      && e in rows && rows[e].key == key
      && forall o | o in rows && rows[o].key == key :: Rank(rows[e].status) <= Rank(rows[o].status)
  }

  function DedupAction(rows: Rows, mode: DedupMode, c: Option<Id>): EnqueueAction
    requires c.Some? ==> c.value in rows
  {
    match c
    case None => Inserted
    case Some(e) =>
      if mode == Ignore then SkippedDuplicate
      else if rows[e].status == Running then SkippedRunning
      else Replaced
  }

  function DedupResult(rows: Rows, mode: DedupMode, c: Option<Id>): EnqueueResult
    requires c.Some? ==> c.value in rows
  {
    EnqueueResult(DedupAction(rows, mode, c),
                  if c.None? then None else Some(Conflict(c.value, rows[c.value].status)))
  }

  /** The rows after a deduplicating enqueue; `rows` has been purged and `c` blocks the key. */
  function Enqueued(rows: Rows, job: Job, mode: DedupMode, c: Option<Id>): Rows
    requires c.Some? ==> c.value in rows
  {
    match DedupAction(rows, mode, c)
    case Inserted => rows[job.id := job]
    case Replaced => (rows - {c.value})[job.id := job]
    case _ => rows
  }

  // ---------------------------------------------------------------- Claim

  function DueIds(rows: Rows, now: Time): set<Id> {
    set id | id in rows && rows[id].status == Pending && rows[id].runAt <= now
  }

  ghost predicate Distinct<T>(s: seq<T>) {
    forall i, j | 0 <= i < j < |s| :: s[i] != s[j]
  }

  /** `ids` is a legal batch: as many due rows as the limit allows, none overtaken by a later one. */
  ghost predicate ClaimChoice(rows: Rows, now: Time, limit: int, ids: seq<Id>) {
    && Distinct(ids)
    && (forall id | id in ids :: id in DueIds(rows, now))
    && |ids| == Min(limit, |DueIds(rows, now)|)
    && forall c, u | c in ids && u in DueIds(rows, now) && u !in ids :: rows[c].runAt <= rows[u].runAt
  }

  lemma DistinctCard(s: seq<Id>, ids: set<Id>)
    requires Distinct(s) && forall x :: x in s <==> x in ids
    ensures |s| == |ids|
  {
    if s == [] {
      assert ids == {};
    } else {
      var x := s[0];
      forall y ensures y in s[1..] <==> y in ids - {x} {
        if y in s[1..] {
          var k :| 1 <= k < |s| && s[k] == y;
        }
      }
      DistinctCard(s[1..], ids - {x});
    }
  }

  function StartedJob(j: Job, now: Time): Job { j.(status := Running, updatedAt := now) }

  function Claimed(rows: Rows, now: Time, ids: seq<Id>): Rows {
    map id | id in rows :: if id in ids then StartedJob(rows[id], now) else rows[id]
  }

  // ---------------------------------------------------------------- Mark, recover, retry

  function Expiry(j: Job, now: Time): Option<Time> {
    if j.ttl > 0 then Some(now + j.ttl) else j.expiresAt
  }

  function DoneJob(j: Job, now: Time): Job {
    j.(status := Done, updatedAt := now, expiresAt := Expiry(j, now))
  }

  function DeadJob(j: Job, err: string, now: Time): Job {
    j.(status := Failed, attempts := j.attempts + 1, lastError := err, updatedAt := now, expiresAt := Expiry(j, now))
  }

  function RescheduledJob(j: Job, err: string, retryAt: Time, now: Time): Job {
    j.(status := Pending, attempts := j.attempts + 1, lastError := err, updatedAt := now, runAt := retryAt)
  }

  function MarkedDone(rows: Rows, id: Id, now: Time): Rows {
    if id in rows then rows[id := DoneJob(rows[id], now)] else rows
  }

  function MarkedFailed(rows: Rows, id: Id, err: string, retryAt: Option<Time>, now: Time): Rows {
    if id !in rows then rows
    else if retryAt.Some? then rows[id := RescheduledJob(rows[id], err, retryAt.value, now)]
    else rows[id := DeadJob(rows[id], err, now)]
  }

  function Recovered(rows: Rows, now: Time): Rows {
    map id | id in rows ::
      if rows[id].status == Running then rows[id].(status := Pending, updatedAt := now) else rows[id]
  }

  function Retried(rows: Rows, id: Id, now: Time): Rows {
    if id in rows && rows[id].status == Failed
    then rows[id := rows[id].(status := Pending, runAt := now, attempts := 0, lastError := "", updatedAt := now)]
    else rows
  }

  // ---------------------------------------------------------------- Stats

  function WithStatus(rows: Rows, s: Status): set<Id> {
    set id | id in rows && rows[id].status == s
  }

  // ---------------------------------------------------------------- Crons

  type Crons = map<string, CronEntry>

  function DueCronNames(crons: Crons, now: Time): set<string> {
    set n | n in crons && crons[n].nextRun <= now
  }

  function CronAdvanced(crons: Crons, name: string, last: Time, next: Time): Crons {
    if name in crons then crons[name := crons[name].(lastRun := Some(last), nextRun := next)] else crons
  }
}
