/**
 What a caller of a storage sees happen, written out on the rows before and after a call. Both
 storage classes promise it, beside the definitions the runs are built from; the lemmas here say
 that those definitions mean it.
 */
module Effects {
  import opened Types
  import opened StoreSpec

  /** At most the row of `id` changes, and no row comes or goes. */
  ghost predicate OnlyRow(before: Rows, after: Rows, id: Id) {
    after.Keys == before.Keys && forall o | o in before && o != id :: after[o] == before[o]
  }

  /** The expiry of a job completed at `now`. */
  predicate ExpiresAfterTtl(before: Job, after: Job, now: Time) {
    after.expiresAt == if before.ttl > 0 then Some(now + before.ttl) else before.expiresAt
  }

  /** The claimed jobs are running; payload, attempts and every other field are as they were. */
  ghost predicate ClaimEffect(before: Rows, after: Rows, ids: seq<Id>, now: Time) {
    && after.Keys == before.Keys
    && forall id | id in before ::
         after[id] == if id in ids then before[id].(status := Running, updatedAt := now) else before[id]
  }

  ghost predicate DoneEffect(before: Rows, after: Rows, id: Id, now: Time) {
    && OnlyRow(before, after, id)
    && (id in before ==>
          && ExpiresAfterTtl(before[id], after[id], now)
          && after[id] == before[id].(status := Done, updatedAt := now, expiresAt := after[id].expiresAt))
  }

  /** With a retry time the job is pending and due at that time; without one it is dead. */
  ghost predicate FailedEffect(before: Rows, after: Rows, id: Id, err: string, retryAt: Option<Time>, now: Time) {
    && OnlyRow(before, after, id)
    && (id in before && retryAt.Some? ==>
          && after[id].runAt == retryAt.value && after[id].status == Pending
          && after[id].lastError == err && after[id].attempts == before[id].attempts + 1
          && before[id] == after[id].(runAt := before[id].runAt, status := before[id].status,
                                      lastError := before[id].lastError, attempts := before[id].attempts,
                                      updatedAt := before[id].updatedAt)
          && after[id].updatedAt == now)
    && (id in before && retryAt.None? ==>
          && after[id].status == Failed && ExpiresAfterTtl(before[id], after[id], now)
          && after[id].lastError == err && after[id].attempts == before[id].attempts + 1
          && before[id] == after[id].(status := before[id].status, expiresAt := before[id].expiresAt,
                                      lastError := before[id].lastError, attempts := before[id].attempts,
                                      updatedAt := before[id].updatedAt)
          && after[id].updatedAt == now)
  }

  ghost predicate RecoverEffect(before: Rows, after: Rows, now: Time) {
    && after.Keys == before.Keys
    && forall id | id in before ::
         after[id] == if before[id].status == Running
                      then before[id].(status := Pending, updatedAt := now) else before[id]
  }

  /** A failed job starts afresh, at once; nothing else is retried. */
  ghost predicate RetryEffect(before: Rows, after: Rows, id: Id, now: Time) {
    if id in before && before[id].status == Failed then
      && OnlyRow(before, after, id)
      && after[id].status == Pending && after[id].attempts == 0 && after[id].lastError == ""
      && after[id].runAt == now && after[id].updatedAt == now
      && before[id] == after[id].(status := before[id].status, attempts := before[id].attempts,
                                  lastError := before[id].lastError, runAt := before[id].runAt,
                                  updatedAt := before[id].updatedAt)
    else after == before
  }

  /** A row that reserves the key: active, or finished with a lock that still lasts. */
  predicate Reserves(j: Job, key: Key, now: Time) {
    j.key == key && (j.status == Pending || j.status == Running || (j.expiresAt.Some? && j.expiresAt.value > now))
  }

  /** The conflict reported with an action is a row that reserves the key, with the status it has. */
  ghost predicate Reported(before: Rows, key: Key, mode: DedupMode, now: Time, res: EnqueueResult) {
    match res.existing
    case None => res.action == Inserted && forall id | id in before :: !Reserves(before[id], key, now)
    case Some(e) =>
      && e.id in before && Reserves(before[e.id], key, now) && e.status == before[e.id].status
      && match mode
         case Ignore => res.action == SkippedDuplicate
         case Replace => res.action == if e.status == Running then SkippedRunning else Replaced
  }

  /** A row that is there before and after: of another key, or reserving this one and not replaced. */
  ghost predicate Stays(before: Rows, id: Id, key: Key, now: Time, res: EnqueueResult) {
    && id in before
    && (before[id].key == key ==>
          && Reserves(before[id], key, now)
          && (res.action == Replaced && res.existing.Some? ==> res.existing.value.id != id))
  }

  ghost predicate DedupEffect(before: Rows, after: Rows, job: Job, mode: DedupMode, now: Time, res: EnqueueResult) {
    && Reported(before, job.key, mode, now, res)
    && (forall id | id != job.id || (res.action != Inserted && res.action != Replaced) ::
          (id in after <==> Stays(before, id, job.key, now, res)) && (id in after ==> after[id] == before[id]))
    && (res.action == Inserted || res.action == Replaced ==> job.id in after && after[job.id] == job)
  }

  lemma ClaimHasEffect(rows: Rows, ids: seq<Id>, now: Time)
    ensures ClaimEffect(rows, Claimed(rows, now, ids), ids, now)
  {
  }

  lemma DoneHasEffect(rows: Rows, id: Id, now: Time)
    ensures DoneEffect(rows, MarkedDone(rows, id, now), id, now)
  {
  }

  lemma FailedHasEffect(rows: Rows, id: Id, err: string, retryAt: Option<Time>, now: Time)
    ensures FailedEffect(rows, MarkedFailed(rows, id, err, retryAt, now), id, err, retryAt, now)
  {
  }

  lemma RecoveryHasEffect(rows: Rows, now: Time)
    ensures RecoverEffect(rows, Recovered(rows, now), now)
  {
  }

  lemma RetryHasEffect(rows: Rows, id: Id, now: Time)
    ensures RetryEffect(rows, Retried(rows, id, now), id, now)
  {
  }

  lemma AnswerIsReported(rows: Rows, key: Key, mode: DedupMode, now: Time, c: Option<Id>)
    requires ConflictFor(Purge(rows, key, now), key, c)
    ensures Reported(rows, key, mode, now, DedupResult(Purge(rows, key, now), mode, c))
  {
    var kept := Purge(rows, key, now);
    forall id | id in rows && Reserves(rows[id], key, now) ensures id in kept && kept[id].key == key {
    }
  }

  lemma DedupHasEffect(rows: Rows, job: Job, mode: DedupMode, now: Time, c: Option<Id>)
    requires ConflictFor(Purge(rows, job.key, now), job.key, c)
    ensures var kept := Purge(rows, job.key, now);
            DedupEffect(rows, Enqueued(kept, job, mode, c), job, mode, now, DedupResult(kept, mode, c))
  {
    AnswerIsReported(rows, job.key, mode, now, c);
  }
}
