/**
 The calls the queue makes on a storage. Made on the real classes, each is the step of
 StoreRuns that the call asks for, and returns what that step gives: exactly on the in-memory
 storage, and in agreement with such a step on SQLite.
 */
module StorageCalls {
  import opened Types
  import opened StoreSpec
  import opened StoreRuns
  import opened Effects
  import opened MemoryStore
  import opened SqliteStore
  import opened Simulation
  import opened Pool
  import Queue

  datatype Call =
    | Push(id: Id, name: string, payload: Option<seq<bv8>>, config: Queue.PushConfig)
    | Take(limit: nat)
    | Finish(id: Id)
    | Fail(id: Id, err: string, retryAt: Option<Time>)
    | Recover
    | Retry(id: Id)

  datatype Reply = Pushed(answer: Result<EnqueueResult>) | Taken(batch: seq<Job>) | Told(outcome: Result<()>)

  function UsedBy(call: Call): set<Id> { if call.Push? then Queue.Minted(call.id, call.payload) else {} }

  /** `st` is what the call asks for, made at `now`; only the conflict found or the batch chosen is open. */
  predicate IsStepOf(call: Call, now: Time, st: Step) {
    && st.now == now
    && match call
       case Push(id, name, payload, config) => Queue.IsPush(st.op, id, name, payload, config, now)
       case Take(limit) => st.op.Claim? && st.op == Op.Claim(limit, st.op.ids)
       case Finish(id) => st.op == Op.MarkDone(id)
       case Fail(id, err, retryAt) => st.op == Op.MarkFailed(id, err, retryAt)
       case Recover => st.op == Op.RecoverStuck
       case Retry(id) => st.op == Op.RetryJob(id)
  }

  /** What the in-memory storage replies when the call is the step `st`. */
  ghost function ReplyOf(call: Call, s: Store, st: Step): Reply
    requires Enabled(s, st) && IsStepOf(call, st.now, st)
  {
    match call
    case Push(_, _, _, _) => Pushed(Queue.PushAnswer(s, st))
    case Take(_) => Taken(CopiesOf(Apply(s, st).rows, st.op.ids))
    case Finish(id) => Told(if id in s.rows then Ok(()) else Err(NotFound))
    case Fail(id, _, _) => Told(if id in s.rows then Ok(()) else Err(NotFound))
    case Recover => Told(Ok(()))
    case Retry(id) =>
      Told(if id !in s.rows then Err(NotFound) else if s.rows[id].status != Failed then Err(NotFailed) else Ok(()))
  }

  /** What SQLite replies: missing rows are no error, and TTLs read as none unless positive. */
  ghost function SqlReplyOf(call: Call, s: Store, st: Step): Reply
    requires Enabled(s, st) && IsStepOf(call, st.now, Requested(call, st))
  {
    match call
    case Push(_, _, _, _) => Pushed(Queue.PushAnswer(s, st))
    case Take(_) => Taken(CopiesOf(Normal(Apply(s, st).rows), st.op.ids))
    case _ => Told(Ok(()))
  }

  /** The step with the TTL as requested rather than as rounded. */
  function Requested(call: Call, m: Step): Step {
    if call.Push? && Inserts(m.op) then m.(op := WithTtl(m.op, call.config.ttl)) else m
  }

  /**
   The reply written out on the rows before and after; `ttl` is what a TTL asked for reads as,
   and `silent` storages report no missing or unfailed row.
   */
  ghost predicate ReplyFits(call: Call, before: Rows, after: Rows, now: Time, reply: Reply, ttl: Duration,
                            silent: bool) {
    match call
    case Push(id, name, payload, p) =>
      && reply.Pushed? && Queue.StoredAsAsked(after, id, name, payload, p, ttl, now, reply.answer)
      && (payload.None? ==> reply.answer == Err(BadPayload))
      && (payload.Some? && p.key == "" ==> reply.answer == Ok(EnqueueResult(Inserted, None)))
      && (payload.Some? && p.key != "" ==> Reported(before, p.key, p.mode, now, reply.answer.value))
    case Take(limit) =>
      && reply.Taken? && |reply.batch| == Min(limit, |DueIds(before, now)|)
      && (forall i, k | 0 <= i < k < |reply.batch| :: reply.batch[i].id != reply.batch[k].id)
      && forall i | 0 <= i < |reply.batch| :: TakenFrom(reply.batch[i], before, after, now)
    case Finish(id) => reply == Told(if id in before || silent then Ok(()) else Err(NotFound))
    case Fail(id, _, _) => reply == Told(if id in before || silent then Ok(()) else Err(NotFound))
    case Recover => reply == Told(Ok(()))
    case Retry(id) =>
      reply == Told(if silent then Ok(())
                    else if id !in before then Err(NotFound)
                    else if before[id].status != Failed then Err(NotFailed)
                    else Ok(()))
  }

  /** A job that was due, now running, and as stored. */
  predicate TakenFrom(j: Job, before: Rows, after: Rows, now: Time) {
    && j.id in before && before[j.id].status == Pending && before[j.id].runAt <= now
    && j == before[j.id].(status := Running, updatedAt := now)
    && j.id in after && after[j.id] == j
  }

  lemma BatchTaken(rows: Rows, now: Time, limit: nat, ids: seq<Id>, batch: seq<Job>)
    requires KeyedById(rows) && ClaimChoice(rows, now, limit, ids) && |batch| == |ids|
    requires var after := Claimed(rows, now, ids);
             forall i | 0 <= i < |ids| :: ids[i] in after && batch[i] == after[ids[i]]
    ensures |batch| == Min(limit, |DueIds(rows, now)|)
    ensures forall i, k | 0 <= i < k < |batch| :: batch[i].id != batch[k].id
    ensures forall i | 0 <= i < |batch| :: TakenFrom(batch[i], rows, Claimed(rows, now, ids), now)
  {
    forall i | 0 <= i < |ids| ensures batch[i].id == ids[i] && TakenFrom(batch[i], rows, Claimed(rows, now, ids), now) {
      assert ids[i] in ids;
      assert ids[i] in DueIds(rows, now);
    }
  }

  method OnMemory(storage: MemoryStorage, call: Call, now: Time, ghost used: set<Id>)
    returns (reply: Reply, ghost st: Step)
    requires storage.Valid() && UsedBy(call) !! used
    requires call.Push? ==> call.id !in used
    modifies storage`jobs, storage.jobs.Values
    ensures storage.Valid() && fresh(storage.jobs.Values - old(storage.jobs).Values)
    ensures IsStepOf(call, now, st) && Enabled(Store(old(storage.View()), used), st)
    ensures Store(storage.View(), used + UsedBy(call)) == Apply(Store(old(storage.View()), used), st)
    ensures reply == ReplyOf(call, Store(old(storage.View()), used), st)
    ensures ReplyFits(call, old(storage.View()), storage.View(), now, reply,
                      if call.Push? then call.config.ttl else 0, false)
  {
    match call {
      case Push(id, name, payload, config) =>
        var answer;
        answer, st := Queue.EnqueueRaw(storage, id, name, payload, config, now, used);
        reply := Pushed(answer);
      case Take(limit) =>
        var batch;
        batch, st := TakeFrom(storage, limit, now);
        reply := Taken(batch);
      case Finish(id) =>
        var r := storage.MarkDone(id, now);
        return Told(r), Step(Op.MarkDone(id), now);
      case Fail(id, err, retryAt) =>
        var r := storage.MarkFailed(id, err, retryAt, now);
        return Told(r), Step(Op.MarkFailed(id, err, retryAt), now);
      case Recover =>
        storage.RecoverStuck(now);
        return Told(Ok(())), Step(Op.RecoverStuck, now);
      case Retry(id) =>
        var r := storage.RetryJob(id, now);
        return Told(r), Step(Op.RetryJob(id), now);
    }
  }

  method ValuesOf(ps: seq<JobPtr>) returns (js: seq<Job>)
    ensures |js| == |ps| && forall i | 0 <= i < |ps| :: js[i] == ps[i].job
  {
    js := [];
    for i := 0 to |ps|
      invariant |js| == i && forall k | 0 <= k < i :: js[k] == ps[k].job
    {
      js := js + [ps[i].job];
    }
  }

  /** Claims, and reads the copies. */
  method TakeFrom(storage: MemoryStorage, limit: nat, now: Time) returns (batch: seq<Job>, ghost st: Step)
    requires storage.Valid()
    modifies storage.jobs.Values
    ensures storage.Valid() && st.op.Claim? && st == Step(Op.Claim(limit, st.op.ids), now)
    ensures ClaimChoice(old(storage.View()), now, limit, st.op.ids)
    ensures storage.View() == Claimed(old(storage.View()), now, st.op.ids)
    ensures batch == CopiesOf(storage.View(), st.op.ids)
    ensures ReplyFits(Take(limit), old(storage.View()), storage.View(), now, Taken(batch), 0, false)
  {
    ghost var rows := storage.View();
    var out;
    ghost var ids;
    out, ids := storage.Claim(limit, now);
    st := Step(Op.Claim(limit, ids), now);
    batch := ValuesOf(out);
    assert forall id | id in ids :: id in DueIds(old(storage.View()), now);
    assert batch == CopiesOf(storage.View(), ids);
    BatchTaken(rows, now, limit, ids, batch);
  }

  /**
   `s` is any sound in-memory state the table agrees with. `q` is SQLite's step, `m` the
   in-memory one with the TTL rounded.
   */
  method OnSqlite(storage: SqliteStorage, call: Call, now: Time, ghost s: Store)
    returns (reply: Reply, ghost m: Step, ghost q: Step)
    requires Agree(s.rows, storage.table) && StoreInv(s) && UsedBy(call) !! s.used
    requires call.Push? ==> call.config.ttl <= MAX_INT64
    modifies storage
    ensures IsStepOf(call, now, q) && m == Rounded(q) && Alike(m, q) && Enabled(s, m)
    ensures SqlApply(old(storage.table), q) == Ok(storage.table)
    ensures Agree(Apply(s, m).rows, storage.table)
    ensures Requested(call, m) == q && reply == SqlReplyOf(call, s, m)
    ensures ReplyFits(call, View(old(storage.table)), View(storage.table), now, reply,
                      if call.Push? then LockTime(call.config.ttl) else 0, true)
  {
    ghost var t := storage.table;
    SameKeys(s.rows, t);
    SoundView(s, t);
    match call {
      case Push(id, name, payload, config) =>
        var answer;
        answer, q := PushSqlite(storage, id, name, payload, config, now);
        reply := Pushed(answer);
      case Take(limit) =>
        var r;
        ghost var ids;
        r, ids := storage.Claim(limit, now);
        q := Step(Op.Claim(limit, ids), now);
        reply := Taken(r.value);
        BatchTaken(View(t), now, limit, ids, r.value);
      case Finish(id) =>
        var r := storage.MarkDone(id, now);
        reply, q := Told(r), Step(Op.MarkDone(id), now);
      case Fail(id, err, retryAt) =>
        var r := storage.MarkFailed(id, err, retryAt, now);
        reply, q := Told(r), Step(Op.MarkFailed(id, err, retryAt), now);
      case Recover =>
        var r := storage.RecoverStuck(now);
        reply, q := Told(r), Step(Op.RecoverStuck, now);
      case Retry(id) =>
        var r := storage.RetryJob(id, now);
        reply, q := Told(r), Step(Op.RetryJob(id), now);
    }
    m := Rounded(q);
    AgreeAfter(s, t, m, q);
    if call.Take? {
      SameBatch(Apply(s, m).rows, storage.table, q.op.ids, reply.batch);
    }
  }

  /** `enqueueRaw` on SQLite. */
  method PushSqlite(storage: SqliteStorage, id: Id, name: string, payload: Option<seq<bv8>>, p: Queue.PushConfig,
                    now: Time)
    returns (r: Result<EnqueueResult>, ghost q: Step)
    requires TableOk(storage.table) && p.ttl <= MAX_INT64 && Queue.Minted(id, payload) !! storage.table.Keys
    modifies storage
    ensures q.now == now && Queue.IsPush(q.op, id, name, payload, p, now)
    ensures SqlApply(old(storage.table), q) == Ok(storage.table)
    ensures q.op.EnqueueDedup? ==>
              && Selected(DeleteExpired(old(storage.table), p.key, now), p.key, q.op.conflict)
              && (q.op.conflict.Some? ==> q.op.conflict.value in View(DeleteExpired(old(storage.table), p.key, now)))
    ensures r == if payload.None? then Err(BadPayload)
                 else if p.key == "" then Ok(EnqueueResult(Inserted, None))
                 else Ok(SqlAnswer(old(storage.table), q))
    ensures Queue.StoredAsAsked(View(storage.table), id, name, payload, p, LockTime(p.ttl), now, r)
    ensures r.Ok? && p.key != "" ==> Reported(View(old(storage.table)), p.key, p.mode, now, r.value)
  {
    if payload.None? {
      return Err(BadPayload), Step(Nop, now);
    }
    var job := Queue.NewJobOf(id, name, payload.value, p, now);
    ghost var t := storage.table;
    StoredKeepsJob(job);
    if p.key == "" {
      var e := storage.Enqueue(job);
      return Ok(EnqueueResult(Inserted, None)), Step(Op.Enqueue(job), now);
    }
    ghost var c;
    r, c := storage.EnqueueDedup(job, p.mode, now);
    ViewPurge(t, p.key, now);
    ViewSelected(DeleteExpired(t, p.key, now), p.key, c);
    q := Step(Op.EnqueueDedup(job, p.mode, c), now);
  }

  lemma SoundView(s: Store, t: Table)
    requires Agree(s.rows, t) && StoreInv(s)
    ensures OneRowPerKey(View(t))
  {
    assert forall id | id in s.rows :: Normal(s.rows)[id].key == s.rows[id].key;
  }

  lemma SameBatch(rows: Rows, t: Table, ids: seq<Id>, batch: seq<Job>)
    requires Agree(rows, t) && |batch| == |ids| && forall id | id in ids :: id in rows
    requires forall i | 0 <= i < |ids| :: ids[i] in t && batch[i] == View(t)[ids[i]]
    ensures batch == CopiesOf(Normal(rows), ids)
  {
  }

  lemma AgreeAfter(s: Store, t: Table, m: Step, q: Step)
    requires Agree(s.rows, t) && StoreInv(s) && m == Rounded(q)
    requires Inserts(q.op) ==> NewJob(q.op.job) && q.op.job.ttl <= MAX_INT64
    requires SqlEnabled(t, s.used, q)
    ensures Alike(m, q) && BothSucceed(s, t, m, q) && Agree(Apply(s, m).rows, SqlApply(t, q).value)
  {
    RoundedIsAlike(q);
    NextShadow(s, t, m, q);
  }
}
