/**
 The two storages side by side. `Normal` is what both can be read as: the rows with a
 non-positive TTL read as none. A SQLite storage behaves as an in-memory one whose TTLs are
 the rounded ones, hence as the same in-memory one when TTLs are whole seconds.
 */
module Simulation {
  import opened Types
  import opened StoreSpec
  import opened StoreRuns
  import opened SqliteStore

  function Norm(j: Job): Job { j.(ttl := if j.ttl > 0 then j.ttl else 0) }

  function Normal(rows: Rows): Rows { map id | id in rows :: Norm(rows[id]) }

  predicate WholeSeconds(op: Op) {
    Inserts(op) ==> op.job.ttl <= 0 || (op.job.ttl % SECOND == 0 && op.job.ttl + SECOND - 1 <= MAX_INT64)
  }

  ghost predicate Agree(rows: Rows, t: Table) {
    TableOk(t) && View(t) == Normal(rows)
  }

  /** The same call with the same choice, up to the TTL: the in-memory one gets SQLite's rounding. */
  predicate Alike(m: Step, q: Step) {
    if Inserts(m.op) || Inserts(q.op) then
      && Inserts(m.op) && Inserts(q.op) && q.op.job.ttl <= MAX_INT64
      && m == q.(op := WithTtl(q.op, m.op.job.ttl))
      && Norm(m.op.job) == Stored(q.op.job)
    else m == q
  }

  function WithTtl(op: Op, ttl: Duration): Op
    requires Inserts(op)
  {
    match op
    case Enqueue(job) => Op.Enqueue(job.(ttl := ttl))
    case EnqueueDedup(job, mode, c) => Op.EnqueueDedup(job.(ttl := ttl), mode, c)
  }

  /** Every SQLite call has an in-memory counterpart, with the TTL as SQLite stores it. */
  function Rounded(q: Step): Step {
    if Inserts(q.op) then q.(op := WithTtl(q.op, Stored(q.op.job).ttl)) else q
  }

  lemma RoundedIsAlike(q: Step)
    requires Inserts(q.op) ==> NewJob(q.op.job) && q.op.job.ttl <= MAX_INT64
    ensures Alike(Rounded(q), q)
  {
  }

  /** With whole seconds it is the very same call. */
  lemma WholeSecondsAreAlike(q: Step)
    requires Inserts(q.op) ==> NewJob(q.op.job)
    requires WholeSeconds(q.op)
    ensures Alike(q, q)
  {
    if Inserts(q.op) && q.op.job.ttl > 0 {
      TtlRoundsUp(q.op.job.ttl);
    }
  }

  lemma NormalChoices(rows: Rows, key: Key, now: Time, limit: int, ids: seq<Id>, c: Option<Id>)
    ensures Purge(Normal(rows), key, now) == Normal(Purge(rows, key, now))
    ensures ConflictFor(Normal(rows), key, c) <==> ConflictFor(rows, key, c)
    ensures DueIds(Normal(rows), now) == DueIds(rows, now)
    ensures ClaimChoice(Normal(rows), now, limit, ids) <==> ClaimChoice(rows, now, limit, ids)
  {
    var n := Normal(rows);
    assert n.Keys == rows.Keys;
    assert forall id | id in rows ::
        n[id].key == rows[id].key && n[id].status == rows[id].status && n[id].runAt == rows[id].runAt;
    assert DueIds(n, now) == DueIds(rows, now);
    assert ConflictFor(n, key, c) <==> ConflictFor(rows, key, c);
  }

  /** The choices open to SQLite: what its statements may return. */
  ghost predicate SqlEnabled(t: Table, used: set<Id>, st: Step) {
    match st.op
    case Enqueue(job) => NewJob(job) && job.key == "" && job.id !in used
    case EnqueueDedup(job, mode, c) =>
      NewJob(job) && job.key != "" && job.id !in used && Selected(DeleteExpired(t, job.key, st.now), job.key, c)
    case Claim(limit, ids) => 0 <= limit && ClaimChoice(View(t), st.now, limit, ids)
    case _ => true
  }

  /** A choice is open to one storage exactly when it is open to the other. */
  lemma SameChoices(s: Store, t: Table, m: Step, q: Step)
    requires Agree(s.rows, t) && Alike(m, q)
    ensures SqlEnabled(t, s.used, q) <==> Enabled(s, m)
  {
    match q.op {
      case EnqueueDedup(job, mode, c) =>
        if job.key != "" {
          ViewPurge(t, job.key, q.now);
          ViewSelected(DeleteExpired(t, job.key, q.now), job.key, c);
          NormalChoices(s.rows, job.key, q.now, 0, [], c);
          NormalChoices(Purge(s.rows, job.key, q.now), job.key, q.now, 0, [], c);
        }
      case Claim(limit, ids) => NormalChoices(s.rows, "", q.now, limit, ids, None);
      case _ =>
    }
  }

  /** The answer of SQLite's EnqueueDedup to the caller. */
  ghost function SqlAnswer(t: Table, st: Step): EnqueueResult
    requires st.op.EnqueueDedup?
    requires st.op.conflict.Some? ==> st.op.conflict.value in View(DeleteExpired(t, st.op.job.key, st.now))
  {
    DedupResult(View(DeleteExpired(t, st.op.job.key, st.now)), st.op.mode, st.op.conflict)
  }

  /** An enqueue gets the same answer from both: the action, and the conflicting job with its status. */
  ghost predicate SameAnswer(s: Store, t: Table, m: Step, q: Step)
    requires Enabled(s, m)
  {
    m.op.EnqueueDedup? ==>
      && q.op.EnqueueDedup?
      && (q.op.conflict.Some? ==> q.op.conflict.value in View(DeleteExpired(t, q.op.job.key, q.now)))
      && SqlAnswer(t, q) == AnswerOf(s, m)
  }

  lemma DedupAgrees(s: Store, t: Table, m: Step, q: Step)
    requires StoreInv(s) && Enabled(s, m) && Agree(s.rows, t) && Alike(m, q) && m.op.EnqueueDedup?
    ensures var r := SqlApply(t, q); r.Ok? && Agree(Apply(s, m).rows, r.value)
    ensures SameAnswer(s, t, m, q)
  {
    var c := m.op.conflict;
    var kept, k := DeleteExpired(t, m.op.job.key, m.now), Purge(s.rows, m.op.job.key, m.now);
    PurgedAgree(s.rows, t, m.op.job.key, m.now, c);
    if c.Some? {
      StatusAgrees(k, kept, c.value);
    }
    if c.None? {
      InsertsAgree(k, kept, m.op.job, q.op.job);
    } else if DedupAction(k, m.op.mode, c) == Replaced {
      ReplacesAgree(k, kept, m.op.job, q.op.job, c.value);
    }
  }

  lemma PurgedAgree(rows: Rows, t: Table, key: Key, now: Time, c: Option<Id>)
    requires Agree(rows, t) && key != "" && ConflictFor(Purge(rows, key, now), key, c)
    ensures var kept := DeleteExpired(t, key, now);
            && Agree(Purge(rows, key, now), kept) && Purge(rows, key, now).Keys <= rows.Keys
            && Selected(kept, key, c) && (c.Some? ==> c.value in View(kept))
  {
    ViewPurge(t, key, now);
    NormalChoices(rows, key, now, 0, [], c);
    NormalChoices(Purge(rows, key, now), key, now, 0, [], c);
    ViewSelected(DeleteExpired(t, key, now), key, c);
  }

  lemma StatusAgrees(rows: Rows, t: Table, id: Id)
    requires Agree(rows, t) && id in rows
    ensures id in t && View(t)[id].status == t[id].status == rows[id].status
  {
    assert id in Normal(rows);
    assert id in View(t);
  }

  lemma ReplacesAgree(rows: Rows, t: Table, m: Job, q: Job, e: Id)
    requires Agree(rows, t) && NewJob(m) && m == q.(ttl := m.ttl) && q.ttl <= MAX_INT64 && Norm(m) == Stored(q)
    requires q.id !in rows && Selected(t, q.key, Some(e)) && t[e].status != Running
    ensures Insert(t - {e}, RowOf(q)) == Ok((t - {e})[q.id := RowOf(q)])
    ensures Agree((rows - {e})[m.id := m], (t - {e})[q.id := RowOf(q)])
  {
    DeleteBlocking(t, q.key, e);
    assert Normal(rows - {e}) == Normal(rows) - {e};
    InsertsAgree(rows - {e}, t - {e}, m, q);
  }

  lemma InsertsAgree(rows: Rows, t: Table, m: Job, q: Job)
    requires Agree(rows, t) && NewJob(m) && m == q.(ttl := m.ttl) && q.ttl <= MAX_INT64 && Norm(m) == Stored(q)
    requires q.id !in rows && forall id | id in t && RowActive(t[id]) :: t[id].dedupKey != Some(q.key)
    ensures Insert(t, RowOf(q)) == Ok(t[q.id := RowOf(q)]) && Agree(rows[m.id := m], t[q.id := RowOf(q)])
  {
    SameKeys(rows, t);
    InsertFits(t, q);
    NormalInsert(rows, m);
  }

  lemma SameKeys(rows: Rows, t: Table)
    requires View(t) == Normal(rows)
    ensures t.Keys == rows.Keys
  {
    assert t.Keys == View(t).Keys && rows.Keys == Normal(rows).Keys;
  }

  lemma NormalInsert(rows: Rows, m: Job)
    ensures Normal(rows[m.id := m]) == Normal(rows)[m.id := Norm(m)]
  {
  }

  /** What agreement means for each row. */
  lemma AgreeingRows(rows: Rows, t: Table, id: Id)
    requires Agree(rows, t)
    ensures id in t <==> id in rows
    ensures id in t ==> Scan(t[id]) == rows[id].(ttl := Max(rows[id].ttl, 0))
  {
    SameKeys(rows, t);
    assert id in rows ==> View(t)[id] == Normal(rows)[id];
  }

  lemma NormMoves(j: Job, st: Step)
    requires !Inserts(st.op)
    ensures Norm(Moved(j, st)) == Moved(Norm(j), st)
  {
  }

  /** A call that inserts nothing, on the decoded table. */
  lemma SqlMoves(t: Table, st: Step)
    requires TableOk(t) && OneRowPerKey(View(t)) && !Inserts(st.op)
    requires Enabled(Store(View(t), {}), st)
    ensures var r := SqlApply(t, st);
            r.Ok? && TableOk(r.value) && View(r.value) == Apply(Store(View(t), {}), st).rows
  {
    match st.op {
      case Claim(limit, ids) => ViewClaimed(t, ids, st.now);
      case MarkDone(id) => if id in t { ViewDone(t, id, st.now); }
      case MarkFailed(id, err, retryAt) =>
        if retryAt.Some? {
          ViewRescheduled(t, id, err, retryAt.value, st.now);
          RescheduleFits(t, id, err, retryAt.value, st.now);
        } else if id in t {
          ViewFailed(t, id, err, st.now);
        }
      case RecoverStuck => ViewRecovered(t, st.now);
      case RetryJob(id) => ViewRetried(t, id, st.now); RetryFits(t, id, st.now);
      case _ =>
    }
  }

  lemma MovesAgree(s: Store, t: Table, st: Step)
    requires StoreInv(s) && Enabled(s, st) && Agree(s.rows, t) && !Inserts(st.op)
    ensures var r := SqlApply(t, st); r.Ok? && Agree(Apply(s, st).rows, r.value)
  {
    var n := Store(Normal(s.rows), {});
    assert OneRowPerKey(n.rows) && KeyedById(n.rows);
    if st.op.Claim? {
      NormalChoices(s.rows, "", st.now, st.op.limit, st.op.ids, None);
    }
    SqlMoves(t, st);
    NormalMoves(s, n, st);
  }

  lemma NormalMoves(s: Store, n: Store, st: Step)
    requires KeyedById(s.rows) && n.rows == Normal(s.rows) && KeyedById(n.rows)
    requires Enabled(s, st) && Enabled(n, st) && !Inserts(st.op)
    ensures Apply(n, st).rows == Normal(Apply(s, st).rows)
  {
    StepIsPointwise(s, st);
    StepIsPointwise(n, st);
    forall id | id in s.rows {
      NormMoves(s.rows[id], st);
    }
  }

  /**
   One step: the choice is open to SQLite too, no statement violates a constraint, the
   storages end in agreement, and an enqueue gets the same answer.
   */
  lemma BackendsStepTogether(s: Store, t: Table, m: Step, q: Step)
    requires StoreInv(s) && Enabled(s, m) && Agree(s.rows, t) && Alike(m, q)
    ensures SqlEnabled(t, s.used, q)
    ensures var r := SqlApply(t, q); r.Ok? && Agree(Apply(s, m).rows, r.value)
    ensures SameAnswer(s, t, m, q)
  {
    SameChoices(s, t, m, q);
    if m.op.EnqueueDedup? {
      DedupAgrees(s, t, m, q);
    } else if m.op.Enqueue? {
      assert t.Keys == View(t).Keys == Normal(s.rows).Keys == s.rows.Keys;
      assert forall id | id in t :: RowOk(id, t[id]);
      InsertsAgree(s.rows, t, m.op.job, q.op.job);
    } else {
      MovesAgree(s, t, m);
    }
  }

  /** The tables of a SQLite storage making the given calls. */
  function TableAfter(qs: seq<Step>): Result<Table> {
    if qs == [] then Ok(map[])
    else match TableAfter(qs[..|qs| - 1])
         case Ok(t) => SqlApply(t, qs[|qs| - 1])
         case Err(e) => Err(e)
  }

  /** Whole runs: no statement violates a constraint, and the storages agree and answer alike throughout. */
  lemma {:induction false} BackendsAgree(ss: seq<Store>, ms: seq<Step>, qs: seq<Step>, i: nat)
    requires Run(ss, ms) && |qs| == |ms| && forall k | 0 <= k < |ms| :: Alike(ms[k], qs[k])
    requires i <= |ms|
    ensures var r := TableAfter(qs[..i]); r.Ok? && Agree(ss[i].rows, r.value)
    ensures i < |ms| ==>
              SqlEnabled(TableAfter(qs[..i]).value, ss[i].used, qs[i])
              && SameAnswer(ss[i], TableAfter(qs[..i]).value, ms[i], qs[i])
  {
    if i > 0 {
      BackendsAgree(ss, ms, qs, i - 1);
      RunKeepsOneRowPerKey(ss, ms, i - 1);
      assert qs[..i][..i - 1] == qs[..i - 1];
      BackendsStepTogether(ss[i - 1], TableAfter(qs[..i - 1]).value, ms[i - 1], qs[i - 1]);
    }
    if i < |ms| {
      RunKeepsOneRowPerKey(ss, ms, i);
      BackendsStepTogether(ss[i], TableAfter(qs[..i]).value, ms[i], qs[i]);
    }
  }

  /** With whole-second TTLs both storages make the same calls. */
  lemma WholeSecondRunsAgree(ss: seq<Store>, steps: seq<Step>, i: nat)
    requires Run(ss, steps) && i <= |steps|
    requires forall k | 0 <= k < |steps| :: WholeSeconds(steps[k].op)
    ensures var r := TableAfter(steps[..i]); r.Ok? && Agree(ss[i].rows, r.value)
    ensures i < |steps| ==> SameAnswer(ss[i], TableAfter(steps[..i]).value, steps[i], steps[i])
  {
    forall k | 0 <= k < |steps| ensures Alike(steps[k], steps[k]) {
      assert Enabled(ss[k], steps[k]);
      WholeSecondsAreAlike(steps[k]);
    }
    BackendsAgree(ss, steps, steps, i);
  }

  // ------------------------------------------------------------------ SQLite's own runs

  function InsertedBy(st: Step): set<Id> { if Inserts(st.op) then {st.op.job.id} else {} }

  function UsedAfter(qs: seq<Step>): set<Id> {
    if qs == [] then {} else UsedAfter(qs[..|qs| - 1]) + InsertedBy(qs[|qs| - 1])
  }

  /** Any sequence of calls on a SQLite storage, each taking a choice open to it; a failed call leaves the table. */
  ghost predicate SqlRun(tables: seq<Table>, qs: seq<Step>) {
    && |tables| == |qs| + 1
    && tables[0] == map[]
    && forall i | 0 <= i < |qs| :: SqlStep(tables[i], UsedAfter(qs[..i]), qs[i], tables[i + 1])
  }

  ghost predicate SqlStep(t: Table, used: set<Id>, q: Step, t': Table) {
    && SqlEnabled(t, used, q) && (Inserts(q.op) ==> q.op.job.ttl <= MAX_INT64)
    && t' == match SqlApply(t, q)
             case Ok(next) => next
             case Err(_) => t
  }

  /** The in-memory storage after the given calls; a call that cannot be made is skipped. */
  ghost function StoreAfter(ms: seq<Step>): Store {
    if ms == [] then EMPTY
    else
      var s, m := StoreAfter(ms[..|ms| - 1]), ms[|ms| - 1];
      if Enabled(s, m) then Apply(s, m) else s
  }

  ghost function StoresAfter(ms: seq<Step>): (ss: seq<Store>)
    ensures |ss| == |ms| + 1 && forall i | 0 <= i <= |ms| :: ss[i] == StoreAfter(ms[..i])
  {
    seq(|ms| + 1, i requires 0 <= i <= |ms| => StoreAfter(ms[..i]))
  }

  /** One call: SQLite's statement does not fail, the in-memory call can be made, the answers are the same. */
  ghost predicate BothSucceed(s: Store, t: Table, m: Step, q: Step) {
    SqlApply(t, q).Ok? && Enabled(s, m) && SameAnswer(s, t, m, q)
  }

  lemma NextShadow(s: Store, t: Table, m: Step, q: Step)
    requires StoreInv(s) && Agree(s.rows, t) && Alike(m, q) && SqlEnabled(t, s.used, q)
    ensures BothSucceed(s, t, m, q) && StoreInv(Apply(s, m))
    ensures Agree(Apply(s, m).rows, SqlApply(t, q).value) && Apply(s, m).used == s.used + InsertedBy(q)
  {
    SameChoices(s, t, m, q);
    BackendsStepTogether(s, t, m, q);
    StepKeepsStoreInv(s, m);
  }

  lemma {:induction false} ShadowAt(tables: seq<Table>, qs: seq<Step>, ms: seq<Step>, i: nat)
    requires SqlRun(tables, qs) && |ms| == |qs| && (forall k | 0 <= k < |qs| :: Alike(ms[k], qs[k])) && i <= |qs|
    ensures var s := StoreAfter(ms[..i]);
            StoreInv(s) && Agree(s.rows, tables[i]) && s.used == UsedAfter(qs[..i])
  {
    if i > 0 {
      ShadowAt(tables, qs, ms, i - 1);
      assert ms[..i][..i - 1] == ms[..i - 1] && qs[..i][..i - 1] == qs[..i - 1];
      assert SqlStep(tables[i - 1], UsedAfter(qs[..i - 1]), qs[i - 1], tables[i]);
      NextShadow(StoreAfter(ms[..i - 1]), tables[i - 1], ms[i - 1], qs[i - 1]);
    }
  }

  /**
   Every run of a SQLite storage is, step by step, the in-memory run of the alike calls: no
   statement ever fails, rows agree and answers are the same.
   */
  lemma SqliteRunIsMemoryRun(tables: seq<Table>, qs: seq<Step>, ms: seq<Step>)
    requires SqlRun(tables, qs) && |ms| == |qs| && forall k | 0 <= k < |qs| :: Alike(ms[k], qs[k])
    ensures Run(StoresAfter(ms), ms)
    ensures forall i | 0 <= i <= |qs| :: Agree(StoresAfter(ms)[i].rows, tables[i])
    ensures forall i | 0 <= i < |qs| :: BothSucceed(StoresAfter(ms)[i], tables[i], ms[i], qs[i])
  {
    var ss := StoresAfter(ms);
    forall i | 0 <= i < |qs|
      ensures BothSucceed(ss[i], tables[i], ms[i], qs[i]) && ss[i + 1] == Apply(ss[i], ms[i])
    {
      ShadowAt(tables, qs, ms, i);
      assert SqlStep(tables[i], UsedAfter(qs[..i]), qs[i], tables[i + 1]);
      NextShadow(ss[i], tables[i], ms[i], qs[i]);
      assert ms[..i + 1][..i] == ms[..i];
    }
    forall i | 0 <= i <= |qs| ensures Agree(ss[i].rows, tables[i]) {
      ShadowAt(tables, qs, ms, i);
    }
  }

  function AllRounded(qs: seq<Step>): (ms: seq<Step>)
    ensures |ms| == |qs| && forall i | 0 <= i < |qs| :: ms[i] == Rounded(qs[i])
  {
    seq(|qs|, i requires 0 <= i < |qs| => Rounded(qs[i]))
  }

  /** With no assumption on TTLs: the in-memory run of the rounded calls. */
  lemma SqliteRunIsRoundedRun(tables: seq<Table>, qs: seq<Step>)
    requires SqlRun(tables, qs)
    ensures Run(StoresAfter(AllRounded(qs)), AllRounded(qs))
    ensures forall i | 0 <= i <= |qs| :: Agree(StoresAfter(AllRounded(qs))[i].rows, tables[i])
    ensures forall i | 0 <= i < |qs| :: BothSucceed(StoresAfter(AllRounded(qs))[i], tables[i], AllRounded(qs)[i], qs[i])
  {
    forall k | 0 <= k < |qs| ensures Alike(AllRounded(qs)[k], qs[k]) {
      assert SqlStep(tables[k], UsedAfter(qs[..k]), qs[k], tables[k + 1]);
      RoundedIsAlike(qs[k]);
    }
    SqliteRunIsMemoryRun(tables, qs, AllRounded(qs));
  }

  /** With whole-second TTLs: the in-memory run of the very same calls. */
  lemma WholeSecondSqliteRun(tables: seq<Table>, qs: seq<Step>)
    requires SqlRun(tables, qs) && forall k | 0 <= k < |qs| :: WholeSeconds(qs[k].op)
    ensures Run(StoresAfter(qs), qs)
    ensures forall i | 0 <= i <= |qs| :: Agree(StoresAfter(qs)[i].rows, tables[i])
    ensures forall i | 0 <= i < |qs| :: BothSucceed(StoresAfter(qs)[i], tables[i], qs[i], qs[i])
  {
    forall k | 0 <= k < |qs| ensures Alike(qs[k], qs[k]) {
      assert SqlStep(tables[k], UsedAfter(qs[..k]), qs[k], tables[k + 1]);
      WholeSecondsAreAlike(qs[k]);
    }
    SqliteRunIsMemoryRun(tables, qs, qs);
  }

  // ------------------------------------------------------------------ how long SQLite's lock lasts

  /** A key locked with TTL `d` at `done` is free at `now`, or not. */
  predicate FreedInTime(d: Duration, done: Time, now: Time, free: bool) {
    if d + SECOND - 1 <= MAX_INT64
    then (now < done + d ==> !free) && (now >= done + d + SECOND ==> free)
    else free
  }

  lemma LockRule(d: Duration, done: Time, now: Time, free: bool)
    requires 0 < d <= MAX_INT64 && (free <==> LockTime(d) <= 0 || now >= done + LockTime(d))
    ensures FreedInTime(d, done, now, free)
  {
    TtlRoundsUp(d);
  }

  lemma RoundedTtl(qs: seq<Step>, k: nat)
    requires k < |qs| && qs[k].op.EnqueueDedup?
    ensures var m := AllRounded(qs)[k];
            m.op.EnqueueDedup? && m.op.job.id == qs[k].op.job.id && m.op.job.ttl == LockTime(qs[k].op.job.ttl)
            && m.op.mode == qs[k].op.mode && m.op.job.key == qs[k].op.job.key && m.now == qs[k].now
  {
  }

  /** What the lock table of the rounded calls says of a key. */
  ghost predicate LockedBy(qs: seq<Step>, key: Key, owner: Id, done: Time) {
    var locks := LocksAfter(AllRounded(qs));
    key in locks && locks[key].owner == owner && Complete(locks[key]) && locks[key].state.at == done
  }

  /**
   The k-th call took the lock of its key with TTL `d`, and that job was completed at `done`. A
   later Ignore enqueue is refused before done + d and accepted from a second after that on,
   provided d can be rounded up; if it cannot, the lock is gone at completion.
   */
  lemma SqliteLockLasts(tables: seq<Table>, qs: seq<Step>, k: nat, i: nat, done: Time)
    requires SqlRun(tables, qs) && k < i < |qs|
    requires qs[k].op.EnqueueDedup? && 0 < qs[k].op.job.ttl
    requires qs[i].op.EnqueueDedup? && qs[i].op.mode == Ignore
    requires LockedBy(qs[..i], qs[i].op.job.key, qs[k].op.job.id, done)
    ensures FreedInTime(qs[k].op.job.ttl, done, qs[i].now, qs[i].op.job.id in tables[i + 1])
  {
    var ms, ss := AllRounded(qs), StoresAfter(AllRounded(qs));
    assert AllRounded(qs[..i]) == ms[..i];
    SqliteRunIsRoundedRun(tables, qs);
    assert SqlStep(tables[k], UsedAfter(qs[..k]), qs[k], tables[k + 1]);
    RoundedTtl(qs, k);
    RoundedTtl(qs, i);
    LockLasts(ss, ms, k, i);
    SameKeys(ss[i + 1].rows, tables[i + 1]);
    LockRule(qs[k].op.job.ttl, done, qs[i].now, qs[i].op.job.id in tables[i + 1]);
  }
}
