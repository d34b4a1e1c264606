/**
 What a run records about each job: its failures with their start and failure times, and the
 JobErrors emitted for it. From the record follow the attempt accounting, the numbering of
 JobErrors and the spacing of retries.
 */
module PoolHistory {
  import opened Types
  import opened StoreSpec
  import opened StoreRuns
  import opened Backoff
  import opened Pool
  import opened PoolSafety

  /** A recorded failure: when the job was claimed for it, and when the worker saw it fail. */
  datatype Attempt = Attempt(start: Time, failed: Time)

  /** The attempt number and Final flag of a JobError. */
  datatype Emission = Emission(attempt: int, final: bool)

  datatype Record = Record(
    clock: Option<Time>,                  // of the last event
    failures: map<Id, seq<Attempt>>,      // since insertion or the last RetryJob
    claimedAt: map<Id, Time>,
    failedAt: map<Id, Time>,              // of the failure a worker is about to mark
    emitted: map<Id, seq<Emission>>,      // since insertion, the last RetryJob or the last crash
    crashes: nat)

  const BLANK := Record(None, map[], map[], map[], map[], 0)

  function Get<T>(m: map<Id, seq<T>>, id: Id): seq<T> { if id in m then m[id] else [] }

  function Append<T>(m: map<Id, seq<T>>, id: Id, x: T): map<Id, seq<T>> { m[id := Get(m, id) + [x]] }

  function TimeOf(m: map<Id, Time>, id: Id): Time { if id in m then m[id] else 0 }

  /** How one event adds to the record. */
  function Recorded(r: Record, s: State, t: Timed): Record {
    var h := r.(clock := Some(t.now));
    match t.e
    case External(RetryJob(id)) =>
      if id in s.store.rows && s.store.rows[id].status == Failed then Reset(h, id) else h
    case External(Enqueue(job)) => Reset(h, job.id)
    case External(EnqueueDedup(job, _, _)) => Reset(h, job.id)
    case ClaimBatch(ids) => h.(claimedAt := h.claimedAt + map id | id in ids :: t.now)
    case NoHandler(w) => if w in s.pool.workers then Failing(h, s.pool.workers[w].job, true, t.now) else h
    case Finish(w, Failure(_)) =>
      if w in s.pool.workers
      then Failing(h, s.pool.workers[w].job, !Retryable(s.pool.workers[w].job), t.now)
      else h
    case Mark(w, _) => if Owes(s.pool, w) then Counted(h, s.pool.workers[w].job.id) else h
    case Crash => h.(emitted := map[], crashes := h.crashes + 1)
    case _ => h
  }

  function Reset(h: Record, id: Id): Record { h.(failures := h.failures[id := []], emitted := h.emitted[id := []]) }

  /** The worker saw the job fail and emits a JobError from its snapshot. */
  function Failing(h: Record, j: Job, final: bool, now: Time): Record {
    h.(failedAt := h.failedAt[j.id := now], emitted := Append(h.emitted, j.id, Emission(j.attempts + 1, final)))
  }

  function Counted(h: Record, id: Id): Record {
    h.(failures := Append(h.failures, id, Attempt(TimeOf(h.claimedAt, id), TimeOf(h.failedAt, id))))
  }

  function Retryable(j: Job): bool { IsRetryable(j.attempts + 1, j.maxAttempts) }

  /** The worker has decided on a failure and not marked it yet. */
  predicate Owes(p: PoolState, w: nat) {
    InDecided(p, w) && !p.workers[w].phase.decision.Succeed?
  }

  ghost predicate Owed(p: PoolState, id: Id) {
    exists w :: Owes(p, w) && p.workers[w].job.id == id
  }

  ghost function RecordOf(ss: seq<State>, ts: seq<Timed>): Record
    requires |ss| == |ts| + 1
    decreases |ts|
  {
    if ts == [] then BLANK
    else var n := |ts| - 1; Recorded(RecordOf(ss[..n + 1], ts[..n]), ss[n], ts[n])
  }

  lemma RecordOfPrefix(ss: seq<State>, ts: seq<Timed>, i: nat)
    requires |ss| == |ts| + 1 && 0 < i <= |ts|
    ensures RecordOf(ss[..i + 1], ts[..i]) == Recorded(RecordOf(ss[..i], ts[..i - 1]), ss[i - 1], ts[i - 1])
  {
    assert ts[..i][..i - 1] == ts[..i - 1] && ss[..i + 1][..i] == ss[..i];
  }

  // ------------------------------------------------------------------ quiet events

  /** Events that leave the rows, the pending failures and the record (but for its clock) alone. */
  predicate Quiet(e: Event) {
    !e.External? && !e.Start? && !e.Crash? && !e.ClaimBatch? && !e.NoHandler? && !e.Finish? && !e.Mark?
  }

  lemma QuietStep(cfg: Config, s: State, t: Timed, r: Record)
    requires FreshWorkers(s.pool) && Can(cfg, s, t) && Quiet(t.e)
    ensures Do(cfg, s, t).store == s.store
    ensures forall w :: Owes(Do(cfg, s, t).pool, w) <==> Owes(s.pool, w)
    ensures forall w | Owes(s.pool, w) :: Do(cfg, s, t).pool.workers[w] == s.pool.workers[w]
    ensures Recorded(r, s, t) == r.(clock := Some(t.now))
  {
  }

  // ------------------------------------------------------------------ attempt accounting

  /** The decision agrees with what `isRetryable` says of the snapshot. */
  predicate DecisionFits(cfg: Config, wk: Worker) {
    wk.phase.Decided? ==>
      && (wk.phase.decision.Reschedule? ==> Retryable(wk.job))
      && (wk.phase.decision.Bury? ==> wk.job.typ !in cfg.handlers || !Retryable(wk.job))
  }

  predicate AttemptsFit(cfg: Config, j: Job) {
    && 0 <= j.attempts
    && (Active(j) && j.maxAttempts >= 0 ==> j.attempts < Max(1, j.maxAttempts))
    && (j.status == Failed && j.typ in cfg.handlers ==> j.maxAttempts >= 0 && j.attempts == Max(1, j.maxAttempts))
  }

  ghost predicate RowAccounted(cfg: Config, s: State, r: Record, id: Id)
    requires id in s.store.rows
  {
    AttemptsFit(cfg, s.store.rows[id]) && |Get(r.failures, id)| == s.store.rows[id].attempts
  }

  ghost predicate AccountInv(cfg: Config, s: State, r: Record) {
    && (forall id | id in s.store.rows :: RowAccounted(cfg, s, r, id))
    && (forall w | w in s.pool.workers :: DecisionFits(cfg, s.pool.workers[w]))
  }

  lemma StepKeepsAccount(cfg: Config, s: State, t: Timed, r: Record)
    requires HoldInv(s) && AccountInv(cfg, s, r) && Can(cfg, s, t)
    ensures AccountInv(cfg, Do(cfg, s, t), Recorded(r, s, t))
  {
    StepKeepsDecisions(cfg, s, t);
    forall id | id in Do(cfg, s, t).store.rows ensures RowAccounted(cfg, Do(cfg, s, t), Recorded(r, s, t), id) {
      StepKeepsRowAccounted(cfg, s, t, r, id);
    }
  }

  lemma StepKeepsRowAccounted(cfg: Config, s: State, t: Timed, r: Record, id: Id)
    requires HoldInv(s) && AccountInv(cfg, s, r) && Can(cfg, s, t) && id in Do(cfg, s, t).store.rows
    ensures RowAccounted(cfg, Do(cfg, s, t), Recorded(r, s, t), id)
  {
    RowOrigin(s.store, StoreStep(s, t), id);
    FailuresRecorded(cfg, s, t, r, id);
    if Inserts(StoreStep(s, t).op) {
      InsertKeepsRowAccounted(cfg, s, t, r, Recorded(r, s, t), id);
    } else if t.e.Mark? {
      MarkKeepsRowAccounted(cfg, s, t, r, Recorded(r, s, t), id);
    } else {
      MoveKeepsRowAccounted(cfg, s, t, r, Recorded(r, s, t), id);
    }
  }

  lemma InsertKeepsRowAccounted(cfg: Config, s: State, t: Timed, r: Record, r': Record, id: Id)
    requires StoreInv(s.store) && AccountInv(cfg, s, r) && Can(cfg, s, t) && Inserts(StoreStep(s, t).op)
    requires id in Do(cfg, s, t).store.rows
    requires var st, row' := StoreStep(s, t), Do(cfg, s, t).store.rows[id];
             (id == st.op.job.id && row' == st.op.job) || (id in s.store.rows && row' == s.store.rows[id])
    requires Get(r'.failures, id) == if Restarts(s, t, id) then [] else Get(r.failures, id)
    ensures RowAccounted(cfg, Do(cfg, s, t), r', id)
  {
    assert t.e.External?;
    assert id in s.store.rows ==> RowAccounted(cfg, s, r, id);
  }

  lemma MarkKeepsRowAccounted(cfg: Config, s: State, t: Timed, r: Record, r': Record, id: Id)
    requires HoldInv(s) && AccountInv(cfg, s, r) && Can(cfg, s, t) && t.e.Mark?
    requires id in s.store.rows && id in Do(cfg, s, t).store.rows
    requires Do(cfg, s, t).store.rows[id] == Moved(s.store.rows[id], StoreStep(s, t))
    requires var wk := s.pool.workers[t.e.w];
             |Get(r'.failures, id)| == |Get(r.failures, id)|
                                       + if !wk.phase.decision.Succeed? && wk.job.id == id then 1 else 0
    ensures RowAccounted(cfg, Do(cfg, s, t), r', id)
  {
    assert RowAccounted(cfg, s, r, id);
    MarkedRowIsHeld(cfg, s, t);
    MarkedRowFits(cfg, s.store.rows[id], s.pool.workers[t.e.w], t.e.clock);
  }

  lemma MoveKeepsRowAccounted(cfg: Config, s: State, t: Timed, r: Record, r': Record, id: Id)
    requires KeyedById(s.store.rows) && AccountInv(cfg, s, r) && Can(cfg, s, t)
    requires !t.e.Mark? && !Inserts(StoreStep(s, t).op)
    requires id in s.store.rows && id in Do(cfg, s, t).store.rows
    requires Do(cfg, s, t).store.rows[id] == Moved(s.store.rows[id], StoreStep(s, t))
    requires Get(r'.failures, id) == if Restarts(s, t, id) then [] else Get(r.failures, id)
    ensures RowAccounted(cfg, Do(cfg, s, t), r', id)
  {
    assert RowAccounted(cfg, s, r, id);
    MovedRowFits(cfg, s.store.rows[id], StoreStep(s, t));
  }

  lemma MarkedRowIsHeld(cfg: Config, s: State, t: Timed)
    requires HoldInv(s) && Can(cfg, s, t) && t.e.Mark?
    ensures var wk := s.pool.workers[t.e.w];
            && wk.phase.Decided? && Holds(s.store.rows, wk.job)
            && StoreStep(s, t) == Step(MarkOp(wk.job, wk.phase.decision), t.e.clock)
  {
    assert IsHolder(s.pool, OfWorker(t.e.w)) && Holds(s.store.rows, JobOf(s.pool, OfWorker(t.e.w)));
  }

  lemma MarkedRowFits(cfg: Config, row: Job, wk: Worker, clock: Time)
    requires AttemptsFit(cfg, row) && DecisionFits(cfg, wk) && wk.phase.Decided?
    requires row.id == wk.job.id ==> row == wk.job && row.status == Running
    ensures var row' := Moved(row, Step(MarkOp(wk.job, wk.phase.decision), clock));
            && AttemptsFit(cfg, row')
            && row'.attempts == row.attempts + if row.id == wk.job.id && !wk.phase.decision.Succeed? then 1 else 0
  {
  }

  lemma MovedRowFits(cfg: Config, row: Job, st: Step)
    requires AttemptsFit(cfg, row) && !Inserts(st.op) && !st.op.MarkDone? && !st.op.MarkFailed?
    requires st.op.Claim? && row.id in st.op.ids ==> Active(row)
    ensures AttemptsFit(cfg, Moved(row, st))
    ensures Moved(row, st).attempts == if st.op == RetryJob(row.id) && row.status == Failed then 0 else row.attempts
  {
  }

  /** Which events change the recorded failures of a job. */
  lemma FailuresRecorded(cfg: Config, s: State, t: Timed, r: Record, id: Id)
    requires Can(cfg, s, t)
    ensures var before, after := Get(r.failures, id), Get(Recorded(r, s, t).failures, id);
            if t.e.Mark? && !s.pool.workers[t.e.w].phase.decision.Succeed? && s.pool.workers[t.e.w].job.id == id
            then after == before + [Attempt(TimeOf(r.claimedAt, id), TimeOf(r.failedAt, id))]
            else if Restarts(s, t, id) then after == []
            else after == before
  {
    match t.e {
      case External(op) =>
      case Finish(w, outcome) =>
      case Mark(w, clock) =>
      case _ =>
    }
  }

  lemma StepKeepsDecisions(cfg: Config, s: State, t: Timed)
    requires Can(cfg, s, t) && forall w | w in s.pool.workers :: DecisionFits(cfg, s.pool.workers[w])
    ensures forall w | w in Do(cfg, s, t).pool.workers :: DecisionFits(cfg, Do(cfg, s, t).pool.workers[w])
  {
  }

  lemma ReachableAccount(cfg: Config, ss: seq<State>, ts: seq<Timed>, i: nat)
    requires PoolRun(cfg, ss, ts) && i < |ss|
    ensures AccountInv(cfg, ss[i], RecordOf(ss[..i + 1], ts[..i]))
  {
    PoolRunUpTo(cfg, ss, ts, i);
    ReachableHistory(cfg, ss[..i + 1], ts[..i]);
  }

  /**
   Attempt accounting: `attempts` counts the recorded failures, an active job has attempts
   left, and (with a handler for its type) a job is dead-lettered only after its last one.
   */
  lemma AttemptAccounting(cfg: Config, ss: seq<State>, ts: seq<Timed>, i: nat, id: Id)
    requires PoolRun(cfg, ss, ts) && i < |ss| && id in ss[i].store.rows
    ensures var j := ss[i].store.rows[id];
            && j.attempts == |Get(RecordOf(ss[..i + 1], ts[..i]).failures, id)|
            && (Active(j) && j.maxAttempts >= 0 ==> j.attempts < Max(1, j.maxAttempts))
            && (j.status == Failed && j.typ in cfg.handlers ==>
                  j.maxAttempts >= 0 && j.attempts == Max(1, j.maxAttempts))
  {
    ReachableAccount(cfg, ss, ts, i);
  }

  // ------------------------------------------------------------------ JobError numbering

  predicate Burying(p: PoolState, w: nat) { InDecided(p, w) && p.workers[w].phase.decision.Bury? }

  ghost predicate Fatal(s: State, id: Id) {
    (id in s.store.rows && s.store.rows[id].status == Failed)
    || exists w :: Burying(s.pool, w) && s.pool.workers[w].job.id == id
  }

  /** The failures of a job so far, the one being marked included. */
  ghost function FailuresSoFar(s: State, id: Id): int
    requires id in s.store.rows
  {
    s.store.rows[id].attempts + if Owed(s.pool, id) then 1 else 0
  }

  /** `es` numbers the last |es| of `n` failures, and only the very last can be final. */
  ghost predicate Numbered(es: seq<Emission>, n: int, fatal: bool) {
    && |es| <= n
    && (forall i | 0 <= i < |es| :: es[i].attempt == n - |es| + 1 + i)
    && (forall i | 0 <= i < |es| :: es[i].final <==> i == |es| - 1 && fatal)
  }

  ghost predicate EmitsFit(s: State, r: Record, id: Id)
    requires id in s.store.rows
  {
    && Numbered(Get(r.emitted, id), FailuresSoFar(s, id), Fatal(s, id))
    && (r.crashes == 0 ==> |Get(r.emitted, id)| == FailuresSoFar(s, id))
  }

  ghost predicate EmitInv(s: State, r: Record) {
    forall id | id in s.store.rows :: EmitsFit(s, r, id)
  }

  /** Only a running row can be owed a failure or about to be buried, and by one worker only. */
  lemma OwedIsRunning(s: State, w: nat)
    requires HoldInv(s) && InDecided(s.pool, w)
    ensures var id := s.pool.workers[w].job.id;
            && id in s.store.rows && s.store.rows[id] == s.pool.workers[w].job && s.store.rows[id].status == Running
            && (Owed(s.pool, id) <==> Owes(s.pool, w)) && (Fatal(s, id) <==> Burying(s.pool, w))
  {
    var id := s.pool.workers[w].job.id;
    assert IsHolder(s.pool, OfWorker(w)) && Holds(s.store.rows, JobOf(s.pool, OfWorker(w)));
    forall v | InDecided(s.pool, v) && s.pool.workers[v].job.id == id ensures v == w {
      assert IsHolder(s.pool, OfWorker(v));
      assert OfWorker(v) == OfWorker(w);
    }
  }

  /** A job held by a worker that has not decided is not owed anything. */
  lemma UndecidedOwesNothing(s: State, w: nat)
    requires HoldInv(s) && (At(s.pool, w, Spawned) || At(s.pool, w, Executing))
    ensures var id := s.pool.workers[w].job.id;
            && id in s.store.rows && s.store.rows[id] == s.pool.workers[w].job && s.store.rows[id].status == Running
            && !Owed(s.pool, id) && !Fatal(s, id)
  {
    var id := s.pool.workers[w].job.id;
    assert IsHolder(s.pool, OfWorker(w)) && Holds(s.store.rows, JobOf(s.pool, OfWorker(w)));
    forall v | InDecided(s.pool, v) ensures s.pool.workers[v].job.id != id {
      assert IsHolder(s.pool, OfWorker(v));
      assert OfWorker(v) != OfWorker(w);
    }
  }

  /** The JobError an event emits for a job. */
  function Emits(s: State, t: Timed, id: Id): Option<Emission> {
    match t.e
    case NoHandler(w) =>
      if w in s.pool.workers && s.pool.workers[w].job.id == id
      then Some(Emission(s.pool.workers[w].job.attempts + 1, true)) else None
    case Finish(w, Failure(_)) =>
      if w in s.pool.workers && s.pool.workers[w].job.id == id
      then Some(Emission(s.pool.workers[w].job.attempts + 1, !Retryable(s.pool.workers[w].job))) else None
    case _ => None
  }

  /** Insertion and RetryJob start a job's history afresh. */
  predicate Restarts(s: State, t: Timed, id: Id) {
    t.e.External?
    && ((Inserts(t.e.op) && t.e.op.job.id == id)
        || (t.e.op == RetryJob(id) && id in s.store.rows && s.store.rows[id].status == Failed))
  }

  lemma EmissionsRecorded(s: State, t: Timed, r: Record, id: Id)
    ensures var before, after := Get(r.emitted, id), Get(Recorded(r, s, t).emitted, id);
            after == if Restarts(s, t, id) || t.e == Crash then []
                     else if Emits(s, t, id).Some? then before + [Emits(s, t, id).value]
                     else before
    ensures Recorded(r, s, t).crashes == r.crashes + if t.e == Crash then 1 else 0
  {
    match t.e {
      case External(op) =>
      case Finish(w, outcome) =>
      case NoHandler(w) =>
      case _ =>
    }
  }

  /** How an event changes a job's failures so far and whether it is doomed. */
  ghost predicate FateFollows(s: State, t: Timed, s': State, id: Id) {
    && id in s'.store.rows
    && if Restarts(s, t, id) then FailuresSoFar(s', id) == 0 && !Fatal(s', id)
       else if t.e == Crash then FailuresSoFar(s', id) >= 0
       else
         && id in s.store.rows
         && match Emits(s, t, id)
            case Some(e) =>
              && FailuresSoFar(s', id) == FailuresSoFar(s, id) + 1 == e.attempt
              && !Fatal(s, id) && (Fatal(s', id) <==> e.final)
            case None => FailuresSoFar(s', id) == FailuresSoFar(s, id) && (Fatal(s', id) <==> Fatal(s, id))
  }

  lemma StepKeepsEmissions(cfg: Config, s: State, t: Timed, s': State, r: Record, r': Record)
    requires HoldInv(s) && EmitInv(s, r) && AccountInv(cfg, s, r) && Can(cfg, s, t)
    requires s' == Do(cfg, s, t) && r' == Recorded(r, s, t)
    ensures EmitInv(s', r')
  {
    forall id | id in s'.store.rows ensures EmitsFit(s', r', id) {
      FateAfterStep(cfg, s, t, r, id);
      EmissionsRecorded(s, t, r, id);
    }
  }

  lemma FateAfterStep(cfg: Config, s: State, t: Timed, r: Record, id: Id)
    requires HoldInv(s) && AccountInv(cfg, s, r) && Can(cfg, s, t) && id in Do(cfg, s, t).store.rows
    ensures FateFollows(s, t, Do(cfg, s, t), id)
  {
    RowOrigin(s.store, StoreStep(s, t), id);
    if Quiet(t.e) {
      QuietFate(cfg, s, t, r, id);
    } else if t.e.NoHandler? || t.e.Finish? {
      FailingFate(cfg, s, t, id);
    } else if t.e.Mark? {
      MarkFate(cfg, s, t, id);
    } else if t.e.External? {
      ExternalFate(cfg, s, t, id);
    } else {
      LifecycleFate(cfg, s, t, r, id);
    }
  }

  lemma QuietFate(cfg: Config, s: State, t: Timed, r: Record, id: Id)
    requires FreshWorkers(s.pool) && Can(cfg, s, t) && id in Do(cfg, s, t).store.rows && Quiet(t.e)
    ensures FateFollows(s, t, Do(cfg, s, t), id)
  {
    QuietStep(cfg, s, t, r);
    var p, p' := s.pool, Do(cfg, s, t).pool;
    assert forall w :: (Owes(p', w) && p'.workers[w].job.id == id) <==> (Owes(p, w) && p.workers[w].job.id == id);
    assert forall w :: (Burying(p', w) && p'.workers[w].job.id == id) <==> (Burying(p, w) && p.workers[w].job.id == id);
  }

  /** The other jobs' pending failures are not affected by what one worker decides or marks. */
  lemma OthersKeepOwing(cfg: Config, s: State, t: Timed, id: Id)
    requires Can(cfg, s, t) && (t.e.NoHandler? || t.e.Finish? || t.e.Mark?)
    requires s.pool.workers[t.e.w].job.id != id
    requires id in s.store.rows ==> id in Do(cfg, s, t).store.rows && Do(cfg, s, t).store.rows[id] == s.store.rows[id]
    requires id in s.store.rows
    ensures Owed(Do(cfg, s, t).pool, id) <==> Owed(s.pool, id)
    ensures Fatal(Do(cfg, s, t), id) <==> Fatal(s, id)
  {
    var p, p' := s.pool, Do(cfg, s, t).pool;
    assert forall w | w != t.e.w ::
        (w in p.workers <==> w in p'.workers) && (w in p.workers ==> p'.workers[w] == p.workers[w]);
    assert p'.workers[t.e.w].job == p.workers[t.e.w].job;
    forall w ensures (Owes(p', w) && p'.workers[w].job.id == id) <==> (Owes(p, w) && p.workers[w].job.id == id) { }
    forall w
      ensures (Burying(p', w) && p'.workers[w].job.id == id) <==> (Burying(p, w) && p.workers[w].job.id == id)
    {
    }
  }

  lemma FailingFate(cfg: Config, s: State, t: Timed, id: Id)
    requires HoldInv(s) && Can(cfg, s, t) && id in Do(cfg, s, t).store.rows && (t.e.NoHandler? || t.e.Finish?)
    ensures FateFollows(s, t, Do(cfg, s, t), id)
  {
    if s.pool.workers[t.e.w].job.id == id {
      UndecidedOwesNothing(s, t.e.w);
      StepKeepsHold(cfg, s, t);
      OwedIsRunning(Do(cfg, s, t), t.e.w);
    } else {
      OthersKeepOwing(cfg, s, t, id);
    }
  }

  lemma MarkFate(cfg: Config, s: State, t: Timed, id: Id)
    requires HoldInv(s) && Can(cfg, s, t) && id in Do(cfg, s, t).store.rows && t.e.Mark?
    ensures FateFollows(s, t, Do(cfg, s, t), id)
  {
    StepIsPointwise(s.store, StoreStep(s, t));
    if s.pool.workers[t.e.w].job.id == id {
      StepKeepsHold(cfg, s, t);
      MarkedFate(cfg, s, t);
    } else {
      OthersKeepOwing(cfg, s, t, id);
    }
  }

  /** The marked job: no longer owed, its failures counted, fatal as decided. */
  lemma MarkedFate(cfg: Config, s: State, t: Timed)
    requires HoldInv(s) && Can(cfg, s, t) && t.e.Mark? && HoldInv(Do(cfg, s, t))
    ensures var me, s' := s.pool.workers[t.e.w].job.id, Do(cfg, s, t);
            && me in s.store.rows && me in s'.store.rows
            && FailuresSoFar(s', me) == FailuresSoFar(s, me) && (Fatal(s', me) <==> Fatal(s, me))
  {
    var s', me := Do(cfg, s, t), s.pool.workers[t.e.w].job.id;
    OwedIsRunning(s, t.e.w);
    NotRunningNotOwed(s', me);
  }

  lemma NotRunningNotOwed(s: State, id: Id)
    requires HoldInv(s) && (id in s.store.rows ==> s.store.rows[id].status != Running)
    ensures !Owed(s.pool, id)
    ensures Fatal(s, id) <==> id in s.store.rows && s.store.rows[id].status == Failed
  {
    forall w | InDecided(s.pool, w) ensures s.pool.workers[w].job.id != id {
      OwedIsRunning(s, w);
    }
  }

  lemma ExternalFate(cfg: Config, s: State, t: Timed, id: Id)
    requires HoldInv(s) && Can(cfg, s, t) && id in Do(cfg, s, t).store.rows && t.e.External?
    requires var st, rows := StoreStep(s, t), s.store.rows;
             var row := Do(cfg, s, t).store.rows[id];
             (Inserts(st.op) && id == st.op.job.id && id !in rows && row == st.op.job)
             || (id in rows && row == if Inserts(st.op) then rows[id] else Moved(rows[id], st))
    ensures FateFollows(s, t, Do(cfg, s, t), id)
  {
    var s' := Do(cfg, s, t);
    assert s'.pool == s.pool;
    if Restarts(s, t, id) {
      NotRunningNotOwed(s, id);
    } else {
      assert id in s.store.rows;
      assert s'.store.rows[id] == s.store.rows[id];
    }
  }

  lemma LifecycleFate(cfg: Config, s: State, t: Timed, r: Record, id: Id)
    requires HoldInv(s) && AccountInv(cfg, s, r) && Can(cfg, s, t) && id in Do(cfg, s, t).store.rows
    requires t.e == Start || t.e == Crash || t.e.ClaimBatch?
    ensures FateFollows(s, t, Do(cfg, s, t), id)
  {
    var s' := Do(cfg, s, t);
    StepIsPointwise(s.store, StoreStep(s, t));
    assert AttemptsFit(cfg, s.store.rows[id]);
    if t.e.ClaimBatch? {
      ClaimedIdsArePending(s, t);
      assert s'.pool.workers == s.pool.workers;
    }
  }

  ghost predicate HistoryInv(cfg: Config, s: State, r: Record) {
    HoldInv(s) && AccountInv(cfg, s, r) && EmitInv(s, r)
  }

  lemma StepKeepsHistory(cfg: Config, s: State, t: Timed, s': State, r: Record, r': Record)
    requires HistoryInv(cfg, s, r) && Can(cfg, s, t) && s' == Do(cfg, s, t) && r' == Recorded(r, s, t)
    ensures HistoryInv(cfg, s', r')
  {
    StepKeepsHold(cfg, s, t);
    StepKeepsAccount(cfg, s, t, r);
    StepKeepsEmissions(cfg, s, t, s', r, r');
  }

  lemma {:induction false} ReachableHistory(cfg: Config, ss: seq<State>, ts: seq<Timed>)
    requires PoolRun(cfg, ss, ts)
    ensures HistoryInv(cfg, ss[|ts|], RecordOf(ss, ts))
    decreases |ts|
  {
    if ts == [] {
      assert HoldInv(INITIAL) && AccountInv(cfg, INITIAL, BLANK) && EmitInv(INITIAL, BLANK);
    } else {
      var n := |ts| - 1;
      PoolRunPrefix(cfg, ss, ts);
      ReachableHistory(cfg, ss[..n + 1], ts[..n]);
      LastStep(cfg, ss, ts);
      StepKeepsHistory(cfg, ss[n], ts[n], ss[n + 1], RecordOf(ss[..n + 1], ts[..n]), RecordOf(ss, ts));
    }
  }

  lemma LastStep(cfg: Config, ss: seq<State>, ts: seq<Timed>)
    requires PoolRun(cfg, ss, ts) && ts != []
    ensures var n := |ts| - 1; Can(cfg, ss[n], ts[n]) && ss[n + 1] == Do(cfg, ss[n], ts[n])
  {
  }

  lemma ReachableEmissions(cfg: Config, ss: seq<State>, ts: seq<Timed>, i: nat)
    requires PoolRun(cfg, ss, ts) && i < |ss|
    ensures EmitInv(ss[i], RecordOf(ss[..i + 1], ts[..i]))
  {
    PoolRunUpTo(cfg, ss, ts, i);
    ReachableHistory(cfg, ss[..i + 1], ts[..i]);
  }

  lemma {:induction false} CrashesCounted(ss: seq<State>, ts: seq<Timed>, i: nat)
    requires |ss| == |ts| + 1 && i <= |ts| && forall k | 0 <= k < i :: ts[k].e != Crash
    ensures RecordOf(ss[..i + 1], ts[..i]).crashes == 0
  {
    if i > 0 {
      CrashesCounted(ss, ts, i - 1);
      RecordOfPrefix(ss, ts, i);
    }
  }

  /**
   Without crashes the JobErrors of a job carry the attempt numbers 1, 2, ..., k, one per
   failure, and Final on the last one exactly if the job is dead-lettered (or its worker is
   about to mark it so).
   */
  lemma JobErrorsCountUp(cfg: Config, ss: seq<State>, ts: seq<Timed>, i: nat, id: Id)
    requires PoolRun(cfg, ss, ts) && i < |ss| && id in ss[i].store.rows
    requires forall k | 0 <= k < i :: ts[k].e != Crash
    ensures var es := Get(RecordOf(ss[..i + 1], ts[..i]).emitted, id);
            && |es| == FailuresSoFar(ss[i], id)
            && (forall n | 0 <= n < |es| :: es[n].attempt == n + 1)
            && (forall n | 0 <= n < |es| :: es[n].final <==> n == |es| - 1 && Fatal(ss[i], id))
  {
    ReachableEmissions(cfg, ss, ts, i);
    CrashesCounted(ss, ts, i);
    assert EmitsFit(ss[i], RecordOf(ss[..i + 1], ts[..i]), id);
  }

  /** After crashes the numbers are still consecutive, ending at the failures so far. */
  lemma JobErrorsStayConsecutive(cfg: Config, ss: seq<State>, ts: seq<Timed>, i: nat, id: Id)
    requires PoolRun(cfg, ss, ts) && i < |ss| && id in ss[i].store.rows
    ensures var es := Get(RecordOf(ss[..i + 1], ts[..i]).emitted, id);
            Numbered(es, FailuresSoFar(ss[i], id), Fatal(ss[i], id))
  {
    ReachableEmissions(cfg, ss, ts, i);
    assert EmitsFit(ss[i], RecordOf(ss[..i + 1], ts[..i]), id);
  }
}
