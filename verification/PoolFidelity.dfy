/**
 What the worker pool runs is what was ordered, and what it stores is what the handler said: the
 job a worker holds is some call's job, and every mark tells the outcome of that worker's run.
 */
module PoolFidelity {
  import opened Types
  import opened StoreSpec
  import opened StoreRuns
  import opened Backoff
  import opened Pool
  import opened PoolSafety

  // ------------------------------------------------------------------ orders

  /** Some call before the n-th event ordered this job. */
  ghost predicate Ordered(ts: seq<Timed>, n: nat, j: Job)
    requires n <= |ts|
  {
    exists k :: 0 <= k < n && ts[k].e.External? && Inserts(ts[k].e.op) && SameOrder(j, ts[k].e.op.job)
  }

  /** In the poller's batch or with a worker. */
  ghost predicate InPool(p: PoolState, j: Job) {
    j in Rest(p) || exists w :: w in p.workers && p.workers[w].job == j
  }

  lemma RowsAreOrdered(cfg: Config, ss: seq<State>, ts: seq<Timed>, i: nat, id: Id)
    requires PoolRun(cfg, ss, ts) && i < |ss| && id in ss[i].store.rows
    ensures Ordered(ts, i, ss[i].store.rows[id])
  {
    PoolRunIsStoreRun(cfg, ss, ts);
    var k := RowsKeepTheirOrder(StoresOf(ss), StoreStepsOf(ss, ts), i, id);
    assert Inserts(StoreStep(ss[k], ts[k]).op);
    assert ts[k].e.External?;
  }

  /** A job comes into the pool only as a row just claimed. */
  lemma PoolOrigin(cfg: Config, s: State, t: Timed, j: Job)
    requires HoldInv(s) && Can(cfg, s, t) && InPool(Do(cfg, s, t).pool, j)
    ensures InPool(s.pool, j)
            || (j.id in Do(cfg, s, t).store.rows && Do(cfg, s, t).store.rows[j.id] == j)
  {
    var p, p' := s.pool, Do(cfg, s, t).pool;
    if t.e.ClaimBatch? {
      BatchOrigin(cfg, s, t, j);
    } else if j in Rest(p') {
      assert j in Rest(p);
    } else {
      var w :| w in p'.workers && p'.workers[w].job == j;
      WorkerOrigin(cfg, s, t, Do(cfg, s, t), w);
    }
  }

  lemma BatchOrigin(cfg: Config, s: State, t: Timed, j: Job)
    requires HoldInv(s) && Can(cfg, s, t) && t.e.ClaimBatch? && InPool(Do(cfg, s, t).pool, j)
    ensures InPool(s.pool, j)
            || (j.id in Do(cfg, s, t).store.rows && Do(cfg, s, t).store.rows[j.id] == j)
  {
    var s' := Do(cfg, s, t);
    if j in Rest(s'.pool) {
      StepKeepsHold(cfg, s, t);
      var i :| 0 <= i < |Rest(s'.pool)| && Rest(s'.pool)[i] == j;
      assert IsHolder(s'.pool, InBatch(i)) && Holds(s'.store.rows, JobOf(s'.pool, InBatch(i)));
    } else {
      assert s'.pool.workers == s.pool.workers;
    }
  }

  lemma WorkerOrigin(cfg: Config, s: State, t: Timed, s': State, w: nat)
    requires Can(cfg, s, t) && s' == Do(cfg, s, t) && w in s'.pool.workers
    ensures var j := s'.pool.workers[w].job; (w in s.pool.workers && s.pool.workers[w].job == j) || j in Rest(s.pool)
  {
  }

  /** The job in a batch or with a worker, still running or already marked, is one that was ordered. */
  lemma {:induction false} JobsKeepTheirOrder(cfg: Config, ss: seq<State>, ts: seq<Timed>, i: nat, j: Job)
    requires PoolRun(cfg, ss, ts) && i < |ss| && InPool(ss[i].pool, j)
    ensures Ordered(ts, i, j)
  {
    if i > 0 {
      ReachableHold(cfg, ss, ts, i - 1);
      assert Can(cfg, ss[i - 1], ts[i - 1]) && ss[i] == Do(cfg, ss[i - 1], ts[i - 1]);
      PoolOrigin(cfg, ss[i - 1], ts[i - 1], j);
      if InPool(ss[i - 1].pool, j) {
        JobsKeepTheirOrder(cfg, ss, ts, i - 1, j);
      } else {
        RowsAreOrdered(cfg, ss, ts, i, j.id);
      }
    }
  }

  // ------------------------------------------------------------------ decisions

  /** Event `e` made a worker with job `j` decide `d` at `now`. */
  predicate Decides(cfg: Config, j: Job, w: nat, e: Event, now: Time, d: Decision) {
    match d
    case Succeed => e == Finish(w, Success)
    case Reschedule(err, at) =>
      && e == Finish(w, Failure(err))
      && (j.maxAttempts < 0 || j.attempts + 1 < j.maxAttempts)
      && at == now + Delay(cfg, j.typ, j.attempts + 1)
    case Bury(err) =>
      || (e == Finish(w, Failure(err)) && 0 <= j.maxAttempts <= j.attempts + 1)
      || (e == NoHandler(w) && j.typ !in cfg.handlers && err == NoHandlerError(j.typ))
  }

  lemma DecisionStep(cfg: Config, s: State, t: Timed, s': State, w: nat)
    requires HoldInv(s) && Can(cfg, s, t) && s' == Do(cfg, s, t) && InDecided(s'.pool, w)
    ensures IsHolder(s.pool, OfWorker(w)) && s'.pool.workers[w].job == s.pool.workers[w].job
    ensures s'.pool.workers[w] == s.pool.workers[w]
            || Decides(cfg, s.pool.workers[w].job, w, t.e, t.now, s'.pool.workers[w].phase.decision)
  {
  }

  /** A worker's decision is the outcome of its own run of the job it holds. */
  lemma {:induction false} DecisionOrigin(cfg: Config, ss: seq<State>, ts: seq<Timed>, k: nat, w: nat) returns (i: nat)
    requires PoolRun(cfg, ss, ts) && k < |ss| && InDecided(ss[k].pool, w)
    ensures i < k && HoldsThroughout(ss, i, k, w) && DecidedAt(cfg, ss, ts, i, w, ss[k].pool.workers[w])
  {
    ReachableHold(cfg, ss, ts, k - 1);
    assert Can(cfg, ss[k - 1], ts[k - 1]);
    DecisionStep(cfg, ss[k - 1], ts[k - 1], ss[k], w);
    if ss[k].pool.workers[w] == ss[k - 1].pool.workers[w] {
      i := DecisionOrigin(cfg, ss, ts, k - 1, w);
    } else {
      i := k - 1;
    }
    HoldsOneMore(ss, i, k, w);
  }

  /** The i-th event made the worker decide as it has. */
  ghost predicate DecidedAt(cfg: Config, ss: seq<State>, ts: seq<Timed>, i: nat, w: nat, wk: Worker)
    requires i < |ts| < |ss|
  {
    && wk.phase.Decided? && IsHolder(ss[i].pool, OfWorker(w)) && ss[i].pool.workers[w].job == wk.job
    && Decides(cfg, wk.job, w, ts[i].e, ts[i].now, wk.phase.decision)
  }

  lemma HoldsOneMore(ss: seq<State>, i: nat, k: nat, w: nat)
    requires i < k < |ss| && HoldsThroughout(ss, i, k - 1, w) && IsHolder(ss[k].pool, OfWorker(w))
    ensures HoldsThroughout(ss, i, k, w)
  {
  }

  /** What a mark leaves in storage of a job that ran as snapshot `j`, the run ending with `e` at `ended`. */
  ghost predicate Told(cfg: Config, j: Job, w: nat, e: Event, ended: Time, rows: Rows) {
    && j.id in rows
    && match e
       case Finish(_, Success) => rows[j.id].status == Done && rows[j.id].attempts == j.attempts
       case Finish(_, Failure(err)) =>
         && rows[j.id].lastError == err && rows[j.id].attempts == j.attempts + 1
         && (if j.maxAttempts < 0 || j.attempts + 1 < j.maxAttempts
             then forall now :: j.id in DueIds(rows, now) <==> now >= ended + Delay(cfg, j.typ, j.attempts + 1)
             else rows[j.id].status == Failed)
       case _ =>
         && rows[j.id].lastError == NoHandlerError(j.typ) && rows[j.id].attempts == j.attempts + 1
         && rows[j.id].status == Failed
  }

  /**
   Every mark tells how that worker's run ended: done on success, with the handler's error and one
   more attempt on failure; and a failure with attempts left makes the job due exactly from its
   time plus the delay on.
   */
  lemma MarksTellTheOutcome(cfg: Config, ss: seq<State>, ts: seq<Timed>, k: nat) returns (i: nat)
    requires PoolRun(cfg, ss, ts) && k < |ts| && ts[k].e.Mark?
    ensures i < k && HoldsThroughout(ss, i, k, ts[k].e.w)
    ensures var w := ts[k].e.w;
            && (ts[i].e.Finish? || ts[i].e.NoHandler?) && ts[i].e.w == w
            && Told(cfg, ss[i].pool.workers[w].job, w, ts[i].e, ts[i].now, ss[k + 1].store.rows)
  {
    var w := ts[k].e.w;
    assert Can(cfg, ss[k], ts[k]) && ss[k + 1] == Do(cfg, ss[k], ts[k]);
    i := DecisionOrigin(cfg, ss, ts, k, w);
    ReachableHold(cfg, ss, ts, k);
    MarkTells(cfg, ss[k], ts[k], ts[i].e, ts[i].now);
  }

  lemma MarkTells(cfg: Config, s: State, t: Timed, e: Event, ended: Time)
    requires HoldInv(s) && Can(cfg, s, t) && t.e.Mark?
    requires var wk := s.pool.workers[t.e.w]; Decides(cfg, wk.job, t.e.w, e, ended, wk.phase.decision)
    ensures Told(cfg, s.pool.workers[t.e.w].job, t.e.w, e, ended, Do(cfg, s, t).store.rows)
  {
    var wk := s.pool.workers[t.e.w];
    assert IsHolder(s.pool, OfWorker(t.e.w)) && Holds(s.store.rows, JobOf(s.pool, OfWorker(t.e.w)));
    assert Do(cfg, s, t).store == Apply(s.store, Step(MarkOp(wk.job, wk.phase.decision), t.e.clock));
  }
}
