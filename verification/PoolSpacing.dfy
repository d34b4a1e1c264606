/** Retries are spaced by the backoff, across crashes, when the clock does not go backwards. */
module PoolSpacing {
  import opened Types
  import opened StoreSpec
  import opened StoreRuns
  import opened Backoff
  import opened Pool
  import opened PoolSafety
  import opened PoolHistory

  ghost predicate Nondecreasing(ts: seq<Timed>) {
    forall i, k | 0 <= i <= k < |ts| :: ts[i].now <= ts[k].now
  }

  /** Each recorded attempt starts no earlier than the previous failure plus its delay. */
  ghost predicate Spaced(cfg: Config, typ: string, fs: seq<Attempt>) {
    && (forall i | 0 <= i < |fs| :: fs[i].start <= fs[i].failed)
    && (forall i | 0 < i < |fs| :: fs[i].start >= fs[i - 1].failed + Delay(cfg, typ, i))
  }

  /** The next attempt may not start before this. */
  predicate Due(cfg: Config, j: Job, fs: seq<Attempt>, at: Time) {
    |fs| > 0 ==> at >= fs[|fs| - 1].failed + Delay(cfg, j.typ, |fs|)
  }

  predicate Past(r: Record, at: Time) { r.clock.Some? && at <= r.clock.value }

  ghost predicate RowSpaced(cfg: Config, j: Job, r: Record) {
    var fs := Get(r.failures, j.id);
    && Spaced(cfg, j.typ, fs)
    && (|fs| > 0 ==> Past(r, fs[|fs| - 1].failed))
    && (Active(j) ==> Due(cfg, j, fs, j.runAt))
    && (j.status == Running ==> j.id in r.claimedAt && j.runAt <= r.claimedAt[j.id] && Past(r, r.claimedAt[j.id]))
  }

  /** A failure about to be marked lies after the claim; its retry time is the failure plus the delay. */
  predicate WorkerSpaced(cfg: Config, wk: Worker, r: Record) {
    var j := wk.job;
    wk.phase.Decided? && !wk.phase.decision.Succeed? ==>
      && j.id in r.failedAt && TimeOf(r.claimedAt, j.id) <= r.failedAt[j.id] && Past(r, r.failedAt[j.id])
      && (wk.phase.decision.Reschedule? ==>
            wk.phase.decision.retryAt == r.failedAt[j.id] + Delay(cfg, j.typ, j.attempts + 1))
  }

  ghost predicate SpaceInv(cfg: Config, s: State, r: Record) {
    && (forall id | id in s.store.rows :: RowSpaced(cfg, s.store.rows[id], r))
    && (forall w | w in s.pool.workers :: WorkerSpaced(cfg, s.pool.workers[w], r))
  }

  predicate SameClaimTime(r: Record, r': Record, id: Id) {
    (id in r'.claimedAt <==> id in r.claimedAt) && TimeOf(r'.claimedAt, id) == TimeOf(r.claimedAt, id)
  }

  /** Claim and failure times change only for the jobs an event claims or fails. */
  lemma ClaimTimesRecorded(s: State, t: Timed, r: Record, id: Id)
    ensures var r' := Recorded(r, s, t);
            && r'.clock == Some(t.now)
            && if t.e.ClaimBatch? && id in t.e.ids
               then id in r'.claimedAt && r'.claimedAt[id] == t.now
               else SameClaimTime(r, r', id)
  {
    match t.e {
      case External(op) =>
      case Finish(w, outcome) =>
      case _ =>
    }
  }

  lemma FailureTimesRecorded(s: State, t: Timed, r: Record, id: Id)
    ensures var r' := Recorded(r, s, t);
            if Emits(s, t, id).Some?
            then id in r'.failedAt && r'.failedAt[id] == t.now
            else (id in r'.failedAt <==> id in r.failedAt) && TimeOf(r'.failedAt, id) == TimeOf(r.failedAt, id)
  {
  }

  lemma StepKeepsSpacing(cfg: Config, s: State, t: Timed, r: Record)
    requires HoldInv(s) && AccountInv(cfg, s, r) && SpaceInv(cfg, s, r) && Can(cfg, s, t)
    requires r.clock.Some? ==> r.clock.value <= t.now
    ensures SpaceInv(cfg, Do(cfg, s, t), Recorded(r, s, t))
  {
    var s' := Do(cfg, s, t);
    forall id | id in s'.store.rows ensures RowSpaced(cfg, s'.store.rows[id], Recorded(r, s, t)) {
      StepKeepsRowSpaced(cfg, s, t, r, id);
    }
    forall w | w in s'.pool.workers ensures WorkerSpaced(cfg, s'.pool.workers[w], Recorded(r, s, t)) {
      StepKeepsWorkerSpaced(cfg, s, t, r, w);
    }
  }

  lemma StepKeepsRowSpaced(cfg: Config, s: State, t: Timed, r: Record, id: Id)
    requires HoldInv(s) && AccountInv(cfg, s, r) && SpaceInv(cfg, s, r) && Can(cfg, s, t)
    requires r.clock.Some? ==> r.clock.value <= t.now
    requires id in Do(cfg, s, t).store.rows
    ensures RowSpaced(cfg, Do(cfg, s, t).store.rows[id], Recorded(r, s, t))
  {
    RowOrigin(s.store, StoreStep(s, t), id);
    if Inserts(StoreStep(s, t).op) {
      InsertKeepsRowSpaced(cfg, s, t, r, id);
    } else if t.e.Mark? {
      MarkKeepsRowSpaced(cfg, s, t, r, id);
    } else {
      MoveKeepsRowSpaced(cfg, s, t, r, id);
    }
  }

  lemma InsertKeepsRowSpaced(cfg: Config, s: State, t: Timed, r: Record, id: Id)
    requires SpaceInv(cfg, s, r) && Can(cfg, s, t) && Inserts(StoreStep(s, t).op)
    requires r.clock.Some? ==> r.clock.value <= t.now
    requires id in Do(cfg, s, t).store.rows && Do(cfg, s, t).store.rows[id].id == id
    requires var st, row' := StoreStep(s, t), Do(cfg, s, t).store.rows[id];
             (id == st.op.job.id && row' == st.op.job) || (id in s.store.rows && row' == s.store.rows[id])
    ensures RowSpaced(cfg, Do(cfg, s, t).store.rows[id], Recorded(r, s, t))
  {
    assert t.e.External?;
    FailuresRecorded(cfg, s, t, r, id);
    ClaimTimesRecorded(s, t, r, id);
    UntouchedRowSpaced(cfg, Do(cfg, s, t).store.rows[id], r, Recorded(r, s, t));
  }

  lemma MarkKeepsRowSpaced(cfg: Config, s: State, t: Timed, r: Record, id: Id)
    requires HoldInv(s) && AccountInv(cfg, s, r) && SpaceInv(cfg, s, r) && Can(cfg, s, t) && t.e.Mark?
    requires r.clock.Some? ==> r.clock.value <= t.now
    requires id in s.store.rows && id in Do(cfg, s, t).store.rows
    requires Do(cfg, s, t).store.rows[id] == Moved(s.store.rows[id], StoreStep(s, t))
    ensures RowSpaced(cfg, Do(cfg, s, t).store.rows[id], Recorded(r, s, t))
  {
    FailuresRecorded(cfg, s, t, r, id);
    ClaimTimesRecorded(s, t, r, id);
    MarkedRowIsHeld(cfg, s, t);
    MarkedRowSpaced(cfg, s.store.rows[id], s.pool.workers[t.e.w], t.e.clock, r, Recorded(r, s, t));
  }

  lemma MoveKeepsRowSpaced(cfg: Config, s: State, t: Timed, r: Record, id: Id)
    requires KeyedById(s.store.rows) && SpaceInv(cfg, s, r) && Can(cfg, s, t)
    requires !Inserts(StoreStep(s, t).op) && !t.e.Mark?
    requires r.clock.Some? ==> r.clock.value <= t.now
    requires id in s.store.rows && id in Do(cfg, s, t).store.rows
    requires Do(cfg, s, t).store.rows[id] == Moved(s.store.rows[id], StoreStep(s, t))
    ensures RowSpaced(cfg, Do(cfg, s, t).store.rows[id], Recorded(r, s, t))
  {
    FailuresRecorded(cfg, s, t, r, id);
    ClaimTimesRecorded(s, t, r, id);
    ClaimedRowIsDue(cfg, s, t);
    MovedRowSpaced(cfg, s.store.rows[id], StoreStep(s, t), r, Recorded(r, s, t), t.now);
  }

  lemma ClaimedRowIsDue(cfg: Config, s: State, t: Timed)
    requires Can(cfg, s, t)
    ensures t.e.ClaimBatch? ==> forall id | id in t.e.ids ::
              id in s.store.rows && s.store.rows[id].status == Pending && s.store.rows[id].runAt <= t.now
  {
  }

  lemma UntouchedRowSpaced(cfg: Config, row: Job, r: Record, r': Record)
    requires RowSpaced(cfg, row, r) || (Get(r'.failures, row.id) == [] && row.status == Pending)
    requires r'.clock.Some? && (r.clock.Some? ==> r.clock.value <= r'.clock.value)
    requires SameClaimTime(r, r', row.id)
    requires Get(r'.failures, row.id) == [] || Get(r'.failures, row.id) == Get(r.failures, row.id)
    ensures RowSpaced(cfg, row, r')
  {
  }

  lemma MarkedRowSpaced(cfg: Config, row: Job, wk: Worker, clock: Time, r: Record, r': Record)
    requires RowSpaced(cfg, row, r) && WorkerSpaced(cfg, wk, r) && wk.phase.Decided?
    requires |Get(r.failures, row.id)| == row.attempts
    requires row.id == wk.job.id ==> row == wk.job && row.status == Running
    requires r'.clock.Some? && (r.clock.Some? ==> r.clock.value <= r'.clock.value)
    requires SameClaimTime(r, r', row.id)
    requires Get(r'.failures, row.id) ==
             if row.id == wk.job.id && !wk.phase.decision.Succeed?
             then Get(r.failures, row.id) + [Attempt(TimeOf(r.claimedAt, row.id), TimeOf(r.failedAt, row.id))]
             else Get(r.failures, row.id)
    ensures RowSpaced(cfg, Moved(row, Step(MarkOp(wk.job, wk.phase.decision), clock)), r')
  {
  }

  lemma MovedRowSpaced(cfg: Config, row: Job, st: Step, r: Record, r': Record, now: Time)
    requires RowSpaced(cfg, row, r) && !Inserts(st.op) && !st.op.MarkDone? && !st.op.MarkFailed?
    requires r'.clock == Some(now) && (r.clock.Some? ==> r.clock.value <= now)
    requires st.op.Claim? && row.id in st.op.ids ==>
               row.status == Pending && row.runAt <= now && row.id in r'.claimedAt && r'.claimedAt[row.id] == now
    requires !(st.op.Claim? && row.id in st.op.ids) ==>
               SameClaimTime(r, r', row.id)
    requires Get(r'.failures, row.id)
          == if st.op == RetryJob(row.id) && row.status == Failed then [] else Get(r.failures, row.id)
    ensures RowSpaced(cfg, Moved(row, st), r')
  {
  }

  lemma StepKeepsWorkerSpaced(cfg: Config, s: State, t: Timed, r: Record, w: nat)
    requires HoldInv(s) && AccountInv(cfg, s, r) && SpaceInv(cfg, s, r) && Can(cfg, s, t)
    requires r.clock.Some? ==> r.clock.value <= t.now
    requires w in Do(cfg, s, t).pool.workers
    ensures WorkerSpaced(cfg, Do(cfg, s, t).pool.workers[w], Recorded(r, s, t))
  {
    var s' := Do(cfg, s, t);
    if Owes(s'.pool, w) {
      var id := s'.pool.workers[w].job.id;
      ClaimTimesRecorded(s, t, r, id);
      FailureTimesRecorded(s, t, r, id);
      OwingBefore(cfg, s, t, r, w);
      if Owes(s.pool, w) {
        assert IsHolder(s.pool, OfWorker(w)) && Holds(s.store.rows, JobOf(s.pool, OfWorker(w)));
        NotClaimedNow(cfg, s, t, id);
        assert WorkerSpaced(cfg, s.pool.workers[w], r);
      } else {
        UndecidedOwesNothing(s, w);
        assert RowSpaced(cfg, s.store.rows[id], r);
      }
    }
  }

  lemma NotClaimedNow(cfg: Config, s: State, t: Timed, id: Id)
    requires Can(cfg, s, t) && id in s.store.rows && s.store.rows[id].status == Running
    ensures !(t.e.ClaimBatch? && id in t.e.ids)
  {
    if t.e.ClaimBatch? {
      ClaimedIdsArePending(s, t);
    }
  }

  /** A worker owing a failure after a step owed it before, or has just seen its job fail. */
  lemma OwingBefore(cfg: Config, s: State, t: Timed, r: Record, w: nat)
    requires HoldInv(s) && AccountInv(cfg, s, r) && Can(cfg, s, t) && Owes(Do(cfg, s, t).pool, w)
    ensures var p, wk' := s.pool, Do(cfg, s, t).pool.workers[w];
            || (Owes(p, w) && wk' == p.workers[w] && Emits(s, t, wk'.job.id).None?)
            || JustFailed(cfg, s, t, wk', w)
  {
    if Owes(s.pool, w) {
      StillOwing(cfg, s, t, Do(cfg, s, t), w);
    } else {
      NewlyOwing(cfg, s, t, Do(cfg, s, t), w);
    }
  }

  predicate JustFailed(cfg: Config, s: State, t: Timed, wk': Worker, w: nat) {
    && (At(s.pool, w, Spawned) || At(s.pool, w, Executing)) && wk'.job == s.pool.workers[w].job
    && Emits(s, t, wk'.job.id).Some?
    && (wk'.phase.Decided? && wk'.phase.decision.Reschedule? ==>
          wk'.phase.decision.retryAt == t.now + Delay(cfg, wk'.job.typ, wk'.job.attempts + 1))
  }

  lemma StillOwing(cfg: Config, s: State, t: Timed, s': State, w: nat)
    requires HoldInv(s) && Can(cfg, s, t) && s' == Do(cfg, s, t) && Owes(s.pool, w) && Owes(s'.pool, w)
    ensures s'.pool.workers[w] == s.pool.workers[w] && Emits(s, t, s.pool.workers[w].job.id).None?
  {
    if t.e.NoHandler? || t.e.Finish? {
      assert IsHolder(s.pool, OfWorker(w)) && IsHolder(s.pool, OfWorker(t.e.w)) && OfWorker(w) != OfWorker(t.e.w);
      assert JobOf(s.pool, OfWorker(w)).id != JobOf(s.pool, OfWorker(t.e.w)).id;
    }
  }

  lemma NewlyOwing(cfg: Config, s: State, t: Timed, s': State, w: nat)
    requires FreshWorkers(s.pool) && Can(cfg, s, t) && s' == Do(cfg, s, t) && !Owes(s.pool, w) && Owes(s'.pool, w)
    ensures JustFailed(cfg, s, t, s'.pool.workers[w], w)
  {
    assert t.e.NoHandler? || t.e.Finish?;
  }

  lemma {:induction false} ReachableSpacing(cfg: Config, ss: seq<State>, ts: seq<Timed>, i: nat)
    requires PoolRun(cfg, ss, ts) && i < |ss| && Nondecreasing(ts)
    ensures SpaceInv(cfg, ss[i], RecordOf(ss[..i + 1], ts[..i]))
    ensures i > 0 ==> RecordOf(ss[..i + 1], ts[..i]).clock == Some(ts[i - 1].now)
    ensures i == 0 ==> RecordOf(ss[..i + 1], ts[..i]).clock == None
  {
    if i > 0 {
      ReachableSpacing(cfg, ss, ts, i - 1);
      ReachableHold(cfg, ss, ts, i - 1);
      ReachableAccount(cfg, ss, ts, i - 1);
      RecordOfPrefix(ss, ts, i);
      StepKeepsSpacing(cfg, ss[i - 1], ts[i - 1], RecordOf(ss[..i], ts[..i - 1]));
    }
  }

  // ------------------------------------------------------------------ consequences

  /** The sum of the delays after failures 1 to n. */
  function TotalDelay(cfg: Config, typ: string, n: nat): Duration {
    if n == 0 then 0 else TotalDelay(cfg, typ, n - 1) + Delay(cfg, typ, n)
  }

  lemma {:induction false} SpacedAddsUp(cfg: Config, typ: string, fs: seq<Attempt>, n: nat)
    requires Spaced(cfg, typ, fs) && n < |fs|
    ensures fs[n].failed >= fs[0].start + TotalDelay(cfg, typ, n)
  {
    if n > 0 {
      SpacedAddsUp(cfg, typ, fs, n - 1);
    }
  }

  /**
   Retry spacing, across crashes and re-claims: each recorded attempt starts no earlier than
   the previous failure plus `calcBackoff`, and the last failure comes no earlier than the
   first start plus all delays in between.
   */
  lemma RetrySpacing(cfg: Config, ss: seq<State>, ts: seq<Timed>, i: nat, id: Id)
    requires PoolRun(cfg, ss, ts) && 0 < i < |ss| && Nondecreasing(ts) && id in ss[i].store.rows
    ensures var fs, typ := Get(RecordOf(ss[..i + 1], ts[..i]).failures, id), ss[i].store.rows[id].typ;
            && |fs| == ss[i].store.rows[id].attempts
            && Spaced(cfg, typ, fs)
            && (|fs| > 0 ==> ts[i - 1].now >= fs[|fs| - 1].failed >= fs[0].start + TotalDelay(cfg, typ, |fs| - 1))
  {
    ReachableSpacing(cfg, ss, ts, i);
    ReachableAccount(cfg, ss, ts, i);
    ReachableHold(cfg, ss, ts, i);
    SpacedRow(cfg, ss[i], RecordOf(ss[..i + 1], ts[..i]), id, ts[i - 1].now);
  }

  /** What the invariants say of one row. */
  lemma SpacedRow(cfg: Config, s: State, r: Record, id: Id, now: Time)
    requires KeyedById(s.store.rows) && SpaceInv(cfg, s, r) && AccountInv(cfg, s, r)
    requires id in s.store.rows && r.clock == Some(now)
    ensures var fs, j := Get(r.failures, id), s.store.rows[id];
            && |fs| == j.attempts
            && Spaced(cfg, j.typ, fs)
            && (|fs| > 0 ==> now >= fs[|fs| - 1].failed >= fs[0].start + TotalDelay(cfg, j.typ, |fs| - 1))
  {
    var fs, j := Get(r.failures, id), s.store.rows[id];
    assert RowSpaced(cfg, j, r);
    if |fs| > 0 {
      SpacedAddsUp(cfg, j.typ, fs, |fs| - 1);
    }
  }

  /** A dead-lettered job with M = max(1, MaxAttempts) took at least the first M-1 delays. */
  lemma DeadLetterTakesAllDelays(cfg: Config, ss: seq<State>, ts: seq<Timed>, i: nat, id: Id)
    requires PoolRun(cfg, ss, ts) && 0 < i < |ss| && Nondecreasing(ts) && id in ss[i].store.rows
    requires ss[i].store.rows[id].status == Failed && ss[i].store.rows[id].typ in cfg.handlers
    ensures var j, fs := ss[i].store.rows[id], Get(RecordOf(ss[..i + 1], ts[..i]).failures, id);
            && |fs| == Max(1, j.maxAttempts)
            && ts[i - 1].now >= fs[0].start + TotalDelay(cfg, j.typ, Max(1, j.maxAttempts) - 1)
  {
    RetrySpacing(cfg, ss, ts, i, id);
    AttemptAccounting(cfg, ss, ts, i, id);
  }

  /** The sum of min(base * 2^(k-1), cap) for k from 1 to n. */
  function ExactTotal(base: Duration, cap: Duration, n: nat): Duration {
    if n == 0 then 0 else ExactTotal(base, cap, n - 1) + Min(base * Pow2(n - 1), cap)
  }

  /** Within the exact range the delays are the advertised ones. */
  lemma {:induction false} TotalDelayInRange(cfg: Config, typ: string, base: Duration, cap: Duration, n: nat)
    requires base == if typ in cfg.defs && cfg.defs[typ].backoffBase > 0
                     then cfg.defs[typ].backoffBase else cfg.backoffBase
    requires cap == if typ in cfg.defs && cfg.defs[typ].backoffCap > 0
                    then cfg.defs[typ].backoffCap else cfg.backoffCap
    requires Sound(base, cap) && (n > 0 ==> InRange(base, n))
    ensures TotalDelay(cfg, typ, n) == ExactTotal(base, cap, n)
  {
    if n > 0 {
      TypeDelay(cfg, typ, n, base, cap);
      if n > 1 {
        Pow2Monotone(n - 2, n - 1);
        MulMonotone(base, Pow2(n - 2), Pow2(n - 1));
      }
      TotalDelayInRange(cfg, typ, base, cap, n - 1);
    }
  }

  /** A row caught running by a crash is due the moment it is recovered. */
  lemma RecoveredIsClaimableAtOnce(cfg: Config, ss: seq<State>, ts: seq<Timed>, i: nat, id: Id, now: Time)
    requires PoolRun(cfg, ss, ts) && i < |ts| && ts[i].e == Start && Nondecreasing(ts)
    requires id in ss[i].store.rows && ss[i].store.rows[id].status == Running && now >= ts[i].now
    ensures id in DueIds(ss[i + 1].store.rows, now)
  {
    ReachableSpacing(cfg, ss, ts, i);
    ReachableHold(cfg, ss, ts, i);
    RestartRecovers(cfg, ss, ts, i);
    assert RowSpaced(cfg, ss[i].store.rows[id], RecordOf(ss[..i + 1], ts[..i]));
    assert id in WithStatus(ss[i].store.rows, Running);
    assert id in WithStatus(ss[i + 1].store.rows, Pending);
  }
}
