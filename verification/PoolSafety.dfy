/**
 What every reachable state of the worker pool keeps: exclusive hold of running rows, the
 semaphore and wait-group counts, and a cancel registry that only names live registrations.
 */
module PoolSafety {
  import opened Types
  import opened StoreSpec
  import opened StoreRuns
  import opened Pool

  // ------------------------------------------------------------------ exclusive hold

  /** Claimed and not yet marked. */
  predicate Holding(wk: Worker) { wk.phase.Spawned? || wk.phase.Executing? || wk.phase.Decided? }

  function Rest(p: PoolState): seq<Job> { if p.poller.Batch? then p.poller.rest else [] }

  /** The snapshot is the row, field by field, and the row is running. */
  predicate Holds(rows: Rows, j: Job) {
    j.id in rows && rows[j.id] == j && j.status == Running
  }

  /** Where a claimed job is: still in the poller's batch, or with a worker. */
  datatype Holder = InBatch(i: nat) | OfWorker(w: nat)

  predicate IsHolder(p: PoolState, h: Holder) {
    match h
    case InBatch(i) => i < |Rest(p)|
    case OfWorker(w) => w in p.workers && Holding(p.workers[w])
  }

  function JobOf(p: PoolState, h: Holder): Job
    requires IsHolder(p, h)
  {
    match h
    case InBatch(i) => Rest(p)[i]
    case OfWorker(w) => p.workers[w].job
  }

  predicate HeldBy(p: PoolState, id: Id, h: Holder) {
    IsHolder(p, h) && JobOf(p, h).id == id
  }

  ghost predicate SnapshotsHold(rows: Rows, p: PoolState) {
    forall h | IsHolder(p, h) :: Holds(rows, JobOf(p, h))
  }

  ghost predicate HeldOnce(p: PoolState) {
    forall g, h | IsHolder(p, g) && IsHolder(p, h) && JobOf(p, g).id == JobOf(p, h).id :: g == h
  }

  ghost predicate RunningHeld(rows: Rows, p: PoolState) {
    forall id | id in rows && rows[id].status == Running :: exists h :: HeldBy(p, id, h)
  }

  ghost predicate FreshWorkers(p: PoolState) {
    forall w | w in p.workers :: w < p.next
  }

  ghost predicate HoldInv(s: State) {
    && StoreInv(s.store)
    && SnapshotsHold(s.store.rows, s.pool)
    && HeldOnce(s.pool)
    && (if s.up then RunningHeld(s.store.rows, s.pool) else s.pool == DOWN)
    && FreshWorkers(s.pool)
  }

  /** Only a mark of that very job, or recovery, touches a running row. */
  lemma RunningRowStays(s: Store, st: Step, j: Job)
    requires StoreInv(s) && Enabled(s, st) && Holds(s.rows, j)
    requires st.op != RecoverStuck
    requires (st.op.MarkDone? || st.op.MarkFailed?) ==> st.op.id != j.id
    ensures Holds(Apply(s, st).rows, j)
  {
    if st.op.EnqueueDedup? {
      DedupShape(s, st);
      if j.key == st.op.job.key {
        ConflictIsTheRow(s, st, j.id);
      }
    } else if !st.op.Enqueue? {
      StepIsPointwise(s, st);
    }
  }

  /** A row becomes running only by being claimed. */
  lemma RunningComesFromClaim(s: Store, st: Step, id: Id)
    requires StoreInv(s) && Enabled(s, st)
    requires id in Apply(s, st).rows && Apply(s, st).rows[id].status == Running
    ensures (id in s.rows && s.rows[id].status == Running) || (st.op.Claim? && id in st.op.ids)
  {
    if st.op.EnqueueDedup? {
      DedupShape(s, st);
    } else if !st.op.Enqueue? {
      StepIsPointwise(s, st);
    }
  }

  /** Marking ends the run of the marked row. */
  lemma MarkedIsNotRunning(s: Store, st: Step)
    requires StoreInv(s) && Enabled(s, st) && (st.op.MarkDone? || st.op.MarkFailed?)
    requires st.op.id in s.rows
    ensures st.op.id in Apply(s, st).rows && Apply(s, st).rows[st.op.id].status != Running
  {
  }

  lemma ClaimedIdsArePending(s: State, t: Timed)
    requires Enabled(s.store, StoreStep(s, t)) && t.e.ClaimBatch? && s.pool.poller.Sampled?
    ensures forall id | id in t.e.ids :: id in s.store.rows && s.store.rows[id].status == Pending
    ensures Distinct(t.e.ids)
  {
  }

  lemma StepKeepsHold(cfg: Config, s: State, t: Timed)
    requires HoldInv(s) && Can(cfg, s, t)
    ensures HoldInv(Do(cfg, s, t))
  {
    StepKeepsStoreInv(s.store, StoreStep(s, t));
    StepKeepsFreshWorkers(cfg, s, t);
    if t.e == Start {
      StartKeepsHold(cfg, s, t);
    } else if t.e == Crash {
      CrashKeepsHold(cfg, s, t);
    } else if t.e.ClaimBatch? {
      ClaimKeepsHold(cfg, s, t);
    } else if t.e.Mark? {
      MarkKeepsHold(cfg, s, t);
    } else if t.e == Spawn {
      SpawnKeepsHold(cfg, s, t);
    } else {
      SameHolders(cfg, s, t);
      FrameKeepsHold(cfg, s, t);
    }
  }

  lemma CrashKeepsHold(cfg: Config, s: State, t: Timed)
    requires HoldInv(s) && Can(cfg, s, t) && t.e == Crash
    ensures HoldInv(Do(cfg, s, t))
  {
  }

  lemma StepKeepsFreshWorkers(cfg: Config, s: State, t: Timed)
    requires FreshWorkers(s.pool) && Can(cfg, s, t)
    ensures FreshWorkers(Do(cfg, s, t).pool)
  {
  }

  /** Most steps move no claimed job. */
  lemma SameHolders(cfg: Config, s: State, t: Timed)
    requires Can(cfg, s, t)
    requires !t.e.Start? && !t.e.Crash? && !t.e.ClaimBatch? && !t.e.Mark? && !t.e.Spawn?
    ensures var p, p' := s.pool, Do(cfg, s, t).pool;
            forall h :: (IsHolder(p', h) <==> IsHolder(p, h)) && (IsHolder(p, h) ==> JobOf(p', h) == JobOf(p, h))
    ensures Do(cfg, s, t).up == s.up && (s.pool == DOWN && !s.up ==> Do(cfg, s, t).pool == DOWN)
  {
  }

  lemma FrameKeepsHold(cfg: Config, s: State, t: Timed)
    requires HoldInv(s) && Can(cfg, s, t) && StoreInv(Do(cfg, s, t).store) && FreshWorkers(Do(cfg, s, t).pool)
    requires !t.e.Start? && !t.e.Crash? && !t.e.ClaimBatch? && !t.e.Mark? && !t.e.Spawn?
    requires Do(cfg, s, t).up == s.up && (!s.up ==> Do(cfg, s, t).pool == DOWN)
    requires var p, p' := s.pool, Do(cfg, s, t).pool;
             forall h :: (IsHolder(p', h) <==> IsHolder(p, h)) && (IsHolder(p, h) ==> JobOf(p', h) == JobOf(p, h))
    ensures HoldInv(Do(cfg, s, t))
  {
    var s', st := Do(cfg, s, t), StoreStep(s, t);
    forall h | IsHolder(s'.pool, h) ensures Holds(s'.store.rows, JobOf(s'.pool, h)) {
      RunningRowStays(s.store, st, JobOf(s.pool, h));
    }
    forall id | id in s'.store.rows && s'.store.rows[id].status == Running && s.up
      ensures exists h :: HeldBy(s'.pool, id, h)
    {
      RunningComesFromClaim(s.store, st, id);
      var h :| HeldBy(s.pool, id, h);
      assert HeldBy(s'.pool, id, h);
    }
  }

  lemma StartKeepsHold(cfg: Config, s: State, t: Timed)
    requires HoldInv(s) && Can(cfg, s, t) && t.e == Start && StoreInv(Do(cfg, s, t).store)
    ensures HoldInv(Do(cfg, s, t))
  {
    RecoveryRequeuesRunning(s.store.rows, t.now);
    var rows' := Do(cfg, s, t).store.rows;
    assert forall id | id in rows' && rows'[id].status == Running :: id in WithStatus(rows', Running);
  }

  lemma ClaimFillsBatch(cfg: Config, s: State, t: Timed)
    requires HoldInv(s) && Can(cfg, s, t) && t.e.ClaimBatch?
    ensures Claims(s, Do(cfg, s, t), StoreStep(s, t)) && Do(cfg, s, t).up
  {
    ClaimedIdsArePending(s, t);
  }

  lemma ClaimKeepsHold(cfg: Config, s: State, t: Timed)
    requires HoldInv(s) && Can(cfg, s, t) && t.e.ClaimBatch? && StoreInv(Do(cfg, s, t).store)
    requires FreshWorkers(Do(cfg, s, t).pool)
    ensures HoldInv(Do(cfg, s, t))
  {
    ClaimFillsBatch(cfg, s, t);
    ClaimedRowsAreHeld(s, Do(cfg, s, t), StoreStep(s, t));
  }

  /** The batch is the poller's, over untouched workers. */
  ghost predicate Claims(s: State, s': State, st: Step) {
    && HoldInv(s) && Enabled(s.store, st) && s'.store == Apply(s.store, st) && st.op.Claim? && s.up
    && Distinct(st.op.ids)
    && (forall id | id in st.op.ids :: id in s.store.rows && s.store.rows[id].status == Pending
                                       && id in s'.store.rows && Holds(s'.store.rows, s'.store.rows[id]))
    && Rest(s'.pool) == CopiesOf(s'.store.rows, st.op.ids)
    && (forall h | IsHolder(s'.pool, h) && h.OfWorker? ::
          IsHolder(s.pool, h) && JobOf(s.pool, h) == JobOf(s'.pool, h))
    && (forall h | IsHolder(s.pool, h) ::
          h.OfWorker? && IsHolder(s'.pool, h) && JobOf(s.pool, h) == JobOf(s'.pool, h))
  }

  lemma ClaimedRowsAreHeld(s: State, s': State, st: Step)
    requires Claims(s, s', st)
    ensures SnapshotsHold(s'.store.rows, s'.pool) && HeldOnce(s'.pool) && RunningHeld(s'.store.rows, s'.pool)
  {
    ClaimedSnapshotsHold(s, s', st);
    ClaimedRunningHeld(s, s', st);
    BatchHeldOnce(s'.pool, s'.store.rows, st.op.ids);
  }

  lemma ClaimedSnapshotsHold(s: State, s': State, st: Step)
    requires Claims(s, s', st)
    ensures SnapshotsHold(s'.store.rows, s'.pool)
  {
    forall h | IsHolder(s'.pool, h) ensures Holds(s'.store.rows, JobOf(s'.pool, h)) {
      if h.OfWorker? {
        RunningRowStays(s.store, st, JobOf(s.pool, h));
      } else {
        assert st.op.ids[h.i] in st.op.ids;
      }
    }
  }

  lemma ClaimedRunningHeld(s: State, s': State, st: Step)
    requires Claims(s, s', st)
    ensures RunningHeld(s'.store.rows, s'.pool)
  {
    var p', rows', ids := s'.pool, s'.store.rows, st.op.ids;
    forall id | id in rows' && rows'[id].status == Running ensures exists h :: HeldBy(p', id, h) {
      RunningComesFromClaim(s.store, st, id);
      if id in ids {
        var i :| 0 <= i < |ids| && ids[i] == id;
        assert HeldBy(p', id, InBatch(i));
      } else {
        var h :| HeldBy(s.pool, id, h);
        assert HeldBy(p', id, h);
      }
    }
  }

  lemma BatchHeldOnce(p': PoolState, rows': Rows, ids: seq<Id>)
    requires Distinct(ids) && forall id | id in ids :: id in rows' && rows'[id].id == id
    requires Rest(p') == CopiesOf(rows', ids)
    requires forall h | IsHolder(p', h) && h.OfWorker? :: JobOf(p', h).id !in ids
    requires forall g, h | IsHolder(p', g) && IsHolder(p', h) && g.OfWorker? && h.OfWorker?
                           && JobOf(p', g).id == JobOf(p', h).id :: g == h
    ensures HeldOnce(p')
  {
    assert forall i | 0 <= i < |ids| :: ids[i] in ids;
    assert forall i | 0 <= i < |ids| :: Rest(p')[i].id == ids[i];
  }

  lemma MarkDropsHolder(cfg: Config, s: State, t: Timed)
    requires HoldInv(s) && Can(cfg, s, t) && t.e.Mark?
    ensures var p', me := Do(cfg, s, t).pool, OfWorker(t.e.w);
            && IsHolder(s.pool, me)
            && StoreStep(s, t).op == MarkOp(JobOf(s.pool, me), s.pool.workers[t.e.w].phase.decision)
            && (forall h :: IsHolder(p', h) <==> IsHolder(s.pool, h) && h != me)
            && (forall h | IsHolder(p', h) :: JobOf(s.pool, h) == JobOf(p', h))
            && s.up && Do(cfg, s, t).up
            && Do(cfg, s, t).store == Apply(s.store, StoreStep(s, t))
  {
  }

  lemma MarkKeepsHold(cfg: Config, s: State, t: Timed)
    requires HoldInv(s) && Can(cfg, s, t) && t.e.Mark? && StoreInv(Do(cfg, s, t).store)
    requires FreshWorkers(Do(cfg, s, t).pool)
    ensures HoldInv(Do(cfg, s, t))
  {
    MarkDropsHolder(cfg, s, t);
    MarkedRowLeavesHold(s, Do(cfg, s, t), StoreStep(s, t), OfWorker(t.e.w));
  }

  lemma MarkedRowLeavesHold(s: State, s': State, st: Step, me: Holder)
    requires HoldInv(s) && Enabled(s.store, st) && s'.store == Apply(s.store, st) && StoreInv(s'.store)
    requires IsHolder(s.pool, me) && (st.op.MarkDone? || st.op.MarkFailed?) && st.op.id == JobOf(s.pool, me).id
    requires forall h :: IsHolder(s'.pool, h) <==> IsHolder(s.pool, h) && h != me
    requires forall h | IsHolder(s'.pool, h) :: JobOf(s.pool, h) == JobOf(s'.pool, h)
    requires s.up
    ensures SnapshotsHold(s'.store.rows, s'.pool) && HeldOnce(s'.pool) && RunningHeld(s'.store.rows, s'.pool)
  {
    forall h | IsHolder(s'.pool, h) ensures Holds(s'.store.rows, JobOf(s'.pool, h)) {
      RunningRowStays(s.store, st, JobOf(s.pool, h));
    }
    MarkedIsNotRunning(s.store, st);
    forall id | id in s'.store.rows && s'.store.rows[id].status == Running ensures exists h :: HeldBy(s'.pool, id, h) {
      RunningComesFromClaim(s.store, st, id);
      var h :| HeldBy(s.pool, id, h);
      assert HeldBy(s'.pool, id, h);
    }
  }

  /** Where the holder was before the head of the batch went to a new worker. */
  function BeforeSpawn(p: PoolState, h: Holder): Holder {
    match h
    case InBatch(i) => InBatch(i + 1)
    case OfWorker(w) => if w == p.next then InBatch(0) else h
  }

  function AfterSpawn(p: PoolState, h: Holder): Holder {
    match h
    case InBatch(i) => if i == 0 then OfWorker(p.next) else InBatch(i - 1)
    case OfWorker(_) => h
  }

  lemma SpawnMovesHead(cfg: Config, s: State, t: Timed)
    requires FreshWorkers(s.pool) && Can(cfg, s, t) && t.e == Spawn
    ensures var p, p' := s.pool, Do(cfg, s, t).pool;
            && (forall h | IsHolder(p', h) ::
                  IsHolder(p, BeforeSpawn(p, h)) && JobOf(p, BeforeSpawn(p, h)) == JobOf(p', h))
            && (forall h | IsHolder(p, h) ::
                  IsHolder(p', AfterSpawn(p, h)) && JobOf(p', AfterSpawn(p, h)) == JobOf(p, h))
  {
  }

  lemma SpawnKeepsHold(cfg: Config, s: State, t: Timed)
    requires HoldInv(s) && Can(cfg, s, t) && t.e == Spawn && FreshWorkers(Do(cfg, s, t).pool)
    ensures HoldInv(Do(cfg, s, t))
  {
    var p, p' := s.pool, Do(cfg, s, t).pool;
    SpawnMovesHead(cfg, s, t);
    forall g, h | IsHolder(p', g) && IsHolder(p', h) && JobOf(p', g).id == JobOf(p', h).id ensures g == h {
      assert BeforeSpawn(p, g) == BeforeSpawn(p, h);
    }
    forall id | id in s.store.rows && s.store.rows[id].status == Running && s.up ensures exists h :: HeldBy(p', id, h) {
      var h :| HeldBy(p, id, h);
      assert HeldBy(p', id, AfterSpawn(p, h));
    }
  }

  lemma {:induction false} ReachableHold(cfg: Config, ss: seq<State>, ts: seq<Timed>, i: nat)
    requires PoolRun(cfg, ss, ts) && i < |ss|
    ensures HoldInv(ss[i])
  {
    if i > 0 {
      ReachableHold(cfg, ss, ts, i - 1);
      StepKeepsHold(cfg, ss[i - 1], ts[i - 1]);
    }
  }

  /**
   Exclusive hold. While the pool is up, the claimed-but-unmarked jobs are pairwise distinct
   and are exactly the running rows, each holder's snapshot being its row.
   */
  lemma ExclusiveHold(cfg: Config, ss: seq<State>, ts: seq<Timed>, i: nat)
    requires PoolRun(cfg, ss, ts) && i < |ss| && ss[i].up
    ensures var rows, p := ss[i].store.rows, ss[i].pool;
            && (forall h | IsHolder(p, h) :: JobOf(p, h).id in rows && rows[JobOf(p, h).id] == JobOf(p, h))
            && (forall g, h | IsHolder(p, g) && IsHolder(p, h) && g != h :: JobOf(p, g).id != JobOf(p, h).id)
            && (forall id :: id in WithStatus(rows, Running) <==> exists h :: HeldBy(p, id, h))
  {
    ReachableHold(cfg, ss, ts, i);
  }

  /** So a worker's mark always finds its row, and finds it running. */
  lemma MarksAlwaysFindTheirRow(cfg: Config, ss: seq<State>, ts: seq<Timed>, i: nat)
    requires PoolRun(cfg, ss, ts) && i < |ts| && ts[i].e.Mark?
    ensures var op := StoreStep(ss[i], ts[i]).op;
            && (op.MarkDone? || op.MarkFailed?)
            && op.id in ss[i].store.rows && ss[i].store.rows[op.id].status == Running
            && ss[i + 1].store.rows[op.id].status != Running
  {
    ReachableHold(cfg, ss, ts, i);
    assert Can(cfg, ss[i], ts[i]) && ss[i + 1] == Do(cfg, ss[i], ts[i]);
    assert IsHolder(ss[i].pool, OfWorker(ts[i].e.w));
    assert Holds(ss[i].store.rows, JobOf(ss[i].pool, OfWorker(ts[i].e.w)));
    MarkedIsNotRunning(ss[i].store, StoreStep(ss[i], ts[i]));
  }

  // ------------------------------------------------------------------ semaphore and wait group

  function Slots(p: PoolState): set<nat> {
    set w | w in p.workers && p.workers[w].phase != Released
  }

  /** The slot and the wait-group count the poller has taken for a worker it has not yet spawned. */
  function SlotInHand(p: PoolState): int { if p.poller.Batch? && p.poller.gate != NeedSlot then 1 else 0 }

  function WaitInHand(p: PoolState): int { if p.poller.Batch? && p.poller.gate == HasWait then 1 else 0 }

  ghost predicate CountInv(cfg: Config, p: PoolState) {
    && p.sem == |Slots(p)| + SlotInHand(p)
    && p.wg == (if p.poller == Stopped then 0 else 1) + |p.workers| + WaitInHand(p)
    && p.sem <= cfg.concurrency
    && (p.poller.Sampled? ==> 0 < p.poller.free <= cfg.concurrency - p.sem)
    && (p.poller.Batch? ==> p.sem + |p.poller.rest| - SlotInHand(p) <= cfg.concurrency
                            && (p.poller.gate != NeedSlot ==> p.poller.rest != []))
  }

  predicate WorkerEvent(e: Event) {
    e.NoHandler? || e.Register? || e.Finish? || e.Mark? || e.Deregister? || e.Release? || e.Leave?
  }

  lemma StepKeepsCounts(cfg: Config, s: State, t: Timed)
    requires CountInv(cfg, s.pool) && FreshWorkers(s.pool) && Can(cfg, s, t)
    ensures CountInv(cfg, Do(cfg, s, t).pool)
  {
    if WorkerEvent(t.e) {
      WorkerStepKeepsCounts(cfg, s, t);
    } else if t.e == Start || t.e == Crash || t.e == Spawn || t.e.ClaimBatch? {
      DispatchKeepsCounts(cfg, s, t);
    } else {
      OtherStepKeepsCounts(cfg, s, t);
    }
  }

  lemma SlotsAfterPhase(p: PoolState, w: nat, phase: Phase)
    requires w in p.workers && p.workers[w].phase != Released
    ensures |Slots(SetPhase(p, w, phase))| == |Slots(p)| - (if phase == Released then 1 else 0)
    ensures |SetPhase(p, w, phase).workers| == |p.workers|
  {
    var p' := SetPhase(p, w, phase);
    assert p'.workers.Keys == p.workers.Keys;
    if phase == Released {
      assert Slots(p') == Slots(p) - {w};
    } else {
      assert Slots(p') == Slots(p);
    }
  }

  lemma SlotsAfterLeave(p: PoolState, w: nat)
    requires w in p.workers && p.workers[w].phase == Released
    ensures |Slots(p.(workers := p.workers - {w}))| == |Slots(p)| && |p.workers - {w}| == |p.workers| - 1
  {
    assert Slots(p.(workers := p.workers - {w})) == Slots(p);
    assert (p.workers - {w}).Keys == p.workers.Keys - {w};
  }

  lemma SlotsOfWorkers(p: PoolState, p': PoolState)
    requires p'.workers == p.workers
    ensures Slots(p') == Slots(p)
  {
  }

  lemma WorkerStepKeepsCounts(cfg: Config, s: State, t: Timed)
    requires CountInv(cfg, s.pool) && Can(cfg, s, t) && WorkerEvent(t.e)
    ensures CountInv(cfg, Do(cfg, s, t).pool)
  {
    var p, p', w := s.pool, Do(cfg, s, t).pool, t.e.w;
    if t.e.Leave? {
      SlotsAfterLeave(p, w);
      SlotsOfWorkers(p.(workers := p.workers - {w}), p');
    } else {
      SlotsAfterPhase(p, w, p'.workers[w].phase);
      SlotsOfWorkers(SetPhase(p, w, p'.workers[w].phase), p');
    }
  }

  lemma DispatchKeepsCounts(cfg: Config, s: State, t: Timed)
    requires CountInv(cfg, s.pool) && FreshWorkers(s.pool) && Can(cfg, s, t)
    requires t.e == Start || t.e == Crash || t.e == Spawn || t.e.ClaimBatch?
    ensures CountInv(cfg, Do(cfg, s, t).pool)
  {
    var p, p' := s.pool, Do(cfg, s, t).pool;
    if t.e == Spawn {
      assert Slots(p') == Slots(p) + {p.next};
      assert p'.workers.Keys == p.workers.Keys + {p.next};
    } else if t.e.ClaimBatch? {
      SlotsOfWorkers(p, p');
      assert |p'.poller.rest| == |t.e.ids| <= p.poller.free;
    } else {
      assert Slots(p') == {};
    }
  }

  lemma OtherStepKeepsCounts(cfg: Config, s: State, t: Timed)
    requires CountInv(cfg, s.pool) && Can(cfg, s, t)
    requires !WorkerEvent(t.e) && t.e != Start && t.e != Crash && t.e != Spawn && !t.e.ClaimBatch?
    ensures CountInv(cfg, Do(cfg, s, t).pool)
  {
    SlotsOfWorkers(s.pool, Do(cfg, s, t).pool);
  }

  lemma {:induction false} ReachableCounts(cfg: Config, ss: seq<State>, ts: seq<Timed>, i: nat)
    requires PoolRun(cfg, ss, ts) && i < |ss|
    ensures CountInv(cfg, ss[i].pool)
  {
    if i == 0 {
      assert Slots(DOWN) == {};
    } else {
      ReachableCounts(cfg, ss, ts, i - 1);
      ReachableHold(cfg, ss, ts, i - 1);
      StepKeepsCounts(cfg, ss[i - 1], ts[i - 1]);
    }
  }

  lemma RunningRowsFit(s: State, concurrency: nat)
    requires HoldInv(s) && s.up
    requires |Slots(s.pool)| + |Rest(s.pool)| <= concurrency
    ensures |WithStatus(s.store.rows, Running)| <= concurrency
  {
    var p := s.pool;
    var waiting := set i | 0 <= i < |Rest(p)| :: Rest(p)[i].id;
    var working := set w | w in Slots(p) :: p.workers[w].job.id;
    forall id | id in WithStatus(s.store.rows, Running) ensures id in waiting + working {
      var h :| HeldBy(p, id, h);
      if h.InBatch? {
        assert Rest(p)[h.i].id == id;
      } else {
        assert h.w in Slots(p);
      }
    }
    RangeImageSize(Rest(p), waiting);
    ImageSize(p, Slots(p), working);
    SubsetSize(WithStatus(s.store.rows, Running), waiting + working);
  }

  lemma {:induction false} RangeImageSize(js: seq<Job>, image: set<Id>)
    requires image == set i | 0 <= i < |js| :: js[i].id
    ensures |image| <= |js|
  {
    if js == [] {
      assert image == {};
    } else {
      var n := |js| - 1;
      var less := set i | 0 <= i < n :: js[i].id;
      assert less == set i | 0 <= i < |js[..n]| :: js[..n][i].id;
      RangeImageSize(js[..n], less);
      assert image == less + {js[n].id};
    }
  }

  lemma {:induction false} ImageSize(p: PoolState, ws: set<nat>, image: set<Id>)
    requires ws <= p.workers.Keys && image == set w | w in ws :: p.workers[w].job.id
    ensures |image| <= |ws|
  {
    if ws == {} {
      assert image == {};
    } else {
      var w :| w in ws;
      var less := set v | v in ws - {w} :: p.workers[v].job.id;
      ImageSize(p, ws - {w}, less);
      assert image == less + {p.workers[w].job.id};
    }
  }

  lemma SubsetSize<T>(a: set<T>, b: set<T>)
    requires a <= b
    ensures |a| <= |b|
  {
    assert b == a + (b - a);
  }

  /**
   Semaphore safety: slots taken plus jobs still to dispatch never exceed the concurrency, so
   the poller's send finds room whenever it is due, and so few rows are ever running.
   */
  lemma SemaphoreSafety(cfg: Config, ss: seq<State>, ts: seq<Timed>, i: nat)
    requires PoolRun(cfg, ss, ts) && i < |ss|
    ensures ss[i].pool.sem + |Rest(ss[i].pool)| - SlotInHand(ss[i].pool) <= cfg.concurrency
    ensures ss[i].pool.poller.Batch? && ss[i].pool.poller.rest != [] && ss[i].pool.poller.gate == NeedSlot ==>
              forall now :: Can(cfg, ss[i], Timed(TakeSlot, now))
    ensures ss[i].up ==> |WithStatus(ss[i].store.rows, Running)| <= cfg.concurrency
  {
    ReachableCounts(cfg, ss, ts, i);
    ReachableHold(cfg, ss, ts, i);
    if ss[i].up {
      RunningRowsFit(ss[i], cfg.concurrency);
    }
  }

  /**
   Graceful drain: the wait group counts the poll loop and the live workers, so when it is
   down to zero nothing is claimed or executing and no row is left running.
   */
  lemma GracefulDrain(cfg: Config, ss: seq<State>, ts: seq<Timed>, i: nat)
    requires PoolRun(cfg, ss, ts) && i < |ss|
    ensures var p := ss[i].pool;
            p.wg == (if p.poller == Stopped then 0 else 1) + |p.workers| + WaitInHand(p)
    ensures ss[i].up && ss[i].pool.wg == 0 ==>
              && ss[i].pool.workers == map[] && ss[i].pool.poller == Stopped
              && WithStatus(ss[i].store.rows, Running) == {}
  {
    ReachableCounts(cfg, ss, ts, i);
    ReachableHold(cfg, ss, ts, i);
    var p := ss[i].pool;
    if ss[i].up && p.wg == 0 {
      assert |p.workers| == 0 && p.workers == map[];
      assert forall h :: !IsHolder(p, h);
    }
  }

  // ------------------------------------------------------------------ crash and restart

  /**
   After process death and the next Start nothing is running, what was running is pending
   again with its attempts and run time, and the store is sound.
   */
  lemma RestartRecovers(cfg: Config, ss: seq<State>, ts: seq<Timed>, i: nat)
    requires PoolRun(cfg, ss, ts) && i < |ts| && ts[i].e == Start
    ensures var before, after := ss[i].store.rows, ss[i + 1].store.rows;
            && WithStatus(after, Running) == {}
            && WithStatus(after, Pending) == WithStatus(before, Pending) + WithStatus(before, Running)
            && after.Keys == before.Keys
            && (forall id | id in before ::
                  after[id].attempts == before[id].attempts && after[id].runAt == before[id].runAt)
            && HoldInv(ss[i + 1])
  {
    ReachableHold(cfg, ss, ts, i + 1);
    assert Can(cfg, ss[i], ts[i]) && ss[i + 1] == Do(cfg, ss[i], ts[i]);
    RecoveryRequeuesRunning(ss[i].store.rows, ts[i].now);
  }

  // ------------------------------------------------------------------ the cancel registry

  /** Registered and not yet deregistered. */
  predicate Registered(p: PoolState, w: nat) {
    && w in p.workers
    && (p.workers[w].phase == Executing
        || (p.workers[w].phase.Decided? && p.workers[w].phase.registered)
        || p.workers[w].phase == Marked(true))
  }

  predicate NamesRegistration(p: PoolState, typ: string, id: Id, w: nat) {
    Registered(p, w) && p.workers[w].job.typ == typ && p.workers[w].job.id == id
  }

  ghost predicate CancelInv(p: PoolState) {
    forall typ, id | typ in p.cancels && id in p.cancels[typ] :: NamesRegistration(p, typ, id, p.cancels[typ][id])
  }

  lemma StepKeepsCancels(cfg: Config, s: State, t: Timed)
    requires CancelInv(s.pool) && FreshWorkers(s.pool) && Can(cfg, s, t)
    ensures CancelInv(Do(cfg, s, t).pool)
  {
    if RegistryEvent(t.e) {
      RegistryStepKeepsCancels(cfg, s, t);
    } else {
      OtherStepKeepsRegistrations(cfg, s, t);
    }
  }

  lemma RegistryStepKeepsCancels(cfg: Config, s: State, t: Timed)
    requires CancelInv(s.pool) && Can(cfg, s, t) && RegistryEvent(t.e)
    ensures CancelInv(Do(cfg, s, t).pool)
  {
  }

  predicate RegistryEvent(e: Event) { e.Register? || e.Deregister? || e.CancelAll? || e.Start? || e.Crash? }

  lemma OtherStepKeepsRegistrations(cfg: Config, s: State, t: Timed)
    requires FreshWorkers(s.pool) && Can(cfg, s, t) && !RegistryEvent(t.e)
    ensures Do(cfg, s, t).pool.cancels == s.pool.cancels
    ensures forall typ, id, w ::
              NamesRegistration(s.pool, typ, id, w) ==> NamesRegistration(Do(cfg, s, t).pool, typ, id, w)
  {
    forall w | Registered(s.pool, w)
      ensures Registered(Do(cfg, s, t).pool, w) && Do(cfg, s, t).pool.workers[w].job == s.pool.workers[w].job
    {
      RegisteredStays(cfg, s, t, w);
    }
    assert Do(cfg, s, t).pool.cancels == s.pool.cancels;
  }

  lemma RegisteredStays(cfg: Config, s: State, t: Timed, w: nat)
    requires FreshWorkers(s.pool) && Can(cfg, s, t) && !RegistryEvent(t.e) && Registered(s.pool, w)
    ensures Registered(Do(cfg, s, t).pool, w) && Do(cfg, s, t).pool.workers[w].job == s.pool.workers[w].job
  {
  }

  lemma {:induction false} ReachableCancels(cfg: Config, ss: seq<State>, ts: seq<Timed>, i: nat)
    requires PoolRun(cfg, ss, ts) && i < |ss|
    ensures CancelInv(ss[i].pool)
  {
    if i > 0 {
      ReachableCancels(cfg, ss, ts, i - 1);
      ReachableHold(cfg, ss, ts, i - 1);
      StepKeepsCancels(cfg, ss[i - 1], ts[i - 1]);
    }
  }

  function RegisteredOf(p: PoolState, typ: string): set<nat> {
    set w | w in p.workers && Registered(p, w) && p.workers[w].job.typ == typ
  }

  /** The workers whose contexts a CancelAll event cancels. */
  function CancelledBy(s: State, t: Timed): set<nat> {
    if t.e.CancelAll? then Entries(s.pool.cancels, t.e.typ).Values else {}
  }

  /** CancelAll cancels only registered workers of that type, and returns at most their number. */
  lemma CancelAllIsSound(cfg: Config, ss: seq<State>, ts: seq<Timed>, i: nat)
    requires PoolRun(cfg, ss, ts) && i < |ts| && ts[i].e.CancelAll?
    ensures var p, typ := ss[i].pool, ts[i].e.typ;
            && CancelledBy(ss[i], ts[i]) <= RegisteredOf(p, typ)
            && |Entries(p.cancels, typ)| == |CancelledBy(ss[i], ts[i])| <= |RegisteredOf(p, typ)|
            && Entries(ss[i + 1].pool.cancels, typ) == map[]
  {
    var p, typ := ss[i].pool, ts[i].e.typ;
    ReachableCancels(cfg, ss, ts, i);
    assert Can(cfg, ss[i], ts[i]) && ss[i + 1] == Do(cfg, ss[i], ts[i]);
    var m := Entries(p.cancels, typ);
    forall id | id in m ensures NamesRegistration(p, typ, id, m[id]) { }
    InjectiveSize(m, p);
    SubsetSize(m.Values, RegisteredOf(p, typ));
  }

  /** The registry entry of the worker's type and job names the worker. */
  predicate Named(p: PoolState, w: nat) {
    && w in p.workers
    && p.workers[w].job.id in Entries(p.cancels, p.workers[w].job.typ)
    && Entries(p.cancels, p.workers[w].job.typ)[p.workers[w].job.id] == w
  }

  /** A CancelAll of the worker's type, or another worker of the same job coming or going. */
  predicate Disturbs(p: PoolState, e: Event, w: nat) {
    && w in p.workers
    && match e
       case CancelAll(typ) => typ == p.workers[w].job.typ
       case Register(v) => SameEntry(p, v, w)
       case Deregister(v) => SameEntry(p, v, w)
       case _ => false
  }

  predicate SameEntry(p: PoolState, v: nat, w: nat) {
    && v != w && v in p.workers && w in p.workers
    && p.workers[v].job.typ == p.workers[w].job.typ && p.workers[v].job.id == p.workers[w].job.id
  }

  lemma NamedStays(cfg: Config, s: State, t: Timed, s': State, w: nat)
    requires FreshWorkers(s.pool) && Can(cfg, s, t) && s' == Do(cfg, s, t)
    requires Registered(s.pool, w) && Registered(s'.pool, w) && Named(s.pool, w) && !Disturbs(s.pool, t.e, w)
    ensures Named(s'.pool, w)
  {
    if t.e.Register? || t.e.Deregister? || t.e.CancelAll? {
      RegistryKeepsOthers(cfg, s, t, s', w);
    } else {
      assert s'.pool.cancels == s.pool.cancels;
      WorkerKeepsJob(cfg, s, t, s', w);
    }
  }

  lemma RegistryKeepsOthers(cfg: Config, s: State, t: Timed, s': State, w: nat)
    requires Can(cfg, s, t) && s' == Do(cfg, s, t) && (t.e.Register? || t.e.Deregister? || t.e.CancelAll?)
    requires Registered(s.pool, w) && Registered(s'.pool, w) && Named(s.pool, w) && !Disturbs(s.pool, t.e, w)
    ensures Named(s'.pool, w)
  {
  }

  lemma RegisterNames(cfg: Config, s: State, t: Timed, s': State, w: nat)
    requires Can(cfg, s, t) && s' == Do(cfg, s, t) && t.e == Register(w)
    ensures Named(s'.pool, w)
  {
  }

  /** Since its Register at `i` the worker has been registered, and nothing has touched its entry. */
  ghost predicate Undisturbed(ss: seq<State>, ts: seq<Timed>, i: nat, k: nat, w: nat)
    requires i < k < |ss| == |ts| + 1
  {
    && ts[i].e == Register(w)
    && (forall m | i < m <= k :: Registered(ss[m].pool, w))
    && forall m | i < m < k :: !Disturbs(ss[m].pool, ts[m].e, w)
  }

  lemma UndisturbedIsNamed(cfg: Config, ss: seq<State>, ts: seq<Timed>, i: nat, k: nat, w: nat)
    requires PoolRun(cfg, ss, ts) && i < k < |ss| && Undisturbed(ss, ts, i, k, w)
    ensures Named(ss[k].pool, w)
  {
    RegisterNames(cfg, ss[i], ts[i], ss[i + 1], w);
    forall m | i < m < k ensures NameStays(ss, m, w) {
      UndisturbedStep(cfg, ss, ts, i, k, w, m);
    }
    NamedThroughout(ss, i + 1, k, w);
  }

  ghost predicate NameStays(ss: seq<State>, m: nat, w: nat)
    requires m + 1 < |ss|
  {
    Named(ss[m].pool, w) ==> Named(ss[m + 1].pool, w)
  }

  lemma UndisturbedStep(cfg: Config, ss: seq<State>, ts: seq<Timed>, i: nat, k: nat, w: nat, m: nat)
    requires PoolRun(cfg, ss, ts) && i < m < k < |ss| && Undisturbed(ss, ts, i, k, w)
    ensures NameStays(ss, m, w)
  {
    ReachableHold(cfg, ss, ts, m);
    if Named(ss[m].pool, w) {
      NamedStays(cfg, ss[m], ts[m], ss[m + 1], w);
    }
  }

  lemma {:induction false} NamedThroughout(ss: seq<State>, a: nat, k: nat, w: nat)
    requires a <= k < |ss| && Named(ss[a].pool, w) && forall m | a <= m < k :: NameStays(ss, m, w)
    ensures Named(ss[k].pool, w)
  {
    if a < k {
      NamedThroughout(ss, a, k - 1, w);
      assert NameStays(ss, k - 1, w);
    }
  }

  /**
   While a worker is registered, and since its Register no CancelAll of its type and no other
   worker of its job has touched the registry, a CancelAll of its type cancels it.
   */
  lemma CancelAllIsComplete(cfg: Config, ss: seq<State>, ts: seq<Timed>, i: nat, k: nat, w: nat)
    requires PoolRun(cfg, ss, ts) && i < k < |ts| && Undisturbed(ss, ts, i, k, w)
    requires ts[k].e == CancelAll(ss[k].pool.workers[w].job.typ)
    ensures w in CancelledBy(ss[k], ts[k])
  {
    UndisturbedIsNamed(cfg, ss, ts, i, k, w);
  }

  lemma {:induction false} InjectiveSize(m: map<Id, nat>, p: PoolState)
    requires forall id | id in m :: m[id] in p.workers && p.workers[m[id]].job.id == id
    ensures |m| == |m.Values|
    decreases |m|
  {
    if m.Keys != {} {
      var id :| id in m;
      var less := m - {id};
      InjectiveSize(less, p);
      assert m.Keys == less.Keys + {id};
      assert m.Values == less.Values + {m[id]} by {
        forall v | v in m.Values ensures v in less.Values + {m[id]} {
          var k :| k in m && m[k] == v;
          assert k != id ==> k in less && less[k] == v;
        }
      }
    } else {
      assert m == map[];
    }
  }

  /** The workers of this process whose contexts some CancelAll has cancelled so far. */
  function CancelledSoFar(ss: seq<State>, ts: seq<Timed>): set<nat>
    requires |ss| == |ts| + 1
    decreases |ts|
  {
    if ts == [] then {}
    else
      var n := |ts| - 1;
      if ts[n].e == Start || ts[n].e == Crash then {}
      else CancelledSoFar(ss[..n + 1], ts[..n]) + CancelledBy(ss[n], ts[n])
  }

  /** A cancelled worker has left Spawned for good, and no registry entry names it any more. */
  ghost predicate CancelledForGood(p: PoolState, c: set<nat>) {
    && (forall w | w in c :: w < p.next && !At(p, w, Spawned))
    && (forall typ, id | typ in p.cancels && id in p.cancels[typ] :: p.cancels[typ][id] !in c)
  }

  lemma StepKeepsCancelled(cfg: Config, s: State, t: Timed, c: set<nat>)
    requires CancelInv(s.pool) && FreshWorkers(s.pool) && CancelledForGood(s.pool, c) && Can(cfg, s, t)
    requires t.e != Start && t.e != Crash
    ensures CancelledForGood(Do(cfg, s, t).pool, c + CancelledBy(s, t))
    ensures c !! CancelledBy(s, t)
  {
    if t.e.CancelAll? {
      CancelAllCancels(cfg, s, t, c);
    } else if t.e.Register? || t.e.Deregister? {
    } else {
      assert Do(cfg, s, t).pool.cancels == s.pool.cancels;
    }
  }

  lemma CancelAllCancels(cfg: Config, s: State, t: Timed, c: set<nat>)
    requires CancelInv(s.pool) && FreshWorkers(s.pool) && CancelledForGood(s.pool, c)
    requires Can(cfg, s, t) && t.e.CancelAll?
    ensures CancelledForGood(Do(cfg, s, t).pool, c + CancelledBy(s, t))
    ensures c !! CancelledBy(s, t)
  {
    var m := Entries(s.pool.cancels, t.e.typ);
    forall w | w in CancelledBy(s, t)
      ensures w !in c && Registered(s.pool, w) && s.pool.workers[w].job.typ == t.e.typ
    {
      var id :| id in m && m[id] == w;
      assert NamesRegistration(s.pool, t.e.typ, id, w);
    }
    forall typ, id | typ in s.pool.cancels && typ != t.e.typ && id in s.pool.cancels[typ]
      ensures s.pool.cancels[typ][id] !in CancelledBy(s, t)
    {
      assert NamesRegistration(s.pool, typ, id, s.pool.cancels[typ][id]);
    }
  }

  /** No worker is cancelled by two CancelAll calls. */
  lemma {:induction false} CancelledAtMostOnce(cfg: Config, ss: seq<State>, ts: seq<Timed>, i: nat)
    requires PoolRun(cfg, ss, ts) && i <= |ts|
    ensures CancelledForGood(ss[i].pool, CancelledSoFar(ss[..i + 1], ts[..i]))
    ensures i < |ts| ==> CancelledBy(ss[i], ts[i]) !! CancelledSoFar(ss[..i + 1], ts[..i])
  {
    if i > 0 {
      CancelledAtMostOnce(cfg, ss, ts, i - 1);
      ReachableCancels(cfg, ss, ts, i - 1);
      ReachableHold(cfg, ss, ts, i - 1);
      assert ts[..i][..i - 1] == ts[..i - 1] && ss[..i + 1][..i] == ss[..i];
      if ts[i - 1].e != Start && ts[i - 1].e != Crash {
        StepKeepsCancelled(cfg, ss[i - 1], ts[i - 1], CancelledSoFar(ss[..i], ts[..i - 1]));
      }
    }
    if i < |ts| {
      ReachableCancels(cfg, ss, ts, i);
      ReachableHold(cfg, ss, ts, i);
      assert Can(cfg, ss[i], ts[i]);
      if ts[i].e != Start && ts[i].e != Crash {
        StepKeepsCancelled(cfg, ss[i], ts[i], CancelledSoFar(ss[..i + 1], ts[..i]));
      }
    }
  }

  // ------------------------------------------------------------------ a held row does not move

  ghost predicate HoldsThroughout(ss: seq<State>, i: nat, k: nat, w: nat)
    requires i <= k < |ss|
  {
    && IsHolder(ss[i].pool, OfWorker(w)) && IsHolder(ss[k].pool, OfWorker(w))
    && forall m | i <= m <= k :: IsHolder(ss[m].pool, OfWorker(w))
  }

  /** While one worker holds its job, the row stays as it was claimed, TTL included. */
  lemma HeldRowIsStable(cfg: Config, ss: seq<State>, ts: seq<Timed>, i: nat, k: nat, w: nat)
    requires PoolRun(cfg, ss, ts) && i <= k < |ss|
    requires HoldsThroughout(ss, i, k, w)
    ensures var j := JobOf(ss[i].pool, OfWorker(w));
            JobOf(ss[k].pool, OfWorker(w)) == j && Holds(ss[i].store.rows, j) && Holds(ss[k].store.rows, j)
  {
    ReachableHold(cfg, ss, ts, i);
    ReachableHold(cfg, ss, ts, k);
    SameJobThroughout(cfg, ss, ts, i, k, w);
  }

  lemma SameJobThroughout(cfg: Config, ss: seq<State>, ts: seq<Timed>, i: nat, k: nat, w: nat)
    requires PoolRun(cfg, ss, ts) && i <= k < |ss|
    requires HoldsThroughout(ss, i, k, w)
    ensures JobOf(ss[k].pool, OfWorker(w)) == JobOf(ss[i].pool, OfWorker(w))
  {
    forall m | i <= m < k ensures JobStays(ss, m, w) {
      assert IsHolder(ss[m].pool, OfWorker(w)) && IsHolder(ss[m + 1].pool, OfWorker(w));
      ReachableHold(cfg, ss, ts, m);
      WorkerKeepsJob(cfg, ss[m], ts[m], ss[m + 1], w);
    }
    StaysThroughout(ss, i, k, w);
  }

  ghost predicate JobStays(ss: seq<State>, m: nat, w: nat)
    requires m + 1 < |ss|
  {
    && w in ss[m].pool.workers && w in ss[m + 1].pool.workers
    && ss[m + 1].pool.workers[w].job == ss[m].pool.workers[w].job
  }

  lemma {:induction false} StaysThroughout(ss: seq<State>, i: nat, k: nat, w: nat)
    requires i <= k < |ss| && w in ss[i].pool.workers && forall m | i <= m < k :: JobStays(ss, m, w)
    ensures w in ss[k].pool.workers && ss[k].pool.workers[w].job == ss[i].pool.workers[w].job
  {
    if i < k {
      StaysThroughout(ss, i, k - 1, w);
      assert JobStays(ss, k - 1, w);
    }
  }

  lemma WorkerKeepsJob(cfg: Config, s: State, t: Timed, s': State, w: nat)
    requires FreshWorkers(s.pool) && Can(cfg, s, t) && s' == Do(cfg, s, t)
    requires w in s.pool.workers && w in s'.pool.workers
    ensures s'.pool.workers[w].job == s.pool.workers[w].job
  {
  }
}
