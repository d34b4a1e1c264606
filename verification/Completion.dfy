/**
 The worker pool over SQLite, where completing a job takes two statements with no transaction:
 SELECT the TTL column, then UPDATE the row with the expiry computed from it. Any number of
 workers may be between their two statements while everything else goes on.
 */
module Completion {
  import opened Types
  import opened StoreSpec
  import opened StoreRuns
  import opened SqliteStore
  import opened Simulation
  import opened Pool
  import opened PoolSafety
  import PoolSpacing

  /** What a worker remembers of its SELECT: the clock it read before, and the column, if there was a row. */
  datatype Read = Read(clock: Time, found: Option<Option<int>>)

  datatype System = System(table: Table, used: set<Id>, up: bool, pool: PoolState, known: map<nat, Read>)

  const EMPTY_SYSTEM := System(map[], {}, false, DOWN, map[])

  /** `Mark` of a completion is the UPDATE alone; every other event makes at most one storage call. */
  datatype SqlEvent = Select(w: nat, clock: Time) | Other(e: Event)

  datatype SqlTimed = SqlTimed(e: SqlEvent, now: Time)

  /** The system as the pool sees it: the table decoded. */
  function Seen(y: System): State { State(Store(View(y.table), y.used), y.up, y.pool) }

  /** The event as seen: an enqueued job with the TTL as stored. */
  function Shown(e: Event): Event {
    match e
    case External(op) => External(Rounded(Step(op, 0)).op)
    case _ => e
  }

  predicate Completing(p: PoolState, w: nat) {
    InDecided(p, w) && !p.workers[w].phase.decision.Reschedule?
  }

  ghost predicate SqlCan(cfg: Config, y: System, t: SqlTimed) {
    match t.e
    case Select(w, _) => Completing(y.pool, w) && w !in y.known
    case Other(e) =>
      && Can(cfg, Seen(y), Timed(Shown(e), t.now))
      && (e.External? && Inserts(e.op) ==> NewJob(e.op.job) && e.op.job.ttl <= MAX_INT64)
      && (e.Mark? && Completing(y.pool, e.w) ==> e.w in y.known && y.known[e.w].clock == e.clock)
  }

  /** The UPDATE, with the expiry from the column read earlier. */
  function WriteBack(t: Table, id: Id, d: Decision, read: Read): Result<Table>
    requires !d.Reschedule?
  {
    match read.found
    case None => Ok(t)
    case Some(secs) =>
      var expiresAt := ExpiryFor(secs, read.clock);
      Commit(if d.Succeed? then UpdateDone(t, id, read.clock, expiresAt)
             else UpdateFailed(t, id, d.err, read.clock, expiresAt))
  }

  /** The storage call of an event, with the TTL as requested. */
  function CallOf(y: System, e: Event, now: Time): Step { StoreStep(Seen(y), Timed(e, now)) }

  ghost function Written(cfg: Config, y: System, t: SqlTimed): Result<Table>
    requires SqlCan(cfg, y, t)
  {
    match t.e
    case Select(_, _) => Ok(y.table)
    case Other(e) =>
      if e.Mark? && Completing(y.pool, e.w)
      then WriteBack(y.table, y.pool.workers[e.w].job.id, y.pool.workers[e.w].phase.decision, y.known[e.w])
      else SqlApply(y.table, CallOf(y, e, t.now))
  }

  ghost function SqlDo(cfg: Config, y: System, t: SqlTimed): System
    requires SqlCan(cfg, y, t)
  {
    match t.e
    case Select(w, clock) =>
      y.(known := y.known[w := Read(clock, SelectTtl(y.table, y.pool.workers[w].job.id))])
    case Other(e) =>
      var table := if Written(cfg, y, t).Ok? then Written(cfg, y, t).value else y.table;
      System(table,
             y.used + InsertedBy(CallOf(y, e, t.now)),
             if e.Start? then true else if e.Crash? then false else y.up,
             Moves(cfg, Seen(y), Timed(Shown(e), t.now)),
             if e.Mark? then y.known - {e.w} else if e.Start? || e.Crash? then map[] else y.known)
  }

  ghost predicate SqlPoolRun(cfg: Config, ys: seq<System>, ts: seq<SqlTimed>) {
    && |ys| == |ts| + 1
    && ys[0] == EMPTY_SYSTEM
    && forall i | 0 <= i < |ts| :: SqlCan(cfg, ys[i], ts[i]) && ys[i + 1] == SqlDo(cfg, ys[i], ts[i])
  }

  /** Whatever the pool can do next the system can, a completion by way of its SELECT. */
  lemma SystemFollows(cfg: Config, y: System, e: Event, now: Time)
    requires Can(cfg, Seen(y), Timed(e, now)) && (e.External? ==> e.op.RetryJob?)
    ensures !(e.Mark? && Completing(y.pool, e.w)) ==> SqlCan(cfg, y, SqlTimed(Other(e), now))
    ensures e.Mark? && Completing(y.pool, e.w) && e.w !in y.known ==>
              var select := SqlTimed(Select(e.w, e.clock), now);
              SqlCan(cfg, y, select) && SqlCan(cfg, SqlDo(cfg, y, select), SqlTimed(Other(e), now))
  {
  }

  /** So can callers enqueue, with any TTL of 64 bits. */
  lemma CallersCanEnqueue(cfg: Config, y: System, op: Op, now: Time)
    requires TableOk(y.table) && Inserts(op) && op.job.ttl <= MAX_INT64 && SqlEnabled(y.table, y.used, Step(op, now))
    ensures SqlCan(cfg, y, SqlTimed(Other(External(op)), now))
  {
    ViewIsNormal(y.table);
    RoundedIsAlike(Step(op, now));
    SameChoices(Store(View(y.table), y.used), y.table, Rounded(Step(op, now)), Step(op, now));
  }

  // ------------------------------------------------------------------ what the system keeps

  /** A remembered read is still good: it gives the expiry that the worker's job asks for. */
  predicate ReadFits(p: PoolState, w: nat, read: Read) {
    && Completing(p, w)
    && read.found.Some?
    && ExpiryFor(read.found.value, read.clock) == Expiry(p.workers[w].job, read.clock)
  }

  ghost predicate SystemInv(y: System) {
    && TableOk(y.table)
    && HoldInv(Seen(y))
    && forall w | w in y.known :: ReadFits(y.pool, w, y.known[w])
  }

  lemma ViewIsNormal(t: Table)
    requires TableOk(t)
    ensures Agree(View(t), t) && forall id | id in t :: View(t)[id].ttl >= 0
  {
    forall id | id in t ensures View(t)[id].ttl >= 0 {
      assert RowOk(id, t[id]);
      ScanFacts(id, t[id]);
    }
    NormalAsIs(View(t));
  }

  lemma NormalAsIs(rows: Rows)
    requires forall id | id in rows :: rows[id].ttl >= 0
    ensures Normal(rows) == rows
  {
  }

  /** On the decoded table a SQLite call is the in-memory call with the TTL as stored. */
  lemma DecodedStep(t: Table, used: set<Id>, q: Step)
    requires TableOk(t) && StoreInv(Store(View(t), used)) && Enabled(Store(View(t), used), Rounded(q))
    requires Inserts(q.op) ==> NewJob(q.op.job) && q.op.job.ttl <= MAX_INT64
    ensures var r, s' := SqlApply(t, q), Apply(Store(View(t), used), Rounded(q));
            r.Ok? && TableOk(r.value) && Store(View(r.value), used + InsertedBy(q)) == s'
  {
    var s, m := Store(View(t), used), Rounded(q);
    RoundedIsAlike(q);
    ViewIsNormal(t);
    BackendsStepTogether(s, t, m, q);
    if Inserts(m.op) {
      RoundedTtlNonnegative(q);
    }
    TtlsStayNonnegative(s, m);
    NormalAsIs(Apply(s, m).rows);
  }

  lemma TtlsStayNonnegative(s: Store, m: Step)
    requires StoreInv(s) && Enabled(s, m)
    requires (forall id | id in s.rows :: s.rows[id].ttl >= 0) && (Inserts(m.op) ==> m.op.job.ttl >= 0)
    ensures forall id | id in Apply(s, m).rows :: Apply(s, m).rows[id].ttl >= 0
  {
    forall id | id in Apply(s, m).rows ensures Apply(s, m).rows[id].ttl >= 0 {
      RowOrigin(s, m, id);
    }
  }

  lemma RoundedTtlNonnegative(q: Step)
    requires Inserts(q.op) && NewJob(q.op.job) && q.op.job.ttl <= MAX_INT64
    ensures Inserts(Rounded(q).op) && Rounded(q).op.job.ttl >= 0
  {
    NewRowOk(q.op.job);
    ScanFacts(q.op.job.id, RowOf(q.op.job));
  }

  /** The row a completing worker reads, and later writes, is its job. */
  lemma CompletingRow(y: System, w: nat, clock: Time)
    requires TableOk(y.table) && HoldInv(Seen(y)) && Completing(y.pool, w)
    ensures var j := y.pool.workers[w].job;
            j.id in y.table && ExpiryFor(y.table[j.id].ttlSeconds, clock) == Expiry(j, clock)
  {
    var j := y.pool.workers[w].job;
    assert IsHolder(y.pool, OfWorker(w)) && Holds(View(y.table), JobOf(y.pool, OfWorker(w)));
    assert RowOk(j.id, y.table[j.id]);
    ScanExpiry(j.id, y.table[j.id], clock);
  }

  /** The UPDATE of a worker, long after its SELECT, is one atomic completion. */
  lemma WriteBackIsMark(y: System, w: nat)
    requires SystemInv(y) && w in y.known
    ensures Completing(y.pool, w)
    ensures var wk, read := y.pool.workers[w], y.known[w];
            WriteBack(y.table, wk.job.id, wk.phase.decision, read) ==
            SqlApply(y.table, Step(MarkOp(wk.job, wk.phase.decision), read.clock))
  {
    CompletingRow(y, w, y.known[w].clock);
  }

  /** Every write, split or not, has the effect of its call made in one piece. */
  lemma WrittenIsCall(cfg: Config, y: System, t: SqlTimed)
    requires SystemInv(y) && SqlCan(cfg, y, t) && t.e.Other?
    ensures Written(cfg, y, t) == SqlApply(y.table, CallOf(y, t.e.e, t.now))
  {
    if t.e.e.Mark? && Completing(y.pool, t.e.e.w) {
      WriteBackIsMark(y, t.e.e.w);
    }
  }

  lemma CallIsShown(cfg: Config, y: System, t: SqlTimed)
    requires SqlCan(cfg, y, t) && t.e.Other?
    ensures StoreStep(Seen(y), Timed(Shown(t.e.e), t.now)) == Rounded(CallOf(y, t.e.e, t.now))
    ensures Inserts(CallOf(y, t.e.e, t.now).op) ==> t.e.e.External?
                                                     && CallOf(y, t.e.e, t.now).op == t.e.e.op
  {
  }

  /** The SELECT is invisible; every other event is the pool's own. */
  lemma EventIsSeen(cfg: Config, y: System, t: SqlTimed)
    requires SystemInv(y) && SqlCan(cfg, y, t)
    ensures t.e.Select? ==> Seen(SqlDo(cfg, y, t)) == Seen(y)
    ensures t.e.Other? ==>
              && Written(cfg, y, t).Ok? && TableOk(SqlDo(cfg, y, t).table)
              && Seen(SqlDo(cfg, y, t)) == Do(cfg, Seen(y), Timed(Shown(t.e.e), t.now))
  {
    if t.e.Other? {
      WrittenIsCall(cfg, y, t);
      CallIsShown(cfg, y, t);
      DecodedStep(y.table, y.used, CallOf(y, t.e.e, t.now));
    }
  }

  lemma StepKeepsSystem(cfg: Config, y: System, t: SqlTimed)
    requires SystemInv(y) && SqlCan(cfg, y, t)
    ensures SystemInv(SqlDo(cfg, y, t))
  {
    EventIsSeen(cfg, y, t);
    match t.e {
      case Select(w, clock) => CompletingRow(y, w, clock);
      case Other(e) =>
        StepKeepsHold(cfg, Seen(y), Timed(Shown(e), t.now));
        OtherKeepsReads(cfg, y, t);
    }
  }

  lemma OtherKeepsReads(cfg: Config, y: System, t: SqlTimed)
    requires SystemInv(y) && SqlCan(cfg, y, t) && t.e.Other?
    ensures forall w | w in SqlDo(cfg, y, t).known :: ReadFits(SqlDo(cfg, y, t).pool, w, SqlDo(cfg, y, t).known[w])
  {
    var y', e := SqlDo(cfg, y, t), t.e.e;
    forall w | w in y'.known ensures ReadFits(y'.pool, w, y'.known[w]) {
      assert ReadFits(y.pool, w, y.known[w]);
      CompletingStays(cfg, Seen(y), Timed(Shown(e), t.now), w);
    }
  }

  /** Only its own mark, or the end of the process, takes a worker out of its decision. */
  lemma CompletingStays(cfg: Config, s: State, t: Timed, w: nat)
    requires FreshWorkers(s.pool) && Can(cfg, s, t) && Completing(s.pool, w)
    requires t.e != Start && t.e != Crash && !(t.e.Mark? && t.e.w == w)
    ensures Completing(Moves(cfg, s, t), w) && Moves(cfg, s, t).workers[w] == s.pool.workers[w]
  {
  }

  lemma {:induction false} ReachableSystem(cfg: Config, ys: seq<System>, ts: seq<SqlTimed>, i: nat)
    requires SqlPoolRun(cfg, ys, ts) && i < |ys|
    ensures SystemInv(ys[i])
  {
    if i > 0 {
      ReachableSystem(cfg, ys, ts, i - 1);
      StepKeepsSystem(cfg, ys[i - 1], ts[i - 1]);
    }
  }

  // ------------------------------------------------------------------ linearizability

  /**
   Linearizability: whatever the other workers and callers do between a worker's SELECT and
   its UPDATE, their own split completions included, the UPDATE has exactly the effect of one
   atomic completion made when it is.
   */
  lemma CompletionIsAtomic(cfg: Config, ys: seq<System>, ts: seq<SqlTimed>, i: nat)
    requires SqlPoolRun(cfg, ys, ts) && i < |ts| && ts[i].e.Other? && ts[i].e.e.Mark?
    ensures InDecided(ys[i].pool, ts[i].e.e.w)
    ensures var wk, clock := ys[i].pool.workers[ts[i].e.e.w], ts[i].e.e.clock;
            SqlApply(ys[i].table, Step(MarkOp(wk.job, wk.phase.decision), clock)) == Ok(ys[i + 1].table)
  {
    ReachableSystem(cfg, ys, ts, i);
    assert SqlCan(cfg, ys[i], ts[i]) && ys[i + 1] == SqlDo(cfg, ys[i], ts[i]);
    WrittenIsCall(cfg, ys[i], ts[i]);
    EventIsSeen(cfg, ys[i], ts[i]);
  }

  /** The pool run that is left when the SELECTs are taken out. */
  function SeenEvents(ts: seq<SqlTimed>): seq<Timed> {
    if ts == [] then []
    else
      var n := |ts| - 1;
      SeenEvents(ts[..n]) + if ts[n].e.Select? then [] else [Timed(Shown(ts[n].e.e), ts[n].now)]
  }

  ghost function SeenStates(ys: seq<System>, ts: seq<SqlTimed>): (ss: seq<State>)
    requires |ys| == |ts| + 1
    ensures |ss| == |SeenEvents(ts)| + 1
    decreases |ts|
  {
    if ts == [] then [Seen(ys[0])]
    else
      var n := |ts| - 1;
      SeenStates(ys[..n + 1], ts[..n]) + if ts[n].e.Select? then [] else [Seen(ys[n + 1])]
  }

  /**
   The pool over SQLite, completions split, is the pool over the in-memory storage: taking the
   SELECTs out of any run leaves a pool run that ends in the decoded table. So every theorem
   about pool runs holds for it.
   */
  lemma {:induction false} SqlPoolRunIsPoolRun(cfg: Config, ys: seq<System>, ts: seq<SqlTimed>)
    requires SqlPoolRun(cfg, ys, ts)
    ensures PoolRun(cfg, SeenStates(ys, ts), SeenEvents(ts))
    ensures SeenStates(ys, ts)[|SeenEvents(ts)|] == Seen(ys[|ts|])
    decreases |ts|
  {
    if ts == [] {
      assert View(map[]) == map[];
    } else {
      var n := |ts| - 1;
      assert SqlPoolRun(cfg, ys[..n + 1], ts[..n]);
      SqlPoolRunIsPoolRun(cfg, ys[..n + 1], ts[..n]);
      ReachableSystem(cfg, ys, ts, n);
      assert SqlCan(cfg, ys[n], ts[n]) && ys[n + 1] == SqlDo(cfg, ys[n], ts[n]);
      EventIsSeen(cfg, ys[n], ts[n]);
      if ts[n].e.Other? {
        PoolRunGrows(cfg, SeenStates(ys[..n + 1], ts[..n]), SeenEvents(ts[..n]), Timed(Shown(ts[n].e.e), ts[n].now));
      }
    }
  }

  /** No statement of such a run ever fails. */
  lemma NoStatementFails(cfg: Config, ys: seq<System>, ts: seq<SqlTimed>, i: nat)
    requires SqlPoolRun(cfg, ys, ts) && i < |ts|
    ensures SqlCan(cfg, ys[i], ts[i]) && Written(cfg, ys[i], ts[i]).Ok?
  {
    ReachableSystem(cfg, ys, ts, i);
    EventIsSeen(cfg, ys[i], ts[i]);
  }

  /** Taking events out keeps the clock from going backwards. */
  lemma {:induction false} SeenInOrder(ts: seq<SqlTimed>)
    requires forall i, k | 0 <= i <= k < |ts| :: ts[i].now <= ts[k].now
    ensures PoolSpacing.Nondecreasing(SeenEvents(ts))
    ensures forall t | t in SeenEvents(ts) :: ts != [] && t.now <= ts[|ts| - 1].now
  {
    if ts != [] {
      var n := |ts| - 1;
      SeenInOrder(ts[..n]);
      var es := SeenEvents(ts[..n]);
      forall t | t in es ensures t.now <= ts[n].now {
        assert ts[n - 1].now <= ts[n].now;
      }
      if ts[n].e.Other? {
        OneLater(es, Timed(Shown(ts[n].e.e), ts[n].now));
      } else {
        assert SeenEvents(ts) == es;
      }
    }
  }

  lemma OneLater(es: seq<Timed>, t: Timed)
    requires PoolSpacing.Nondecreasing(es) && forall e | e in es :: e.now <= t.now
    ensures PoolSpacing.Nondecreasing(es + [t])
  {
    forall i, k | 0 <= i <= k < |es + [t]| ensures (es + [t])[i].now <= (es + [t])[k].now {
      if i < |es| {
        assert es[i] in es;
      }
    }
  }
}
