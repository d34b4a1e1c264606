/**
 Work is bounded: without Unlimited jobs and dashboard retries, the claims and marks of a run
 number at most twice the attempts granted to accepted jobs, plus one batch per exit that leaves
 jobs running.
 */
module PoolTermination {
  import opened Types
  import opened StoreSpec
  import opened StoreRuns
  import opened Pool
  import opened PoolSafety
  import opened PoolHistory

  // ------------------------------------------------------------------ the credit of a row

  function Granted(maxAttempts: int): int { Max(1, maxAttempts) }

  /** Claims and marks a row can still take part in; a crash makes a running row claimable again. */
  function Credit(j: Job, up: bool): int {
    match j.status
    case Pending => 2 * (Granted(j.maxAttempts) - j.attempts)
    case Running => 2 * (Granted(j.maxAttempts) - j.attempts) - if up then 1 else 0
    case _ => 0
  }

  function Credits(rows: Rows, up: bool): map<Id, int> { map id | id in rows :: Credit(rows[id], up) }

  ghost function Sum(m: map<Id, int>): int {
    if m == map[] then 0
    else
      assert m.Keys != {};
      var id :| id in m;
      m[id] + Sum(m - {id})
  }

  lemma {:induction false} SumWithout(m: map<Id, int>, id: Id)
    requires id in m
    ensures Sum(m) == m[id] + Sum(m - {id})
    decreases |m|
  {
    var k :| k in m && Sum(m) == m[k] + Sum(m - {k});
    if k != id {
      SumWithout(m - {k}, id);
      SumWithout(m - {id}, k);
      assert m - {k} - {id} == m - {id} - {k};
    }
  }

  function Signed(n: int, up: bool): int { if up then n else -n }

  /** Changing the values by at most one up (or at least one down) on `d` changes the sum by |d| that way. */
  lemma {:induction false} SumShift(m: map<Id, int>, m': map<Id, int>, d: set<Id>, up: bool)
    requires m'.Keys == m.Keys && d <= m.Keys
    requires forall id | id in m :: m'[id] <= m[id] + Signed(if id in d then 1 else 0, up)
    ensures Sum(m') <= Sum(m) + Signed(|d|, up)
    decreases |m|
  {
    if m == map[] {
      assert m' == map[] && d == {};
    } else {
      assert m.Keys != {};
      var id :| id in m;
      SumWithout(m, id);
      SumWithout(m', id);
      var less, less' := m - {id}, m' - {id};
      assert forall k | k in less :: less[k] == m[k] && less'[k] == m'[k] && (k in d - {id} <==> k in d);
      SumShift(less, less', d - {id}, up);
      assert |d| == |d - {id}| + if id in d then 1 else 0 by {
        if id !in d {
          assert d - {id} == d;
        }
      }
    }
  }

  lemma {:induction false} SumOfPart(m: map<Id, int>, part: map<Id, int>)
    requires part.Keys <= m.Keys && (forall id | id in part :: part[id] == m[id]) && forall id | id in m :: 0 <= m[id]
    ensures Sum(part) <= Sum(m)
    decreases |m|
  {
    if m == map[] {
      assert part == map[];
    } else {
      assert m.Keys != {};
      var id :| id in m;
      SumWithout(m, id);
      if id in part {
        SumWithout(part, id);
        SumOfPart(m - {id}, part - {id});
      } else {
        SumOfPart(m - {id}, part);
      }
    }
  }

  lemma SumInsert(m: map<Id, int>, id: Id, v: int)
    requires id !in m
    ensures Sum(m[id := v]) == Sum(m) + v
  {
    SumWithout(m[id := v], id);
    assert m[id := v] - {id} == m;
  }

  // ------------------------------------------------------------------ counting

  /** Jobs claimed and jobs marked by one event. */
  function Work(t: Timed): nat {
    match t.e
    case ClaimBatch(ids) => |ids|
    case Mark(_, _) => 1
    case _ => 0
  }

  ghost function GrantedBy(s: State, t: Timed): int
    requires Enabled(s.store, StoreStep(s, t))
  {
    if AcceptedBy(s.store, StoreStep(s, t)) == {} then 0 else Granted(StoreStep(s, t).op.job.maxAttempts)
  }

  /** An exit that leaves a row running; a drained process makes none. */
  predicate Interrupts(t: Timed, s: State) { t.e == Crash && WithStatus(s.store.rows, Running) != {} }

  function Toll(cfg: Config, s: State, t: Timed): nat { if Interrupts(t, s) then cfg.concurrency else 0 }

  datatype Totals = Totals(work: int, granted: int, crashes: int)

  ghost function TotalsOf(cfg: Config, ss: seq<State>, ts: seq<Timed>): Totals
    requires PoolRun(cfg, ss, ts)
    decreases |ts|
  {
    if ts == [] then Totals(0, 0, 0)
    else
      var n := |ts| - 1;
      PoolRunPrefix(cfg, ss, ts);
      assert Can(cfg, ss[n], ts[n]);
      var z := TotalsOf(cfg, ss[..n + 1], ts[..n]);
      Totals(z.work + Work(ts[n]),
             z.granted + GrantedBy(ss[n], ts[n]),
             z.crashes + if Interrupts(ts[n], ss[n]) then 1 else 0)
  }

  /** No Unlimited or negative attempts, no dashboard retry. */
  predicate Bounded(t: Timed) {
    t.e.External? ==> !t.e.op.RetryJob? && (Inserts(t.e.op) ==> t.e.op.job.maxAttempts >= 0)
  }

  ghost predicate BoundedRows(rows: Rows) { forall id | id in rows :: rows[id].maxAttempts >= 0 }

  lemma StepKeepsBounded(cfg: Config, s: State, t: Timed)
    requires HoldInv(s) && BoundedRows(s.store.rows) && Can(cfg, s, t) && Bounded(t)
    ensures BoundedRows(Do(cfg, s, t).store.rows)
  {
    forall id | id in Do(cfg, s, t).store.rows ensures Do(cfg, s, t).store.rows[id].maxAttempts >= 0 {
      RowOrigin(s.store, StoreStep(s, t), id);
    }
  }

  lemma CreditsNonnegative(cfg: Config, s: State, r: Record)
    requires AccountInv(cfg, s, r) && BoundedRows(s.store.rows)
    ensures forall id | id in s.store.rows :: 0 <= Credit(s.store.rows[id], s.up)
  {
  }

  // ------------------------------------------------------------------ each event pays for its work

  /** A claim or a mark lowers the credit of its row. */
  lemma MovedCreditDrops(cfg: Config, row: Job, st: Step, up: bool)
    requires AttemptsFit(cfg, row) && row.maxAttempts >= 0 && up
    requires !Inserts(st.op) && !st.op.RetryJob? && st.op != RecoverStuck
    requires st.op.Claim? && row.id in st.op.ids ==> row.status == Pending
    requires (st.op.MarkDone? || st.op.MarkFailed?) && st.op.id == row.id ==> row.status == Running
    ensures var paid := (st.op.Claim? && row.id in st.op.ids)
                        || ((st.op.MarkDone? || st.op.MarkFailed?) && st.op.id == row.id);
            Credit(Moved(row, st), up) <= Credit(row, up) - if paid then 1 else 0
  {
  }

  /** The rows a call lowers the credit of. */
  function Paid(st: Step): set<Id> {
    match st.op
    case Claim(_, ids) => set id | id in ids
    case MarkDone(id) => {id}
    case MarkFailed(id, _, _) => {id}
    case _ => {}
  }

  lemma MovePays(cfg: Config, s: Store, st: Step)
    requires KeyedById(s.rows) && Enabled(s, st) && !Inserts(st.op) && !st.op.RetryJob? && st.op != RecoverStuck
    requires forall id | id in s.rows :: AttemptsFit(cfg, s.rows[id]) && s.rows[id].maxAttempts >= 0
    requires Paid(st) <= s.rows.Keys
    requires forall id | id in Paid(st) :: s.rows[id].status == if st.op.Claim? then Pending else Running
    ensures Sum(Credits(Apply(s, st).rows, true)) + |Paid(st)| <= Sum(Credits(s.rows, true))
  {
    StepIsPointwise(s, st);
    var m, m' := Credits(s.rows, true), Credits(Apply(s, st).rows, true);
    forall id | id in s.rows ensures m'[id] <= m[id] + Signed(if id in Paid(st) then 1 else 0, false) {
      MovedCreditDrops(cfg, s.rows[id], st, true);
    }
    SumShift(m, m', Paid(st), false);
  }

  lemma WorkPays(cfg: Config, s: State, t: Timed, r: Record)
    requires HoldInv(s) && AccountInv(cfg, s, r) && BoundedRows(s.store.rows) && Can(cfg, s, t)
    requires t.e.ClaimBatch? || t.e.Mark?
    ensures Sum(Credits(Do(cfg, s, t).store.rows, true)) + Work(t) <= Sum(Credits(s.store.rows, true))
  {
    PaidRows(cfg, s, t);
    MovePays(cfg, s.store, StoreStep(s, t));
  }

  lemma PaidRows(cfg: Config, s: State, t: Timed)
    requires HoldInv(s) && Can(cfg, s, t) && (t.e.ClaimBatch? || t.e.Mark?)
    ensures var st, rows := StoreStep(s, t), s.store.rows;
            && (st.op.Claim? <==> t.e.ClaimBatch?) && !Inserts(st.op) && !st.op.RetryJob? && st.op != RecoverStuck
            && Paid(st) <= rows.Keys
            && (forall id | id in Paid(st) :: rows[id].status == if st.op.Claim? then Pending else Running)
            && |Paid(st)| == Work(t)
  {
    if t.e.ClaimBatch? {
      ClaimedIdsArePending(s, t);
      DistinctCard(t.e.ids, Paid(StoreStep(s, t)));
    } else {
      MarkedRowIsHeld(cfg, s, t);
    }
  }

  /** An accepted job brings its credit; whatever it displaces takes its own away. */
  lemma AcceptedCredit(s: Store, st: Step, up: bool)
    requires KeyedById(s.rows) && OneRowPerKey(s.rows) && Enabled(s, st) && Inserts(st.op)
    requires forall id | id in s.rows :: 0 <= Credit(s.rows[id], up)
    requires s.rows.Keys <= s.used
    ensures Sum(Credits(Apply(s, st).rows, up))
         <= Sum(Credits(s.rows, up)) + if AcceptedBy(s, st) == {} then 0 else 2 * Granted(st.op.job.maxAttempts)
  {
    if st.op.EnqueueDedup? {
      DedupShape(s, st);
    }
    if AcceptedBy(s, st) != {} {
      InsertedCredit(s.rows, if st.op.EnqueueDedup? then WithoutKey(s.rows, st.op.job.key) else s.rows, st.op.job, up);
    }
  }

  lemma InsertedCredit(rows: Rows, kept: Rows, job: Job, up: bool)
    requires kept.Keys <= rows.Keys && (forall id | id in kept :: kept[id] == rows[id])
    requires job.id !in rows && forall id | id in rows :: 0 <= Credit(rows[id], up)
    ensures Sum(Credits(kept[job.id := job], up)) <= Sum(Credits(rows, up)) + Credit(job, up)
  {
    SumOfPart(Credits(rows, up), Credits(kept, up));
    SumInsert(Credits(kept, up), job.id, Credit(job, up));
    assert Credits(kept[job.id := job], up) == Credits(kept, up)[job.id := Credit(job, up)];
  }

  lemma InsertionPays(cfg: Config, s: State, t: Timed, r: Record)
    requires HoldInv(s) && AccountInv(cfg, s, r) && BoundedRows(s.store.rows)
    requires Can(cfg, s, t) && Bounded(t) && t.e.External?
    ensures Sum(Credits(Do(cfg, s, t).store.rows, s.up)) <= Sum(Credits(s.store.rows, s.up)) + 2 * GrantedBy(s, t)
  {
    CreditsNonnegative(cfg, s, r);
    AcceptedCredit(s.store, StoreStep(s, t), s.up);
  }

  lemma CrashCosts(s: State)
    requires s.up
    ensures Sum(Credits(s.store.rows, false)) <= Sum(Credits(s.store.rows, true)) + |WithStatus(s.store.rows, Running)|
  {
    SumShift(Credits(s.store.rows, true), Credits(s.store.rows, false), WithStatus(s.store.rows, Running), true);
  }

  lemma StartIsFree(cfg: Config, s: State, t: Timed)
    requires HoldInv(s) && Can(cfg, s, t) && t.e == Start
    ensures Credits(Do(cfg, s, t).store.rows, true) == Credits(s.store.rows, false)
  {
    StepIsPointwise(s.store, StoreStep(s, t));
  }

  lemma StepPays(cfg: Config, s: State, t: Timed, r: Record)
    requires HoldInv(s) && AccountInv(cfg, s, r) && BoundedRows(s.store.rows) && Can(cfg, s, t) && Bounded(t)
    requires s.up ==> |WithStatus(s.store.rows, Running)| <= cfg.concurrency
    ensures Sum(Credits(Do(cfg, s, t).store.rows, Do(cfg, s, t).up)) + Work(t)
            <= Sum(Credits(s.store.rows, s.up)) + 2 * GrantedBy(s, t) + Toll(cfg, s, t)
  {
    match t.e {
      case ClaimBatch(_) => WorkPays(cfg, s, t, r); UpWhileBusy(cfg, s, t);
      case Mark(_, _) => WorkPays(cfg, s, t, r); UpWhileBusy(cfg, s, t);
      case External(_) => InsertionPays(cfg, s, t, r);
      case Crash => CrashCosts(s);
      case Start => StartIsFree(cfg, s, t);
      case _ =>
    }
  }

  lemma UpWhileBusy(cfg: Config, s: State, t: Timed)
    requires HoldInv(s) && Can(cfg, s, t) && (t.e.ClaimBatch? || t.e.Mark?)
    ensures s.up && Do(cfg, s, t).up
  {
  }

  lemma {:induction false} ReachableWork(cfg: Config, ss: seq<State>, ts: seq<Timed>)
    requires PoolRun(cfg, ss, ts) && forall k | 0 <= k < |ts| :: Bounded(ts[k])
    ensures var s, z := ss[|ts|], TotalsOf(cfg, ss, ts);
            && BoundedRows(s.store.rows)
            && z.work + Sum(Credits(s.store.rows, s.up)) <= 2 * z.granted + z.crashes * cfg.concurrency
    decreases |ts|
  {
    var n := |ts|;
    if n == 0 {
      assert Credits(map[], false) == map[];
    } else {
      PoolRunPrefix(cfg, ss, ts);
      ReachableWork(cfg, ss[..n], ts[..n - 1]);
      LastStepPays(cfg, ss, ts);
      var z, z' := TotalsOf(cfg, ss[..n], ts[..n - 1]), TotalsOf(cfg, ss, ts);
      CrashTerm(z.crashes, z'.crashes, cfg.concurrency);
    }
  }

  lemma CrashTerm(c: int, c': int, concurrency: nat)
    ensures c' == c ==> c' * concurrency == c * concurrency
    ensures c' == c + 1 ==> c' * concurrency == c * concurrency + concurrency
  {
  }

  lemma LastStepPays(cfg: Config, ss: seq<State>, ts: seq<Timed>)
    requires PoolRun(cfg, ss, ts) && ts != [] && Bounded(ts[|ts| - 1]) && BoundedRows(ss[|ts| - 1].store.rows)
    requires Can(cfg, ss[|ts| - 1], ts[|ts| - 1])
    ensures var s, s', t := ss[|ts| - 1], ss[|ts|], ts[|ts| - 1];
            && BoundedRows(s'.store.rows)
            && Sum(Credits(s'.store.rows, s'.up)) + Work(t)
               <= Sum(Credits(s.store.rows, s.up)) + 2 * GrantedBy(s, t) + Toll(cfg, s, t)
  {
    var n := |ts|;
    ReachableHold(cfg, ss, ts, n - 1);
    ReachableAccount(cfg, ss, ts, n - 1);
    SemaphoreSafety(cfg, ss, ts, n - 1);
    StepKeepsBounded(cfg, ss[n - 1], ts[n - 1]);
    StepPays(cfg, ss[n - 1], ts[n - 1], RecordOf(ss[..n], ts[..n - 1]));
  }

  /** The bound on the work of a whole run. */
  lemma WorkIsBounded(cfg: Config, ss: seq<State>, ts: seq<Timed>)
    requires PoolRun(cfg, ss, ts) && forall k | 0 <= k < |ts| :: Bounded(ts[k])
    ensures var z := TotalsOf(cfg, ss, ts); z.work <= 2 * z.granted + z.crashes * cfg.concurrency
  {
    ReachableWork(cfg, ss, ts);
    FinalCreditNonnegative(cfg, ss, ts);
  }

  lemma FinalCreditNonnegative(cfg: Config, ss: seq<State>, ts: seq<Timed>)
    requires PoolRun(cfg, ss, ts) && BoundedRows(ss[|ts|].store.rows)
    ensures 0 <= Sum(Credits(ss[|ts|].store.rows, ss[|ts|].up))
  {
    ReachableAccount(cfg, ss, ts, |ts|);
    CreditsNonnegative(cfg, ss[|ts|], RecordOf(ss[..|ts| + 1], ts[..|ts|]));
    SumOfPart(Credits(ss[|ts|].store.rows, ss[|ts|].up), map[]);
  }

  /** An exit after the drain costs nothing. */
  lemma DrainedExitIsFree(cfg: Config, ss: seq<State>, ts: seq<Timed>, i: nat)
    requires PoolRun(cfg, ss, ts) && i < |ts| && ss[i].pool.wg == 0
    ensures !Interrupts(ts[i], ss[i])
  {
    GracefulDrain(cfg, ss, ts, i);
    assert Can(cfg, ss[i], ts[i]);
  }
}
