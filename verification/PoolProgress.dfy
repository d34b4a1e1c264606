/**
 What the worker pool does, rather than what it may not do: a poll claims as many due jobs as it
 saw free slots; from every reachable state some continuation finishes any due job, and some
 continuation drains the pool.
 */
module PoolProgress {
  import opened Types
  import opened StoreSpec
  import opened StoreRuns
  import opened Effects
  import opened Pool
  import opened PoolSafety

  // ------------------------------------------------------------------ what a poll claims

  lemma ChoiceExists(rows: Rows, now: Time, limit: nat) returns (ids: seq<Id>)
    ensures ClaimChoice(rows, now, limit, ids)
  {
    var left := DueIds(rows, now);
    ids := [];
    while |ids| < limit && left != {}
      invariant left <= DueIds(rows, now) && |ids| <= limit && Distinct(ids)
      invariant forall id :: id in ids <==> id in DueIds(rows, now) && id !in left
      invariant |ids| + |left| == |DueIds(rows, now)|
      invariant forall c, u | c in ids && u in left :: rows[c].runAt <= rows[u].runAt
      decreases |left|
    {
      var id := Earliest(rows, left);
      ids := ids + [id];
      left := left - {id};
    }
  }

  lemma Earliest(rows: Rows, ids: set<Id>) returns (e: Id)
    requires ids != {} && ids <= rows.Keys
    ensures e in ids && forall o | o in ids :: rows[e].runAt <= rows[o].runAt
    decreases |ids|
  {
    e :| e in ids;
    if ids != {e} {
      assert ids == (ids - {e}) + {e};
      var o := Earliest(rows, ids - {e});
      if rows[o].runAt < rows[e].runAt {
        e := o;
      }
    }
  }

  /** A poll that finds free slots goes on to claim: any legal batch of that size can follow, and no other. */
  lemma PollClaims(cfg: Config, ss: seq<State>, ts: seq<Timed>, i: nat, now: Time, ids: seq<Id>)
    requires PoolRun(cfg, ss, ts) && i < |ts| && ts[i].e == Sample && ss[i].pool.sem < cfg.concurrency
    ensures Can(cfg, ss[i + 1], Timed(ClaimBatch(ids), now))
            <==> ClaimChoice(ss[i + 1].store.rows, now, cfg.concurrency - ss[i].pool.sem, ids)
    ensures Can(cfg, ss[i + 1], Timed(ClaimBatch(ids), now)) ==>
              |ids| == Min(cfg.concurrency - ss[i].pool.sem, |DueIds(ss[i + 1].store.rows, now)|)
  {
    assert Can(cfg, ss[i], ts[i]) && ss[i + 1] == Do(cfg, ss[i], ts[i]);
  }

  lemma SampledStep(cfg: Config, s: State, t: Timed, s': State)
    requires Can(cfg, s, t) && s' == Do(cfg, s, t) && s'.pool.poller.Sampled?
    ensures if t.e == Sample then s'.pool.poller.free == cfg.concurrency - s.pool.sem > 0
            else s'.pool.poller == s.pool.poller && !t.e.ClaimBatch?
  {
  }

  lemma {:induction false} SampleOrigin(cfg: Config, ss: seq<State>, ts: seq<Timed>, k: nat) returns (i: nat)
    requires PoolRun(cfg, ss, ts) && k < |ss| && ss[k].pool.poller.Sampled?
    ensures i < k && ts[i].e == Sample && ss[k].pool.poller.free == cfg.concurrency - ss[i].pool.sem > 0
    ensures forall m | i < m < k :: ts[m].e != Sample && !ts[m].e.ClaimBatch?
  {
    assert Can(cfg, ss[k - 1], ts[k - 1]);
    SampledStep(cfg, ss[k - 1], ts[k - 1], ss[k]);
    if ts[k - 1].e == Sample {
      i := k - 1;
    } else {
      i := SampleOrigin(cfg, ss, ts, k - 1);
    }
  }

  /** Every claim of a run takes as many due jobs as slots were free at its own sample. */
  lemma ClaimsFillTheFreeSlots(cfg: Config, ss: seq<State>, ts: seq<Timed>, k: nat) returns (i: nat)
    requires PoolRun(cfg, ss, ts) && k < |ts| && ts[k].e.ClaimBatch?
    ensures i < k && ts[i].e == Sample && ss[i].pool.sem < cfg.concurrency
    ensures |ts[k].e.ids| == Min(cfg.concurrency - ss[i].pool.sem, |DueIds(ss[k].store.rows, ts[k].now)|)
    ensures forall m | i < m < k :: ts[m].e != Sample && !ts[m].e.ClaimBatch?
  {
    assert Can(cfg, ss[k], ts[k]);
    i := SampleOrigin(cfg, ss, ts, k);
  }

  // ------------------------------------------------------------------ continuations

  /** Where the events lead, if each is possible when it comes. */
  ghost function After(cfg: Config, s: State, ts: seq<Timed>): Option<State>
    decreases |ts|
  {
    if ts == [] then Some(s)
    else if Can(cfg, s, ts[0]) then After(cfg, Do(cfg, s, ts[0]), ts[1..])
    else None
  }

  lemma AfterFirst(cfg: Config, s: State, t: Timed, ts: seq<Timed>)
    requires Can(cfg, s, t)
    ensures After(cfg, s, [t] + ts) == After(cfg, Do(cfg, s, t), ts)
  {
    assert ([t] + ts)[1..] == ts;
  }

  lemma {:induction false} AfterBoth(cfg: Config, s: State, a: seq<Timed>, b: seq<Timed>)
    requires After(cfg, s, a).Some?
    ensures After(cfg, s, a + b) == After(cfg, After(cfg, s, a).value, b)
    decreases |a|
  {
    if a == [] {
      assert a + b == b;
    } else {
      AfterBoth(cfg, Do(cfg, s, a[0]), a[1..], b);
      assert (a + b)[1..] == a[1..] + b;
    }
  }

  /** Two stretches of the pool's own steps make one. */
  lemma Join(cfg: Config, s: State, a: seq<Timed>, b: seq<Timed>, now: Time)
    requires After(cfg, s, a).Some? && After(cfg, After(cfg, s, a).value, b).Some? && AllOwn(a, now) && AllOwn(b, now)
    ensures After(cfg, s, a + b) == After(cfg, After(cfg, s, a).value, b)
    ensures AllOwn(a + b, now) && (forall t | t in a || t in b :: t in a + b)
  {
    AfterBoth(cfg, s, a, b);
  }

  lemma JoinFirst(cfg: Config, s: State, t: Timed, ts: seq<Timed>)
    requires Can(cfg, s, t) && Own(t.e) && AllOwn(ts, t.now)
    ensures After(cfg, s, [t] + ts) == After(cfg, Do(cfg, s, t), ts)
    ensures AllOwn([t] + ts, t.now) && t in [t] + ts && (forall u | u in ts :: u in [t] + ts)
  {
    AfterFirst(cfg, s, t, ts);
  }

  /** What every reachable state keeps, and every continuation after it. */
  ghost predicate Sound(cfg: Config, s: State) { HoldInv(s) && CountInv(cfg, s.pool) }

  lemma StepKeepsSound(cfg: Config, s: State, t: Timed)
    requires Sound(cfg, s) && Can(cfg, s, t)
    ensures Sound(cfg, Do(cfg, s, t))
  {
    StepKeepsHold(cfg, s, t);
    StepKeepsCounts(cfg, s, t);
  }

  lemma {:induction false} RunGoesOn(cfg: Config, ss: seq<State>, ts: seq<Timed>, more: seq<Timed>)
    returns (ss': seq<State>)
    requires PoolRun(cfg, ss, ts) && After(cfg, ss[|ts|], more).Some?
    ensures PoolRun(cfg, ss', ts + more) && ss'[|ts + more|] == After(cfg, ss[|ts|], more).value
    decreases |more|
  {
    if more == [] {
      assert ts + more == ts;
      ss' := ss;
    } else {
      PoolRunGrows(cfg, ss, ts, more[0]);
      ss' := RunGoesOn(cfg, ss + [Do(cfg, ss[|ts|], more[0])], ts + [more[0]], more[1..]);
      assert ts + [more[0]] + more[1..] == ts + more;
    }
  }

  /** Steps of the pool itself: no call from outside, no stop, no crash. */
  predicate Own(e: Event) { !e.External? && !e.Start? && !e.Crash? && !e.StopSignal? && !e.CancelAll? }

  predicate AllOwn(ts: seq<Timed>, now: Time) { forall i | 0 <= i < |ts| :: ts[i].now == now && Own(ts[i].e) }

  // ------------------------------------------------------------------ a worker finishes

  /** What a worker can do next; its handler succeeds. */
  function NextOf(cfg: Config, w: nat, wk: Worker, now: Time): Event {
    match wk.phase
    case Spawned => if wk.job.typ in cfg.handlers then Register(w) else NoHandler(w)
    case Executing => Finish(w, Success)
    case Decided(_, _) => Mark(w, now)
    case Marked(registered) => if registered then Deregister(w) else Release(w)
    case Released => Leave(w)
  }

  function ToGo(phase: Phase): nat {
    match phase
    case Spawned => 6
    case Executing => 5
    case Decided(_, _) => 4
    case Marked(registered) => if registered then 3 else 2
    case Released => 1
  }

  /** The rest of the pool is as it was. */
  ghost predicate OthersStay(s: State, s': State, w: nat) {
    && s'.up == s.up && s'.pool.poller == s.pool.poller && s'.pool.stopping == s.pool.stopping
    && s'.pool.workers - {w} == s.pool.workers - {w}
  }

  function NextTimed(cfg: Config, s: State, w: nat, now: Time): Timed
    requires w in s.pool.workers
  {
    Timed(NextOf(cfg, w, s.pool.workers[w], now), now)
  }

  lemma WorkerCanStep(cfg: Config, s: State, w: nat, now: Time)
    requires w in s.pool.workers
    ensures Can(cfg, s, NextTimed(cfg, s, w, now))
  {
  }

  lemma WorkerStep(cfg: Config, s: State, t: Timed, s': State, w: nat)
    requires w in s.pool.workers && t == NextTimed(cfg, s, w, t.now) && Can(cfg, s, t) && s' == Do(cfg, s, t)
    ensures OthersStay(s, s', w)
    ensures w in s'.pool.workers <==> s.pool.workers[w].phase != Released
    ensures w in s'.pool.workers ==>
              && ToGo(s'.pool.workers[w].phase) < ToGo(s.pool.workers[w].phase)
              && s'.pool.workers[w].job == s.pool.workers[w].job
  {
    match s.pool.workers[w].phase {
      case Spawned =>
      case Executing =>
      case Decided(_, _) =>
      case Marked(registered) =>
      case Released =>
    }
  }

  /** How far the job of a worker has come, and how it will end if its handler succeeds. */
  predicate WillBeDone(cfg: Config, wk: Worker) {
    match wk.phase
    case Spawned => wk.job.typ in cfg.handlers
    case Executing => true
    case Decided(d, _) => d.Succeed?
    case _ => false
  }

  predicate WillBeRescheduled(wk: Worker) { wk.phase.Decided? && wk.phase.decision.Reschedule? }

  /** Only the mark of a worker changes the rows, and only its own job's. */
  lemma MarkStepRows(cfg: Config, s: State, t: Timed, s': State, w: nat)
    requires Sound(cfg, s) && InDecided(s.pool, w) && t == NextTimed(cfg, s, w, t.now)
    requires Can(cfg, s, t) && s' == Do(cfg, s, t)
    ensures var j, d := s.pool.workers[w].job, s.pool.workers[w].phase.decision;
            && OnlyRow(s.store.rows, s'.store.rows, j.id) && j.id in s.store.rows
            && (d.Succeed? ==> s'.store.rows[j.id].status == Done)
            && (!d.Reschedule? ==> s'.store.rows[j.id].status != Pending)
            && w in s'.pool.workers && s'.pool.workers[w].phase.Marked?
  {
    assert IsHolder(s.pool, OfWorker(w)) && Holds(s.store.rows, JobOf(s.pool, OfWorker(w)));
  }

  lemma QuietWorkerStep(cfg: Config, s: State, t: Timed, s': State, w: nat)
    requires w in s.pool.workers && !s.pool.workers[w].phase.Decided? && t == NextTimed(cfg, s, w, t.now)
    requires Can(cfg, s, t) && s' == Do(cfg, s, t)
    ensures s'.store == s.store
    ensures w in s'.pool.workers ==>
              var wk, wk' := s.pool.workers[w], s'.pool.workers[w];
              && Holding(wk') == Holding(wk)
              && (WillBeDone(cfg, wk) <==> WillBeDone(cfg, wk'))
              && (WillBeRescheduled(wk) <==> WillBeRescheduled(wk'))
  {
    match s.pool.workers[w].phase {
      case Spawned =>
      case Executing =>
      case Marked(registered) =>
      case Released =>
    }
  }

  /** What becomes of the rows when a worker leaves. */
  ghost predicate JobEnds(cfg: Config, rows: Rows, rows': Rows, wk: Worker) {
    && (!Holding(wk) ==> rows' == rows)
    && (Holding(wk) ==> wk.job.id in rows && OnlyRow(rows, rows', wk.job.id))
    && (WillBeDone(cfg, wk) ==> wk.job.id in rows' && rows'[wk.job.id].status == Done)
    && (Holding(wk) && !WillBeRescheduled(wk) ==> rows'[wk.job.id].status != Pending)
  }

  /** One step of a worker, and what it leaves to the rest of its way. */
  lemma StepTowardsEnd(cfg: Config, s: State, t: Timed, s1: State, w: nat, rows': Rows)
    requires Sound(cfg, s) && w in s.pool.workers && t == NextTimed(cfg, s, w, t.now)
    requires Can(cfg, s, t) && s1 == Do(cfg, s, t)
    requires if w in s1.pool.workers then JobEnds(cfg, s1.store.rows, rows', s1.pool.workers[w])
             else rows' == s1.store.rows
    ensures JobEnds(cfg, s.store.rows, rows', s.pool.workers[w])
  {
    WorkerStep(cfg, s, t, s1, w);
    if InDecided(s.pool, w) {
      MarkStepRows(cfg, s, t, s1, w);
    } else {
      QuietWorkerStep(cfg, s, t, s1, w);
    }
  }

  predicate Runs(cfg: Config, wk: Worker) {
    wk.phase == Executing || (wk.phase == Spawned && wk.job.typ in cfg.handlers)
  }

  /** Any worker, wherever it is, can go on to leave, ending its job on the way. */
  lemma {:induction false} WorkerLeaves(cfg: Config, s: State, w: nat, now: Time) returns (ts: seq<Timed>)
    requires Sound(cfg, s) && w in s.pool.workers
    ensures AllOwn(ts, now) && After(cfg, s, ts).Some?
    ensures var s' := After(cfg, s, ts).value;
            && Sound(cfg, s') && OthersStay(s, s', w) && w !in s'.pool.workers
            && JobEnds(cfg, s.store.rows, s'.store.rows, s.pool.workers[w])
    ensures Runs(cfg, s.pool.workers[w]) ==> Timed(Finish(w, Success), now) in ts
    decreases ToGo(s.pool.workers[w].phase)
  {
    var t := NextTimed(cfg, s, w, now);
    WorkerCanStep(cfg, s, w, now);
    var s1 := Do(cfg, s, t);
    WorkerStep(cfg, s, t, s1, w);
    StepKeepsSound(cfg, s, t);
    var rest: seq<Timed> := [];
    if w in s1.pool.workers {
      rest := WorkerLeaves(cfg, s1, w, now);
    }
    ts := [t] + rest;
    JoinFirst(cfg, s, t, rest);
    StepTowardsEnd(cfg, s, t, s1, w, After(cfg, s, ts).value.store.rows);
    if Runs(cfg, s.pool.workers[w]) {
      RunsOn(cfg, s, t, s1, w);
    }
  }

  lemma RunsOn(cfg: Config, s: State, t: Timed, s1: State, w: nat)
    requires w in s.pool.workers && t == NextTimed(cfg, s, w, t.now) && Can(cfg, s, t) && s1 == Do(cfg, s, t)
    requires Runs(cfg, s.pool.workers[w])
    ensures t.e == Finish(w, Success) || (w in s1.pool.workers && Runs(cfg, s1.pool.workers[w]))
  {
  }

  // ------------------------------------------------------------------ the poller dispatches

  /** With a slot free, the head of the batch can be handed to a new worker. */
  lemma HeadIsSpawned(cfg: Config, s: State, now: Time) returns (ts: seq<Timed>)
    requires Sound(cfg, s) && s.pool.poller.Batch? && s.pool.poller.rest != []
    ensures AllOwn(ts, now) && After(cfg, s, ts).Some?
    ensures var s' := After(cfg, s, ts).value;
            && Sound(cfg, s') && s'.store == s.store && s'.up == s.up && s'.pool.stopping == s.pool.stopping
            && s'.pool.poller == Batch(s.pool.poller.rest[1..], NeedSlot)
            && s'.pool.workers == s.pool.workers[s.pool.next := Worker(s.pool.poller.rest[0], Spawned)]
    decreases match s.pool.poller.gate case NeedSlot => 2 case HasSlot => 1 case HasWait => 0
  {
    var t := match s.pool.poller.gate
             case NeedSlot => Timed(TakeSlot, now)
             case HasSlot => Timed(AddWait, now)
             case HasWait => Timed(Spawn, now);
    assert Can(cfg, s, t);
    StepKeepsSound(cfg, s, t);
    var rest: seq<Timed> := [];
    if t.e != Spawn {
      rest := HeadIsSpawned(cfg, Do(cfg, s, t), now);
    }
    ts := [t] + rest;
    JoinFirst(cfg, s, t, rest);
  }

  /** The head of a batch can be dispatched, run and finished before anything else happens. */
  lemma HeadFinishes(cfg: Config, s: State, now: Time) returns (ts: seq<Timed>)
    requires Sound(cfg, s) && s.pool.poller.Batch? && s.pool.poller.rest != []
    ensures AllOwn(ts, now) && After(cfg, s, ts).Some?
    ensures var s' := After(cfg, s, ts).value;
            && Sound(cfg, s') && s'.up == s.up && s'.pool.stopping == s.pool.stopping
            && s'.pool.poller == Batch(s.pool.poller.rest[1..], NeedSlot) && s'.pool.workers == s.pool.workers
            && HeadEnds(cfg, s, s')
    ensures s.pool.poller.rest[0].typ in cfg.handlers ==> Timed(Finish(s.pool.next, Success), now) in ts
  {
    var a := HeadIsSpawned(cfg, s, now);
    var m, w := After(cfg, s, a).value, s.pool.next;
    var b := WorkerLeaves(cfg, m, w, now);
    Join(cfg, s, a, b, now);
    ts := a + b;
    SpawnedThenGone(cfg, s, m, After(cfg, m, b).value, w);
  }

  lemma SpawnedThenGone(cfg: Config, s: State, m: State, s': State, w: nat)
    requires s.pool.poller.Batch? && s.pool.poller.rest != [] && w == s.pool.next && FreshWorkers(s.pool)
    requires var j := s.pool.poller.rest[0];
             && m.store == s.store && m.up == s.up && m.pool.stopping == s.pool.stopping
             && m.pool.poller == Batch(s.pool.poller.rest[1..], NeedSlot)
             && m.pool.workers == s.pool.workers[w := Worker(j, Spawned)]
             && OthersStay(m, s', w) && w !in s'.pool.workers
             && JobEnds(cfg, m.store.rows, s'.store.rows, Worker(j, Spawned))
    ensures s'.up == s.up && s'.pool.stopping == s.pool.stopping
    ensures s'.pool.poller == Batch(s.pool.poller.rest[1..], NeedSlot) && s'.pool.workers == s.pool.workers
    ensures HeadEnds(cfg, s, s')
  {
    assert w !in s.pool.workers;
    assert s'.pool.workers == s'.pool.workers - {w} == m.pool.workers - {w} == s.pool.workers;
  }

  ghost predicate HeadEnds(cfg: Config, s: State, s': State)
    requires s.pool.poller.Batch? && s.pool.poller.rest != []
  {
    var j := s.pool.poller.rest[0];
    && j.id in s.store.rows && OnlyRow(s.store.rows, s'.store.rows, j.id)
    && s'.store.rows[j.id].status != Pending
    && (j.typ in cfg.handlers ==> s'.store.rows[j.id].status == Done)
  }

  /** So can the first n jobs of a batch, one after the other. */
  lemma {:induction false} HeadsFinish(cfg: Config, s: State, n: nat, now: Time) returns (ts: seq<Timed>)
    requires Sound(cfg, s) && s.pool.poller.Batch? && n <= |s.pool.poller.rest| && s.pool.poller.gate == NeedSlot
    ensures AllOwn(ts, now) && After(cfg, s, ts).Some?
    ensures BatchDone(s, After(cfg, s, ts).value, n) && Sound(cfg, After(cfg, s, ts).value)
    decreases n
  {
    if n == 0 {
      ts := [];
      assert s.pool.poller.rest[0..] == s.pool.poller.rest;
    } else {
      var a := HeadFinishes(cfg, s, now);
      var m := After(cfg, s, a).value;
      var b := HeadsFinish(cfg, m, n - 1, now);
      Join(cfg, s, a, b, now);
      ts := a + b;
      BatchGoesOn(s, m, After(cfg, s, ts).value, n);
    }
  }

  /** The first n jobs of the batch are pending no more; no other row has changed. */
  ghost predicate BatchDone(s: State, s': State, n: nat)
    requires s.pool.poller.Batch? && n <= |s.pool.poller.rest|
  {
    var rest := s.pool.poller.rest;
    && s'.up == s.up && s'.pool.stopping == s.pool.stopping
    && s'.pool.workers == s.pool.workers && s'.pool.poller == Batch(rest[n..], NeedSlot)
    && s'.store.rows.Keys == s.store.rows.Keys
    && (forall id | id in s.store.rows :: s'.store.rows[id] == s.store.rows[id] || s'.store.rows[id].status != Pending)
    && (forall i | 0 <= i < n && rest[i].id in s.store.rows :: s'.store.rows[rest[i].id].status != Pending)
    && forall id | id in s.store.rows && (forall i | 0 <= i < n :: rest[i].id != id) ::
         s'.store.rows[id] == s.store.rows[id]
  }

  lemma BatchGoesOn(s: State, m: State, s': State, n: nat)
    requires s.pool.poller.Batch? && 0 < n <= |s.pool.poller.rest|
    requires m.pool.poller == Batch(s.pool.poller.rest[1..], NeedSlot) && m.pool.workers == s.pool.workers
    requires m.up == s.up && m.pool.stopping == s.pool.stopping
    requires var id := s.pool.poller.rest[0].id;
             id in s.store.rows && OnlyRow(s.store.rows, m.store.rows, id) && m.store.rows[id].status != Pending
    requires BatchDone(m, s', n - 1)
    ensures BatchDone(s, s', n)
  {
    var rest := s.pool.poller.rest;
    assert rest[1..][n - 1..] == rest[n..];
    assert forall i | 0 < i < n :: rest[1..][i - 1] == rest[i];
    forall i | 0 <= i < n && rest[i].id in s.store.rows ensures s'.store.rows[rest[i].id].status != Pending {
      if i > 0 {
        assert rest[1..][i - 1] == rest[i];
      }
    }
    forall id | id in s.store.rows && (forall i | 0 <= i < n :: rest[i].id != id)
      ensures s'.store.rows[id] == s.store.rows[id]
    {
      assert rest[0].id != id;
      assert forall i | 0 <= i < n - 1 :: rest[1..][i] == rest[i + 1];
    }
  }

  // ------------------------------------------------------------------ a pass

  lemma IdleIsUp(cfg: Config, s: State)
    requires Sound(cfg, s) && s.pool.poller == Idle
    ensures s.up
  {
  }

  /** An idle poller with a free slot can sample and claim. */
  lemma PassBegins(cfg: Config, s: State, now: Time, ids: seq<Id>) returns (ts: seq<Timed>)
    requires Sound(cfg, s) && s.pool.poller == Idle && s.pool.sem < cfg.concurrency
    requires ClaimChoice(s.store.rows, now, cfg.concurrency - s.pool.sem, ids)
    ensures ts == [Timed(Sample, now), Timed(ClaimBatch(ids), now)] && After(cfg, s, ts).Some?
    ensures var s' := After(cfg, s, ts).value;
            && Sound(cfg, s') && s'.up && s'.pool.stopping == s.pool.stopping && s'.pool.workers == s.pool.workers
            && s'.store.rows == Claimed(s.store.rows, now, ids)
            && s'.pool.poller == Batch(CopiesOf(s'.store.rows, ids), NeedSlot)
  {
    IdleIsUp(cfg, s);
    var a, b := Timed(Sample, now), Timed(ClaimBatch(ids), now);
    ts := [a] + [b];
    assert Can(cfg, s, a);
    StepKeepsSound(cfg, s, a);
    var m := Do(cfg, s, a);
    assert Can(cfg, m, b);
    StepKeepsSound(cfg, m, b);
    AfterFirst(cfg, s, a, [b]);
    AfterFirst(cfg, m, b, []);
    assert [b] + [] == [b];
  }

  /** The batch has been claimed and its first n jobs have ended. */
  ghost predicate MidPass(cfg: Config, s: State, s': State, now: Time, ids: seq<Id>, n: nat)
    requires n <= |ids|
  {
    && Sound(cfg, s') && s'.up && s'.pool.stopping == s.pool.stopping && s'.pool.workers == s.pool.workers
    && s'.pool.poller.Batch? && s'.pool.poller.gate == NeedSlot && |s'.pool.poller.rest| == |ids| - n
    && (forall i | n <= i < |ids| :: IsClaimed(s.store.rows, s'.pool.poller.rest[i - n], ids[i]))
    && s'.store.rows.Keys == s.store.rows.Keys
    && (forall id | id in s.store.rows :: s'.store.rows[id] == s.store.rows[id] || s'.store.rows[id].status != Pending)
    && (forall id | id in s.store.rows && id !in ids :: s'.store.rows[id] == s.store.rows[id])
    && forall id | id in ids && id in s.store.rows :: s'.store.rows[id].status != Pending
  }

  predicate IsClaimed(rows: Rows, j: Job, id: Id) { j.id == id && id in rows && j.typ == rows[id].typ }

  lemma BatchIsClaimed(rows: Rows, now: Time, ids: seq<Id>)
    requires KeyedById(rows) && forall id | id in ids :: id in rows
    ensures forall i | 0 <= i < |ids| :: IsClaimed(rows, CopiesOf(Claimed(rows, now, ids), ids)[i], ids[i])
  {
    forall i | 0 <= i < |ids| ensures IsClaimed(rows, CopiesOf(Claimed(rows, now, ids), ids)[i], ids[i]) {
      assert ids[i] in ids;
    }
  }

  lemma PassGoes(cfg: Config, s: State, now: Time, ids: seq<Id>, n: nat) returns (ts: seq<Timed>)
    requires Sound(cfg, s) && s.pool.poller == Idle && s.pool.sem < cfg.concurrency && n <= |ids|
    requires ClaimChoice(s.store.rows, now, cfg.concurrency - s.pool.sem, ids)
    ensures AllOwn(ts, now) && After(cfg, s, ts).Some? && MidPass(cfg, s, After(cfg, s, ts).value, now, ids, n)
    ensures Timed(ClaimBatch(ids), now) in ts
  {
    var a := PassBegins(cfg, s, now, ids);
    var m := After(cfg, s, a).value;
    var b := HeadsFinish(cfg, m, n, now);
    Join(cfg, s, a, b, now);
    ts := a + b;
    assert a[1] in ts;
    assert forall id | id in ids :: id in DueIds(s.store.rows, now);
    BatchIsClaimed(s.store.rows, now, ids);
    PassSoFar(cfg, s, m, After(cfg, s, ts).value, now, ids, n);
  }

  lemma PassSoFar(cfg: Config, s: State, m: State, s': State, now: Time, ids: seq<Id>, n: nat)
    requires n <= |ids| && forall id | id in ids :: id in s.store.rows
    requires m.up && m.pool.stopping == s.pool.stopping && m.pool.workers == s.pool.workers
    requires m.store.rows == Claimed(s.store.rows, now, ids)
    requires m.pool.poller.Batch? && |m.pool.poller.rest| == |ids|
    requires forall i | 0 <= i < |ids| :: IsClaimed(s.store.rows, m.pool.poller.rest[i], ids[i])
    requires Sound(cfg, s') && BatchDone(m, s', n)
    ensures MidPass(cfg, s, s', now, ids, n)
  {
    var rest := m.pool.poller.rest;
    forall i | n <= i < |ids| ensures IsClaimed(s.store.rows, s'.pool.poller.rest[i - n], ids[i]) {
      assert s'.pool.poller.rest[i - n] == rest[i];
    }
    forall id | id in s.store.rows && id !in ids ensures s'.store.rows[id] == s.store.rows[id] {
      assert forall i | 0 <= i < n :: rest[i].id == ids[i] && ids[i] in ids;
      assert m.store.rows[id] == s.store.rows[id];
    }
    forall id | id in ids ensures s'.store.rows[id].status != Pending {
      assert m.store.rows[id].status == Running;
    }
  }

  /** A whole pass leaves fewer jobs due, and the poller idle again. */
  ghost predicate PassedOver(cfg: Config, s: State, s': State, now: Time, ids: seq<Id>) {
    && Sound(cfg, s') && s'.pool.poller == Idle && s'.pool.sem < cfg.concurrency
    && DueIds(s'.store.rows, now) == DueIds(s.store.rows, now) - (set id | id in ids)
    && forall id | id in s.store.rows && id !in ids ::
         id in s'.store.rows && s'.store.rows[id] == s.store.rows[id]
  }

  lemma PassEnds(cfg: Config, s: State, now: Time, ids: seq<Id>) returns (ts: seq<Timed>)
    requires Sound(cfg, s) && s.pool.poller == Idle && s.pool.sem < cfg.concurrency
    requires ClaimChoice(s.store.rows, now, cfg.concurrency - s.pool.sem, ids)
    ensures AllOwn(ts, now) && After(cfg, s, ts).Some? && PassedOver(cfg, s, After(cfg, s, ts).value, now, ids)
  {
    var a := PassGoes(cfg, s, now, ids, |ids|);
    var m, t := After(cfg, s, a).value, Timed(EndBatch, now);
    LastStepOfPass(cfg, s, m, t, ids);
    JoinFirst(cfg, m, t, []);
    Join(cfg, s, a, [t] + [], now);
    ts := a + ([t] + []);
  }

  lemma LastStepOfPass(cfg: Config, s: State, m: State, t: Timed, ids: seq<Id>)
    requires Sound(cfg, s) && s.pool.poller == Idle && s.pool.sem < cfg.concurrency
    requires MidPass(cfg, s, m, t.now, ids, |ids|) && t.e == EndBatch
    ensures Can(cfg, m, t) && PassedOver(cfg, s, Do(cfg, m, t), t.now, ids)
  {
    assert m.pool.poller.rest == [];
    StepKeepsSound(cfg, m, t);
    var s' := Do(cfg, m, t);
    assert s'.store == m.store && s'.pool.workers == s.pool.workers;
    SlotsOfWorkers(s.pool, s'.pool);
    DueAfterPass(s.store.rows, s'.store.rows, t.now, ids);
  }

  lemma DueAfterPass(rows: Rows, rows': Rows, now: Time, ids: seq<Id>)
    requires rows'.Keys == rows.Keys
    requires forall id | id in rows && id !in ids :: rows'[id] == rows[id]
    requires forall id | id in ids && id in rows :: rows'[id].status != Pending
    ensures DueIds(rows', now) == DueIds(rows, now) - (set id | id in ids)
  {
  }

  // ------------------------------------------------------------------ every due job can finish

  predicate ClaimedIn(ts: seq<Timed>, id: Id) { exists t :: t in ts && t.e.ClaimBatch? && id in t.e.ids }

  /** A worker spawned for the job has its handler run, and succeed. */
  ghost predicate RunIn(cfg: Config, s: State, ts: seq<Timed>, id: Id, now: Time) {
    exists n :: 0 <= n <= |ts| && RunFrom(cfg, s, ts, n, id, now)
  }

  ghost predicate RunFrom(cfg: Config, s: State, ts: seq<Timed>, n: nat, id: Id, now: Time)
    requires n <= |ts|
  {
    HasHead(cfg, s, ts[..n], id) && Timed(Finish(After(cfg, s, ts[..n]).value.pool.next, Success), now) in ts[n..]
  }

  ghost predicate HasHead(cfg: Config, s: State, ts: seq<Timed>, id: Id) {
    && After(cfg, s, ts).Some? && After(cfg, s, ts).value.pool.poller.Batch?
    && After(cfg, s, ts).value.pool.poller.rest != [] && After(cfg, s, ts).value.pool.poller.rest[0].id == id
  }

  /** From an idle poller with a free slot, any due job with a handler is claimed, run and done in time. */
  lemma {:induction false} JobFinishes(cfg: Config, s: State, id: Id, now: Time) returns (ts: seq<Timed>)
    requires Sound(cfg, s) && s.pool.poller == Idle && s.pool.sem < cfg.concurrency
    requires id in DueIds(s.store.rows, now) && s.store.rows[id].typ in cfg.handlers
    ensures AllOwn(ts, now) && After(cfg, s, ts).Some?
    ensures var s' := After(cfg, s, ts).value; id in s'.store.rows && s'.store.rows[id].status == Done
    ensures ClaimedIn(ts, id) && RunIn(cfg, s, ts, id, now)
    decreases |DueIds(s.store.rows, now)|
  {
    var ids := ChoiceExists(s.store.rows, now, cfg.concurrency - s.pool.sem);
    if id in ids {
      ts := ClaimedJobFinishes(cfg, s, id, now, ids);
    } else {
      var a := PassEnds(cfg, s, now, ids);
      var m := After(cfg, s, a).value;
      FewerDue(s.store.rows, m.store.rows, now, ids);
      var b := JobFinishes(cfg, m, id, now);
      Join(cfg, s, a, b, now);
      ts := a + b;
      LaterCounts(cfg, s, a, b, id, now);
    }
  }

  lemma FewerDue(rows: Rows, rows': Rows, now: Time, ids: seq<Id>)
    requires ids != []
    requires forall o | o in ids :: o in DueIds(rows, now)
    requires DueIds(rows', now) == DueIds(rows, now) - (set o | o in ids)
    ensures |DueIds(rows', now)| < |DueIds(rows, now)|
  {
    assert ids[0] in ids;
    assert DueIds(rows', now) <= DueIds(rows, now) - {ids[0]};
    SubsetSize(DueIds(rows', now), DueIds(rows, now) - {ids[0]});
  }

  lemma ClaimedJobFinishes(cfg: Config, s: State, id: Id, now: Time, ids: seq<Id>) returns (ts: seq<Timed>)
    requires Sound(cfg, s) && s.pool.poller == Idle && s.pool.sem < cfg.concurrency
    requires ClaimChoice(s.store.rows, now, cfg.concurrency - s.pool.sem, ids) && id in ids
    requires id in s.store.rows && s.store.rows[id].typ in cfg.handlers
    ensures AllOwn(ts, now) && After(cfg, s, ts).Some?
    ensures var s' := After(cfg, s, ts).value; id in s'.store.rows && s'.store.rows[id].status == Done
    ensures ClaimedIn(ts, id) && RunIn(cfg, s, ts, id, now)
  {
    var i :| 0 <= i < |ids| && ids[i] == id;
    var a := PassGoes(cfg, s, now, ids, i);
    var m := After(cfg, s, a).value;
    assert IsClaimed(s.store.rows, m.pool.poller.rest[i - i], ids[i]);
    var b := HeadFinishes(cfg, m, now);
    Join(cfg, s, a, b, now);
    ts := a + b;
    assert Timed(ClaimBatch(ids), now) in ts;
    assert ts[..|a|] == a && ts[|a|..] == b;
    assert RunFrom(cfg, s, ts, |a|, id, now);
  }

  lemma LaterCounts(cfg: Config, s: State, a: seq<Timed>, b: seq<Timed>, id: Id, now: Time)
    requires After(cfg, s, a).Some?
    requires ClaimedIn(b, id) && RunIn(cfg, After(cfg, s, a).value, b, id, now)
    ensures ClaimedIn(a + b, id) && RunIn(cfg, s, a + b, id, now)
  {
    var t :| t in b && t.e.ClaimBatch? && id in t.e.ids;
    assert t in a + b;
    var n :| 0 <= n <= |b| && RunFrom(cfg, After(cfg, s, a).value, b, n, id, now);
    LaterRun(cfg, s, a, b, n, id, now);
  }

  lemma LaterRun(cfg: Config, s: State, a: seq<Timed>, b: seq<Timed>, n: nat, id: Id, now: Time)
    requires After(cfg, s, a).Some? && n <= |b| && RunFrom(cfg, After(cfg, s, a).value, b, n, id, now)
    ensures RunFrom(cfg, s, a + b, |a| + n, id, now)
  {
    AfterBoth(cfg, s, a, b[..n]);
    assert (a + b)[..|a| + n] == a + b[..n] && (a + b)[|a| + n..] == b[n..];
  }

  // ------------------------------------------------------------------ every pool can settle

  /** `s'` is up like `s`, and rows that were not running are as they were. */
  ghost predicate Settles(cfg: Config, s: State, s': State) {
    && Sound(cfg, s') && s'.up == s.up && s'.pool.stopping == s.pool.stopping
    && forall id | id in s.store.rows && s.store.rows[id].status != Running ::
         id in s'.store.rows && s'.store.rows[id] == s.store.rows[id]
  }

  /** The poller can give up its sample, or dispatch what it has claimed, and be idle again. */
  lemma {:induction false} PollerSettles(cfg: Config, s: State, now: Time) returns (ts: seq<Timed>)
    requires Sound(cfg, s)
    ensures AllOwn(ts, now) && After(cfg, s, ts).Some?
    ensures var s' := After(cfg, s, ts).value;
            Settles(cfg, s, s') && s'.pool.poller == if s.pool.poller == Stopped then Stopped else Idle
    decreases |Rest(s.pool)|
  {
    if s.pool.poller == Stopped || s.pool.poller == Idle {
      ts := [];
    } else if s.pool.poller.Batch? && s.pool.poller.rest != [] {
      var a := HeadIsSpawned(cfg, s, now);
      var b := PollerSettles(cfg, After(cfg, s, a).value, now);
      Join(cfg, s, a, b, now);
      ts := a + b;
    } else {
      var t := Timed(if s.pool.poller.Sampled? then ClaimFails else EndBatch, now);
      EmptyHandedIsIdle(cfg, s, t);
      AfterFirst(cfg, s, t, []);
      ts := [t] + [];
    }
  }

  lemma EmptyHandedIsIdle(cfg: Config, s: State, t: Timed)
    requires Sound(cfg, s)
    requires if s.pool.poller.Sampled? then t.e == ClaimFails
             else s.pool.poller.Batch? && s.pool.poller.rest == [] && t.e == EndBatch
    ensures Can(cfg, s, t) && Settles(cfg, s, Do(cfg, s, t)) && Do(cfg, s, t).pool.poller == Idle
  {
    StepKeepsSound(cfg, s, t);
  }

  /** All workers can leave. */
  lemma {:induction false} WorkersLeave(cfg: Config, s: State, now: Time) returns (ts: seq<Timed>)
    requires Sound(cfg, s)
    ensures AllOwn(ts, now) && After(cfg, s, ts).Some?
    ensures var s' := After(cfg, s, ts).value;
            Settles(cfg, s, s') && s'.pool.poller == s.pool.poller && s'.pool.workers == map[]
    decreases |s.pool.workers|
  {
    if s.pool.workers == map[] {
      ts := [];
    } else {
      var w :| w in s.pool.workers;
      var a := WorkerLeaves(cfg, s, w, now);
      var m := After(cfg, s, a).value;
      OneFewer(s.pool.workers, m.pool.workers, w);
      LeavingSettles(cfg, s, m, w);
      var b := WorkersLeave(cfg, m, now);
      Join(cfg, s, a, b, now);
      ts := a + b;
    }
  }

  lemma OneFewer(a: map<nat, Worker>, b: map<nat, Worker>, w: nat)
    requires w in a && w !in b && a - {w} == b - {w}
    ensures |b| < |a|
  {
    assert b == b - {w};
    assert a.Keys == b.Keys + {w};
  }

  lemma LeavingSettles(cfg: Config, s: State, s': State, w: nat)
    requires Sound(cfg, s) && Sound(cfg, s') && w in s.pool.workers && OthersStay(s, s', w)
    requires JobEnds(cfg, s.store.rows, s'.store.rows, s.pool.workers[w])
    ensures Settles(cfg, s, s')
  {
    if Holding(s.pool.workers[w]) {
      assert IsHolder(s.pool, OfWorker(w)) && Holds(s.store.rows, JobOf(s.pool, OfWorker(w)));
    }
  }

  lemma SettlesBoth(cfg: Config, s: State, m: State, s': State)
    requires Settles(cfg, s, m) && Settles(cfg, m, s')
    ensures Settles(cfg, s, s')
  {
  }

  /** Both together: no worker is left and every slot is free. */
  lemma PoolSettles(cfg: Config, s: State, now: Time) returns (ts: seq<Timed>)
    requires Sound(cfg, s)
    ensures AllOwn(ts, now) && After(cfg, s, ts).Some?
    ensures var s' := After(cfg, s, ts).value;
            && Settles(cfg, s, s') && s'.pool.workers == map[] && s'.pool.sem == 0
            && s'.pool.poller == if s.pool.poller == Stopped then Stopped else Idle
  {
    var a := PollerSettles(cfg, s, now);
    var m := After(cfg, s, a).value;
    var b := WorkersLeave(cfg, m, now);
    Join(cfg, s, a, b, now);
    ts := a + b;
    var s' := After(cfg, s, ts).value;
    SettlesBoth(cfg, s, m, s');
    assert Slots(s'.pool) == {};
  }

  // ------------------------------------------------------------------ the two promises

  lemma ReachableSound(cfg: Config, ss: seq<State>, ts: seq<Timed>)
    requires PoolRun(cfg, ss, ts)
    ensures Sound(cfg, ss[|ts|])
  {
    ReachableHold(cfg, ss, ts, |ts|);
    ReachableCounts(cfg, ss, ts, |ts|);
  }

  /** In a run whose poller is idle with a slot free, any due job with a handler can be next to finish. */
  lemma DueJobCanFinish(cfg: Config, ss: seq<State>, ts: seq<Timed>, id: Id, now: Time)
    returns (ss': seq<State>, more: seq<Timed>)
    requires PoolRun(cfg, ss, ts) && ss[|ts|].pool.poller == Idle && ss[|ts|].pool.sem < cfg.concurrency
    requires id in DueIds(ss[|ts|].store.rows, now) && ss[|ts|].store.rows[id].typ in cfg.handlers
    ensures PoolRun(cfg, ss', ts + more) && AllOwn(more, now)
    ensures ClaimedIn(more, id) && RunIn(cfg, ss[|ts|], more, id, now)
    ensures var rows := ss'[|ts + more|].store.rows; id in rows && rows[id].status == Done
  {
    ReachableSound(cfg, ss, ts);
    more := JobFinishes(cfg, ss[|ts|], id, now);
    ss' := RunGoesOn(cfg, ss, ts, more);
  }

  /**
   From every reachable state whose poll loop lives, the slots full or the poller in the middle of
   a batch, any pending job with a handler can finish once its time has come.
   */
  lemma PendingJobCanFinish(cfg: Config, ss: seq<State>, ts: seq<Timed>, id: Id, now: Time)
    returns (ss': seq<State>, more: seq<Timed>)
    requires PoolRun(cfg, ss, ts) && cfg.concurrency > 0 && ss[|ts|].up && ss[|ts|].pool.poller != Stopped
    requires id in DueIds(ss[|ts|].store.rows, now) && ss[|ts|].store.rows[id].typ in cfg.handlers
    ensures PoolRun(cfg, ss', ts + more) && AllOwn(more, now) && ClaimedIn(more, id)
    ensures var rows := ss'[|ts + more|].store.rows; id in rows && rows[id].status == Done
  {
    ReachableSound(cfg, ss, ts);
    more := PendingJobFinishes(cfg, ss[|ts|], id, now);
    ss' := RunGoesOn(cfg, ss, ts, more);
  }

  lemma PendingJobFinishes(cfg: Config, s: State, id: Id, now: Time) returns (ts: seq<Timed>)
    requires Sound(cfg, s) && cfg.concurrency > 0 && s.pool.poller != Stopped
    requires id in DueIds(s.store.rows, now) && s.store.rows[id].typ in cfg.handlers
    ensures AllOwn(ts, now) && After(cfg, s, ts).Some? && ClaimedIn(ts, id)
    ensures var rows := After(cfg, s, ts).value.store.rows; id in rows && rows[id].status == Done
  {
    var a := PoolSettles(cfg, s, now);
    var m := After(cfg, s, a).value;
    assert m.store.rows[id] == s.store.rows[id];
    var b := JobFinishes(cfg, m, id, now);
    Join(cfg, s, a, b, now);
    ts := a + b;
    LaterCounts(cfg, s, a, b, id, now);
  }

  /** After a crash at any step, any job that was pending or running can finish after the next start. */
  lemma CrashedJobCanFinish(cfg: Config, ss: seq<State>, ts: seq<Timed>, id: Id, now: Time)
    returns (ss': seq<State>, more: seq<Timed>)
    requires PoolRun(cfg, ss, ts) && cfg.concurrency > 0 && !ss[|ts|].up && id in ss[|ts|].store.rows
    requires var j := ss[|ts|].store.rows[id]; Active(j) && j.runAt <= now && j.typ in cfg.handlers
    ensures more != [] && more[0] == Timed(Start, now) && AllOwn(more[1..], now)
    ensures PoolRun(cfg, ss', ts + more) && ClaimedIn(more, id)
    ensures var rows := ss'[|ts + more|].store.rows; id in rows && rows[id].status == Done
  {
    var s, t := ss[|ts|], Timed(Start, now);
    ReachableSound(cfg, ss, ts);
    StartRecovers(cfg, s, t, id);
    StepKeepsSound(cfg, s, t);
    var b := PendingJobFinishes(cfg, Do(cfg, s, t), id, now);
    AfterFirst(cfg, s, t, b);
    more := [t] + b;
    ss' := RunGoesOn(cfg, ss, ts, more);
    var u :| u in b && u.e.ClaimBatch? && id in u.e.ids;
    assert u in more;
  }

  lemma StartRecovers(cfg: Config, s: State, t: Timed, id: Id)
    requires t.e == Start && !s.up && id in s.store.rows && Active(s.store.rows[id]) && s.store.rows[id].runAt <= t.now
    ensures Can(cfg, s, t) && Do(cfg, s, t).pool.poller == Idle
    ensures id in DueIds(Do(cfg, s, t).store.rows, t.now)
    ensures Do(cfg, s, t).store.rows[id].typ == s.store.rows[id].typ
  {
  }

  /**
   From every reachable state of a live process some continuation stops it gracefully: the poll
   loop ends, the wait group comes down to zero and no row is left running.
   */
  lemma PoolCanDrain(cfg: Config, ss: seq<State>, ts: seq<Timed>, now: Time)
    returns (ss': seq<State>, more: seq<Timed>)
    requires PoolRun(cfg, ss, ts) && ss[|ts|].up
    ensures PoolRun(cfg, ss', ts + more)
    ensures forall t | t in more :: t.now == now && (Own(t.e) || t.e == StopSignal)
    ensures var s' := ss'[|ts + more|];
            && s'.up && s'.pool.wg == 0 && s'.pool.poller == Stopped && s'.pool.workers == map[]
            && WithStatus(s'.store.rows, Running) == {}
  {
    ReachableSound(cfg, ss, ts);
    more := Drains(cfg, ss[|ts|], now);
    ss' := RunGoesOn(cfg, ss, ts, more);
    GracefulDrain(cfg, ss', ts + more, |ts + more|);
  }

  lemma Drains(cfg: Config, s: State, now: Time) returns (ts: seq<Timed>)
    requires Sound(cfg, s) && s.up
    ensures forall t | t in ts :: t.now == now && (Own(t.e) || t.e == StopSignal)
    ensures After(cfg, s, ts).Some?
    ensures var s' := After(cfg, s, ts).value; s'.up && s'.pool.wg == 0
  {
    var stop, exit := Timed(StopSignal, now), Timed(PollExit, now);
    var m := Do(cfg, s, stop);
    StepKeepsSound(cfg, s, stop);
    var a := PoolSettles(cfg, m, now);
    var e := After(cfg, m, a).value;
    AfterFirst(cfg, s, stop, a);
    ts := [stop] + a;
    if e.pool.poller == Idle {
      StepKeepsSound(cfg, e, exit);
      AfterBoth(cfg, s, ts, [exit]);
      AfterFirst(cfg, e, exit, []);
      assert [exit] + [] == [exit];
      ts := ts + [exit];
    }
  }

  // ------------------------------------------------------------------ what nothing prevents

  /** A live process can be killed, stopped or told to cancel at any point, and a dead one started. */
  lemma AnythingCanInterfere(cfg: Config, s: State, typ: string, now: Time)
    ensures s.up ==>
              && Can(cfg, s, Timed(Crash, now)) && Can(cfg, s, Timed(StopSignal, now))
              && Can(cfg, s, Timed(CancelAll(typ), now))
    ensures !s.up ==> Can(cfg, s, Timed(Start, now))
    ensures s.pool.poller.Sampled? ==> Can(cfg, s, Timed(ClaimFails, now))
  {
  }

  /** Callers can enqueue and retry at any point, and a handler can fail. */
  lemma CallersAndHandlersAreFree(cfg: Config, s: State, op: Op, w: nat, err: string, now: Time)
    ensures (Inserts(op) || op.RetryJob?) && Enabled(s.store, StoreRuns.Step(op, now)) ==>
              Can(cfg, s, Timed(External(op), now))
    ensures At(s.pool, w, Executing) ==> Can(cfg, s, Timed(Finish(w, Failure(err)), now))
  {
  }
}
