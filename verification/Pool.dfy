/**
 The worker pool as interleaved atomic steps over a job store. One poller samples the
 semaphore, claims a batch and dispatches it slot by slot; each worker goroutine registers,
 runs, decides from its snapshot of the job, marks, deregisters, releases its slot and leaves
 the wait group. Enqueues, dashboard retries, CancelAll, stop, crash and restart come at any
 time. Every storage step is a step of StoreRuns.
 */
module Pool {
  import opened Types
  import opened StoreSpec
  import opened StoreRuns
  import opened Backoff

  datatype Config = Config(
    concurrency: nat,
    handlers: set<string>,
    defs: map<string, JobDef>,
    backoffBase: Duration,
    backoffCap: Duration,
    wild: real -> int)

  function DefOf(cfg: Config, typ: string): JobDef {
    if typ in cfg.defs then cfg.defs[typ] else JobDef(0, 0, 0)
  }

  function Delay(cfg: Config, typ: string, attempt: int): Duration {
    CalcBackoff(cfg.backoffBase, cfg.backoffCap, DefOf(cfg, typ), attempt, cfg.wild)
  }

  /** The delay of a type: by the fields of its own definition where they are positive, else by the pool's. */
  lemma TypeDelay(cfg: Config, typ: string, attempt: int, base: Duration, cap: Duration)
    requires attempt >= 1 && Sound(base, cap) && InRange(base, attempt)
    requires base == if typ in cfg.defs && cfg.defs[typ].backoffBase > 0
                     then cfg.defs[typ].backoffBase else cfg.backoffBase
    requires cap == if typ in cfg.defs && cfg.defs[typ].backoffCap > 0
                    then cfg.defs[typ].backoffCap else cfg.backoffCap
    ensures Delay(cfg, typ, attempt) == Min(base * Pow2(attempt - 1), cap)
  {
    ClosedForm(cfg.backoffBase, cfg.backoffCap, DefOf(cfg, typ), attempt, cfg.wild);
  }

  datatype Decision = Succeed | Reschedule(err: string, retryAt: Time) | Bury(err: string)

  /** Where a worker goroutine is. `registered` says its cancel func's deferred removal is still to come. */
  datatype Phase =
    | Spawned
    | Executing
    | Decided(decision: Decision, registered: bool)
    | Marked(registered: bool)
    | Released

  datatype Worker = Worker(job: Job, phase: Phase)

  /** How far the poller is in dispatching the head of its batch. */
  datatype Gate = NeedSlot | HasSlot | HasWait

  datatype Poller = Stopped | Idle | Sampled(free: int) | Batch(rest: seq<Job>, gate: Gate)

  datatype PoolState = PoolState(
    poller: Poller,
    sem: int,
    wg: int,
    stopping: bool,
    workers: map<nat, Worker>,
    next: nat,
    cancels: map<string, map<Id, nat>>)

  datatype State = State(store: Store, up: bool, pool: PoolState)

  const DOWN := PoolState(Stopped, 0, 0, false, map[], 0, map[])

  const INITIAL := State(EMPTY, false, DOWN)

  /** A handler returns nil or an error; a panic is an error. */
  datatype Outcome = Success | Failure(err: string)

  datatype Event =
    | External(op: Op)                    // an enqueue or a dashboard retry
    | Start
    | Crash                               // process death, or exit
    | StopSignal
    | Sample | ClaimBatch(ids: seq<Id>) | ClaimFails
    | TakeSlot | AddWait | Spawn | EndBatch | PollExit
    | NoHandler(w: nat) | Register(w: nat) | Finish(w: nat, outcome: Outcome)
    | Mark(w: nat, clock: Time)
    | Deregister(w: nat) | Release(w: nat) | Leave(w: nat)
    | CancelAll(typ: string)

  datatype Timed = Timed(e: Event, now: Time)

  predicate At(p: PoolState, w: nat, phase: Phase) {
    w in p.workers && p.workers[w].phase == phase
  }

  predicate InDecided(p: PoolState, w: nat) {
    w in p.workers && p.workers[w].phase.Decided?
  }

  // ------------------------------------------------------------------ the cancel registry

  function WithEntry(c: map<string, map<Id, nat>>, typ: string, id: Id, w: nat): map<string, map<Id, nat>> {
    c[typ := (if typ in c then c[typ] else map[])[id := w]]
  }

  function WithoutEntry(c: map<string, map<Id, nat>>, typ: string, id: Id): map<string, map<Id, nat>> {
    if typ in c then c[typ := c[typ] - {id}] else c
  }

  function Entries(c: map<string, map<Id, nat>>, typ: string): map<Id, nat> {
    if typ in c then c[typ] else map[]
  }

  // ------------------------------------------------------------------ steps

  function MarkOp(j: Job, d: Decision): Op {
    match d
    case Succeed => MarkDone(j.id)
    case Reschedule(err, at) => MarkFailed(j.id, err, Some(at))
    case Bury(err) => MarkFailed(j.id, err, None)
  }

  /** The storage call of an event, if it makes one. */
  function StoreStep(s: State, t: Timed): Step {
    match t.e
    case External(op) => Step(op, t.now)
    case Start => Step(RecoverStuck, t.now)
    case ClaimBatch(ids) => Step(Claim(if s.pool.poller.Sampled? then s.pool.poller.free else 0, ids), t.now)
    case Mark(w, clock) =>
      if InDecided(s.pool, w)
      then Step(MarkOp(s.pool.workers[w].job, s.pool.workers[w].phase.decision), clock)
      else Step(Nop, t.now)
    case _ => Step(Nop, t.now)
  }

  /** `isRetryable` and the backoff, from the snapshot taken at claim time. */
  function Decide(cfg: Config, j: Job, outcome: Outcome, now: Time): Decision {
    match outcome
    case Success => Succeed
    case Failure(err) =>
      var attempt := j.attempts + 1;
      if IsRetryable(attempt, j.maxAttempts)
      then Reschedule(err, now + Delay(cfg, j.typ, attempt))
      else Bury(err)
  }

  function NoHandlerError(typ: string): string { "no handler registered for type \"" + typ + "\"" }

  ghost predicate Can(cfg: Config, s: State, t: Timed) {
    var p := s.pool;
    && Enabled(s.store, StoreStep(s, t))
    && match t.e
       case External(op) => Inserts(op) || op.RetryJob?
       case Start => !s.up
       case Crash => s.up
       case StopSignal => s.up
       case Sample => p.poller == Idle
       case ClaimBatch(_) => p.poller.Sampled?
       case ClaimFails => p.poller.Sampled?
       case TakeSlot => p.poller.Batch? && p.poller.rest != [] && p.poller.gate == NeedSlot && p.sem < cfg.concurrency
       case AddWait => p.poller.Batch? && p.poller.gate == HasSlot
       case Spawn => p.poller.Batch? && p.poller.rest != [] && p.poller.gate == HasWait
       case EndBatch => p.poller == Batch([], NeedSlot)
       case PollExit => p.poller == Idle && p.stopping
       case NoHandler(w) => At(p, w, Spawned) && p.workers[w].job.typ !in cfg.handlers
       case Register(w) => At(p, w, Spawned) && p.workers[w].job.typ in cfg.handlers
       case Finish(w, _) => At(p, w, Executing)
       case Mark(w, _) => InDecided(p, w)
       case Deregister(w) => At(p, w, Marked(true))
       case Release(w) => At(p, w, Marked(false))
       case Leave(w) => At(p, w, Released)
       case CancelAll(_) => s.up
  }

  /** What Claim returns: copies of the rows it has just updated. */
  function CopiesOf(rows: Rows, ids: seq<Id>): (js: seq<Job>)
    requires forall id | id in ids :: id in rows
    ensures |js| == |ids| && forall i | 0 <= i < |ids| :: js[i] == rows[ids[i]]
  {
    if ids == [] then [] else assert forall id | id in ids[1..] :: id in ids; [rows[ids[0]]] + CopiesOf(rows, ids[1..])
  }

  function SetPhase(p: PoolState, w: nat, phase: Phase): PoolState
    requires w in p.workers
  {
    p.(workers := p.workers[w := p.workers[w].(phase := phase)])
  }

  ghost function Moves(cfg: Config, s: State, t: Timed): PoolState
    requires Can(cfg, s, t)
  {
    var p := s.pool;
    match t.e
    case External(_) => p
    case Start => DOWN.(poller := Idle, wg := 1)
    case Crash => DOWN
    case StopSignal => p.(stopping := true)
    case Sample => if cfg.concurrency - p.sem <= 0 then p else p.(poller := Sampled(cfg.concurrency - p.sem))
    case ClaimBatch(ids) =>
      p.(poller := Batch(CopiesOf(Claimed(s.store.rows, t.now, ids), ids), NeedSlot))
    case ClaimFails => p.(poller := Idle)
    case TakeSlot => p.(poller := p.poller.(gate := HasSlot), sem := p.sem + 1)
    case AddWait => p.(poller := p.poller.(gate := HasWait), wg := p.wg + 1)
    case Spawn =>
      p.(poller := Batch(p.poller.rest[1..], NeedSlot),
         workers := p.workers[p.next := Worker(p.poller.rest[0], Spawned)],
         next := p.next + 1)
    case EndBatch => p.(poller := Idle)
    case PollExit => p.(poller := Stopped, wg := p.wg - 1)
    case NoHandler(w) => SetPhase(p, w, Decided(Bury(NoHandlerError(p.workers[w].job.typ)), false))
    case Register(w) =>
      SetPhase(p, w, Executing).(cancels := WithEntry(p.cancels, p.workers[w].job.typ, p.workers[w].job.id, w))
    case Finish(w, outcome) => SetPhase(p, w, Decided(Decide(cfg, p.workers[w].job, outcome, t.now), true))
    case Mark(w, _) => SetPhase(p, w, Marked(p.workers[w].phase.registered))
    case Deregister(w) =>
      SetPhase(p, w, Marked(false)).(cancels := WithoutEntry(p.cancels, p.workers[w].job.typ, p.workers[w].job.id))
    case Release(w) => SetPhase(p, w, Released).(sem := p.sem - 1)
    case Leave(w) => p.(workers := p.workers - {w}, wg := p.wg - 1)
    case CancelAll(typ) => p.(cancels := p.cancels - {typ})
  }

  ghost function Do(cfg: Config, s: State, t: Timed): State
    requires Can(cfg, s, t)
  {
    State(Apply(s.store, StoreStep(s, t)),
          if t.e == Start then true else if t.e == Crash then false else s.up,
          Moves(cfg, s, t))
  }

  ghost predicate PoolRun(cfg: Config, ss: seq<State>, ts: seq<Timed>) {
    && |ss| == |ts| + 1
    && ss[0] == INITIAL
    && forall i | 0 <= i < |ts| :: Can(cfg, ss[i], ts[i]) && ss[i + 1] == Do(cfg, ss[i], ts[i])
  }

  // ------------------------------------------------------------------ projection

  ghost function StoresOf(ss: seq<State>): seq<Store> {
    seq(|ss|, i requires 0 <= i < |ss| => ss[i].store)
  }

  ghost function StoreStepsOf(ss: seq<State>, ts: seq<Timed>): seq<Step>
    requires |ss| == |ts| + 1
  {
    seq(|ts|, i requires 0 <= i < |ts| => StoreStep(ss[i], ts[i]))
  }

  /** Seen from storage, a pool run is a store run: every theorem of StoreRuns applies to it. */
  lemma PoolRunIsStoreRun(cfg: Config, ss: seq<State>, ts: seq<Timed>)
    requires PoolRun(cfg, ss, ts)
    ensures Run(StoresOf(ss), StoreStepsOf(ss, ts))
  {
    var stores, steps := StoresOf(ss), StoreStepsOf(ss, ts);
    forall i | 0 <= i < |steps| ensures Enabled(stores[i], steps[i]) && stores[i + 1] == Apply(stores[i], steps[i]) {
      assert Can(cfg, ss[i], ts[i]) && ss[i + 1] == Do(cfg, ss[i], ts[i]);
    }
  }

  lemma PoolRunPrefix(cfg: Config, ss: seq<State>, ts: seq<Timed>)
    requires PoolRun(cfg, ss, ts) && ts != []
    ensures PoolRun(cfg, ss[..|ts|], ts[..|ts| - 1])
  {
  }

  lemma PoolRunGrows(cfg: Config, ss: seq<State>, es: seq<Timed>, t: Timed)
    requires PoolRun(cfg, ss, es) && Can(cfg, ss[|es|], t)
    ensures PoolRun(cfg, ss + [Do(cfg, ss[|es|], t)], es + [t])
  {
    var ss', es' := ss + [Do(cfg, ss[|es|], t)], es + [t];
    forall i | 0 <= i < |es'| ensures Can(cfg, ss'[i], es'[i]) && ss'[i + 1] == Do(cfg, ss'[i], es'[i]) {
      if i < |es| {
        assert ss'[i] == ss[i] && ss'[i + 1] == ss[i + 1] && es'[i] == es[i];
      }
    }
  }

  lemma PoolRunUpTo(cfg: Config, ss: seq<State>, ts: seq<Timed>, i: nat)
    requires PoolRun(cfg, ss, ts) && i < |ss|
    ensures PoolRun(cfg, ss[..i + 1], ts[..i])
  {
  }

  /** One row per dedup key in every reachable state, retries, recovery and dashboard included. */
  lemma ReachableStoresAreSound(cfg: Config, ss: seq<State>, ts: seq<Timed>, i: nat)
    requires PoolRun(cfg, ss, ts) && i < |ss|
    ensures StoreInv(ss[i].store)
  {
    PoolRunIsStoreRun(cfg, ss, ts);
    RunKeepsOneRowPerKey(StoresOf(ss), StoreStepsOf(ss, ts), i);
  }
}
