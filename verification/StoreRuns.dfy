/**
 Runs of a job store: any sequence of storage calls the queue can make, each at any clock
 reading. A step records the call together with the one free choice storage makes (which
 conflicting row it found, which batch it claimed).
 */
module StoreRuns {
  import opened Types
  import opened StoreSpec
  import opened Effects

  /** The rows, and every ID handed out so far. */
  datatype Store = Store(rows: Rows, used: set<Id>)

  datatype Op =
    | Nop
    | Enqueue(job: Job)
    | EnqueueDedup(job: Job, mode: DedupMode, conflict: Option<Id>)
    | Claim(limit: int, ids: seq<Id>)
    | MarkDone(id: Id)
    | MarkFailed(id: Id, err: string, retryAt: Option<Time>)
    | RecoverStuck
    | RetryJob(id: Id)

  datatype Step = Step(op: Op, now: Time)

  const EMPTY := Store(map[], {})

  /** `enqueueRaw` mints a fresh ID and picks the call by whether there is a key. */
  ghost predicate Enabled(s: Store, st: Step) {
    match st.op
    case Enqueue(job) => NewJob(job) && job.key == "" && job.id !in s.used
    case EnqueueDedup(job, mode, c) =>
      && NewJob(job) && job.key != "" && job.id !in s.used
      && ConflictFor(Purge(s.rows, job.key, st.now), job.key, c)
    case Claim(limit, ids) => 0 <= limit && ClaimChoice(s.rows, st.now, limit, ids)
    case _ => true
  }

  ghost function Apply(s: Store, st: Step): Store
    requires Enabled(s, st)
  {
    match st.op
    case Nop => s
    case Enqueue(job) => Store(s.rows[job.id := job], s.used + {job.id})
    case EnqueueDedup(job, mode, c) =>
      Store(Enqueued(Purge(s.rows, job.key, st.now), job, mode, c), s.used + {job.id})
    case Claim(limit, ids) => s.(rows := Claimed(s.rows, st.now, ids))
    case MarkDone(id) => s.(rows := MarkedDone(s.rows, id, st.now))
    case MarkFailed(id, err, retryAt) => s.(rows := MarkedFailed(s.rows, id, err, retryAt, st.now))
    case RecoverStuck => s.(rows := Recovered(s.rows, st.now))
    case RetryJob(id) => s.(rows := Retried(s.rows, id, st.now))
  }

  predicate Accepted(a: EnqueueAction) { a == Inserted || a == Replaced }

  ghost function ActionOf(s: Store, st: Step): EnqueueAction
    requires Enabled(s, st) && st.op.EnqueueDedup?
  {
    DedupAction(Purge(s.rows, st.op.job.key, st.now), st.op.mode, st.op.conflict)
  }

  /** What the caller of EnqueueDedup is told: the action, and the conflicting job with its status. */
  ghost function AnswerOf(s: Store, st: Step): EnqueueResult
    requires Enabled(s, st) && st.op.EnqueueDedup?
  {
    DedupResult(Purge(s.rows, st.op.job.key, st.now), st.op.mode, st.op.conflict)
  }

  ghost predicate Run(ss: seq<Store>, steps: seq<Step>) {
    && |ss| == |steps| + 1
    && ss[0] == EMPTY
    && forall i | 0 <= i < |steps| :: Enabled(ss[i], steps[i]) && ss[i + 1] == Apply(ss[i], steps[i])
  }

  lemma RunPrefix(ss: seq<Store>, steps: seq<Step>)
    requires Run(ss, steps) && steps != []
    ensures Run(ss[..|steps|], steps[..|steps| - 1])
  {
  }

  // ------------------------------------------------------------------ one row per key

  ghost predicate OneRowPerKey(rows: Rows) {
    forall a, b | a in rows && b in rows && rows[a].key == rows[b].key && rows[a].key != "" :: a == b
  }

  /** The lock expiry is set exactly on finished rows with a TTL, or left over from one. */
  ghost predicate ExpiryShape(rows: Rows) {
    forall id | id in rows :: ExpiryFits(rows[id])
  }

  predicate ExpiryFits(j: Job) {
    && (j.ttl <= 0 ==> j.expiresAt.None?)
    && (Finished(j) && j.ttl > 0 ==> j.expiresAt.Some?)
  }

  ghost predicate StoreInv(s: Store) {
    KeyedById(s.rows) && s.rows.Keys <= s.used && OneRowPerKey(s.rows) && ExpiryShape(s.rows)
  }

  predicate Inserts(op: Op) { op.Enqueue? || op.EnqueueDedup? }

  /** What a call that inserts nothing does to one row. */
  function Moved(j: Job, st: Step): Job {
    match st.op
    case Claim(_, ids) => if j.id in ids then StartedJob(j, st.now) else j
    case MarkDone(id) => if j.id == id then DoneJob(j, st.now) else j
    case MarkFailed(id, err, retryAt) =>
      if j.id != id then j
      else if retryAt.Some? then RescheduledJob(j, err, retryAt.value, st.now)
      else DeadJob(j, err, st.now)
    case RecoverStuck => if j.status == Running then j.(status := Pending, updatedAt := st.now) else j
    case RetryJob(id) =>
      if j.id == id && j.status == Failed
      then j.(status := Pending, runAt := st.now, attempts := 0, lastError := "", updatedAt := st.now)
      else j
    case _ => j
  }

  /** Such a call works row by row: no row reads or writes another. */
  lemma StepIsPointwise(s: Store, st: Step)
    requires KeyedById(s.rows) && Enabled(s, st) && !Inserts(st.op)
    ensures Apply(s, st) == Store(map id | id in s.rows :: Moved(s.rows[id], st), s.used)
  {
  }

  /** Under the invariant an enqueue either leaves the rows alone or displaces all rows of its key. */
  lemma DedupShape(s: Store, st: Step)
    requires KeyedById(s.rows) && OneRowPerKey(s.rows) && Enabled(s, st) && st.op.EnqueueDedup?
    ensures Apply(s, st).rows ==
            if Accepted(ActionOf(s, st))
            then WithoutKey(s.rows, st.op.job.key)[st.op.job.id := st.op.job]
            else s.rows
  {
    var key, kept := st.op.job.key, Purge(s.rows, st.op.job.key, st.now);
    match st.op.conflict {
      case None =>
        assert kept == WithoutKey(s.rows, key);
      case Some(e) =>
        assert kept == s.rows by {
          forall id | id in s.rows ensures id in kept { assert s.rows[e].key == key; }
        }
        assert kept - {e} == WithoutKey(s.rows, key);
    }
  }

  function WithoutKey(rows: Rows, key: Key): Rows {
    map id | id in rows && rows[id].key != key :: rows[id]
  }

  lemma StepKeepsStoreInv(s: Store, st: Step)
    requires StoreInv(s) && Enabled(s, st)
    ensures StoreInv(Apply(s, st))
  {
    if st.op.EnqueueDedup? {
      DedupShape(s, st);
      InsertKeepsInv(if Accepted(ActionOf(s, st)) then WithoutKey(s.rows, st.op.job.key) else s.rows, st.op.job);
    } else if st.op.Enqueue? {
      InsertKeepsInv(s.rows, st.op.job);
    } else {
      MoveKeepsInv(s, st);
    }
  }

  lemma InsertKeepsInv(rows: Rows, job: Job)
    requires KeyedById(rows) && OneRowPerKey(rows) && ExpiryShape(rows) && NewJob(job)
    ensures KeyedById(rows[job.id := job]) && ExpiryShape(rows[job.id := job])
    ensures (forall id | id in rows :: rows[id].key != job.key || job.key == "") ==> OneRowPerKey(rows[job.id := job])
  {
  }

  lemma MoveKeepsInv(s: Store, st: Step)
    requires StoreInv(s) && Enabled(s, st) && !Inserts(st.op)
    ensures StoreInv(Apply(s, st))
  {
    StepIsPointwise(s, st);
    forall id | id in s.rows {
      MoveKeepsRow(s.rows[id], st);
    }
  }

  /** Identity, key and TTL never change after insertion. */
  lemma MoveKeepsRow(j: Job, st: Step)
    requires ExpiryFits(j) && !Inserts(st.op)
    ensures ExpiryFits(Moved(j, st))
    ensures var m := Moved(j, st); m.id == j.id && m.key == j.key && m.ttl == j.ttl
  {
  }

  /** Every run keeps at most one row, of any status, per non-empty key. */
  lemma {:induction false} RunKeepsOneRowPerKey(ss: seq<Store>, steps: seq<Step>, i: nat)
    requires Run(ss, steps) && i < |ss|
    ensures StoreInv(ss[i])
  {
    if i > 0 {
      RunKeepsOneRowPerKey(ss, steps, i - 1);
      StepKeepsStoreInv(ss[i - 1], steps[i - 1]);
    }
  }

  /** Every row after a step is an old row, moved, or the job just inserted. */
  lemma RowOrigin(s: Store, st: Step, id: Id)
    requires StoreInv(s) && Enabled(s, st) && id in Apply(s, st).rows
    ensures (Inserts(st.op) && id == st.op.job.id && id !in s.rows && Apply(s, st).rows[id] == st.op.job)
            || (id in s.rows && Apply(s, st).rows[id] == if Inserts(st.op) then s.rows[id] else Moved(s.rows[id], st))
  {
    if st.op.EnqueueDedup? {
      DedupShape(s, st);
    } else if !st.op.Enqueue? {
      StepIsPointwise(s, st);
    }
  }

  // ------------------------------------------------------------------ what dedup does, exactly

  /** Under the invariant the conflict is the one row of the key, unless it has just been purged. */
  lemma ConflictIsTheRow(s: Store, st: Step, id: Id)
    requires StoreInv(s) && Enabled(s, st) && st.op.EnqueueDedup?
    requires id in s.rows && s.rows[id].key == st.op.job.key
    ensures st.op.conflict == if Unlocked(s.rows[id], st.now) then None else Some(id)
  {
    var kept := Purge(s.rows, st.op.job.key, st.now);
    if !Unlocked(s.rows[id], st.now) {
      assert id in kept;
    }
  }

  /** With several rows to choose from, a running one blocks first, then a pending one. */
  lemma ConflictPrefersActive(rows: Rows, key: Key, c: Option<Id>, id: Id)
    requires ConflictFor(rows, key, c) && id in rows && rows[id].key == key
    ensures c.Some? && c.value in rows
    ensures rows[id].status == Running ==> rows[c.value].status == Running
    ensures rows[id].status == Pending ==> Active(rows[c.value])
  {
  }

  /** No row with the key: nothing to purge and nothing in the way. */
  lemma NoRowNoConflict(s: Store, st: Step)
    requires StoreInv(s) && Enabled(s, st) && st.op.EnqueueDedup?
    requires forall id | id in s.rows :: s.rows[id].key != st.op.job.key
    ensures st.op.conflict == None
  {
  }

  /** An enqueue is accepted exactly when its row is there afterwards. */
  lemma AcceptedIffStored(s: Store, st: Step)
    requires StoreInv(s) && Enabled(s, st) && st.op.EnqueueDedup?
    ensures Accepted(ActionOf(s, st)) <==> st.op.job.id in Apply(s, st).rows
  {
  }

  // ------------------------------------------------------------------ the lock table

  /** A reference lock table that never looks at the rows: per key, the last accepted job. */
  datatype LockState = Waiting | Busy | Succeeded(at: Time) | DeadLettered(at: Time)

  datatype Lock = Lock(owner: Id, ttl: Duration, state: LockState)

  type Locks = map<Key, Lock>

  predicate Complete(l: Lock) { l.state.Succeeded? || l.state.DeadLettered? }

  predicate Free(l: Lock, now: Time) {
    Complete(l) && (l.ttl <= 0 || now >= l.state.at + l.ttl)
  }

  function LockAction(locks: Locks, key: Key, mode: DedupMode, now: Time): EnqueueAction {
    if key !in locks || Free(locks[key], now) then Inserted
    else if mode == Ignore then SkippedDuplicate
    else if locks[key].state == Busy then SkippedRunning
    else Replaced
  }

  function LockMoved(l: Lock, st: Step): LockState {
    match st.op
    case Claim(_, ids) => if l.owner in ids then Busy else l.state
    case MarkDone(id) => if l.owner == id then Succeeded(st.now) else l.state
    case MarkFailed(id, _, retryAt) =>
      if l.owner != id then l.state
      else if retryAt.Some? then Waiting
      else DeadLettered(st.now)
    case RecoverStuck => if l.state == Busy then Waiting else l.state
    case RetryJob(id) => if l.owner == id && l.state.DeadLettered? then Waiting else l.state
    case _ => l.state
  }

  function LockStep(locks: Locks, st: Step): Locks {
    match st.op
    case EnqueueDedup(job, mode, _) =>
      if Accepted(LockAction(locks, job.key, mode, st.now))
      then locks[job.key := Lock(job.id, job.ttl, Waiting)]
      else locks
    case _ => map k | k in locks :: locks[k].(state := LockMoved(locks[k], st))
  }

  function LocksAfter(steps: seq<Step>): Locks {
    if steps == [] then map[] else LockStep(LocksAfter(steps[..|steps| - 1]), steps[|steps| - 1])
  }

  /** Row `j` is in the state the lock says, with the expiry its completion time gives. */
  predicate Matches(j: Job, l: Lock) {
    && j.ttl == l.ttl
    && match l.state
       case Waiting => j.status == Pending
       case Busy => j.status == Running
       case Succeeded(at) => j.status == Done && j.expiresAt == if l.ttl > 0 then Some(at + l.ttl) else None
       case DeadLettered(at) => j.status == Failed && j.expiresAt == if l.ttl > 0 then Some(at + l.ttl) else None
  }

  ghost predicate Related(rows: Rows, locks: Locks) {
    && (forall k | k in locks ::
          k != "" && locks[k].owner in rows && rows[locks[k].owner].key == k && Matches(rows[locks[k].owner], locks[k]))
    && (forall id | id in rows && rows[id].key != "" :: rows[id].key in locks && locks[rows[id].key].owner == id)
  }

  lemma StepKeepsRelated(s: Store, st: Step, locks: Locks)
    requires StoreInv(s) && Enabled(s, st) && Related(s.rows, locks)
    ensures Related(Apply(s, st).rows, LockStep(locks, st))
    ensures st.op.EnqueueDedup? ==>
              ActionOf(s, st) == LockAction(locks, st.op.job.key, st.op.mode, st.now)
  {
    if st.op.EnqueueDedup? {
      LockDecides(s, st, locks);
      DedupShape(s, st);
    } else if st.op.Enqueue? {
    } else {
      MoveKeepsRelated(s, st, locks);
    }
  }

  lemma MoveKeepsRelated(s: Store, st: Step, locks: Locks)
    requires StoreInv(s) && Enabled(s, st) && Related(s.rows, locks) && !Inserts(st.op)
    ensures Related(Apply(s, st).rows, LockStep(locks, st))
  {
    StepIsPointwise(s, st);
    forall id | id in s.rows {
      MoveKeepsRow(s.rows[id], st);
    }
    forall k | k in locks {
      MoveMatches(s.rows, locks[k], st);
    }
  }

  /** A row and its lock move together. */
  lemma MoveMatches(rows: Rows, l: Lock, st: Step)
    requires KeyedById(rows) && ExpiryShape(rows) && l.owner in rows && Matches(rows[l.owner], l) && !Inserts(st.op)
    requires st.op.Claim? ==> forall id | id in st.op.ids :: id in DueIds(rows, st.now)
    ensures Matches(Moved(rows[l.owner], st), l.(state := LockMoved(l, st)))
  {
  }

  lemma LockDecides(s: Store, st: Step, locks: Locks)
    requires StoreInv(s) && Enabled(s, st) && Related(s.rows, locks) && st.op.EnqueueDedup?
    ensures ActionOf(s, st) == LockAction(locks, st.op.job.key, st.op.mode, st.now)
  {
    var key := st.op.job.key;
    if key in locks {
      ConflictIsTheRow(s, st, locks[key].owner);
    } else {
      NoRowNoConflict(s, st);
    }
  }

  /**
   Over every run the store behaves as the lock table: each deduplicating enqueue gets the
   answer the table gives, and each key's row is its lock's owner in the matching state.
   */
  lemma {:induction false} LockTableRefinement(ss: seq<Store>, steps: seq<Step>, i: nat)
    requires Run(ss, steps) && i <= |steps|
    ensures StoreInv(ss[i]) && Related(ss[i].rows, LocksAfter(steps[..i]))
    ensures i < |steps| && steps[i].op.EnqueueDedup? ==>
              var job, now := steps[i].op.job, steps[i].now;
              ActionOf(ss[i], steps[i]) == LockAction(LocksAfter(steps[..i]), job.key, steps[i].op.mode, now)
  {
    RunKeepsOneRowPerKey(ss, steps, i);
    if i > 0 {
      LockTableRefinement(ss, steps, i - 1);
      assert steps[..i][..i - 1] == steps[..i - 1] && steps[..i][i - 1] == steps[i - 1];
      StepKeepsRelated(ss[i - 1], steps[i - 1], LocksAfter(steps[..i - 1]));
    }
    if i < |steps| {
      StepKeepsRelated(ss[i], steps[i], LocksAfter(steps[..i]));
    }
  }

  /** The lock rule in the terms a caller knows: last accepted job, its completion time, its TTL. */
  lemma EnqueueRule(ss: seq<Store>, steps: seq<Step>, i: nat)
    requires Run(ss, steps) && i < |steps| && steps[i].op.EnqueueDedup?
    ensures var job, now, locks := steps[i].op.job, steps[i].now, LocksAfter(steps[..i]);
            var stored := job.id in ss[i + 1].rows;
            && (steps[i].op.mode == Ignore ==>
                  (stored <==> job.key !in locks
                               || (Complete(locks[job.key])
                                   && (locks[job.key].ttl <= 0
                                       || now >= locks[job.key].state.at + locks[job.key].ttl))))
            && (steps[i].op.mode == Replace ==>
                  (!stored <==> job.key in locks && locks[job.key].state == Busy))
  {
    LockTableRefinement(ss, steps, i);
    AcceptedIffStored(ss[i], steps[i]);
  }

  /** The last accepted job of a key, read off the run itself. */
  ghost function LastAccepted(ss: seq<Store>, steps: seq<Step>, key: Key): Option<Id>
    requires |ss| == |steps| + 1
    decreases |steps|
  {
    if steps == [] then None
    else
      var n := |steps| - 1;
      if steps[n].op.EnqueueDedup? && steps[n].op.job.key == key && steps[n].op.job.id in ss[n + 1].rows
      then Some(steps[n].op.job.id)
      else LastAccepted(ss[..n + 1], steps[..n], key)
  }

  lemma {:induction false} KeyRowIsLastAccepted(ss: seq<Store>, steps: seq<Step>, key: Key)
    requires Run(ss, steps) && key != ""
    ensures var locks := LocksAfter(steps);
            LastAccepted(ss, steps, key) == if key in locks then Some(locks[key].owner) else None
    ensures forall id | id in ss[|steps|].rows && ss[|steps|].rows[id].key == key ::
              LastAccepted(ss, steps, key) == Some(id)
    decreases |steps|
  {
    var n := |steps|;
    LockTableRefinement(ss, steps, n);
    assert steps[..n] == steps;
    if n > 0 {
      RunPrefix(ss, steps);
      KeyRowIsLastAccepted(ss[..n], steps[..n - 1], key);
      LockTableRefinement(ss, steps, n - 1);
      if steps[n - 1].op.EnqueueDedup? {
        AcceptedIffStored(ss[n - 1], steps[n - 1]);
      }
    }
  }

  /** A lock carries the TTL of the call that took it. */
  lemma {:induction false} LockOrigin(steps: seq<Step>, key: Key) returns (k: nat)
    requires key in LocksAfter(steps)
    ensures k < |steps| && steps[k].op.EnqueueDedup?
    ensures var l := LocksAfter(steps)[key]; steps[k].op.job.id == l.owner && steps[k].op.job.ttl == l.ttl
  {
    var n := |steps| - 1;
    var before := LocksAfter(steps[..n]);
    if steps[n].op.EnqueueDedup? && steps[n].op.job.key == key
       && Accepted(LockAction(before, key, steps[n].op.mode, steps[n].now)) {
      k := n;
    } else {
      k := LockOrigin(steps[..n], key);
    }
  }

  lemma {:induction false} UsedGrows(ss: seq<Store>, steps: seq<Step>, a: nat, b: nat)
    requires Run(ss, steps) && a <= b < |ss|
    ensures ss[a].used <= ss[b].used
  {
    if a < b {
      UsedGrows(ss, steps, a, b - 1);
    }
  }

  /** No ID is inserted twice. */
  lemma InsertedOnce(ss: seq<Store>, steps: seq<Step>, a: nat, b: nat)
    requires Run(ss, steps) && a < |steps| && b < |steps| && Inserts(steps[a].op) && Inserts(steps[b].op)
    requires steps[a].op.job.id == steps[b].op.job.id
    ensures a == b
  {
    if a < b {
      UsedGrows(ss, steps, a + 1, b);
    } else if b < a {
      UsedGrows(ss, steps, b + 1, a);
    }
  }

  /** Once the job that the k-th call stored is finished, its key is refused until its TTL is over. */
  lemma LockLasts(ss: seq<Store>, steps: seq<Step>, k: nat, i: nat)
    requires Run(ss, steps) && k < |steps| && i < |steps|
    requires steps[k].op.EnqueueDedup? && steps[i].op.EnqueueDedup? && steps[i].op.mode == Ignore
    requires var locks, key := LocksAfter(steps[..i]), steps[i].op.job.key;
             key in locks && locks[key].owner == steps[k].op.job.id && Complete(locks[key])
    ensures var ttl, done := steps[k].op.job.ttl, LocksAfter(steps[..i])[steps[i].op.job.key].state.at;
            steps[i].op.job.id in ss[i + 1].rows <==> ttl <= 0 || steps[i].now >= done + ttl
  {
    EnqueueRule(ss, steps, i);
    var origin := LockOrigin(steps[..i], steps[i].op.job.key);
    InsertedOnce(ss, steps, origin, k);
  }

  // ------------------------------------------------------------------ answers and orders

  /**
   What an enqueue is told is so: with `Inserted` no conflict; with any other action the one row
   of the key and its status, and after a replacement that row is gone.
   */
  lemma AnswersAreTrue(ss: seq<Store>, steps: seq<Step>, i: nat)
    requires Run(ss, steps) && i < |steps| && steps[i].op.EnqueueDedup?
    ensures var key, res := steps[i].op.job.key, AnswerOf(ss[i], steps[i]);
            && Reported(ss[i].rows, key, steps[i].op.mode, steps[i].now, res)
            && (res.existing.Some? ==>
                  && (forall o | o in ss[i].rows && ss[i].rows[o].key == key :: o == res.existing.value.id)
                  && (res.existing.value.id in ss[i + 1].rows <==> res.action != Replaced))
  {
    RunKeepsOneRowPerKey(ss, steps, i);
    AnswerIsReported(ss[i].rows, steps[i].op.job.key, steps[i].op.mode, steps[i].now, steps[i].op.conflict);
  }

  /** Job `j` is still the one ordered as `o`. */
  predicate SameOrder(j: Job, o: Job) {
    && j.id == o.id && j.typ == o.typ && j.payload == o.payload && j.maxAttempts == o.maxAttempts
    && j.createdAt == o.createdAt && j.key == o.key && j.ttl == o.ttl
  }

  /** Every row is the job some call ordered, and only one call can have. */
  lemma {:induction false} RowsKeepTheirOrder(ss: seq<Store>, steps: seq<Step>, i: nat, id: Id) returns (k: nat)
    requires Run(ss, steps) && i < |ss| && id in ss[i].rows
    ensures k < i && Inserts(steps[k].op) && SameOrder(ss[i].rows[id], steps[k].op.job)
    ensures forall n | 0 <= n < |steps| && Inserts(steps[n].op) && steps[n].op.job.id == id :: n == k
  {
    var st := steps[i - 1];
    RunKeepsOneRowPerKey(ss, steps, i);
    RunKeepsOneRowPerKey(ss, steps, i - 1);
    RowOrigin(ss[i - 1], st, id);
    if id in ss[i - 1].rows {
      k := RowsKeepTheirOrder(ss, steps, i - 1, id);
    } else {
      k := i - 1;
    }
    forall n | 0 <= n < |steps| && Inserts(steps[n].op) && steps[n].op.job.id == id ensures n == k {
      InsertedOnce(ss, steps, n, k);
    }
  }

  // ------------------------------------------------------------------ nothing is lost

  ghost function AcceptedBy(s: Store, st: Step): set<Id>
    requires Enabled(s, st)
  {
    match st.op
    case Enqueue(job) => {job.id}
    case EnqueueDedup(job, _, _) => if Accepted(ActionOf(s, st)) then {job.id} else {}
    case _ => {}
  }

  ghost function PurgedBy(s: Store, st: Step): set<Id> {
    match st.op
    case EnqueueDedup(job, _, _) => set id | id in s.rows && s.rows[id].key == job.key && Unlocked(s.rows[id], st.now)
    case _ => {}
  }

  ghost function ReplacedBy(s: Store, st: Step): set<Id>
    requires Enabled(s, st)
  {
    if st.op.EnqueueDedup? && ActionOf(s, st) == Replaced then {st.op.conflict.value} else {}
  }

  /** All that was ever accepted, purged and replaced along a run. */
  datatype Ledger = Ledger(accepted: set<Id>, purged: set<Id>, replaced: set<Id>)

  ghost function LedgerOf(ss: seq<Store>, steps: seq<Step>): Ledger
    requires |ss| == |steps| + 1
    requires forall i | 0 <= i < |steps| :: Enabled(ss[i], steps[i])
    decreases |steps|
  {
    if steps == [] then Ledger({}, {}, {})
    else
      var n := |steps| - 1;
      var l := LedgerOf(ss[..n + 1], steps[..n]);
      Ledger(l.accepted + AcceptedBy(ss[n], steps[n]),
             l.purged + PurgedBy(ss[n], steps[n]),
             l.replaced + ReplacedBy(ss[n], steps[n]))
  }

  /** How one step changes the set of rows. */
  lemma StepBalance(s: Store, st: Step)
    requires StoreInv(s) && Enabled(s, st)
    ensures Apply(s, st).rows.Keys == s.rows.Keys - PurgedBy(s, st) - ReplacedBy(s, st) + AcceptedBy(s, st)
    ensures PurgedBy(s, st) <= s.rows.Keys && ReplacedBy(s, st) <= s.rows.Keys
    ensures PurgedBy(s, st) !! ReplacedBy(s, st) && AcceptedBy(s, st) !! s.used
    ensures s.used + AcceptedBy(s, st) <= Apply(s, st).used
  {
  }

  ghost predicate Balanced(s: Store, l: Ledger) {
    && l.accepted == s.rows.Keys + l.purged + l.replaced
    && s.rows.Keys !! l.purged && s.rows.Keys !! l.replaced && l.purged !! l.replaced
    && l.accepted <= s.used
  }

  /** Accepted jobs are exactly the present, the purged and the replaced ones, counted once each. */
  lemma {:induction false} NoAcceptedJobLost(ss: seq<Store>, steps: seq<Step>)
    requires Run(ss, steps)
    ensures var l := LedgerOf(ss, steps);
            && Balanced(ss[|steps|], l)
            && |l.accepted| == |ss[|steps|].rows| + |l.purged| + |l.replaced|
    decreases |steps|
  {
    var n := |steps|;
    if n > 0 {
      RunPrefix(ss, steps);
      NoAcceptedJobLost(ss[..n], steps[..n - 1]);
      RunKeepsOneRowPerKey(ss, steps, n - 1);
      assert ss[..n][n - 1] == ss[n - 1];
      StepBalance(ss[n - 1], steps[n - 1]);
      LedgerStep(ss[n - 1], steps[n - 1], LedgerOf(ss[..n], steps[..n - 1]), LedgerOf(ss, steps));
    }
    BalancedCounts(ss[n], LedgerOf(ss, steps));
  }

  lemma LedgerStep(s: Store, st: Step, l: Ledger, l': Ledger)
    requires StoreInv(s) && Enabled(s, st) && Balanced(s, l)
    requires l' == Ledger(l.accepted + AcceptedBy(s, st), l.purged + PurgedBy(s, st), l.replaced + ReplacedBy(s, st))
    ensures Balanced(Apply(s, st), l')
  {
    StepBalance(s, st);
  }

  lemma BalancedCounts(s: Store, l: Ledger)
    requires Balanced(s, l)
    ensures |l.accepted| == |s.rows| + |l.purged| + |l.replaced|
  {
    assert |s.rows.Keys + l.purged| == |s.rows.Keys| + |l.purged|;
    assert |s.rows.Keys + l.purged + l.replaced| == |s.rows.Keys + l.purged| + |l.replaced|;
  }

  /**
   The only ways out of the store: purged when finished with no live lock, or replaced by an
   enqueue of the same key while not running. Keyless rows never leave.
   */
  lemma RowLeavesOnlyByDedup(s: Store, st: Step, id: Id)
    requires StoreInv(s) && Enabled(s, st) && id in s.rows && id !in Apply(s, st).rows
    ensures st.op.EnqueueDedup? && s.rows[id].key == st.op.job.key != ""
    ensures Unlocked(s.rows[id], st.now)
            || (st.op.mode == Replace && s.rows[id].status != Running && st.op.job.id in Apply(s, st).rows)
  {
    StepBalance(s, st);
  }

  // ------------------------------------------------------------------ claims

  predicate Requeues(op: Op, id: Id) {
    op == RecoverStuck || op == RetryJob(id) || (op.MarkFailed? && op.id == id && op.retryAt.Some?)
  }

  /** An ID in use that no row offers for claiming. */
  predicate NotOnOffer(s: Store, id: Id) {
    id in s.used && (id in s.rows ==> s.rows[id].status != Pending)
  }

  lemma StepKeepsNotOnOffer(s: Store, st: Step, id: Id)
    requires Enabled(s, st) && NotOnOffer(s, id) && !Requeues(st.op, id)
    ensures NotOnOffer(Apply(s, st), id)
  {
  }

  /** Between two claims of one job, something returned it to pending. */
  lemma {:induction false} ClaimsAreDisjointUnlessRequeued(ss: seq<Store>, steps: seq<Step>, i: nat, k: nat, id: Id)
    requires Run(ss, steps) && i < k < |steps|
    requires steps[i].op.Claim? && id in steps[i].op.ids
    requires steps[k].op.Claim? && id in steps[k].op.ids
    ensures exists j | i < j < k :: Requeues(steps[j].op, id)
  {
    RunKeepsOneRowPerKey(ss, steps, i);
    if forall j | i < j < k :: !Requeues(steps[j].op, id) {
      StaysOffOffer(ss, steps, i + 1, k, id);
    }
  }

  lemma {:induction false} StaysOffOffer(ss: seq<Store>, steps: seq<Step>, i: nat, k: nat, id: Id)
    requires Run(ss, steps) && i <= k < |ss| && NotOnOffer(ss[i], id)
    requires forall j | i <= j < k :: !Requeues(steps[j].op, id)
    ensures NotOnOffer(ss[k], id)
  {
    if i < k {
      StaysOffOffer(ss, steps, i, k - 1, id);
      StepKeepsNotOnOffer(ss[k - 1], steps[k - 1], id);
    }
  }

  // ------------------------------------------------------------------ recovery

  /** RecoverStuck leaves nothing running and turns exactly the running rows into pending ones. */
  lemma RecoveryRequeuesRunning(rows: Rows, now: Time)
    ensures var r := Recovered(rows, now);
            && WithStatus(r, Running) == {}
            && WithStatus(r, Pending) == WithStatus(rows, Pending) + WithStatus(rows, Running)
            && |WithStatus(r, Pending)| == |WithStatus(rows, Pending)| + |WithStatus(rows, Running)|
            && r.Keys == rows.Keys
            && forall id | id in rows :: r[id].(status := rows[id].status, updatedAt := rows[id].updatedAt) == rows[id]
  {
    var r := Recovered(rows, now);
    assert WithStatus(r, Pending) == WithStatus(rows, Pending) + WithStatus(rows, Running);
    assert WithStatus(rows, Pending) !! WithStatus(rows, Running);
  }

  /**
   The dashboard's retry puts exactly a failed row back on offer, at once and with all its
   attempts, and no other row with its key appears.
   */
  lemma RetriedIsClaimable(s: Store, id: Id, now: Time, later: Time)
    requires StoreInv(s) && later >= now
    ensures var rows := Retried(s.rows, id, now);
            if id in s.rows && s.rows[id].status == Failed
            then && DueIds(rows, later) == DueIds(s.rows, later) + {id}
                 && rows[id].attempts == 0 && rows[id].lastError == ""
                 && WithStatus(rows, Failed) == WithStatus(s.rows, Failed) - {id}
                 && OneRowPerKey(rows)
            else rows == s.rows
  {
    StepKeepsStoreInv(s, Step(RetryJob(id), now));
  }
}
