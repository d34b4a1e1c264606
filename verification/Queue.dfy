/**
 The queue over the in-memory storage: what an enqueue hands to storage, what Start does
 before the loops run, and one pass of the cron scheduler.
 */
module Queue {
  import opened Types
  import opened StoreSpec
  import opened StoreRuns
  import opened Effects
  import opened MemoryStore
  import opened Backoff
  import CronRuns

  datatype PushConfig = PushConfig(maxAttempts: int, runAt: Time, key: Key, mode: DedupMode, ttl: Duration)

  /** A schedule buffered before Start: its name and parsed interval, none if it does not parse. */
  datatype CronReg = CronReg(name: string, interval: Option<Duration>)

  /** What one iteration of a cron pass takes from outside: a clock reading and a fresh ID. */
  datatype Tick = Tick(now: Time, id: Id)

  function NewJobOf(id: Id, name: string, payload: seq<bv8>, p: PushConfig, now: Time): (j: Job)
    ensures NewJob(j)
  {
    Job(id, name, payload, Pending, 0, p.maxAttempts, p.runAt, now, now, "", p.key, p.ttl, None)
  }

  /** `json.Marshal(nil)` */
  const NULL_JSON: seq<bv8> := [0x6E, 0x75, 0x6C, 0x6C]

  /** The storage call an enqueue comes to: none if the payload does not marshal, else chosen by the key. */
  predicate IsPush(op: Op, id: Id, name: string, payload: Option<seq<bv8>>, p: PushConfig, now: Time) {
    match payload
    case None => op == Nop
    case Some(raw) =>
      var job := NewJobOf(id, name, raw, p, now);
      if p.key == "" then op == Op.Enqueue(job)
      else op.EnqueueDedup? && op == Op.EnqueueDedup(job, p.mode, op.conflict)
  }

  /** The outcome of an enqueue whose call is the step `st`: the error returned, or the answer logged. */
  ghost function PushAnswer(s: Store, st: Step): Result<EnqueueResult>
    requires Enabled(s, st)
  {
    if st.op.EnqueueDedup? then Ok(AnswerOf(s, st))
    else if st.op.Enqueue? then Ok(EnqueueResult(Inserted, None))
    else Err(BadPayload)
  }

  /** The job an enqueue asks for, field by field, its TTL read as `ttl`. */
  predicate Carries(j: Job, id: Id, name: string, raw: seq<bv8>, p: PushConfig, ttl: Duration, now: Time) {
    && j.id == id && j.typ == name && j.payload == raw
    && j.status == Pending && j.attempts == 0 && j.lastError == "" && j.expiresAt == None
    && j.maxAttempts == p.maxAttempts && j.runAt == p.runAt
    && j.createdAt == now && j.updatedAt == now
    && j.key == p.key && j.ttl == ttl
  }

  /** An enqueue answered with `Inserted` or `Replaced` has stored its job, due exactly from its run time on. */
  ghost predicate StoredAsAsked(rows: Rows, id: Id, name: string, payload: Option<seq<bv8>>, p: PushConfig,
                                ttl: Duration, now: Time, r: Result<EnqueueResult>) {
    && (r.Ok? <==> payload.Some?)
    && (r.Ok? && (r.value.action == Inserted || r.value.action == Replaced) ==>
          && id in rows && Carries(rows[id], id, name, payload.value, p, ttl, now)
          && forall t :: id in DueIds(rows, t) <==> t >= p.runAt)
  }

  function Minted(id: Id, payload: Option<seq<bv8>>): set<Id> { if payload.Some? then {id} else {} }

  /**
   `enqueueRaw` on the in-memory storage. `payload` is the marshalled payload, none if that
   fails; `st` is the store step made.
   */
  method EnqueueRaw(storage: MemoryStorage, id: Id, name: string, payload: Option<seq<bv8>>, p: PushConfig, now: Time,
                    ghost used: set<Id>)
    returns (r: Result<EnqueueResult>, ghost st: Step)
    requires storage.Valid() && id !in used
    modifies storage`jobs
    ensures storage.Valid() && fresh(storage.jobs.Values - old(storage.jobs).Values)
    ensures st.now == now && IsPush(st.op, id, name, payload, p, now)
    ensures Enabled(Store(old(storage.View()), used), st)
    ensures Store(storage.View(), used + Minted(id, payload)) == Apply(Store(old(storage.View()), used), st)
    ensures r == PushAnswer(Store(old(storage.View()), used), st)
    ensures StoredAsAsked(storage.View(), id, name, payload, p, p.ttl, now, r)
    ensures r.Ok? && p.key != "" ==> Reported(old(storage.View()), p.key, p.mode, now, r.value)
  {
    if payload.None? {
      return Err(BadPayload), Step(Nop, now);
    }
    var job := NewJobOf(id, name, payload.value, p, now);
    if p.key == "" {
      ghost var cell := storage.Enqueue(job);
      return Ok(EnqueueResult(Inserted, None)), Step(Op.Enqueue(job), now);
    }
    var res;
    ghost var c;
    res, c := storage.EnqueueDedup(job, p.mode, now);
    return Ok(res), Step(Op.EnqueueDedup(job, p.mode, c), now);
  }

  class CronScheduler {
    const storage: MemoryStorage
    var entries: map<string, Duration>

    constructor (s: MemoryStorage)
      ensures storage == s && entries == map[]
    {
      storage := s;
      entries := map[];
    }

    /** An interval that does not parse is an error and changes nothing. */
    method Register(name: string, interval: Option<Duration>, now: Time) returns (ok: bool)
      modifies this, storage`crons
      ensures ok == interval.Some?
      ensures !ok ==> entries == old(entries) && storage.crons == old(storage.crons)
      ensures ok ==> entries == old(entries)[name := interval.value]
      ensures ok ==> storage.crons == CronRuns.Scheduled(old(storage.crons), name, interval.value, now)
      ensures ok ==> storage.crons
                     == old(storage.crons)[name := CronEntry(name, interval.value, None, now + interval.value, now)]
    {
      if interval.None? {
        return false;
      }
      entries := entries[name := interval.value];
      storage.UpsertCron(CronEntry(name, interval.value, None, now + interval.value, now));
      return true;
    }

    /** Registers in order, each at its own clock reading, up to the first schedule that does not parse. */
    method RegisterEach(pending: seq<CronReg>, clock: seq<Time>) returns (ok: bool, ghost k: nat)
      requires entries == map[] && |pending| <= |clock|
      modifies this, storage`crons
      ensures k <= |pending| && AllParse(pending[..k])
      ensures if ok then k == |pending| else k < |pending| && pending[k].interval.None?
      ensures storage.crons == RegisterAll(old(storage.crons), pending[..k], clock)
      ensures entries == EntriesOf(pending[..k])
    {
      var i := 0;
      while i < |pending|
        invariant 0 <= i <= |pending| && AllParse(pending[..i])
        invariant storage.crons == RegisterAll(old(storage.crons), pending[..i], clock)
        invariant entries == EntriesOf(pending[..i])
      {
        var registered := Register(pending[i].name, pending[i].interval, clock[i]);
        if !registered {
          return false, i;
        }
        i := i + 1;
        assert pending[..i][..i - 1] == pending[..i - 1];
      }
      return true, i;
    }

    /** Advance first, then enqueue. */
    method FireOne(name: string, now: Time, id: Id, defs: map<string, JobDef>)
      requires storage.Valid() && name in entries && name in storage.crons && id !in storage.jobs
      modifies storage`crons, storage`jobs
      ensures storage.Valid() && fresh(storage.jobs.Values - old(storage.jobs).Values)
      ensures storage.crons == AdvanceOne(old(storage.crons), entries, name, now)
      ensures storage.crons.Keys == old(storage.crons).Keys
      ensures storage.View() == EnqueueOne(old(storage.View()), id, name, now, defs)
      ensures storage.jobs.Keys == old(storage.jobs).Keys + {id}
    {
      var next := now + entries[name];
      var e := storage.UpdateCronRun(name, now, next);
      var r;
      ghost var st;
      r, st := EnqueueRaw(storage, id, name, Some(NULL_JSON), CronConfig(defs, name, now), now, storage.jobs.Keys);
    }

    /** A pass that found these schedules and rows has handled the names `seen` with the firings `fired`. */
    ghost predicate MidFire(crons: Crons, rows: Rows, seen: seq<string>, fired: seq<string>, ticks: seq<Tick>,
                            defs: map<string, JobDef>)
      reads this, storage, storage.jobs.Values
    {
      && storage.Valid() && |fired| <= |seen| <= |ticks|
      && fired == Known(seen, entries)
      && storage.crons.Keys == crons.Keys
      && storage.crons == AdvanceAll(crons, entries, fired, ticks)
      && storage.View() == EnqueueAll(rows, fired, ticks, defs)
      && FreshTicks(ticks, |fired|, storage.jobs.Keys)
    }

    /** Handles one due name: a firing if this process has an entry for it, else nothing. */
    method FireNext(name: string, fired: seq<string>, ticks: seq<Tick>, defs: map<string, JobDef>,
                    ghost crons: Crons, ghost rows: Rows, ghost seen: seq<string>)
      returns (fired': seq<string>)
      requires MidFire(crons, rows, seen, fired, ticks, defs) && name in crons && |seen| < |ticks|
      modifies storage`crons, storage`jobs
      ensures MidFire(crons, rows, seen + [name], fired', ticks, defs)
      ensures fresh(storage.jobs.Values - old(storage.jobs).Values)
    {
      KnownGrows(seen, name, entries);
      if name !in entries {
        return fired;
      }
      FireOne(name, ticks[|fired|].now, ticks[|fired|].id, defs);
      OneMore(crons, rows, entries, fired, name, ticks, defs);
      fired' := fired + [name];
    }

    /**
     One pass: each due name known to this process is advanced at the time the clock reads for
     it, then handed to `enqueue`; `fired` lists them, and `scanned` all due names as found.
     Others are skipped. The k-th firing takes the k-th tick. The pass is a segment of a cron run.
     */
    method Fire(scan: Time, ticks: seq<Tick>, defs: map<string, JobDef>)
      returns (fired: seq<string>, ghost scanned: seq<string>)
      requires storage.Valid() && forall n | n in storage.crons :: storage.crons[n].name == n
      requires FreshTicks(ticks, 0, storage.jobs.Keys) && |storage.crons| <= |ticks|
      modifies storage`crons, storage`jobs
      ensures storage.Valid() && Distinct(fired) && |fired| <= |ticks|
      ensures forall n :: n in fired <==> n in DueCronNames(old(storage.crons), scan) && n in entries
      ensures storage.crons == AdvanceAll(old(storage.crons), entries, fired, ticks)
      ensures storage.View() == EnqueueAll(old(storage.View()), fired, ticks, defs)
      ensures JobsFired(old(storage.View()), storage.View(), fired, ticks, defs)
      ensures SchedulesMoved(old(storage.crons), storage.crons, entries, fired, ticks)
      ensures |scanned| <= |ticks| && fired == Known(scanned, entries)
      ensures CronRuns.After(Looping(old(storage.crons), entries), FireEvents(scanned, entries, ticks, scan))
           == Some(Looping(storage.crons, entries))
    {
      ghost var crons, rows := storage.crons, storage.View();
      fired, scanned := ScanAndFire(scan, ticks, defs);
      PassFacts(crons, rows, entries, scanned, ticks, defs, scan);
    }

    method ScanAndFire(scan: Time, ticks: seq<Tick>, defs: map<string, JobDef>)
      returns (fired: seq<string>, ghost scanned: seq<string>)
      requires storage.Valid() && forall n | n in storage.crons :: storage.crons[n].name == n
      requires FreshTicks(ticks, 0, storage.jobs.Keys) && |storage.crons| <= |ticks|
      modifies storage`crons, storage`jobs
      ensures storage.Valid() && |scanned| <= |ticks| && fired == Known(scanned, entries)
      ensures Distinct(scanned) && forall n :: n in scanned <==> n in DueCronNames(old(storage.crons), scan)
      ensures storage.crons == AdvanceAll(old(storage.crons), entries, fired, ticks)
      ensures storage.View() == EnqueueAll(old(storage.View()), fired, ticks, defs)
    {
      var due := storage.DueCrons(scan);
      scanned := NamesOf(due);
      DueFit(due, storage.crons);
      DueNames(due, storage.crons, scan);
      fired := FireEach(due, ticks, defs);
    }

    method FireEach(due: seq<CronEntry>, ticks: seq<Tick>, defs: map<string, JobDef>)
      returns (fired: seq<string>)
      requires storage.Valid()
      requires forall i | 0 <= i < |due| :: due[i].name in storage.crons
      requires FreshTicks(ticks, 0, storage.jobs.Keys) && |due| <= |ticks|
      modifies storage`crons, storage`jobs
      ensures fired == Known(NamesOf(due), entries)
      ensures storage.Valid() && |fired| <= |ticks|
      ensures storage.crons == AdvanceAll(old(storage.crons), entries, fired, ticks)
      ensures storage.View() == EnqueueAll(old(storage.View()), fired, ticks, defs)
    {
      ghost var crons, rows, seen := storage.crons, storage.View(), [];
      fired := [];
      var i := 0;
      while i < |due|
        invariant 0 <= i == |seen| <= |due| && forall k | 0 <= k < i :: seen[k] == due[k].name
        invariant MidFire(crons, rows, seen, fired, ticks, defs)
        invariant fresh(storage.jobs.Values - old(storage.jobs).Values)
      {
        fired := FireNext(due[i].name, fired, ticks, defs, crons, rows, seen);
        seen := seen + [due[i].name];
        i := i + 1;
      }
      assert seen == NamesOf(due);
    }
  }

  /** The IDs from the n-th tick on are new and distinct. */
  ghost predicate FreshTicks(ticks: seq<Tick>, n: nat, used: set<Id>) {
    && (forall i, k | 0 <= i < k < |ticks| :: ticks[i].id != ticks[k].id)
    && forall i | n <= i < |ticks| :: ticks[i].id !in used
  }

  lemma DueNames(due: seq<CronEntry>, crons: Crons, now: Time)
    requires forall i, k | 0 <= i < k < |due| :: due[i].name != due[k].name
    requires (set i | 0 <= i < |due| :: due[i].name) == DueCronNames(crons, now)
    ensures Distinct(NamesOf(due)) && forall n :: n in NamesOf(due) <==> n in DueCronNames(crons, now)
  {
    assert forall n :: n in (set i | 0 <= i < |due| :: due[i].name) <==> n in NamesOf(due);
  }

  lemma DueFit(due: seq<CronEntry>, crons: Crons)
    requires forall i | 0 <= i < |due| :: due[i].name in crons
    requires forall i, k | 0 <= i < k < |due| :: due[i].name != due[k].name
    ensures |due| <= |crons|
  {
    var names := set i | 0 <= i < |due| :: due[i].name;
    assert forall n :: n in NamesOf(due) <==> n in names;
    DistinctCard(NamesOf(due), names);
    assert crons.Keys == names + (crons.Keys - names);
  }

  function NamesOf(due: seq<CronEntry>): (names: seq<string>)
    ensures |names| == |due| && forall k | 0 <= k < |due| :: names[k] == due[k].name
  {
    seq(|due|, k requires 0 <= k < |due| => due[k].name)
  }

  /** The names this process has an entry for, in order. */
  function Known(names: seq<string>, entries: map<string, Duration>): (r: seq<string>)
    ensures |r| <= |names| && forall n | n in r :: n in entries
  {
    if names == [] then []
    else
      var k := |names| - 1;
      Known(names[..k], entries) + if names[k] in entries then [names[k]] else []
  }

  lemma KnownGrows(names: seq<string>, name: string, entries: map<string, Duration>)
    ensures Known(names + [name], entries)
         == if name in entries then Known(names, entries) + [name] else Known(names, entries)
  {
    assert (names + [name])[..|names|] == names;
  }

  lemma {:induction false} KnownFacts(names: seq<string>, entries: map<string, Duration>)
    ensures forall n :: n in Known(names, entries) <==> n in names && n in entries
    ensures Distinct(names) ==> Distinct(Known(names, entries))
  {
    if names != [] {
      var k := |names| - 1;
      KnownFacts(names[..k], entries);
      assert names == names[..k] + [names[k]];
    }
  }

  /** The cron enqueue closure: no key, and three attempts unless the definition says otherwise. */
  function CronConfig(defs: map<string, JobDef>, name: string, now: Time): PushConfig {
    var maxAttempts := if name in defs then defs[name].maxAttempts else 0;
    PushConfig(if maxAttempts == 0 then 3 else maxAttempts, now, "", Ignore, 0)
  }

  ghost function AdvanceAll(crons: Crons, entries: map<string, Duration>, fired: seq<string>, ticks: seq<Tick>): Crons
    requires |fired| <= |ticks|
  {
    if fired == [] then crons
    else
      var k := |fired| - 1;
      AdvanceOne(AdvanceAll(crons, entries, fired[..k], ticks), entries, fired[k], ticks[k].now)
  }

  ghost function AdvanceOne(crons: Crons, entries: map<string, Duration>, name: string, now: Time): Crons {
    if name in entries then CronAdvanced(crons, name, now, now + entries[name]) else crons
  }

  ghost function EnqueueAll(rows: Rows, fired: seq<string>, ticks: seq<Tick>, defs: map<string, JobDef>): Rows
    requires |fired| <= |ticks|
  {
    if fired == [] then rows
    else
      var k := |fired| - 1;
      EnqueueOne(EnqueueAll(rows, fired[..k], ticks, defs), ticks[k].id, fired[k], ticks[k].now, defs)
  }

  ghost function EnqueueOne(rows: Rows, id: Id, name: string, now: Time, defs: map<string, JobDef>): Rows {
    rows[id := NewJobOf(id, name, NULL_JSON, CronConfig(defs, name, now), now)]
  }

  lemma OneMore(crons: Crons, rows: Rows, entries: map<string, Duration>, fired: seq<string>, name: string,
                ticks: seq<Tick>, defs: map<string, JobDef>)
    requires |fired| < |ticks|
    ensures AdvanceAll(crons, entries, fired + [name], ticks)
         == AdvanceOne(AdvanceAll(crons, entries, fired, ticks), entries, name, ticks[|fired|].now)
    ensures EnqueueAll(rows, fired + [name], ticks, defs)
         == EnqueueOne(EnqueueAll(rows, fired, ticks, defs), ticks[|fired|].id, name, ticks[|fired|].now, defs)
  {
    assert (fired + [name])[..|fired|] == fired;
  }

  // ------------------------------------------------------------------ what a pass leaves, written out

  /** One job for each firing, due at once; three attempts unless the definition has a number. */
  ghost predicate JobsFired(before: Rows, after: Rows, fired: seq<string>, ticks: seq<Tick>,
                            defs: map<string, JobDef>)
    requires |fired| <= |ticks|
  {
    && (forall id | id in before :: id in after && after[id] == before[id])
    && (forall id | id in after && id !in before :: exists k :: 0 <= k < |fired| && ticks[k].id == id)
    && forall k | 0 <= k < |fired| ::
         ticks[k].id in after && IsFiring(after[ticks[k].id], fired[k], ticks[k], defs)
  }

  predicate IsFiring(j: Job, name: string, tick: Tick, defs: map<string, JobDef>) {
    && j.id == tick.id && j.typ == name && j.payload == NULL_JSON && j.key == ""
    && j.status == Pending && j.attempts == 0 && j.lastError == "" && j.ttl == 0 && j.expiresAt == None
    && j.runAt == tick.now && j.createdAt == tick.now && j.updatedAt == tick.now
    && j.maxAttempts == if name in defs && defs[name].maxAttempts != 0 then defs[name].maxAttempts else 3
  }

  /** Each fired schedule has run at its tick and runs next one interval later; the others are as they were. */
  ghost predicate SchedulesMoved(before: Crons, after: Crons, entries: map<string, Duration>, fired: seq<string>,
                                 ticks: seq<Tick>)
    requires |fired| <= |ticks|
  {
    && after.Keys == before.Keys
    && (forall n | n in before && n !in fired :: after[n] == before[n])
    && forall k | 0 <= k < |fired| ::
         && fired[k] in before && fired[k] in entries
         && after[fired[k]].lastRun == Some(ticks[k].now)
         && after[fired[k]].nextRun == ticks[k].now + entries[fired[k]]
         && after[fired[k]].name == before[fired[k]].name
         && after[fired[k]].schedule == before[fired[k]].schedule
         && after[fired[k]].createdAt == before[fired[k]].createdAt
  }

  lemma {:induction false} PassFiresJobs(rows: Rows, fired: seq<string>, ticks: seq<Tick>, defs: map<string, JobDef>)
    requires |fired| <= |ticks| && FreshTicks(ticks, 0, rows.Keys)
    ensures JobsFired(rows, EnqueueAll(rows, fired, ticks, defs), fired, ticks, defs)
  {
    if fired != [] {
      var k := |fired| - 1;
      assert fired == fired[..k] + [fired[k]];
      PassFiresJobs(rows, fired[..k], ticks, defs);
      OneMoreFires(rows, EnqueueAll(rows, fired[..k], ticks, defs), fired[..k], fired[k], ticks, defs);
    }
  }

  lemma OneMoreFires(rows: Rows, mid: Rows, fired: seq<string>, name: string, ticks: seq<Tick>,
                     defs: map<string, JobDef>)
    requires |fired| < |ticks| && FreshTicks(ticks, 0, rows.Keys) && JobsFired(rows, mid, fired, ticks, defs)
    ensures var tick := ticks[|fired|];
            JobsFired(rows, EnqueueOne(mid, tick.id, name, tick.now, defs), fired + [name], ticks, defs)
  {
    var tick, n := ticks[|fired|], |fired|;
    var after := EnqueueOne(mid, tick.id, name, tick.now, defs);
    assert IsFiring(after[tick.id], name, tick, defs);
    forall k | 0 <= k <= n
      ensures ticks[k].id in after && IsFiring(after[ticks[k].id], (fired + [name])[k], ticks[k], defs)
    {
      if k < n {
        assert after[ticks[k].id] == mid[ticks[k].id];
      }
    }
    forall id | id in after && id !in rows ensures exists k :: 0 <= k < |fired + [name]| && ticks[k].id == id {
      if id == tick.id {
        assert ticks[n].id == id;
      }
    }
  }

  lemma {:induction false} PassMovesSchedules(crons: Crons, entries: map<string, Duration>, fired: seq<string>,
                                              ticks: seq<Tick>)
    requires |fired| <= |ticks| && Distinct(fired)
    requires forall n | n in fired :: n in crons && n in entries
    ensures SchedulesMoved(crons, AdvanceAll(crons, entries, fired, ticks), entries, fired, ticks)
  {
    if fired != [] {
      var k := |fired| - 1;
      assert fired == fired[..k] + [fired[k]];
      PassMovesSchedules(crons, entries, fired[..k], ticks);
      OneMoreMoves(crons, AdvanceAll(crons, entries, fired[..k], ticks), entries, fired[..k], fired[k], ticks);
    }
  }

  lemma OneMoreMoves(crons: Crons, mid: Crons, entries: map<string, Duration>, fired: seq<string>, name: string,
                     ticks: seq<Tick>)
    requires |fired| < |ticks| && name !in fired && name in crons && name in entries
    requires SchedulesMoved(crons, mid, entries, fired, ticks)
    ensures SchedulesMoved(crons, AdvanceOne(mid, entries, name, ticks[|fired|].now), entries, fired + [name], ticks)
  {
    var after := AdvanceOne(mid, entries, name, ticks[|fired|].now);
    assert mid[name] == crons[name];
    forall n | n in crons && n !in fired + [name] ensures after[n] == crons[n] {
      assert n !in fired;
    }
    forall k | 0 <= k < |fired| ensures (fired + [name])[k] == fired[k] && after[fired[k]] == mid[fired[k]] {
      assert fired[k] in fired;
    }
  }

  /** All that a pass over the due names leaves behind. */
  lemma PassFacts(crons: Crons, rows: Rows, entries: map<string, Duration>, names: seq<string>, ticks: seq<Tick>,
                  defs: map<string, JobDef>, scan: Time)
    requires |names| <= |ticks| && FreshTicks(ticks, 0, rows.Keys) && Distinct(names)
    requires forall n :: n in names <==> n in DueCronNames(crons, scan)
    ensures var fired := Known(names, entries);
            && Distinct(fired) && (forall n :: n in fired <==> n in DueCronNames(crons, scan) && n in entries)
            && JobsFired(rows, EnqueueAll(rows, fired, ticks, defs), fired, ticks, defs)
            && SchedulesMoved(crons, AdvanceAll(crons, entries, fired, ticks), entries, fired, ticks)
            && CronRuns.After(Looping(crons, entries), FireEvents(names, entries, ticks, scan))
               == Some(Looping(AdvanceAll(crons, entries, fired, ticks), entries))
  {
    KnownFacts(names, entries);
    FireIsSegment(crons, entries, names, ticks, scan);
    PassFiresJobs(rows, Known(names, entries), ticks, defs);
    PassMovesSchedules(crons, entries, Known(names, entries), ticks);
  }

  // ------------------------------------------------------------------ a pass as a segment of a cron run

  /** The scheduler between two passes. */
  function Looping(crons: Crons, entries: map<string, Duration>): CronRuns.Cron {
    CronRuns.Cron(crons, entries, true, [], None)
  }

  /** The clock when the n-th firing is over. */
  function ClockAfter(ticks: seq<Tick>, n: nat, scan: Time): Time
    requires n <= |ticks|
  {
    if n == 0 then scan else ticks[n - 1].now
  }

  /** The events of one name of a pass that has made `n` firings: skip, or advance and enqueue. */
  function NameEvents(name: string, entries: map<string, Duration>, ticks: seq<Tick>, n: nat, scan: Time)
    : seq<CronRuns.CronTimed>
    requires n < |ticks|
  {
    if name in entries
    then [CronRuns.CronTimed(CronRuns.Advance(name), ticks[n].now),
          CronRuns.CronTimed(CronRuns.EnqueueCron(name), ticks[n].now)]
    else [CronRuns.CronTimed(CronRuns.Skip, ClockAfter(ticks, n, scan))]
  }

  /** The events of a pass after its scan. */
  function PassEvents(names: seq<string>, entries: map<string, Duration>, ticks: seq<Tick>, scan: Time)
    : seq<CronRuns.CronTimed>
    requires |names| <= |ticks|
  {
    if names == [] then []
    else
      var k := |names| - 1;
      PassEvents(names[..k], entries, ticks, scan)
      + NameEvents(names[k], entries, ticks, |Known(names[..k], entries)|, scan)
  }

  function FireEvents(names: seq<string>, entries: map<string, Duration>, ticks: seq<Tick>, scan: Time)
    : seq<CronRuns.CronTimed>
    requires |names| <= |ticks|
  {
    [CronRuns.CronTimed(CronRuns.Scan(names), scan)] + PassEvents(names, entries, ticks, scan)
  }

  lemma {:induction false} PassIsSegment(crons: Crons, entries: map<string, Duration>, names: seq<string>, i: nat,
                                         ticks: seq<Tick>, scan: Time)
    requires i <= |names| <= |ticks|
    ensures CronRuns.After(Looping(crons, entries).(due := names), PassEvents(names[..i], entries, ticks, scan))
         == Some(MidPass(crons, entries, names, i, ticks))
  {
    var c := Looping(crons, entries).(due := names);
    if i == 0 {
      assert names[0..] == names;
    } else {
      var k := i - 1;
      PassIsSegment(crons, entries, names, k, ticks, scan);
      PassGrows(entries, names, k, ticks, scan);
      var n, mid := |Known(names[..k], entries)|, MidPass(crons, entries, names, k, ticks);
      var es := PassEvents(names[..k], entries, ticks, scan);
      CronRuns.AfterBoth(c, es, NameEvents(names[k], entries, ticks, n, scan));
      assert mid.due[0] == names[k] && mid.entries == entries;
      NameIsSegment(mid, ticks, n, scan);
      MidPassMoves(crons, entries, names, k, ticks);
    }
  }

  lemma PassGrows(entries: map<string, Duration>, names: seq<string>, k: nat, ticks: seq<Tick>, scan: Time)
    requires k < |names| <= |ticks|
    ensures PassEvents(names[..k + 1], entries, ticks, scan)
         == PassEvents(names[..k], entries, ticks, scan)
            + NameEvents(names[k], entries, ticks, |Known(names[..k], entries)|, scan)
  {
    assert names[..k + 1][..k] == names[..k] && names[..k + 1][k] == names[k];
  }

  /** The scheduler when the first i of its names are done. */
  ghost function MidPass(crons: Crons, entries: map<string, Duration>, names: seq<string>, i: nat, ticks: seq<Tick>)
    : CronRuns.Cron
    requires i <= |names| <= |ticks|
  {
    CronRuns.Cron(AdvanceAll(crons, entries, Known(names[..i], entries), ticks), entries, true, names[i..], None)
  }

  lemma MidPassMoves(crons: Crons, entries: map<string, Duration>, names: seq<string>, k: nat, ticks: seq<Tick>)
    requires k < |names| <= |ticks|
    ensures MidPass(crons, entries, names, k + 1, ticks)
         == HandledName(MidPass(crons, entries, names, k, ticks), ticks[|Known(names[..k], entries)|].now)
  {
    var known := Known(names[..k], entries);
    assert names[..k + 1][..k] == names[..k] && names[..k + 1][k] == names[k] && names[k..][1..] == names[k + 1..];
    assert names[k..][0] == names[k];
    assert Known(names[..k + 1], entries) == known + if names[k] in entries then [names[k]] else [];
    if names[k] in entries {
      OneMore(crons, map[], entries, known, names[k], ticks, map[]);
    } else {
      assert known + [] == known;
    }
  }

  /** The scheduler after handling its first due name. */
  ghost function HandledName(c: CronRuns.Cron, now: Time): CronRuns.Cron
    requires c.due != []
  {
    c.(crons := AdvanceOne(c.crons, c.entries, c.due[0], now), due := c.due[1..])
  }

  lemma NameIsSegment(c: CronRuns.Cron, ticks: seq<Tick>, n: nat, scan: Time)
    requires c.due != [] && c.owed.None? && n < |ticks|
    ensures CronRuns.After(c, NameEvents(c.due[0], c.entries, ticks, n, scan)) == Some(HandledName(c, ticks[n].now))
  {
    if c.due[0] in c.entries {
      CronRuns.AfterAdvance(c, c.due[0], ticks[n].now);
    } else {
      CronRuns.AfterOne(c, NameEvents(c.due[0], c.entries, ticks, n, scan)[0]);
    }
  }

  /** A pass makes the scheduler's run go on from one pass to the next, over the same clock readings. */
  lemma FireIsSegment(crons: Crons, entries: map<string, Duration>, names: seq<string>, ticks: seq<Tick>, scan: Time)
    requires |names| <= |ticks| && Distinct(names) && forall n :: n in names <==> n in DueCronNames(crons, scan)
    ensures CronRuns.After(Looping(crons, entries), FireEvents(names, entries, ticks, scan))
         == Some(Looping(AdvanceAll(crons, entries, Known(names, entries), ticks), entries))
  {
    var c, pass := Looping(crons, entries), PassEvents(names, entries, ticks, scan);
    CronRuns.AfterScan(c, names, scan);
    CronRuns.AfterBoth(c, [CronRuns.CronTimed(CronRuns.Scan(names), scan)], pass);
    assert names[..|names|] == names && names[|names|..] == [];
    PassIsSegment(crons, entries, names, |names|, ticks, scan);
  }

  lemma {:induction false} PassIsChronological(first: CronRuns.CronTimed, names: seq<string>,
                                               entries: map<string, Duration>, ticks: seq<Tick>)
    requires |names| <= |ticks|
    requires forall i, k | 0 <= i <= k < |ticks| :: first.now <= ticks[i].now <= ticks[k].now
    ensures var es := [first] + PassEvents(names, entries, ticks, first.now);
            && CronRuns.Chronological(es)
            && es[|es| - 1].now == ClockAfter(ticks, |Known(names, entries)|, first.now)
  {
    if names != [] {
      var k := |names| - 1;
      PassIsChronological(first, names[..k], entries, ticks);
      var n := |Known(names[..k], entries)|;
      var p, e := PassEvents(names[..k], entries, ticks, first.now), NameEvents(names[k], entries, ticks, n, first.now);
      assert [first] + (p + e) == ([first] + p) + e;
      CronRuns.ChronologicalBoth([first] + p, e);
    }
  }

  /** If the clock does not go backwards during a pass, its events are in order. */
  lemma FireIsChronological(names: seq<string>, entries: map<string, Duration>, ticks: seq<Tick>, scan: Time)
    requires |names| <= |ticks|
    requires forall i, k | 0 <= i <= k < |ticks| :: scan <= ticks[i].now <= ticks[k].now
    ensures CronRuns.Chronological(FireEvents(names, entries, ticks, scan))
  {
    PassIsChronological(CronRuns.CronTimed(CronRuns.Scan(names), scan), names, entries, ticks);
  }

  // ------------------------------------------------------------------ Start

  /**
   What Start does before the loops: recover, then re-register every buffered schedule. It
   stops at the first schedule that does not parse; `k` schedules were registered.
   */
  method Boot(storage: MemoryStorage, pending: seq<CronReg>, now: Time, clock: seq<Time>)
    returns (ok: bool, scheduler: CronScheduler, ghost k: nat)
    requires storage.Valid() && |pending| <= |clock|
    modifies storage`crons, storage.jobs.Values
    ensures storage.Valid() && storage.View() == Recovered(old(storage.View()), now)
    ensures fresh(scheduler) && scheduler.storage == storage
    ensures k <= |pending| && AllParse(pending[..k])
    ensures if ok then k == |pending| else k < |pending| && pending[k].interval.None?
    ensures storage.crons == RegisterAll(old(storage.crons), pending[..k], clock)
    ensures scheduler.entries == EntriesOf(pending[..k])
    ensures CronRuns.After(CronRuns.NONE.(crons := old(storage.crons)), RegisterEvents(pending[..k], clock))
         == Some(Looping(storage.crons, scheduler.entries).(looping := false))
  {
    storage.RecoverStuck(now);
    scheduler := new CronScheduler(storage);
    ok, k := scheduler.RegisterEach(pending, clock);
    BootIsSegment(old(storage.crons), pending[..k], clock);
  }

  predicate AllParse(pending: seq<CronReg>) { forall i | 0 <= i < |pending| :: pending[i].interval.Some? }

  function RegisterAll(crons: Crons, pending: seq<CronReg>, clock: seq<Time>): Crons
    requires AllParse(pending) && |pending| <= |clock|
  {
    if pending == [] then crons
    else
      var k := |pending| - 1;
      CronRuns.Scheduled(RegisterAll(crons, pending[..k], clock), pending[k].name, pending[k].interval.value, clock[k])
  }

  function EntriesOf(pending: seq<CronReg>): map<string, Duration>
    requires AllParse(pending)
  {
    if pending == [] then map[]
    else
      var k := |pending| - 1;
      EntriesOf(pending[..k])[pending[k].name := pending[k].interval.value]
  }

  function RegisterEvents(pending: seq<CronReg>, clock: seq<Time>): (es: seq<CronRuns.CronTimed>)
    requires AllParse(pending) && |pending| <= |clock|
    ensures |es| == |pending| && forall i | 0 <= i < |es| :: es[i].now == clock[i]
  {
    seq(|pending|, i requires 0 <= i < |pending| =>
          CronRuns.CronTimed(CronRuns.RegisterCron(pending[i].name, pending[i].interval.value), clock[i]))
  }

  /** The registrations of a process are the first segment of its cron run. */
  lemma {:induction false} BootIsSegment(crons: Crons, pending: seq<CronReg>, clock: seq<Time>)
    requires AllParse(pending) && |pending| <= |clock|
    ensures CronRuns.After(CronRuns.NONE.(crons := crons), RegisterEvents(pending, clock))
         == Some(Looping(RegisterAll(crons, pending, clock), EntriesOf(pending)).(looping := false))
  {
    if pending != [] {
      var k := |pending| - 1;
      BootIsSegment(crons, pending[..k], clock);
      assert RegisterEvents(pending, clock)[..k] == RegisterEvents(pending[..k], clock);
    }
  }

  /** The last buffered schedule of a name. */
  function LastOf(pending: seq<CronReg>, name: string): (k: Option<nat>)
    ensures k.Some? ==> k.value < |pending| && pending[k.value].name == name
    ensures forall i | 0 <= i < |pending| && pending[i].name == name :: k.Some? && i <= k.value
  {
    if pending == [] then None
    else if pending[|pending| - 1].name == name then Some(|pending| - 1)
    else LastOf(pending[..|pending| - 1], name)
  }

  /**
   Every buffered schedule starts over at restart, whatever was stored: its next run is one
   interval from its registration, and it is due from then on and not before. So a missed run is
   not made up. Other stored schedules are kept.
   */
  lemma {:induction false} RestartResetsSchedules(crons: Crons, pending: seq<CronReg>, clock: seq<Time>, name: string)
    requires AllParse(pending) && |pending| <= |clock|
    ensures var after, entries := RegisterAll(crons, pending, clock), EntriesOf(pending);
            match LastOf(pending, name)
            case Some(k) =>
              && name in after && name in entries && entries[name] == pending[k].interval.value
              && after[name].nextRun == clock[k] + entries[name]
              && (forall now :: name in DueCronNames(after, now) <==> now >= clock[k] + entries[name])
              && (name in DueCronNames(after, clock[k]) <==> entries[name] <= 0)
            case None =>
              name !in entries && (name in after <==> name in crons) && (name in crons ==> after[name] == crons[name])
  {
    if pending != [] {
      RestartResetsSchedules(crons, pending[..|pending| - 1], clock, name);
    }
  }

  /** A schedule whose run was missed while the process was down: due before the restart, not after it. */
  lemma MissedRunIsDropped()
    ensures var before := map["cleanup" := CronEntry("cleanup", 3600 * SECOND, None, 100, 0)];
            var pending := [CronReg("cleanup", Some(3600 * SECOND))];
            && "cleanup" in DueCronNames(before, 5000)
            && "cleanup" !in DueCronNames(RegisterAll(before, pending, [5000]), 5000)
  {
    var before := map["cleanup" := CronEntry("cleanup", 3600 * SECOND, None, 100, 0)];
    RestartResetsSchedules(before, [CronReg("cleanup", Some(3600 * SECOND))], [5000], "cleanup");
  }
}
