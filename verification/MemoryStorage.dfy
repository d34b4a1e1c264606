/**
 The in-memory storage: a map of pointers to jobs, updated in place. `View` is the map of
 job values behind the pointers; every operation is specified on it.
 Ranging over a Go map visits the keys in an arbitrary order, so each loop picks any
 remaining key.
 */
module MemoryStore {
  import opened Types
  import opened StoreSpec
  import opened Effects

  /** A `*Job`: a heap cell holding one job. */
  class JobPtr {
    var job: Job

    constructor (j: Job)
      ensures job == j
    {
      job := j;
    }
  }

  class MemoryStorage {
    var jobs: map<Id, JobPtr>
    var crons: Crons

    ghost predicate Valid()
      reads `jobs, jobs.Values
    {
      forall id | id in jobs :: jobs[id].job.id == id
    }

    ghost function View(): (rows: Rows)
      reads `jobs, jobs.Values
      ensures rows.Keys == jobs.Keys
    {
      map id | id in jobs :: jobs[id].job
    }

    constructor ()
      ensures Valid() && View() == map[] && crons == map[]
    {
      jobs, crons := map[], map[];
    }

    method Enqueue(job: Job) returns (ghost p: JobPtr)
      requires Valid()
      modifies this`jobs
      ensures Valid() && fresh(p) && jobs == old(jobs)[job.id := p]
      ensures View() == old(View())[job.id := job]
    {
      var cp := new JobPtr(job);
      jobs := jobs[job.id := cp];
      p := cp;
    }

    method EnqueueDedup(job: Job, mode: DedupMode, now: Time) returns (res: EnqueueResult, ghost c: Option<Id>)
      requires Valid()
      modifies this`jobs
      ensures Valid() && fresh(jobs.Values - old(jobs).Values)
      ensures job.key == "" ==>
                res == EnqueueResult(Inserted, None) && View() == old(View())[job.id := job]
      ensures job.key != "" ==>
                var kept := Purge(old(View()), job.key, now);
                && ConflictFor(kept, job.key, c)
                && res == DedupResult(kept, mode, c)
                && View() == Enqueued(kept, job, mode, c)
      ensures job.key != "" ==> DedupEffect(old(View()), View(), job, mode, now, res)
    {
      ghost var before := View();
      c := None;
      if job.key == "" {
        ghost var p := Enqueue(job);
        return EnqueueResult(Inserted, None), None;
      }
      DropExpired(job.key, now);
      var existing := FindConflict(job.key);
      c := if existing == null then None else Some(existing.job.id);
      DedupHasEffect(before, job, mode, now, c);
      res := Resolve(job, mode, existing);
    }

    /** The rest of EnqueueDedup: insert, replace or skip, given what the search has found. */
    method Resolve(job: Job, mode: DedupMode, existing: JobPtr?) returns (res: EnqueueResult)
      requires Valid() && (existing != null ==> existing.job.id in jobs && jobs[existing.job.id] == existing)
      modifies this`jobs
      ensures Valid() && fresh(jobs.Values - old(jobs).Values)
      ensures existing == null ==>
                res == EnqueueResult(Inserted, None) && View() == old(View())[job.id := job]
      ensures existing != null ==>
                var e := existing.job;
                && res.existing == Some(Conflict(e.id, e.status))
                && match mode
                   case Ignore => res.action == SkippedDuplicate && View() == old(View())
                   case Replace =>
                     if e.status == Running then res.action == SkippedRunning && View() == old(View())
                     else res.action == Replaced && View() == (old(View()) - {e.id})[job.id := job]
    {
      if existing == null {
        ghost var p := Enqueue(job);
        return EnqueueResult(Inserted, None);
      }
      var conflict := Some(Conflict(existing.job.id, existing.job.status));
      match mode {
        case Replace =>
          if existing.job.status == Running {
            return EnqueueResult(SkippedRunning, conflict);
          }
          ghost var rows := View();
          jobs := jobs - {existing.job.id};
          assert View() == rows - {existing.job.id};
          ghost var p := Enqueue(job);
          return EnqueueResult(Replaced, conflict);
        case Ignore =>
          return EnqueueResult(SkippedDuplicate, conflict);
      }
    }

    /** Step 1 of EnqueueDedup: deletes while ranging. */
    method DropExpired(key: Key, now: Time)
      requires Valid()
      modifies this`jobs
      ensures Valid() && jobs.Keys <= old(jobs).Keys && jobs.Values <= old(jobs).Values
      ensures View() == Purge(old(View()), key, now)
    {
      var ids := jobs.Keys;
      while ids != {}
        invariant ids <= old(jobs).Keys
        invariant jobs == map id | id in old(jobs)
                                && (id in ids || !(old(jobs)[id].job.key == key && Unlocked(old(jobs)[id].job, now)))
                            :: old(jobs)[id]
      {
        var id :| id in ids;
        ids := ids - {id};
        var j := jobs[id];
        if j.job.key == key && (j.job.status == Done || j.job.status == Failed) {
          if j.job.expiresAt.None? || !(j.job.expiresAt.value > now) {
            jobs := jobs - {id};
          }
        }
      }
    }

    /** Step 2 of EnqueueDedup: a row of least rank among those with the key. */
    method FindConflict(key: Key) returns (existing: JobPtr?)
      requires Valid()
      ensures existing != null ==> existing.job.id in jobs && jobs[existing.job.id] == existing
      ensures ConflictFor(View(), key, if existing == null then None else Some(existing.job.id))
    {
      existing := null;
      var ids := jobs.Keys;
      while ids != {}
        invariant ids <= jobs.Keys
        invariant existing != null ==>
                    && existing.job.id in jobs && jobs[existing.job.id] == existing
                    && existing.job.key == key
        invariant forall o | o in jobs && o !in ids && jobs[o].job.key == key ::
                    existing != null && Rank(existing.job.status) <= Rank(jobs[o].job.status)
      {
        var id :| id in ids;
        ids := ids - {id};
        var j := jobs[id];
        if j.job.key == key && (existing == null || Rank(j.job.status) < Rank(existing.job.status)) {
          existing := j;
        }
      }
    }

    /** The IDs in `ids` are the claimed jobs in the order returned; `out` holds fresh copies. */
    method Claim(limit: int, now: Time) returns (out: seq<JobPtr>, ghost ids: seq<Id>)
      requires Valid() && 0 <= limit
      modifies jobs.Values
      ensures Valid()
      ensures ClaimChoice(old(View()), now, limit, ids)
      ensures InRunAtOrder(old(View()), ids)
      ensures View() == Claimed(old(View()), now, ids) && ClaimEffect(old(View()), View(), ids, now)
      ensures |out| == |ids|
      ensures forall i | 0 <= i < |ids| :: fresh(out[i]) && ids[i] in View() && out[i].job == View()[ids[i]]
    {
      var due;
      due, ids := SelectDue(limit, now);
      out := StartAll(due, ids, now);
    }

    /** Filter, sort, truncate: everything Claim does before it changes a job. */
    method SelectDue(limit: int, now: Time) returns (due: seq<JobPtr>, ghost ids: seq<Id>)
      requires Valid() && 0 <= limit
      ensures ClaimChoice(View(), now, limit, ids) && InRunAtOrder(View(), ids)
      ensures |ids| == |due| && forall k | 0 <= k < |due| :: ids[k] in jobs && due[k] == jobs[ids[k]]
    {
      due := CollectDue(now);
      ghost var unsorted := due;
      due := SortByRunAt(due);
      PermutationFacts(unsorted, due);
      ids := IdsOf(due);
      ghost var all := ids;
      AllDue(due, now);
      if |due| > limit {
        due := due[..limit];
        ids := ids[..limit];
      }
      TruncateIsChoice(View(), now, limit, all, ids);
    }

    lemma AllDue(due: seq<JobPtr>, now: Time)
      requires Valid() && Distinct(due) && SortedByRunAt(due)
      requires forall p | p in due :: p.job.id in jobs && jobs[p.job.id] == p
      requires forall id :: id in DueIds(View(), now) <==> id in jobs && jobs[id] in due
      ensures Distinct(IdsOf(due)) && InRunAtOrder(View(), IdsOf(due))
      ensures forall id :: id in IdsOf(due) <==> id in DueIds(View(), now)
    {
      var ids := IdsOf(due);
      forall k | 0 <= k < |ids| ensures ids[k] in jobs && jobs[ids[k]] == due[k] {
        assert due[k] in due;
      }
      forall id ensures id in ids <==> id in DueIds(View(), now) {
        if id in DueIds(View(), now) {
          var k :| 0 <= k < |due| && due[k] == jobs[id];
          assert ids[k] == id;
        }
      }
    }

    /** The last loop of Claim: marks each job running through its pointer and copies it. */
    method StartAll(due: seq<JobPtr>, ghost ids: seq<Id>, now: Time) returns (out: seq<JobPtr>)
      requires Valid() && |ids| == |due|
      requires forall k | 0 <= k < |due| :: ids[k] in jobs && due[k] == jobs[ids[k]]
      modifies jobs.Values
      ensures Valid() && View() == Claimed(old(View()), now, ids) && ClaimEffect(old(View()), View(), ids, now)
      ensures |out| == |ids|
      ensures forall k | 0 <= k < |ids| :: fresh(out[k]) && ids[k] in jobs && out[k].job == jobs[ids[k]].job
    {
      ghost var rows := View();
      out := [];
      var i := 0;
      while i < |due|
        modifies jobs.Values
        invariant 0 <= i <= |due| && |out| == i
        invariant Valid() && View() == Claimed(rows, now, ids[..i])
        invariant forall k | 0 <= k < i :: fresh(out[k]) && out[k].job == StartedJob(rows[ids[k]], now)
      {
        ClaimedOneMore(rows, now, ids, i);
        var cp := Start(due[i], ids[i], now);
        out := out + [cp];
        i := i + 1;
      }
      assert ids[..i] == ids;
      ClaimHasEffect(rows, ids, now);
    }

    /** Marks one job running and copies it. */
    method Start(j: JobPtr, ghost id: Id, now: Time) returns (cp: JobPtr)
      requires Valid() && id in jobs && jobs[id] == j
      modifies j
      ensures Valid() && View() == old(View())[id := StartedJob(old(View())[id], now)]
      ensures fresh(cp) && cp.job == StartedJob(old(View())[id], now)
    {
      j.job := j.job.(status := Running, updatedAt := now);
      cp := new JobPtr(j.job);
    }

    ghost function IdsOf(ps: seq<JobPtr>): (ids: seq<Id>)
      reads ps
      ensures |ids| == |ps| && forall i | 0 <= i < |ps| :: ids[i] == ps[i].job.id
    {
      seq(|ps|, i requires 0 <= i < |ps| reads ps => ps[i].job.id)
    }

    method CollectDue(now: Time) returns (due: seq<JobPtr>)
      requires Valid()
      ensures forall p | p in due :: p.job.id in jobs && jobs[p.job.id] == p
      ensures Distinct(due)
      ensures forall id :: id in DueIds(View(), now) <==> id in jobs && jobs[id] in due
    {
      due := [];
      var ids := jobs.Keys;
      while ids != {}
        invariant ids <= jobs.Keys
        invariant forall p | p in due :: p.job.id in jobs && jobs[p.job.id] == p
        invariant Distinct(due)
        invariant forall id :: id in DueIds(View(), now) && id !in ids <==> id in jobs && jobs[id] in due
      {
        var id :| id in ids;
        ids := ids - {id};
        var j := jobs[id];
        if j.job.status == Pending && !(j.job.runAt > now) {
          due := due + [j];
        }
      }
    }

    method MarkDone(id: Id, now: Time) returns (r: Result<()>)
      requires Valid()
      modifies jobs.Values
      ensures Valid() && r == (if id in jobs then Ok(()) else Err(NotFound))
      ensures View() == MarkedDone(old(View()), id, now) && DoneEffect(old(View()), View(), id, now)
    {
      DoneHasEffect(View(), id, now);
      if id !in jobs {
        return Err(NotFound);
      }
      var j := jobs[id];
      j.job := j.job.(status := Done, updatedAt := now);
      if j.job.ttl > 0 {
        var t := now + j.job.ttl;
        j.job := j.job.(expiresAt := Some(t));
      }
      r := Ok(());
    }

    method MarkFailed(id: Id, errMsg: string, retryAt: Option<Time>, now: Time) returns (r: Result<()>)
      requires Valid()
      modifies jobs.Values
      ensures Valid() && r == (if id in jobs then Ok(()) else Err(NotFound))
      ensures View() == MarkedFailed(old(View()), id, errMsg, retryAt, now)
      ensures FailedEffect(old(View()), View(), id, errMsg, retryAt, now)
    {
      FailedHasEffect(View(), id, errMsg, retryAt, now);
      if id !in jobs {
        return Err(NotFound);
      }
      var j := jobs[id];
      j.job := j.job.(attempts := j.job.attempts + 1, lastError := errMsg, updatedAt := now);
      if retryAt.Some? {
        j.job := j.job.(status := Pending, runAt := retryAt.value);
        return Ok(());
      }
      j.job := j.job.(status := Failed);
      if j.job.ttl > 0 {
        var t := now + j.job.ttl;
        j.job := j.job.(expiresAt := Some(t));
      }
      r := Ok(());
    }

    method RecoverStuck(now: Time)
      requires Valid()
      modifies jobs.Values
      ensures Valid() && View() == Recovered(old(View()), now) && RecoverEffect(old(View()), View(), now)
    {
      ghost var rows := View();
      var ids := jobs.Keys;
      while ids != {}
        modifies jobs.Values
        invariant ids <= jobs.Keys && Valid()
        invariant forall id | id in jobs :: jobs[id].job == if id in ids then rows[id] else Recovered(rows, now)[id]
      {
        var id :| id in ids;
        ids := ids - {id};
        var j := jobs[id];
        if j.job.status == Running {
          j.job := j.job.(status := Pending, updatedAt := now);
        }
      }
      RecoveryHasEffect(rows, now);
    }

    method RetryJob(id: Id, now: Time) returns (r: Result<()>)
      requires Valid()
      modifies jobs.Values
      ensures Valid() && View() == Retried(old(View()), id, now) && RetryEffect(old(View()), View(), id, now)
      ensures r == if id !in jobs then Err(NotFound)
                   else if old(View())[id].status != Failed then Err(NotFailed)
                   else Ok(())
    {
      RetryHasEffect(View(), id, now);
      if id !in jobs {
        return Err(NotFound);
      }
      var j := jobs[id];
      if j.job.status != Failed {
        return Err(NotFailed);
      }
      j.job := j.job.(status := Pending, runAt := now, attempts := 0, lastError := "", updatedAt := now);
      r := Ok(());
    }

    method Stats() returns (st: JobStats)
      requires Valid()
      ensures CountsAre(st, View(), {})
    {
      st := JobStats(0, 0, 0, 0);
      var ids := jobs.Keys;
      NothingCounted(View());
      while ids != {}
        invariant ids <= jobs.Keys
        invariant CountsAre(st, View(), ids)
      {
        var id :| id in ids;
        CountOneMore(st, View(), ids, id);
        ids := ids - {id};
        match jobs[id].job.status {
          case Pending => st := st.(pending := st.pending + 1);
          case Running => st := st.(running := st.running + 1);
          case Done => st := st.(done := st.done + 1);
          case Failed => st := st.(failed := st.failed + 1);
        }
      }
    }

    method UpsertCron(c: CronEntry)
      modifies this`crons
      ensures crons == old(crons)[c.name := c]
    {
      crons := crons[c.name := c];
    }

    method DueCrons(now: Time) returns (due: seq<CronEntry>)
      requires forall n | n in crons :: crons[n].name == n
      ensures forall i | 0 <= i < |due| :: due[i].name in crons && due[i] == crons[due[i].name]
      ensures forall i, k | 0 <= i < k < |due| :: due[i].name != due[k].name
      ensures (set i | 0 <= i < |due| :: due[i].name) == DueCronNames(crons, now)
    {
      due := [];
      var names := crons.Keys;
      while names != {}
        invariant names <= crons.Keys
        invariant forall i | 0 <= i < |due| :: due[i].name in crons && due[i] == crons[due[i].name]
        invariant forall i, k | 0 <= i < k < |due| :: due[i].name != due[k].name
        invariant (set i | 0 <= i < |due| :: due[i].name) == DueCronNames(crons, now) - names
      {
        var n :| n in names;
        names := names - {n};
        if !(crons[n].nextRun > now) {
          ghost var was := set i | 0 <= i < |due| :: due[i].name;
          assert forall i | 0 <= i < |due| :: due[i].name in was;
          ghost var before := due;
          due := due + [crons[n]];
          assert (set i | 0 <= i < |due| :: due[i].name) == was + {n} by {
            assert due[|before|].name == n;
            forall i | 0 <= i < |before| ensures due[i].name in was { assert due[i] == before[i]; }
            forall m | m in was ensures exists i :: 0 <= i < |due| && due[i].name == m {
              var i :| 0 <= i < |before| && before[i].name == m;
              assert due[i].name == m;
            }
          }
        }
      }
    }

    method UpdateCronRun(name: string, last: Time, next: Time) returns (r: Result<()>)
      modifies this`crons
      ensures r == (if name in old(crons) then Ok(()) else Err(NotFound))
      ensures crons == CronAdvanced(old(crons), name, last, next)
    {
      if name !in crons {
        return Err(NotFound);
      }
      crons := crons[name := crons[name].(lastRun := Some(last), nextRun := next)];
      r := Ok(());
    }
  }

  // ------------------------------------------------------------------ counting

  /** `st` counts the rows outside `left` by status. */
  ghost predicate CountsAre(st: JobStats, rows: Rows, left: set<Id>) {
    && st.pending == |WithStatus(rows, Pending) - left|
    && st.running == |WithStatus(rows, Running) - left|
    && st.done == |WithStatus(rows, Done) - left|
    && st.failed == |WithStatus(rows, Failed) - left|
  }

  ghost function CountRow(st: JobStats, s: Status): JobStats {
    match s
    case Pending => st.(pending := st.pending + 1)
    case Running => st.(running := st.running + 1)
    case Done => st.(done := st.done + 1)
    case Failed => st.(failed := st.failed + 1)
  }

  /** The four counters always add up to the number of rows. */
  lemma StatsAddUp(st: JobStats, rows: Rows)
    requires CountsAre(st, rows, {})
    ensures st.pending + st.running + st.done + st.failed == |rows|
  {
    MinusNothing(WithStatus(rows, Pending));
    MinusNothing(WithStatus(rows, Running));
    MinusNothing(WithStatus(rows, Done));
    MinusNothing(WithStatus(rows, Failed));
    StatusesPartition(rows);
  }

  lemma StatusesPartition(rows: Rows)
    ensures |rows| == |WithStatus(rows, Pending)| + |WithStatus(rows, Running)|
                      + |WithStatus(rows, Done)| + |WithStatus(rows, Failed)|
  {
    var finished := WithStatus(rows, Done) + WithStatus(rows, Failed);
    var active := WithStatus(rows, Pending) + WithStatus(rows, Running);
    DisjointCard(WithStatus(rows, Pending), WithStatus(rows, Running));
    DisjointCard(WithStatus(rows, Done), WithStatus(rows, Failed));
    forall id | id in rows ensures id in active <==> id !in finished {
      assert rows[id].status in {Pending, Running, Done, Failed};
    }
    DisjointCard(active, finished);
    assert rows.Keys == active + finished;
  }

  lemma MinusNothing(s: set<Id>)
    ensures s - {} == s
  {
  }

  lemma DisjointCard(a: set<Id>, b: set<Id>)
    requires a !! b
    ensures |a + b| == |a| + |b|
  {
  }

  // ------------------------------------------------------------------ sorting

  ghost predicate SortedByRunAt(ps: seq<JobPtr>)
    reads ps
  {
    forall i, k | 0 <= i < k < |ps| :: ps[i].job.runAt <= ps[k].job.runAt
  }

  /** Insertion sort; equal run times keep whatever order the map iteration produced. */
  method SortByRunAt(ps: seq<JobPtr>) returns (sorted: seq<JobPtr>)
    ensures multiset(sorted) == multiset(ps) && SortedByRunAt(sorted)
  {
    sorted := [];
    var i := 0;
    while i < |ps|
      invariant 0 <= i <= |ps|
      invariant multiset(sorted) == multiset(ps[..i]) && SortedByRunAt(sorted)
    {
      sorted := InsertByRunAt(sorted, ps[i]);
      assert ps[..i + 1] == ps[..i] + [ps[i]];
      i := i + 1;
    }
    assert ps[..i] == ps;
  }

  method InsertByRunAt(ps: seq<JobPtr>, p: JobPtr) returns (r: seq<JobPtr>)
    requires SortedByRunAt(ps)
    ensures multiset(r) == multiset(ps) + multiset{p} && SortedByRunAt(r)
  {
    var k := |ps|;
    while 0 < k && ps[k - 1].job.runAt > p.job.runAt
      invariant 0 <= k <= |ps|
      invariant forall m | k <= m < |ps| :: p.job.runAt <= ps[m].job.runAt
    {
      k := k - 1;
    }
    r := ps[..k] + [p] + ps[k..];
    InsertedMultiset(ps, k, p);
  }

  // ------------------------------------------------------------------ proof helpers

  ghost predicate InRunAtOrder(rows: Rows, ids: seq<Id>) {
    && (forall id | id in ids :: id in rows)
    && forall i, k | 0 <= i < k < |ids| :: rows[ids[i]].runAt <= rows[ids[k]].runAt
  }

  lemma InsertedMultiset<T>(s: seq<T>, k: nat, x: T)
    requires k <= |s|
    ensures multiset(s[..k] + [x] + s[k..]) == multiset(s) + multiset{x}
  {
    assert s == s[..k] + s[k..];
  }

  lemma PermutationFacts<T>(a: seq<T>, b: seq<T>)
    requires multiset(a) == multiset(b) && Distinct(a)
    ensures Distinct(b)
    ensures forall x :: x in a <==> x in b
  {
    forall x ensures x in a <==> x in b {
      assert x in a <==> x in multiset(a);
      assert x in b <==> x in multiset(b);
    }
    forall i, j | 0 <= i < j < |b| ensures b[i] != b[j] {
      OccursOnce(a, b[i]);
      OccursTwice(b, i, j);
    }
  }

  lemma OccursTwice<T>(b: seq<T>, i: nat, j: nat)
    requires i < j < |b|
    ensures b[i] == b[j] ==> multiset(b)[b[i]] >= 2
  {
    assert b == b[..j] + [b[j]] + b[j + 1..];
    assert b[..j][i] == b[i];
  }

  lemma OccursOnce<T>(a: seq<T>, x: T)
    requires Distinct(a)
    ensures multiset(a)[x] <= 1
  {
    if a != [] {
      assert a == [a[0]] + a[1..];
      OccursOnce(a[1..], x);
    }
  }

  lemma TruncateIsChoice(rows: Rows, now: Time, limit: int, all: seq<Id>, ids: seq<Id>)
    requires 0 <= limit && Distinct(all)
    requires forall id :: id in all <==> id in DueIds(rows, now)
    requires InRunAtOrder(rows, all)
    requires ids == if |all| > limit then all[..limit] else all
    ensures ClaimChoice(rows, now, limit, ids) && InRunAtOrder(rows, ids)
  {
    DistinctCard(all, DueIds(rows, now));
    forall c, u | c in ids && u in DueIds(rows, now) && u !in ids
      ensures rows[c].runAt <= rows[u].runAt
    {
      var i :| 0 <= i < |ids| && ids[i] == c;
      var k :| 0 <= k < |all| && all[k] == u;
      assert forall m | 0 <= m < |ids| :: all[m] in ids;
    }
  }

  /** Claiming one more job starts its row, again if it was claimed already. */
  lemma ClaimedOneMore(rows: Rows, now: Time, ids: seq<Id>, i: nat)
    requires i < |ids| && ids[i] in rows
    ensures var c := Claimed(rows, now, ids[..i]);
            && Claimed(rows, now, ids[..i + 1]) == c[ids[i] := StartedJob(c[ids[i]], now)]
            && StartedJob(c[ids[i]], now) == StartedJob(rows[ids[i]], now)
  {
    assert ids[..i + 1] == ids[..i] + [ids[i]];
  }

  lemma NothingCounted(rows: Rows)
    ensures CountsAre(JobStats(0, 0, 0, 0), rows, rows.Keys)
  {
    assert WithStatus(rows, Pending) - rows.Keys == {} == WithStatus(rows, Running) - rows.Keys;
    assert WithStatus(rows, Done) - rows.Keys == {} == WithStatus(rows, Failed) - rows.Keys;
  }

  lemma CountOneMore(st: JobStats, rows: Rows, ids: set<Id>, id: Id)
    requires id in ids && ids <= rows.Keys && CountsAre(st, rows, ids)
    ensures CountsAre(CountRow(st, rows[id].status), rows, ids - {id})
  {
    SetOneMore(WithStatus(rows, Pending), ids, id);
    SetOneMore(WithStatus(rows, Running), ids, id);
    SetOneMore(WithStatus(rows, Done), ids, id);
    SetOneMore(WithStatus(rows, Failed), ids, id);
  }

  lemma SetOneMore(s: set<Id>, ids: set<Id>, id: Id)
    requires id in ids
    ensures |s - (ids - {id})| == |s - ids| + if id in s then 1 else 0
  {
    if id in s {
      assert s - (ids - {id}) == (s - ids) + {id};
    } else {
      assert s - (ids - {id}) == s - ids;
    }
  }
}
