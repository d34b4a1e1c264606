/**
 The cron scheduler as steps over the stored schedules. A process registers its schedules
 before the loop starts; each pass reads the due names once, then for each advances the stored
 next run and only then enqueues. A process may die between any two steps.
 */
module CronRuns {
  import opened Types
  import opened StoreSpec
  import opened SqliteStore

  datatype Cron = Cron(
    crons: Crons,
    entries: map<string, Duration>,   // of this process
    looping: bool,
    due: seq<string>,                 // still to handle in the current pass
    owed: Option<string>)             // advanced, not yet enqueued

  const NONE := Cron(map[], map[], false, [], None)

  datatype CronEvent =
    | RegisterCron(name: string, interval: Duration)
    | StartLoop
    | Scan(names: seq<string>)
    | Skip                            // no entry in this process, or the update failed
    | Advance(name: string)
    | EnqueueCron(name: string)
    | EnqueueFails
    | Die

  datatype CronTimed = CronTimed(e: CronEvent, now: Time)

  function Scheduled(crons: Crons, name: string, interval: Duration, now: Time): Crons {
    crons[name := CronEntry(name, interval, None, now + interval, now)]
  }

  ghost predicate Can(c: Cron, t: CronTimed) {
    match t.e
    case RegisterCron(_, _) => !c.looping
    case StartLoop => !c.looping
    case Scan(names) =>
      c.looping && c.due == [] && c.owed.None? && Distinct(names)
      && forall n :: n in names <==> n in DueCronNames(c.crons, t.now)
    case Skip => c.due != [] && c.owed.None?
    case Advance(name) => c.due != [] && c.owed.None? && c.due[0] == name && name in c.entries
    case EnqueueCron(name) => c.owed == Some(name)
    case EnqueueFails => c.owed.Some?
    case Die => true
  }

  ghost function Do(c: Cron, t: CronTimed): Cron
    requires Can(c, t)
  {
    match t.e
    case RegisterCron(name, d) => c.(entries := c.entries[name := d], crons := Scheduled(c.crons, name, d, t.now))
    case StartLoop => c.(looping := true)
    case Scan(names) => c.(due := names)
    case Skip => c.(due := c.due[1..])
    case Advance(name) =>
      c.(crons := CronAdvanced(c.crons, name, t.now, t.now + c.entries[name]), due := c.due[1..], owed := Some(name))
    case EnqueueCron(_) => c.(owed := None)
    case EnqueueFails => c.(owed := None)
    case Die => NONE.(crons := c.crons)
  }

  ghost predicate Chronological(ts: seq<CronTimed>) {
    forall i, k | 0 <= i <= k < |ts| :: ts[i].now <= ts[k].now
  }

  ghost predicate CronRun(cs: seq<Cron>, ts: seq<CronTimed>) {
    && |cs| == |ts| + 1 && cs[0] == NONE
    && (forall i | 0 <= i < |ts| :: Can(cs[i], ts[i]) && cs[i + 1] == Do(cs[i], ts[i]))
    && Chronological(ts)
  }

  /** Where a segment of a run leads, if each of its events is possible when it comes. */
  ghost function After(c: Cron, ts: seq<CronTimed>): Option<Cron> {
    if ts == [] then Some(c)
    else
      var n := |ts| - 1;
      match After(c, ts[..n])
      case Some(d) => if Can(d, ts[n]) then Some(Do(d, ts[n])) else None
      case None => None
  }

  lemma AfterOne(c: Cron, t: CronTimed)
    ensures After(c, [t]) == if Can(c, t) then Some(Do(c, t)) else None
  {
    assert [t][..0] == [] && After(c, []) == Some(c);
  }

  lemma ChronologicalBoth(a: seq<CronTimed>, b: seq<CronTimed>)
    requires Chronological(a) && Chronological(b) && a != [] && b != [] && a[|a| - 1].now <= b[0].now
    ensures Chronological(a + b)
  {
    forall i, k | 0 <= i <= k < |a + b| ensures (a + b)[i].now <= (a + b)[k].now {
      if i < |a| <= k {
        assert a[i].now <= a[|a| - 1].now <= b[0].now <= b[k - |a|].now;
      }
    }
  }

  lemma AfterScan(c: Cron, names: seq<string>, now: Time)
    requires Can(c, CronTimed(Scan(names), now))
    ensures After(c, [CronTimed(Scan(names), now)]) == Some(c.(due := names))
  {
    AfterOne(c, CronTimed(Scan(names), now));
  }

  /** Advance, then enqueue, of the first name of a pass. */
  lemma AfterAdvance(c: Cron, name: string, now: Time)
    requires c.due != [] && c.due[0] == name && name in c.entries && c.owed.None?
    ensures After(c, [CronTimed(Advance(name), now), CronTimed(EnqueueCron(name), now)])
         == Some(c.(crons := CronAdvanced(c.crons, name, now, now + c.entries[name]), due := c.due[1..]))
  {
    var t, u := CronTimed(Advance(name), now), CronTimed(EnqueueCron(name), now);
    AfterOne(c, t);
    assert [t, u][..1] == [t] && [t, u][1] == u;
    assert Can(Do(c, t), u);
  }

  lemma {:induction false} AfterBoth(c: Cron, a: seq<CronTimed>, b: seq<CronTimed>)
    requires After(c, a).Some?
    ensures After(c, a + b) == After(After(c, a).value, b)
  {
    if b == [] {
      assert a + b == a;
    } else {
      AfterBoth(c, a, b[..|b| - 1]);
      assert (a + b)[..|a + b| - 1] == a + b[..|b| - 1];
    }
  }

  /** A run goes on with any segment possible where it stands. */
  lemma {:induction false} RunGoesOn(cs: seq<Cron>, ts: seq<CronTimed>, more: seq<CronTimed>) returns (cs': seq<Cron>)
    requires CronRun(cs, ts) && Chronological(ts + more) && After(cs[|ts|], more).Some?
    ensures CronRun(cs', ts + more) && cs'[|ts + more|] == After(cs[|ts|], more).value
  {
    if more == [] {
      assert ts + more == ts;
      cs' := cs;
    } else {
      var n := |more| - 1;
      assert ts + more == (ts + more[..n]) + [more[n]];
      assert Chronological(ts + more[..n]) by {
        assert forall i | 0 <= i < |ts + more[..n]| :: (ts + more[..n])[i] == (ts + more)[i];
      }
      cs' := RunGoesOn(cs, ts, more[..n]);
      cs' := cs' + [After(cs[|ts|], more).value];
    }
  }

  /** A process can die at any point, and an enqueue can fail after the advance. */
  lemma CronCanFail(c: Cron, now: Time)
    ensures Can(c, CronTimed(Die, now)) && Do(c, CronTimed(Die, now)) == NONE.(crons := c.crons)
    ensures c.owed.Some? ==> Can(c, CronTimed(EnqueueFails, now))
  {
  }

  // ------------------------------------------------------------------ what a run did to one name

  /** When the name was last registered or fired. */
  function Anchor(ts: seq<CronTimed>, name: string): Option<Time> {
    if ts == [] then None
    else
      var t := ts[|ts| - 1];
      if (t.e.RegisterCron? || t.e.Advance?) && t.e.name == name then Some(t.now) else Anchor(ts[..|ts| - 1], name)
  }

  function FirstRegistration(ts: seq<CronTimed>, name: string): Option<Time> {
    if ts == [] then None
    else
      var t, r := ts[|ts| - 1], FirstRegistration(ts[..|ts| - 1], name);
      if r.None? && t.e.RegisterCron? && t.e.name == name then Some(t.now) else r
  }

  /** The firings of a name, each an UpdateCronRun, in order. */
  function Firings(ts: seq<CronTimed>, name: string): seq<Time> {
    if ts == [] then []
    else
      var t, fs := ts[|ts| - 1], Firings(ts[..|ts| - 1], name);
      if t.e == Advance(name) then fs + [t.now] else fs
  }

  function Enqueues(ts: seq<CronTimed>, name: string): nat {
    if ts == [] then 0
    else Enqueues(ts[..|ts| - 1], name) + if ts[|ts| - 1].e == EnqueueCron(name) then 1 else 0
  }

  /** Every process registers the name with the same interval. */
  ghost predicate SameInterval(ts: seq<CronTimed>, name: string, d: Duration) {
    forall i | 0 <= i < |ts| && ts[i].e.RegisterCron? && ts[i].e.name == name :: ts[i].e.interval == d
  }

  ghost predicate CronInv(c: Cron, ts: seq<CronTimed>, name: string, d: Duration) {
    var a := Anchor(ts, name);
    && (name in c.crons <==> a.Some?)
    && (a.Some? ==> c.crons[name].nextRun == a.value + d && ts != [] && a.value <= ts[|ts| - 1].now)
    && (name in c.entries ==> c.entries[name] == d && a.Some?)
    && (c.due != [] ==> c.looping)
    && Distinct(c.due)
    && (name in c.due ==> a.Some? && a.value + d <= ts[|ts| - 1].now)
  }

  lemma {:induction false} ReachableCron(cs: seq<Cron>, ts: seq<CronTimed>, i: nat, name: string, d: Duration)
    requires CronRun(cs, ts) && SameInterval(ts, name, d) && i <= |ts|
    ensures CronInv(cs[i], ts[..i], name, d)
  {
    if i > 0 {
      ReachableCron(cs, ts, i - 1, name, d);
      assert ts[..i][..i - 1] == ts[..i - 1] && ts[..i][i - 1] == ts[i - 1];
      assert i > 1 ==> ts[..i - 1][i - 2].now <= ts[i - 1].now;
      StepKeepsCron(cs[i - 1], ts[..i - 1], ts[i - 1], name, d);
      assert ts[..i] == ts[..i - 1] + [ts[i - 1]];
    }
  }

  lemma StepKeepsCron(c: Cron, ts: seq<CronTimed>, t: CronTimed, name: string, d: Duration)
    requires CronInv(c, ts, name, d) && Can(c, t) && (ts != [] ==> ts[|ts| - 1].now <= t.now)
    requires t.e.RegisterCron? && t.e.name == name ==> t.e.interval == d
    ensures CronInv(Do(c, t), ts + [t], name, d)
  {
    assert (ts + [t])[..|ts|] == ts;
    if c.due != [] {
      assert c.due == [c.due[0]] + c.due[1..];
    }
  }

  /**
   A name fires no earlier than its interval after it was last registered or fired. In
   particular a restart, which re-registers, never fires a missed run at once.
   */
  lemma FiresAfterAnchor(cs: seq<Cron>, ts: seq<CronTimed>, i: nat, name: string, d: Duration)
    requires CronRun(cs, ts) && SameInterval(ts, name, d) && i < |ts| && ts[i].e == Advance(name)
    ensures Anchor(ts[..i], name).Some? && ts[i].now >= Anchor(ts[..i], name).value + d
  {
    ReachableCron(cs, ts, i, name, d);
    assert Can(cs[i], ts[i]);
    assert name == cs[i].due[0];
    assert i > 0 && ts[..i][i - 1].now <= ts[i].now;
  }

  ghost predicate SpacedBy(fs: seq<Time>, d: Duration) {
    forall k | 0 < k < |fs| :: fs[k] >= fs[k - 1] + d
  }

  /** Firings of one name are at least the interval apart, the first one after registration too. */
  lemma {:induction false} FiringsAreSpaced(cs: seq<Cron>, ts: seq<CronTimed>, i: nat, name: string, d: Duration)
    requires CronRun(cs, ts) && SameInterval(ts, name, d) && d > 0 && i <= |ts|
    ensures var fs, first, a := Firings(ts[..i], name), FirstRegistration(ts[..i], name), Anchor(ts[..i], name);
            && SpacedBy(fs, d)
            && (|fs| > 0 ==> first.Some? && fs[0] >= first.value + d)
            && (a.Some? <==> first.Some?)
            && (a.Some? ==> first.value <= a.value && (|fs| > 0 ==> fs[|fs| - 1] <= a.value))
  {
    if i > 0 {
      FiringsAreSpaced(cs, ts, i - 1, name, d);
      ReachableCron(cs, ts, i - 1, name, d);
      assert ts[..i][..i - 1] == ts[..i - 1] && ts[..i][i - 1] == ts[i - 1];
      if ts[i - 1].e == Advance(name) {
        FiresAfterAnchor(cs, ts, i - 1, name, d);
      } else if i > 1 {
        assert ts[..i - 1][i - 2].now <= ts[i - 1].now;
      }
    }
  }

  // ------------------------------------------------------------------ counting

  function Within(fs: seq<Time>, lo: Time, hi: Time): nat {
    if fs == [] then 0
    else Within(fs[..|fs| - 1], lo, hi) + if lo <= fs[|fs| - 1] <= hi then 1 else 0
  }

  /** k intervals of length d. */
  function Times(k: nat, d: Duration): Duration { if k == 0 then 0 else Times(k - 1, d) + d }

  lemma {:induction false} TimesIsProduct(k: nat, d: Duration)
    ensures Times(k, d) == k * d
  {
    if k > 0 {
      TimesIsProduct(k - 1, d);
      assert (k - 1) * d + d == k * d;
    }
  }

  lemma {:induction false} WithinFits(fs: seq<Time>, lo: Time, hi: Time, d: Duration)
    requires SpacedBy(fs, d) && d > 0
    ensures Within(fs, lo, hi) > 0 ==>
              Times(Within(fs, lo, hi) - 1, d) <= hi - lo && Times(Within(fs, lo, hi) - 1, d) <= fs[|fs| - 1] - lo
  {
    if fs != [] {
      var n := |fs| - 1;
      WithinFits(fs[..n], lo, hi, d);
      if Within(fs[..n], lo, hi) > 0 {
        assert fs[..n][n - 1] + d <= fs[n];
      }
    }
  }

  /** A closed window of length W holds at most W/d + 1 firings of a name. */
  lemma FiringsPerWindow(cs: seq<Cron>, ts: seq<CronTimed>, name: string, d: Duration, lo: Time, length: Duration)
    requires CronRun(cs, ts) && SameInterval(ts, name, d) && d > 0 && length >= 0
    ensures Within(Firings(ts, name), lo, lo + length) <= length / d + 1
  {
    assert ts[..|ts|] == ts;
    FiringsAreSpaced(cs, ts, |ts|, name, d);
    SpacedPerWindow(Firings(ts, name), d, lo, length);
  }

  lemma SpacedPerWindow(fs: seq<Time>, d: Duration, lo: Time, length: Duration)
    requires SpacedBy(fs, d) && d > 0 && length >= 0
    ensures Within(fs, lo, lo + length) <= length / d + 1
  {
    WithinFits(fs, lo, lo + length, d);
    var w := Within(fs, lo, lo + length);
    if w > 0 {
      TimesIsProduct(w - 1, d);
      FloorBound(w - 1, d, length);
    }
  }

  lemma FloorBound(k: int, d: int, length: int)
    requires d > 0 && k * d <= length
    ensures k <= length / d
  {
    var q := length / d;
    assert length < q * d + d == (q + 1) * d;
    ProductGrows(q + 1, k, d);
  }

  lemma ProductGrows(a: int, b: int, d: int)
    requires d > 0
    ensures a <= b ==> a * d <= b * d
  {
  }

  /** Advance comes first: jobs enqueued for a name never exceed its firings, whatever dies when. */
  lemma {:induction false} EnqueuesNeverExceedFirings(cs: seq<Cron>, ts: seq<CronTimed>, i: nat, name: string)
    requires CronRun(cs, ts) && i <= |ts|
    ensures Enqueues(ts[..i], name) + (if cs[i].owed == Some(name) then 1 else 0) <= |Firings(ts[..i], name)|
  {
    if i > 0 {
      EnqueuesNeverExceedFirings(cs, ts, i - 1, name);
      assert ts[..i][..i - 1] == ts[..i - 1] && ts[..i][i - 1] == ts[i - 1];
      assert Can(cs[i - 1], ts[i - 1]) && cs[i] == Do(cs[i - 1], ts[i - 1]);
    }
  }

  // ------------------------------------------------------------------ the same run on SQLite

  /** Equal but for the last run and creation time, which SQLite keeps across a re-registration. */
  ghost predicate SameSchedules(a: Crons, b: Crons) {
    a.Keys == b.Keys && forall n | n in a ::
      a[n].name == b[n].name == n && a[n].schedule == b[n].schedule && a[n].nextRun == b[n].nextRun
  }

  /** What one event does to SQLite's cron table. */
  function SqlCronStep(q: Crons, entries: map<string, Duration>, t: CronTimed): Crons {
    match t.e
    case RegisterCron(name, d) => UpsertedCron(q, CronEntry(name, d, None, t.now + d, t.now))
    case Advance(name) => if name in entries then CronAdvanced(q, name, t.now, t.now + entries[name]) else q
    case _ => q
  }

  function SqlCronsAfter(cs: seq<Cron>, ts: seq<CronTimed>): Crons
    requires |cs| == |ts| + 1
    decreases |ts|
  {
    if ts == [] then map[]
    else
      var n := |ts| - 1;
      SqlCronStep(SqlCronsAfter(cs[..n + 1], ts[..n]), cs[n].entries, ts[n])
  }

  lemma CronStepAgrees(c: Cron, t: CronTimed, q: Crons)
    requires Can(c, t) && SameSchedules(c.crons, q)
    ensures SameSchedules(Do(c, t).crons, SqlCronStep(q, c.entries, t))
  {
  }

  lemma SameDueNames(a: Crons, b: Crons, now: Time)
    requires SameSchedules(a, b)
    ensures DueCronNames(a, now) == DueCronNames(b, now)
  {
  }

  /** Both storages hold the same schedules throughout, hence offer the same due names. */
  lemma {:induction false} CronStoragesAgree(cs: seq<Cron>, ts: seq<CronTimed>, i: nat, now: Time)
    requires CronRun(cs, ts) && i <= |ts|
    ensures SameSchedules(cs[i].crons, SqlCronsAfter(cs[..i + 1], ts[..i]))
    ensures DueCronNames(cs[i].crons, now) == DueCronNames(SqlCronsAfter(cs[..i + 1], ts[..i]), now)
  {
    if i > 0 {
      CronStoragesAgree(cs, ts, i - 1, now);
      assert ts[..i][..i - 1] == ts[..i - 1] && cs[..i + 1][..i] == cs[..i];
      assert ts[..i][i - 1] == ts[i - 1] && cs[..i + 1][i - 1] == cs[i - 1];
      assert Can(cs[i - 1], ts[i - 1]) && cs[i] == Do(cs[i - 1], ts[i - 1]);
      CronStepAgrees(cs[i - 1], ts[i - 1], SqlCronsAfter(cs[..i], ts[..i - 1]));
    }
    SameDueNames(cs[i].crons, SqlCronsAfter(cs[..i + 1], ts[..i]), now);
  }
}
