/**
 The ops runner itself: the scheduling state it updates in place, turn by turn, proved to be the machine of
 `Scheduler`, and the check of job names when a configuration is loaded.
 */
module OpsRunner {
  import opened Options
  import opened Scheduler

  // ---- loading a configuration ----

  /** A decoded JSON value; an object keeps its fields in order. */
  datatype Value =
    | Null | Flag(on: bool) | Whole(n: int) | Fraction(x: real) | Text(text: string) | Items(items: seq<Value>)
    | Fields(fields: seq<(string, Value)>)

  /**
   A job of the configuration. `workerName` is its argument of that name, empty when absent or empty; `control`, `hold`
   and `floor` are its canary arguments, null when absent; `args` are all of them.
   */
  datatype JobRow = JobRow(job: Job, enabled: bool, jobType: string, workerName: string, args: Value, control: Value,
                           hold: Value, floor: Value)

  datatype ConfigError = DuplicateNames | SharedWorkerNames | ControlCharacters | BadCanaryArgs

  datatype Config = Accepted(rows: seq<JobRow>) | Rejected(error: ConfigError)

  function Enabled(rows: seq<JobRow>): seq<JobRow> {
    if rows == [] then []
    else Enabled(rows[..|rows| - 1]) + if rows[|rows| - 1].enabled then [rows[|rows| - 1]] else []
  }

  function JobsOf(rows: seq<JobRow>): (r: seq<Job>)
    ensures |r| == |rows| && forall i :: 0 <= i < |rows| ==> r[i] == rows[i].job
  {
    if rows == [] then [] else JobsOf(rows[..|rows| - 1]) + [rows[|rows| - 1].job]
  }

  predicate IsWorker(row: JobRow) {
    |row.jobType| >= 7 && row.jobType[|row.jobType| - 7..] == "-worker"
  }

  /** The name a worker lane runs and locks under. */
  function EffectiveName(row: JobRow): Option<string> {
    if !IsWorker(row) then None else Some(if row.workerName != "" then row.workerName else row.jobType)
  }

  ghost predicate UniqueWorkers(rows: seq<JobRow>) {
    forall i, j :: 0 <= i < j < |rows| && EffectiveName(rows[i]).Some? ==> EffectiveName(rows[i]) != EffectiveName(rows[j])
  }

  /** Some string inside the value, at any depth, has a control character; field names are not looked at. */
  predicate HasControl(v: Value) {
    match v {
      case Text(text) => exists i :: 0 <= i < |text| && text[i] < ' '
      case Items(items) => exists i :: 0 <= i < |items| && HasControl(items[i])
      case Fields(fields) => exists i :: 0 <= i < |fields| && HasControl(fields[i].1)
      case _ => false
    }
  }

  /** Configurations are read in order, each job on its own: the enabled are kept. */
  lemma {:induction false} EnabledOfConcat(a: seq<JobRow>, b: seq<JobRow>, row: JobRow)
    ensures Enabled(a + b) == Enabled(a) + Enabled(b)
    ensures Enabled([row]) == if row.enabled then [row] else []
  {
    assert [row][..0] == [];
    if b == [] {
      assert a + b == a;
    } else {
      var n := |b| - 1;
      assert (a + b)[..|a + b| - 1] == a + b[..n];
      EnabledOfConcat(a, b[..n], row);
    }
  }

  /** Only worker lanes have a worker name: their argument, or their job type when they give none. */
  lemma WorkerNameIs(row: JobRow, prefix: string)
    ensures row.jobType == prefix + "-worker" && row.workerName != "" ==> EffectiveName(row) == Some(row.workerName)
    ensures row.jobType == prefix + "-worker" && row.workerName == "" ==> EffectiveName(row) == Some(row.jobType)
    ensures EffectiveName(row).Some? ==> exists p: string :: row.jobType == p + "-worker"
  {
    var suffix := "-worker";
    assert |suffix| == 7;
    if row.jobType == prefix + suffix {
      assert row.jobType[|row.jobType| - 7..] == suffix;
    }
    if EffectiveName(row).Some? {
      var p: string := row.jobType[..|row.jobType| - 7];
      assert row.jobType == p + suffix;
    }
  }

  /** The string at a place inside a value, field by field and item by item. */
  function TextAt(v: Value, path: seq<nat>): Option<string>
    decreases |path|
  {
    if path == [] then (if v.Text? then Some(v.text) else None)
    else if v.Items? && path[0] < |v.items| then TextAt(v.items[path[0]], path[1..])
    else if v.Fields? && path[0] < |v.fields| then TextAt(v.fields[path[0]].1, path[1..])
    else None
  }

  ghost predicate ControlAt(v: Value, path: seq<nat>) {
    var text := TextAt(v, path);
    text.Some? && exists i :: 0 <= i < |text.value| && text.value[i] < ' '
  }

  lemma {:induction false} ControlIsFound(v: Value, path: seq<nat>)
    requires ControlAt(v, path)
    ensures HasControl(v)
    decreases |path|
  {
    if path != [] && v.Items? {
      ControlIsFound(v.items[path[0]], path[1..]);
    } else if path != [] {
      ControlIsFound(v.fields[path[0]].1, path[1..]);
    }
  }

  lemma {:induction false} ControlIsSomewhere(v: Value) returns (path: seq<nat>)
    requires HasControl(v)
    ensures ControlAt(v, path)
    decreases v
  {
    match v {
      case Text(text) => path := [];
      case Items(items) =>
        var i :| 0 <= i < |items| && HasControl(items[i]);
        var rest := ControlIsSomewhere(items[i]);
        path := [i] + rest;
        assert path[1..] == rest;
      case Fields(fields) =>
        var i :| 0 <= i < |fields| && HasControl(fields[i].1);
        var rest := ControlIsSomewhere(fields[i].1);
        path := [i] + rest;
        assert path[1..] == rest;
      case _ =>
    }
  }

  /** A control character is found exactly when some string inside the value has one, however deep. */
  lemma HasControlIff(v: Value)
    ensures HasControl(v) <==> exists path :: ControlAt(v, path)
  {
    if HasControl(v) {
      var path := ControlIsSomewhere(v);
    } else {
      forall path ensures !ControlAt(v, path) {
        if ControlAt(v, path) {
          ControlIsFound(v, path);
        }
      }
    }
  }

  predicate Blank(text: string) {
    forall i :: 0 <= i < |text| ==> IsSpace(text[i])
  }

  predicate IsSpace(c: char) {
    c in " \t\n\r" || c in "\U{B}\U{C}\U{1C}\U{1D}\U{1E}\U{1F}\U{85}\U{A0}\U{1680}\U{2028}\U{2029}\U{202F}\U{205F}\U{3000}"
    || '\U{2000}' <= c <= '\U{200A}'
  }

  /** Canary arguments of a lane without a control directory are not looked at. */
  predicate CanaryArgsOk(row: JobRow) {
    row.control.Null?
    || (&& row.control.Text? && !Blank(row.control.text)
        && (row.hold.Null? || (row.hold.Whole? && 0 <= row.hold.n <= 7200) || (row.hold.Fraction? && 0.0 <= row.hold.x <= 7200.0))
        && (row.floor.Null? || (row.floor.Whole? && 0 <= row.floor.n <= 4096)))
  }

  /** Accepted are the enabled rows in order, exactly when names, worker names, strings and canary arguments all pass. */
  method LoadOpsConfig(rows: seq<JobRow>) returns (config: Config)
    ensures var enabled := Enabled(rows);
            && (config.Accepted? <==>
                && Unique(JobsOf(enabled)) && UniqueWorkers(enabled)
                && forall i :: 0 <= i < |enabled| ==> !HasControl(enabled[i].args) && CanaryArgsOk(enabled[i]))
            && (config.Accepted? ==> config.rows == enabled)
            && (config == Rejected(DuplicateNames) <==> !Unique(JobsOf(enabled)))
  {
    var enabled: seq<JobRow> := [];
    for i := 0 to |rows|
      invariant enabled == Enabled(rows[..i])
    {
      assert rows[..i + 1][..i] == rows[..i];
      if rows[i].enabled {
        enabled := enabled + [rows[i]];
      }
    }
    assert rows[..|rows|] == rows;
    var unique := NamesAreUnique(JobsOf(enabled));
    if !unique {
      return Rejected(DuplicateNames);
    }
    unique := WorkersAreUnique(enabled);
    if !unique {
      return Rejected(SharedWorkerNames);
    }
    for i := 0 to |enabled|
      invariant forall k :: 0 <= k < i ==> !HasControl(enabled[k].args)
    {
      if HasControl(enabled[i].args) {
        return Rejected(ControlCharacters);
      }
    }
    for i := 0 to |enabled|
      invariant forall k :: 0 <= k < i ==> CanaryArgsOk(enabled[k])
    {
      if !CanaryArgsOk(enabled[i]) {
        return Rejected(BadCanaryArgs);
      }
    }
    return Accepted(enabled);
  }

  method NamesAreUnique(jobs: seq<Job>) returns (unique: bool)
    ensures unique <==> Unique(jobs)
  {
    var seen: set<string> := {};
    for i := 0 to |jobs|
      invariant forall n :: n in seen <==> exists k :: 0 <= k < i && jobs[k].name == n
      invariant Unique(jobs[..i])
    {
      if jobs[i].name in seen {
        return false;
      }
      seen := seen + {jobs[i].name};
    }
    assert jobs[..|jobs|] == jobs;
    return true;
  }

  lemma OneMoreWorker(rows: seq<JobRow>, i: nat)
    requires i < |rows| && UniqueWorkers(rows[..i])
    ensures UniqueWorkers(rows[..i + 1]) <==>
            EffectiveName(rows[i]).None? || forall k :: 0 <= k < i ==> EffectiveName(rows[k]) != EffectiveName(rows[i])
  {
    var longer := rows[..i + 1];
    assert forall k :: 0 <= k < i ==> longer[k] == rows[k] == rows[..i][k];
    assert longer[i] == rows[i];
  }

  method WorkersAreUnique(rows: seq<JobRow>) returns (unique: bool)
    ensures unique <==> UniqueWorkers(rows)
  {
    var owned: set<string> := {};
    for i := 0 to |rows|
      invariant forall n :: n in owned <==> exists k :: 0 <= k < i && EffectiveName(rows[k]) == Some(n)
      invariant UniqueWorkers(rows[..i])
    {
      var name := EffectiveName(rows[i]);
      OneMoreWorker(rows, i);
      if name.Some? {
        if name.value in owned {
          return false;
        }
        owned := owned + {name.value};
      }
    }
    assert rows[..|rows|] == rows;
    return true;
  }

  /** Oldest deadline first; the first of equal deadlines keeps config order. */
  method SelectOldestDueJob(jobs: seq<Job>, seen: State, now: int) returns (pick: Option<nat>)
    ensures pick == OldestDue(jobs, seen, now, |jobs|)
  {
    pick := None;
    for i := 0 to |jobs|
      invariant pick == OldestDue(jobs, seen, now, i)
      invariant pick.Some? ==> pick.value < |jobs|
    {
      if !jobs[i].collector && now >= NextRun(seen, jobs[i].name) && jobs[i].name !in seen.active {
        if pick.None? || NextRun(seen, jobs[i].name) < NextRun(seen, jobs[pick.value].name) {
          pick := Some(i);
        }
      }
    }
  }

  class Runner {
    const jobs: seq<Job>
    const lim: Limits
    var runCount: nat
    var nextRun: map<string, int>
    var active: map<string, bool>
    var futures: set<nat>
    var maintenance: Option<nat>
    var dispatched: seq<Flight>
    var finalized: seq<nat>
    var over: bool

    function View(): State
      reads this
    {
      State(runCount, nextRun, active, futures, maintenance, dispatched, finalized, over)
    }

    constructor (jobs: seq<Job>, lim: Limits, now: int)
      ensures this.jobs == jobs && this.lim == lim && View() == Initial(jobs, now)
    {
      this.jobs, this.lim := jobs, lim;
      runCount, nextRun, active := 0, map i | 0 <= i < |jobs| :: jobs[i].name := now, map[];
      futures, maintenance, dispatched, finalized, over := {}, None, [], [], false;
    }

    method FinalizeRun(d: Done)
      modifies this
      ensures View() == Finalized(jobs, old(View()), d)
    {
      var name := NameOf(jobs, dispatched, d.id);
      active := active - {name};
      runCount := runCount + 1;
      nextRun := nextRun[name := d.finished + IntervalOf(jobs, dispatched, d.id)];
      finalized := finalized + [d.id];
    }

    /** Every finished collector is finalized in turn; a failure ends the loop when errors are to stop the run. */
    method ReapFinished(done: seq<Done>)
      modifies this
      ensures View() == ReapCollectors(jobs, lim, old(View()), done)
    {
      ghost var before := View();
      for i := 0 to |done|
        invariant ReapCollectors(jobs, lim, View(), done[i..]) == ReapCollectors(jobs, lim, before, done)
      {
        assert done[i..][1..] == done[i + 1..];
        if done[i].id in futures {
          futures := futures - {done[i].id};
          FinalizeRun(done[i]);
          if !done[i].ok && lim.stopOnError {
            over := true;
            return;
          }
        }
      }
    }

    method ReapMaintenanceJob(done: seq<Done>)
      modifies this
      ensures View() == ReapMaintenance(jobs, lim, old(View()), done)
    {
      ghost var before := View();
      for i := 0 to |done|
        invariant ReapMaintenance(jobs, lim, View(), done[i..]) == ReapMaintenance(jobs, lim, before, done)
      {
        assert done[i..][1..] == done[i + 1..];
        if maintenance == Some(done[i].id) {
          maintenance := None;
          FinalizeRun(done[i]);
          if !done[i].ok && lim.stopOnError {
            over := true;
          }
          return;
        }
      }
    }

    method Launch(i: nat, started: int)
      requires i < |jobs|
      modifies this
      ensures View() == Launched(jobs, old(View()), i, started)
    {
      active := active[jobs[i].name := jobs[i].collector];
      if jobs[i].collector {
        futures := futures + {|dispatched|};
      } else {
        maintenance := Some(|dispatched|);
      }
      dispatched := dispatched + [Flight(i, started)];
    }

    method DispatchDueCollectors(seen: State, e: Tick)
      requires seen == View()
      modifies this
      ensures View() == DispatchCollectors(jobs, lim, seen, seen, e, 0, ActiveCollectors(seen), Started(seen))
    {
      var busy: nat, started: nat := ActiveCollectors(seen), Started(seen);
      ghost var all := DispatchCollectors(jobs, lim, seen, seen, e, 0, busy, started);
      for i := 0 to |jobs|
        invariant DispatchCollectors(jobs, lim, seen, View(), e, i, busy, started) == all
      {
        if jobs[i].collector && e.now >= NextRun(seen, jobs[i].name) && jobs[i].name !in seen.active {
          if busy >= lim.concurrency || (lim.maxRuns.Some? && started >= lim.maxRuns.value) {
            return;
          }
          Launch(i, e.started);
          busy, started := busy + 1, started + 1;
        }
      }
    }

    method Turn(e: Tick)
      requires !over
      modifies this
      ensures View() == TickStep(jobs, lim, old(View()), e)
    {
      if lim.maxRuns.Some? && runCount >= lim.maxRuns.value {
        over := true;
        return;
      }
      ReapFinished(e.done);
      ReapMaintenanceJob(e.done);
      if over || (lim.maxRuns.Some? && runCount >= lim.maxRuns.value) {
        over := true;
        return;
      }
      var seen := View();
      DispatchDueCollectors(seen, e);
      if maintenance.None? && !Reached(lim.maxRuns, Started(View())) {
        var pick := SelectOldestDueJob(jobs, seen, e.now);
        if pick.Some? && pick.value < |jobs| {
          Launch(pick.value, e.started);
        }
      }
    }

    /** Turns until a limit or an error ends the loop, then the drain. */
    method Run(ticks: seq<Tick>, done: seq<Done>)
      requires !over
      modifies this
      ensures View() == Drained(jobs, Ticks(jobs, lim, old(View()), ticks), done)
    {
      ghost var before := View();
      var i := 0;
      while i < |ticks| && !over
        invariant 0 <= i <= |ticks| && View() == Ticks(jobs, lim, before, ticks[..i])
      {
        assert ticks[..i + 1][..i] == ticks[..i];
        Turn(ticks[i]);
        i := i + 1;
      }
      NothingAfterTheEnd(before, ticks, i);
      if maintenance.Some? {
        futures := futures + {maintenance.value};
        maintenance := None;
      }
      assert View() == Merged(Ticks(jobs, lim, before, ticks));
      Reap(done);
    }

    method Reap(done: seq<Done>)
      modifies this
      ensures View() == ReapCollectors(jobs, Limits(0, None, false), old(View()), done)
    {
      ghost var before := View();
      for i := 0 to |done|
        invariant ReapCollectors(jobs, Limits(0, None, false), View(), done[i..])
               == ReapCollectors(jobs, Limits(0, None, false), before, done)
      {
        assert done[i..][1..] == done[i + 1..];
        if done[i].id in futures {
          futures := futures - {done[i].id};
          FinalizeRun(done[i]);
        }
      }
    }

    lemma {:induction false} NothingAfterTheEnd(s: State, ticks: seq<Tick>, k: nat)
      requires k <= |ticks| && (k == |ticks| || Ticks(jobs, lim, s, ticks[..k]).over)
      ensures Ticks(jobs, lim, s, ticks) == Ticks(jobs, lim, s, ticks[..k])
    {
      if k == |ticks| {
        assert ticks[..k] == ticks;
      } else {
        var n := |ticks| - 1;
        assert ticks[..n][..k] == ticks[..k];
        NothingAfterTheEnd(s, ticks[..n], k);
      }
    }
  }
}
