/**
 Bounded overtaking for the single maintenance slot. Once an idle maintenance job is due, every other maintenance job
 is dispatched at most once before it, whatever the jobs' durations: a job that has run is due again only later than
 the waiting one was.
 */
module SchedulerFairness {
  import opened Options
  import opened Scheduler

  predicate Maintenance(jobs: seq<Job>, k: nat) {
    k < |jobs| && !jobs[k].collector
  }

  function MaintenanceJobs(jobs: seq<Job>): set<nat> {
    set k: nat | k < |jobs| && !jobs[k].collector
  }

  /** The maintenance jobs of a dispatch log, in order. */
  function MaintenanceRuns(jobs: seq<Job>, log: seq<Flight>): seq<nat> {
    if log == [] then []
    else
      var f := log[|log| - 1];
      MaintenanceRuns(jobs, log[..|log| - 1]) + if Maintenance(jobs, f.job) then [f.job] else []
  }

  lemma RunsOfLaunch(jobs: seq<Job>, log: seq<Flight>, f: Flight)
    ensures MaintenanceRuns(jobs, log + [f]) == MaintenanceRuns(jobs, log) + if Maintenance(jobs, f.job) then [f.job] else []
  {
    assert (log + [f])[..|log|] == log;
  }

  // ---- what a tick does to maintenance jobs ----

  /** Nothing a collector does touches a maintenance job's schedule, slot or dispatches. */
  ghost predicate SameMaintenance(jobs: seq<Job>, s: State, t: State) {
    && t.maintenance == s.maintenance && MaintenanceRuns(jobs, t.dispatched) == MaintenanceRuns(jobs, s.dispatched)
    && |s.dispatched| <= |t.dispatched| && t.dispatched[..|s.dispatched|] == s.dispatched
    && forall k: nat :: Maintenance(jobs, k) ==>
         NextRun(t, jobs[k].name) == NextRun(s, jobs[k].name) && (jobs[k].name in t.active <==> jobs[k].name in s.active)
  }

  lemma CollectorReapIsSame(jobs: seq<Job>, lim: Limits, s: State, d: Done, over: bool)
    requires Unique(jobs) && Inv(jobs, lim, s) && d.id in s.futures
    ensures SameMaintenance(jobs, s, Finalized(jobs, Landed(s, d.id), d).(over := over))
  {
    assert InFlight(s, d.id) && CollectorOf(jobs, s.dispatched, d.id);
    var name := NameOf(jobs, s.dispatched, d.id);
    forall k: nat | Maintenance(jobs, k) ensures jobs[k].name != name {
      assert k != s.dispatched[d.id].job;
    }
  }

  lemma SameIsTransitive(jobs: seq<Job>, a: State, b: State, c: State)
    requires SameMaintenance(jobs, a, b) && SameMaintenance(jobs, b, c)
    ensures SameMaintenance(jobs, a, c)
  {
    assert c.dispatched[..|a.dispatched|] == c.dispatched[..|b.dispatched|][..|a.dispatched|];
  }

  lemma {:induction false} CollectorReapsAreSame(jobs: seq<Job>, lim: Limits, s: State, done: seq<Done>)
    requires Unique(jobs) && Inv(jobs, lim, s)
    ensures SameMaintenance(jobs, s, ReapCollectors(jobs, lim, s, done))
    decreases |done|
  {
    if done == [] {
      assert s.dispatched[..|s.dispatched|] == s.dispatched;
    } else if done[0].id in s.futures {
      var t := Finalized(jobs, Landed(s, done[0].id), done[0]);
      CollectorReapIsSame(jobs, lim, s, done[0], true);
      CollectorReapIsSame(jobs, lim, s, done[0], t.over);
      FinalizingKeeps(jobs, lim, s, done[0]);
      CollectorReapsAreSame(jobs, lim, t, done[1..]);
      SameIsTransitive(jobs, s, t, ReapCollectors(jobs, lim, t, done[1..]));
    } else {
      CollectorReapsAreSame(jobs, lim, s, done[1..]);
    }
  }

  lemma CollectorLaunchIsSame(jobs: seq<Job>, s: State, i: nat, started: int)
    requires Unique(jobs) && i < |jobs| && jobs[i].collector
    ensures SameMaintenance(jobs, s, Launched(jobs, s, i, started))
  {
    RunsOfLaunch(jobs, s.dispatched, Flight(i, started));
    forall k: nat | Maintenance(jobs, k) ensures jobs[k].name != jobs[i].name {
    }
  }

  lemma {:induction false} CollectorDispatchesAreSame(jobs: seq<Job>, lim: Limits, seen: State, s: State, e: Tick, i: nat, busy: nat,
                                                      started: nat)
    requires Unique(jobs)
    ensures SameMaintenance(jobs, s, DispatchCollectors(jobs, lim, seen, s, e, i, busy, started))
    decreases |jobs| - i
  {
    assert s.dispatched[..|s.dispatched|] == s.dispatched;
    if i >= |jobs| {
    } else if !(jobs[i].collector && Due(jobs, seen, i, e.now)) {
      CollectorDispatchesAreSame(jobs, lim, seen, s, e, i + 1, busy, started);
    } else if !(busy >= lim.concurrency || Reached(lim.maxRuns, started)) {
      var t := Launched(jobs, s, i, e.started);
      CollectorLaunchIsSame(jobs, s, i, e.started);
      CollectorDispatchesAreSame(jobs, lim, seen, t, e, i + 1, busy + 1, started + 1);
      SameIsTransitive(jobs, s, t, DispatchCollectors(jobs, lim, seen, t, e, i + 1, busy + 1, started + 1));
    }
  }

  // ---- waiting ----

  /** The maintenance result is stamped no earlier than its dispatch. */
  ghost predicate Timely(s: State, done: seq<Done>) {
    forall k :: 0 <= k < |done| && s.maintenance == Some(done[k].id) && done[k].id < |s.dispatched| ==>
      s.dispatched[done[k].id].started <= done[k].finished
  }

  /** `j` waits since it was due; `since` are the maintenance jobs dispatched meanwhile, each behind it by now. */
  ghost predicate Waiting(jobs: seq<Job>, s: State, j: nat, due: int, since: seq<nat>) {
    && Maintenance(jobs, j) && jobs[j].name !in s.active && NextRun(s, jobs[j].name) == due
    && (forall a, b :: 0 <= a < b < |since| ==> since[a] != since[b])
    && (forall a :: 0 <= a < |since| ==> Maintenance(jobs, since[a]) && since[a] != j && Behind(jobs, s, since[a], due))
  }

  /** Dispatched after `due` and still running, or due again only later. */
  ghost predicate Behind(jobs: seq<Job>, s: State, k: nat, due: int)
    requires Maintenance(jobs, k)
  {
    || (s.maintenance.Some? && s.maintenance.value < |s.dispatched| && s.dispatched[s.maintenance.value].job == k
        && s.dispatched[s.maintenance.value].started >= due)
    || ((s.maintenance.Some? ==> s.maintenance.value < |s.dispatched| && s.dispatched[s.maintenance.value].job != k)
        && NextRun(s, jobs[k].name) > due)
  }

  lemma SameKeepsWaiting(jobs: seq<Job>, s: State, t: State, j: nat, due: int, since: seq<nat>)
    requires Waiting(jobs, s, j, due, since) && SameMaintenance(jobs, s, t)
    requires s.maintenance.Some? ==> s.maintenance.value < |s.dispatched|
    ensures Waiting(jobs, t, j, due, since)
  {
    if s.maintenance.Some? {
      assert t.dispatched[..|s.dispatched|][s.maintenance.value] == t.dispatched[s.maintenance.value];
    }
  }

  ghost predicate PositiveIntervals(jobs: seq<Job>) {
    forall k :: 0 <= k < |jobs| ==> 0 < jobs[k].interval
  }

  lemma MaintenanceLandsBehind(jobs: seq<Job>, lim: Limits, s: State, d: Done, over: bool, j: nat, due: int, since: seq<nat>)
    requires Unique(jobs) && Inv(jobs, lim, s) && PositiveIntervals(jobs) && Waiting(jobs, s, j, due, since)
    requires s.maintenance == Some(d.id) && Timely(s, [d])
    ensures var t := Finalized(jobs, s.(maintenance := None), d).(over := over);
            Waiting(jobs, t, j, due, since) && t.dispatched == s.dispatched
  {
    var t := Finalized(jobs, s.(maintenance := None), d).(over := over);
    assert InFlight(s, d.id);
    var f := s.dispatched[d.id];
    assert [d][0] == d;
    assert jobs[j].name != jobs[f.job].name;
    forall a | 0 <= a < |since| ensures Behind(jobs, t, since[a], due) {
      assert Behind(jobs, s, since[a], due);
      assert since[a] == f.job || jobs[since[a]].name != jobs[f.job].name;
    }
  }

  lemma {:induction false} MaintenanceReapKeepsWaiting(jobs: seq<Job>, lim: Limits, s: State, done: seq<Done>, j: nat, due: int,
                                                       since: seq<nat>)
    requires Unique(jobs) && Inv(jobs, lim, s) && PositiveIntervals(jobs) && Waiting(jobs, s, j, due, since) && Timely(s, done)
    ensures var t := ReapMaintenance(jobs, lim, s, done);
            Waiting(jobs, t, j, due, since) && t.dispatched == s.dispatched
    decreases |done|
  {
    if done != [] && s.maintenance.Some? {
      if done[0].id == s.maintenance.value {
        assert Timely(s, [done[0]]);
        MaintenanceLandsBehind(jobs, lim, s, done[0], true, j, due, since);
        MaintenanceLandsBehind(jobs, lim, s, done[0], s.over, j, due, since);
      } else {
        assert Timely(s, done[1..]);
        MaintenanceReapKeepsWaiting(jobs, lim, s, done[1..], j, due, since);
      }
    }
  }

  /** The oldest due job goes first: either the waiting one, or one that has not overtaken it yet. */
  lemma DispatchOvertakesOnce(jobs: seq<Job>, lim: Limits, seen: State, s: State, e: Tick, j: nat, due: int, since: seq<nat>)
    requires Unique(jobs) && Waiting(jobs, seen, j, due, since) && SameMaintenance(jobs, seen, s)
    requires (seen.maintenance.Some? ==> seen.maintenance.value < |seen.dispatched|) && due <= e.now <= e.started
    ensures var t := DispatchMaintenance(jobs, lim, seen, s, e);
            || (MaintenanceRuns(jobs, t.dispatched) == MaintenanceRuns(jobs, s.dispatched) && Waiting(jobs, t, j, due, since))
            || exists p: nat :: MaintenanceRuns(jobs, t.dispatched) == MaintenanceRuns(jobs, s.dispatched) + [p]
                                && (p == j || Waiting(jobs, t, j, due, since + [p]))
  {
    SameKeepsWaiting(jobs, seen, s, j, due, since);
    var t := DispatchMaintenance(jobs, lim, seen, s, e);
    OldestDueIsDue(jobs, seen, e.now, |jobs|);
    var pick := OldestDue(jobs, seen, e.now, |jobs|);
    if pick.Some? && s.maintenance.None? && !Reached(lim.maxRuns, Started(s)) {
      var p := pick.value;
      RunsOfLaunch(jobs, s.dispatched, Flight(p, e.started));
      if p != j {
        LaunchIsBehind(jobs, s, j, due, since, p, e.started);
      }
      assert MaintenanceRuns(jobs, t.dispatched) == MaintenanceRuns(jobs, s.dispatched) + [p];
    }
  }

  lemma LaunchIsBehind(jobs: seq<Job>, s: State, j: nat, due: int, since: seq<nat>, p: nat, started: int)
    requires Unique(jobs) && Waiting(jobs, s, j, due, since) && Maintenance(jobs, p) && p != j && s.maintenance.None?
    requires NextRun(s, jobs[p].name) <= due <= started
    ensures Waiting(jobs, Launched(jobs, s, p, started), j, due, since + [p])
  {
    var t := Launched(jobs, s, p, started);
    assert jobs[j].name != jobs[p].name;
    forall a | 0 <= a < |since| ensures since[a] != p && Behind(jobs, t, since[a], due) {
      assert Behind(jobs, s, since[a], due);
    }
  }

  lemma ReapingKeepsWaiting(jobs: seq<Job>, lim: Limits, s: State, e: Tick, j: nat, due: int, since: seq<nat>)
    requires Unique(jobs) && Inv(jobs, lim, s) && PositiveIntervals(jobs) && Waiting(jobs, s, j, due, since)
    requires Timely(s, e.done)
    ensures var r := Reaped(jobs, lim, s, e);
            && Waiting(jobs, r, j, due, since) && Inv(jobs, lim, r)
            && MaintenanceRuns(jobs, r.dispatched) == MaintenanceRuns(jobs, s.dispatched)
  {
    var c := ReapCollectors(jobs, lim, s, e.done);
    CollectorReapsAreSame(jobs, lim, s, e.done);
    ReapingCollectorsKeeps(jobs, lim, lim, s, e.done);
    assert s.maintenance.Some? ==> InFlight(s, s.maintenance.value);
    SameKeepsWaiting(jobs, s, c, j, due, since);
    assert Timely(c, e.done) by {
      forall k | 0 <= k < |e.done| && c.maintenance == Some(e.done[k].id) && e.done[k].id < |c.dispatched|
        ensures c.dispatched[e.done[k].id].started <= e.done[k].finished {
        assert c.dispatched[..|s.dispatched|][e.done[k].id] == s.dispatched[e.done[k].id];
      }
    }
    MaintenanceReapKeepsWaiting(jobs, lim, c, e.done, j, due, since);
    ReapingMaintenanceKeeps(jobs, lim, c, e.done);
  }

  lemma TickOvertakesOnce(jobs: seq<Job>, lim: Limits, s: State, e: Tick, j: nat, due: int, since: seq<nat>)
    requires Unique(jobs) && Inv(jobs, lim, s) && PositiveIntervals(jobs) && Waiting(jobs, s, j, due, since)
    requires Timely(s, e.done) && due <= e.now <= e.started
    ensures var t := TickStep(jobs, lim, s, e);
            || (MaintenanceRuns(jobs, t.dispatched) == MaintenanceRuns(jobs, s.dispatched) && Waiting(jobs, t, j, due, since))
            || exists p: nat :: MaintenanceRuns(jobs, t.dispatched) == MaintenanceRuns(jobs, s.dispatched) + [p]
                                && (p == j || Waiting(jobs, t, j, due, since + [p]))
  {
    if !s.over && !Reached(lim.maxRuns, s.runCount) {
      ReapingKeepsWaiting(jobs, lim, s, e, j, due, since);
      var r := Reaped(jobs, lim, s, e);
      if !r.over && !Reached(lim.maxRuns, r.runCount) {
        CollectorDispatchesAreSame(jobs, lim, r, r, e, 0, ActiveCollectors(r), Started(r));
        assert r.maintenance.Some? ==> InFlight(r, r.maintenance.value);
        DispatchOvertakesOnce(jobs, lim, r, DispatchCollectors(jobs, lim, r, r, e, 0, ActiveCollectors(r), Started(r)), e,
                              j, due, since);
      }
    }
  }

  // ---- whole runs ----

  /** Ticks after `due` on one nondecreasing clock. */
  ghost predicate TicksAfter(jobs: seq<Job>, lim: Limits, s: State, es: seq<Tick>, due: int) {
    forall i :: 0 <= i < |es| ==>
      due <= es[i].now <= es[i].started && Timely(Ticks(jobs, lim, s, es[..i]), es[i].done)
  }

  lemma {:induction false} TicksKeep(jobs: seq<Job>, lim: Limits, s: State, es: seq<Tick>)
    requires Unique(jobs) && Inv(jobs, lim, s)
    ensures Inv(jobs, lim, Ticks(jobs, lim, s, es))
  {
    if es != [] {
      TicksKeep(jobs, lim, s, es[..|es| - 1]);
      TickKeeps(jobs, lim, Ticks(jobs, lim, s, es[..|es| - 1]), es[|es| - 1]);
    }
  }

  /** Either `j` has had its turn, or everything dispatched since is behind it and nothing went twice. */
  ghost predicate TurnOrWaiting(jobs: seq<Job>, s: State, t: State, j: nat, due: int) {
    exists since: seq<nat> ::
      MaintenanceRuns(jobs, t.dispatched) == MaintenanceRuns(jobs, s.dispatched) + since
      && (j in since || Waiting(jobs, t, j, due, since))
  }

  lemma TicksAfterPrefix(jobs: seq<Job>, lim: Limits, s: State, es: seq<Tick>, due: int)
    requires es != [] && TicksAfter(jobs, lim, s, es, due)
    ensures TicksAfter(jobs, lim, s, es[..|es| - 1], due)
  {
    var n := |es| - 1;
    forall i | 0 <= i < n
      ensures due <= es[..n][i].now <= es[..n][i].started && Timely(Ticks(jobs, lim, s, es[..n][..i]), es[..n][i].done) {
      assert es[..n][..i] == es[..i];
    }
  }

  lemma {:induction false} WaitingUntilItsTurn(jobs: seq<Job>, lim: Limits, s: State, es: seq<Tick>, j: nat, due: int)
    requires Unique(jobs) && Inv(jobs, lim, s) && PositiveIntervals(jobs) && Waiting(jobs, s, j, due, [])
    requires TicksAfter(jobs, lim, s, es, due)
    ensures TurnOrWaiting(jobs, s, Ticks(jobs, lim, s, es), j, due)
  {
    if es == [] {
      NoTickYet(jobs, s, j, due);
    } else {
      var n := |es| - 1;
      TicksAfterPrefix(jobs, lim, s, es, due);
      WaitingUntilItsTurn(jobs, lim, s, es[..n], j, due);
      TicksKeep(jobs, lim, s, es[..n]);
      OneMoreTick(jobs, lim, s, Ticks(jobs, lim, s, es[..n]), es[n], j, due);
    }
  }

  lemma NoTickYet(jobs: seq<Job>, s: State, j: nat, due: int)
    requires Waiting(jobs, s, j, due, [])
    ensures TurnOrWaiting(jobs, s, s, j, due)
  {
    var runs := MaintenanceRuns(jobs, s.dispatched);
    assert runs == runs + [];
  }

  lemma OneMoreTick(jobs: seq<Job>, lim: Limits, s: State, t: State, e: Tick, j: nat, due: int)
    requires Unique(jobs) && Inv(jobs, lim, t) && PositiveIntervals(jobs) && TurnOrWaiting(jobs, s, t, j, due)
    requires Timely(t, e.done) && due <= e.now <= e.started
    ensures TurnOrWaiting(jobs, s, TickStep(jobs, lim, t, e), j, due)
  {
    var runs := MaintenanceRuns(jobs, s.dispatched);
    var since: seq<nat> :| MaintenanceRuns(jobs, t.dispatched) == runs + since && (j in since || Waiting(jobs, t, j, due, since));
    if j in since {
      TickOnlyAdds(jobs, lim, t, e);
      TurnIsNotLost(jobs, s, t, TickStep(jobs, lim, t, e), j, due, since);
    } else {
      WaitingTick(jobs, lim, s, t, e, j, due, since);
    }
  }

  lemma TurnIsNotLost(jobs: seq<Job>, s: State, t: State, u: State, j: nat, due: int, since: seq<nat>)
    requires MaintenanceRuns(jobs, t.dispatched) == MaintenanceRuns(jobs, s.dispatched) + since && j in since
    requires exists more: seq<nat> :: MaintenanceRuns(jobs, u.dispatched) == MaintenanceRuns(jobs, t.dispatched) + more
    ensures TurnOrWaiting(jobs, s, u, j, due)
  {
    var more: seq<nat> :| MaintenanceRuns(jobs, u.dispatched) == MaintenanceRuns(jobs, t.dispatched) + more;
    assert MaintenanceRuns(jobs, u.dispatched) == MaintenanceRuns(jobs, s.dispatched) + (since + more);
    assert j in since + more;
  }

  lemma WaitingTick(jobs: seq<Job>, lim: Limits, s: State, t: State, e: Tick, j: nat, due: int, since: seq<nat>)
    requires Unique(jobs) && Inv(jobs, lim, t) && PositiveIntervals(jobs) && Waiting(jobs, t, j, due, since)
    requires MaintenanceRuns(jobs, t.dispatched) == MaintenanceRuns(jobs, s.dispatched) + since
    requires Timely(t, e.done) && due <= e.now <= e.started
    ensures TurnOrWaiting(jobs, s, TickStep(jobs, lim, t, e), j, due)
  {
    var runs := MaintenanceRuns(jobs, s.dispatched);
    var u := TickStep(jobs, lim, t, e);
    TickOvertakesOnce(jobs, lim, t, e, j, due, since);
    if !(MaintenanceRuns(jobs, u.dispatched) == runs + since && Waiting(jobs, u, j, due, since)) {
      var p: nat :| MaintenanceRuns(jobs, u.dispatched) == MaintenanceRuns(jobs, t.dispatched) + [p]
                    && (p == j || Waiting(jobs, u, j, due, since + [p]));
      assert MaintenanceRuns(jobs, u.dispatched) == runs + (since + [p]);
    }
  }

  lemma TickOnlyAdds(jobs: seq<Job>, lim: Limits, s: State, e: Tick)
    requires Unique(jobs) && Inv(jobs, lim, s)
    ensures exists more: seq<nat> ::
              MaintenanceRuns(jobs, TickStep(jobs, lim, s, e).dispatched) == MaintenanceRuns(jobs, s.dispatched) + more
  {
    var runs := MaintenanceRuns(jobs, s.dispatched);
    assert runs == runs + [];
    if !s.over && !Reached(lim.maxRuns, s.runCount) {
      CollectorReapsAreSame(jobs, lim, s, e.done);
      var c := ReapCollectors(jobs, lim, s, e.done);
      FailedMaintenanceStops(jobs, lim, c, e.done);
      var r := ReapMaintenance(jobs, lim, c, e.done);
      if !r.over && !Reached(lim.maxRuns, r.runCount) {
        var d := DispatchCollectors(jobs, lim, r, r, e, 0, ActiveCollectors(r), Started(r));
        CollectorDispatchesAreSame(jobs, lim, r, r, e, 0, ActiveCollectors(r), Started(r));
        var pick := OldestDue(jobs, r, e.now, |jobs|);
        OldestDueIsDue(jobs, r, e.now, |jobs|);
        if pick.Some? {
          RunsOfLaunch(jobs, d.dispatched, Flight(pick.value, e.started));
        }
      }
    }
  }

  lemma {:induction false} DistinctFit(xs: seq<nat>, room: set<nat>)
    requires forall a, b :: 0 <= a < b < |xs| ==> xs[a] != xs[b]
    requires forall a :: 0 <= a < |xs| ==> xs[a] in room
    ensures |xs| <= |room|
  {
    if xs != [] {
      DistinctFit(xs[..|xs| - 1], room - {xs[|xs| - 1]});
    }
  }

  /**
   From any reachable state in which maintenance job `j` is idle and due: as long as it has not been dispatched, fewer
   maintenance dispatches have happened than there are maintenance jobs, and none of them twice.
   */
  lemma BoundedOvertaking(jobs: seq<Job>, lim: Limits, s: State, es: seq<Tick>, j: nat, overtakers: seq<nat>)
    requires Unique(jobs) && Inv(jobs, lim, s) && PositiveIntervals(jobs)
    requires Maintenance(jobs, j) && jobs[j].name !in s.active
    requires TicksAfter(jobs, lim, s, es, NextRun(s, jobs[j].name))
    requires MaintenanceRuns(jobs, Ticks(jobs, lim, s, es).dispatched) == MaintenanceRuns(jobs, s.dispatched) + overtakers
    requires j !in overtakers
    ensures |overtakers| < |MaintenanceJobs(jobs)|
    ensures forall a, b :: 0 <= a < b < |overtakers| ==> overtakers[a] != overtakers[b]
  {
    var due := NextRun(s, jobs[j].name);
    WaitingUntilItsTurn(jobs, lim, s, es, j, due);
    var t := Ticks(jobs, lim, s, es);
    var runs := MaintenanceRuns(jobs, s.dispatched);
    var since: seq<nat> :| MaintenanceRuns(jobs, t.dispatched) == runs + since && (j in since || Waiting(jobs, t, j, due, since));
    SameTail(runs, since, overtakers);
    WaitingFits(jobs, t, j, due, since);
  }

  lemma SameTail(runs: seq<nat>, a: seq<nat>, b: seq<nat>)
    requires runs + a == runs + b
    ensures a == b
  {
    assert a == (runs + a)[|runs|..] && b == (runs + b)[|runs|..];
  }

  lemma WaitingFits(jobs: seq<Job>, t: State, j: nat, due: int, since: seq<nat>)
    requires Waiting(jobs, t, j, due, since)
    ensures |since| < |MaintenanceJobs(jobs)|
  {
    forall a | 0 <= a < |since| ensures since[a] in MaintenanceJobs(jobs) - {j} {
    }
    DistinctFit(since, MaintenanceJobs(jobs) - {j});
  }
}
