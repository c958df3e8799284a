/**
 That the scheduler makes progress. A turn lands every finished run and schedules it anew, fills the room there is with
 due collectors in config order, and gives a free maintenance slot to the oldest due job, so that a waiting job is
 dispatched within as many such turns as there are maintenance jobs.
 */
module SchedulerProgress {
  import opened Options
  import opened Scheduler
  import opened SchedulerFairness

  // ---- the maintenance slot ----

  predicate IdleDue(jobs: seq<Job>, s: State, k: nat, now: int) {
    k < |jobs| && !jobs[k].collector && jobs[k].name !in s.active && NextRun(s, jobs[k].name) <= now
  }

  /** Longest overdue, and first in the configuration among equals. */
  ghost predicate OldestOf(jobs: seq<Job>, s: State, p: nat, now: int) {
    && IdleDue(jobs, s, p, now)
    && forall k: nat :: IdleDue(jobs, s, k, now) ==>
         NextRun(s, jobs[p].name) < NextRun(s, jobs[k].name) || (NextRun(s, jobs[p].name) == NextRun(s, jobs[k].name) && p <= k)
  }

  function AfterCollectors(jobs: seq<Job>, lim: Limits, s: State, e: Tick): State {
    var r := Reaped(jobs, lim, s, e);
    DispatchCollectors(jobs, lim, r, r, e, 0, ActiveCollectors(r), Started(r))
  }

  /** Neither an error nor the run limit ends the loop before it dispatches. */
  predicate GoesOn(jobs: seq<Job>, lim: Limits, s: State, e: Tick) {
    var r := Reaped(jobs, lim, s, e);
    !s.over && !r.over && (lim.maxRuns.Some? ==> s.runCount < lim.maxRuns.value && r.runCount < lim.maxRuns.value)
  }

  /** The loop goes on, the slot is free once what finished has landed, and the run limit leaves one more to start. */
  predicate SlotOpen(jobs: seq<Job>, lim: Limits, s: State, e: Tick) {
    && GoesOn(jobs, lim, s, e) && Reaped(jobs, lim, s, e).maintenance.None?
    && (lim.maxRuns.Some? ==> Started(AfterCollectors(jobs, lim, s, e)) < lim.maxRuns.value)
  }

  lemma {:induction false} TurnParts(jobs: seq<Job>, lim: Limits, s: State, e: Tick)
    ensures var r, t := Reaped(jobs, lim, s, e), TickStep(jobs, lim, s, e);
            if GoesOn(jobs, lim, s, e) then t == DispatchMaintenance(jobs, lim, r, AfterCollectors(jobs, lim, s, e), e)
            else t.dispatched == s.dispatched || t.dispatched == r.dispatched
  {
  }

  /** A turn dispatches a maintenance job exactly when the slot is open and some idle one is due, and then the oldest. */
  lemma {:induction false} MaintenanceTurn(jobs: seq<Job>, lim: Limits, s: State, e: Tick) returns (p: Option<nat>)
    requires Unique(jobs) && Inv(jobs, lim, s)
    ensures p.Some? <==> SlotOpen(jobs, lim, s, e) && exists k: nat :: IdleDue(jobs, Reaped(jobs, lim, s, e), k, e.now)
    ensures MaintenanceRuns(jobs, TickStep(jobs, lim, s, e).dispatched) ==
            MaintenanceRuns(jobs, s.dispatched) + (if p.Some? then [p.value] else [])
    ensures p.Some? ==>
              var t, before := TickStep(jobs, lim, s, e), AfterCollectors(jobs, lim, s, e).dispatched;
              && OldestOf(jobs, Reaped(jobs, lim, s, e), p.value, e.now)
              && t.dispatched == before + [Flight(p.value, e.started)] && t.maintenance == Some(|before|)
              && jobs[p.value].name in t.active
  {
    var r, c := Reaped(jobs, lim, s, e), AfterCollectors(jobs, lim, s, e);
    CollectorsLeaveTheSlot(jobs, lim, s, e);
    TurnParts(jobs, lim, s, e);
    p := SlotGoesToTheOldest(jobs, lim, r, c, e);
    if !SlotOpen(jobs, lim, s, e) {
      p := None;
    }
  }

  lemma CollectorsLeaveTheSlot(jobs: seq<Job>, lim: Limits, s: State, e: Tick)
    requires Unique(jobs) && Inv(jobs, lim, s)
    ensures var r, c := Reaped(jobs, lim, s, e), AfterCollectors(jobs, lim, s, e);
            && MaintenanceRuns(jobs, r.dispatched) == MaintenanceRuns(jobs, s.dispatched)
            && MaintenanceRuns(jobs, c.dispatched) == MaintenanceRuns(jobs, s.dispatched)
            && c.maintenance == r.maintenance
  {
    var r := Reaped(jobs, lim, s, e);
    CollectorReapsAreSame(jobs, lim, s, e.done);
    FailedMaintenanceStops(jobs, lim, ReapCollectors(jobs, lim, s, e.done), e.done);
    CollectorDispatchesAreSame(jobs, lim, r, r, e, 0, ActiveCollectors(r), Started(r));
  }

  lemma SlotGoesToTheOldest(jobs: seq<Job>, lim: Limits, r: State, c: State, e: Tick) returns (p: Option<nat>)
    requires c.maintenance == r.maintenance
    ensures p.Some? <==> c.maintenance.None? && (lim.maxRuns.Some? ==> Started(c) < lim.maxRuns.value)
                         && exists k: nat :: IdleDue(jobs, r, k, e.now)
    ensures var t := DispatchMaintenance(jobs, lim, r, c, e);
            && MaintenanceRuns(jobs, t.dispatched) == MaintenanceRuns(jobs, c.dispatched) + (if p.Some? then [p.value] else [])
            && (p.Some? ==>
                  && OldestOf(jobs, r, p.value, e.now) && t.maintenance == Some(|c.dispatched|)
                  && t.dispatched == c.dispatched + [Flight(p.value, e.started)] && jobs[p.value].name in t.active)
  {
    OldestDueIsDue(jobs, r, e.now, |jobs|);
    p := OldestDue(jobs, r, e.now, |jobs|);
    if p.Some? {
      assert IdleDue(jobs, r, p.value, e.now);
      RunsOfLaunch(jobs, c.dispatched, Flight(p.value, e.started));
    } else {
      assert forall k: nat :: IdleDue(jobs, r, k, e.now) ==> Due(jobs, r, k, e.now);
    }
    if c.maintenance.Some? || Reached(lim.maxRuns, Started(c)) {
      p := None;
    }
  }

  /** The turns of a run in which the slot was open. */
  ghost function OpenTurns(jobs: seq<Job>, lim: Limits, s: State, es: seq<Tick>): nat {
    if es == [] then 0
    else
      var n := |es| - 1;
      OpenTurns(jobs, lim, s, es[..n]) + if SlotOpen(jobs, lim, Ticks(jobs, lim, s, es[..n]), es[n]) then 1 else 0
  }

  /** Either `j` has had its turn, or every open turn since went to a job that is behind it by now. */
  ghost predicate TurnsUsed(jobs: seq<Job>, s: State, t: State, j: nat, due: int, turns: nat) {
    exists since: seq<nat> ::
      MaintenanceRuns(jobs, t.dispatched) == MaintenanceRuns(jobs, s.dispatched) + since
      && (j in since || (Waiting(jobs, t, j, due, since) && turns <= |since|))
  }

  lemma {:induction false} OneMoreTurn(jobs: seq<Job>, lim: Limits, s: State, t: State, e: Tick, j: nat, due: int, turns: nat)
    requires Unique(jobs) && Inv(jobs, lim, t) && PositiveIntervals(jobs) && TurnsUsed(jobs, s, t, j, due, turns)
    requires Timely(t, e.done) && due <= e.now <= e.started
    ensures TurnsUsed(jobs, s, TickStep(jobs, lim, t, e), j, due, turns + if SlotOpen(jobs, lim, t, e) then 1 else 0)
  {
    var u := TickStep(jobs, lim, t, e);
    var since: seq<nat> :| MaintenanceRuns(jobs, t.dispatched) == MaintenanceRuns(jobs, s.dispatched) + since
                           && (j in since || (Waiting(jobs, t, j, due, since) && turns <= |since|));
    var more: seq<nat>;
    if j in since {
      TickOnlyAdds(jobs, lim, t, e);
      more :| MaintenanceRuns(jobs, u.dispatched) == MaintenanceRuns(jobs, t.dispatched) + more;
    } else {
      more := WaitingTurn(jobs, lim, t, e, j, due, since);
    }
    TurnsFollow(jobs, s, t, u, j, due, turns + if SlotOpen(jobs, lim, t, e) then 1 else 0, since, more);
  }

  lemma {:induction false} TurnsFollow(jobs: seq<Job>, s: State, t: State, u: State, j: nat, due: int, turns: nat, since: seq<nat>,
                                       more: seq<nat>)
    requires MaintenanceRuns(jobs, t.dispatched) == MaintenanceRuns(jobs, s.dispatched) + since
    requires MaintenanceRuns(jobs, u.dispatched) == MaintenanceRuns(jobs, t.dispatched) + more
    requires j in since || j in since + more || (Waiting(jobs, u, j, due, since + more) && turns <= |since| + |more|)
    ensures TurnsUsed(jobs, s, u, j, due, turns)
  {
    var all := since + more;
    assert MaintenanceRuns(jobs, u.dispatched) == MaintenanceRuns(jobs, s.dispatched) + all;
    assert j in since ==> j in all;
  }

  /** An open turn is not lost while `j` waits: it is `j`'s, or goes to one more job that is behind it then. */
  lemma {:induction false} WaitingTurn(jobs: seq<Job>, lim: Limits, t: State, e: Tick, j: nat, due: int, since: seq<nat>)
    returns (more: seq<nat>)
    requires Unique(jobs) && Inv(jobs, lim, t) && PositiveIntervals(jobs) && Waiting(jobs, t, j, due, since)
    requires Timely(t, e.done) && due <= e.now <= e.started
    ensures var u := TickStep(jobs, lim, t, e);
            && MaintenanceRuns(jobs, u.dispatched) == MaintenanceRuns(jobs, t.dispatched) + more
            && (j in since + more || Waiting(jobs, u, j, due, since + more))
            && |more| == if SlotOpen(jobs, lim, t, e) then 1 else 0
  {
    var p := MaintenanceTurn(jobs, lim, t, e);
    more := if p.Some? then [p.value] else [];
    ReapingKeepsWaiting(jobs, lim, t, e, j, due, since);
    assert IdleDue(jobs, Reaped(jobs, lim, t, e), j, e.now);
    StillWaiting(jobs, lim, t, e, j, due, since, p);
    if p == Some(j) {
      assert (since + more)[|since|] == j;
    }
  }

  lemma StillWaiting(jobs: seq<Job>, lim: Limits, t: State, e: Tick, j: nat, due: int, since: seq<nat>, p: Option<nat>)
    requires Unique(jobs) && Inv(jobs, lim, t) && PositiveIntervals(jobs) && Waiting(jobs, t, j, due, since)
    requires Timely(t, e.done) && due <= e.now <= e.started
    requires MaintenanceRuns(jobs, TickStep(jobs, lim, t, e).dispatched) ==
             MaintenanceRuns(jobs, t.dispatched) + (if p.Some? then [p.value] else [])
    ensures p == Some(j) || Waiting(jobs, TickStep(jobs, lim, t, e), j, due, since + if p.Some? then [p.value] else [])
  {
    var runs, u := MaintenanceRuns(jobs, t.dispatched), TickStep(jobs, lim, t, e);
    TickOvertakesOnce(jobs, lim, t, e, j, due, since);
    assert since + [] == since;
    if MaintenanceRuns(jobs, u.dispatched) == runs && Waiting(jobs, u, j, due, since) {
      assert p.None?;
    } else {
      var q: nat :| MaintenanceRuns(jobs, u.dispatched) == runs + [q] && (q == j || Waiting(jobs, u, j, due, since + [q]));
      assert (runs + [q])[|runs|] == q;
    }
  }

  lemma {:induction false} TurnsAreUsed(jobs: seq<Job>, lim: Limits, s: State, es: seq<Tick>, j: nat, due: int)
    requires Unique(jobs) && Inv(jobs, lim, s) && PositiveIntervals(jobs) && Waiting(jobs, s, j, due, [])
    requires TicksAfter(jobs, lim, s, es, due)
    ensures TurnsUsed(jobs, s, Ticks(jobs, lim, s, es), j, due, OpenTurns(jobs, lim, s, es))
  {
    if es == [] {
      var runs := MaintenanceRuns(jobs, s.dispatched);
      assert runs == runs + [];
    } else {
      var n := |es| - 1;
      TicksAfterPrefix(jobs, lim, s, es, due);
      TurnsAreUsed(jobs, lim, s, es[..n], j, due);
      TicksKeep(jobs, lim, s, es[..n]);
      assert es[..n] == es[..n] && Timely(Ticks(jobs, lim, s, es[..n]), es[n].done);
      OneMoreTurn(jobs, lim, s, Ticks(jobs, lim, s, es[..n]), es[n], j, due, OpenTurns(jobs, lim, s, es[..n]));
    }
  }

  /** An idle due maintenance job is dispatched within as many open turns as there are maintenance jobs. */
  lemma WaitingJobIsDispatched(jobs: seq<Job>, lim: Limits, s: State, es: seq<Tick>, j: nat) returns (since: seq<nat>)
    requires Unique(jobs) && Inv(jobs, lim, s) && PositiveIntervals(jobs)
    requires Maintenance(jobs, j) && jobs[j].name !in s.active
    requires TicksAfter(jobs, lim, s, es, NextRun(s, jobs[j].name))
    requires |MaintenanceJobs(jobs)| <= OpenTurns(jobs, lim, s, es)
    ensures MaintenanceRuns(jobs, Ticks(jobs, lim, s, es).dispatched) == MaintenanceRuns(jobs, s.dispatched) + since && j in since
  {
    var t, due := Ticks(jobs, lim, s, es), NextRun(s, jobs[j].name);
    TurnsAreUsed(jobs, lim, s, es, j, due);
    since :| MaintenanceRuns(jobs, t.dispatched) == MaintenanceRuns(jobs, s.dispatched) + since
             && (j in since || (Waiting(jobs, t, j, due, since) && OpenTurns(jobs, lim, s, es) <= |since|));
    if j !in since {
      WaitingFits(jobs, t, j, due, since);
    }
  }

  // ---- collectors ----

  /** The idle due collectors from job `i` on, in config order. */
  function DueList(jobs: seq<Job>, s: State, now: int, i: nat): seq<nat>
    decreases |jobs| - i
  {
    if i >= |jobs| then []
    else
      var rest := DueList(jobs, s, now, i + 1);
      if jobs[i].collector && jobs[i].name !in s.active && NextRun(s, jobs[i].name) <= now then [i] + rest else rest
  }

  /** How many more collectors may start: the concurrency left and the runs left. */
  function Room(lim: Limits, busy: nat, started: nat): nat {
    var slots := if busy < lim.concurrency then lim.concurrency - busy else 0;
    match lim.maxRuns {
      case None => slots
      case Some(max) => if started >= max then 0 else if max - started < slots then max - started else slots
    }
  }

  function Flights(ks: seq<nat>, started: int): seq<Flight> {
    seq(|ks|, i requires 0 <= i < |ks| => Flight(ks[i], started))
  }

  function FirstOf(ks: seq<nat>, n: nat): seq<nat> {
    if |ks| <= n then ks else ks[..n]
  }

  lemma RoomShrinks(lim: Limits, busy: nat, started: nat)
    ensures Room(lim, busy, started) == 0 <==> busy >= lim.concurrency || Reached(lim.maxRuns, started)
    ensures Room(lim, busy, started) > 0 ==> Room(lim, busy + 1, started + 1) == Room(lim, busy, started) - 1
  {
  }

  lemma OneFlightFirst(log: seq<Flight>, k: nat, rest: seq<nat>, room: nat, started: int)
    requires room > 0
    ensures log + Flights(FirstOf([k] + rest, room), started) ==
            (log + [Flight(k, started)]) + Flights(FirstOf(rest, room - 1), started)
  {
    assert FirstOf([k] + rest, room) == [k] + FirstOf(rest, room - 1);
  }

  lemma {:induction false} CollectorsFillTheRoom(jobs: seq<Job>, lim: Limits, seen: State, s: State, e: Tick, i: nat, busy: nat,
                                                 started: nat)
    ensures DispatchCollectors(jobs, lim, seen, s, e, i, busy, started).dispatched ==
            s.dispatched + Flights(FirstOf(DueList(jobs, seen, e.now, i), Room(lim, busy, started)), e.started)
    decreases |jobs| - i
  {
    var due, room := DueList(jobs, seen, e.now, i), Room(lim, busy, started);
    if i < |jobs| && jobs[i].collector && Due(jobs, seen, i, e.now) {
      RoomShrinks(lim, busy, started);
      if room == 0 {
        assert Flights(FirstOf(due, room), e.started) == [];
      } else {
        CollectorsFillTheRoom(jobs, lim, seen, Launched(jobs, s, i, e.started), e, i + 1, busy + 1, started + 1);
        OneFlightFirst(s.dispatched, i, DueList(jobs, seen, e.now, i + 1), room, e.started);
      }
    } else if i < |jobs| {
      CollectorsFillTheRoom(jobs, lim, seen, s, e, i + 1, busy, started);
    }
  }

  /** A turn that goes on starts, in config order, as many of the idle due collectors as there is room for. */
  lemma CollectorTurn(jobs: seq<Job>, lim: Limits, s: State, e: Tick)
    requires Unique(jobs) && Inv(jobs, lim, s)
    ensures var r := Reaped(jobs, lim, s, e);
            AfterCollectors(jobs, lim, s, e).dispatched ==
            s.dispatched + Flights(FirstOf(DueList(jobs, r, e.now, 0), Room(lim, |r.futures|, Started(r))), e.started)
  {
    var r := Reaped(jobs, lim, s, e);
    ReapingKeeps(jobs, lim, s, e);
    ReapingDispatchesNothing(jobs, lim, s, e.done);
    FailedMaintenanceStops(jobs, lim, ReapCollectors(jobs, lim, s, e.done), e.done);
    CollectorsFillTheRoom(jobs, lim, r, r, e, 0, ActiveCollectors(r), Started(r));
  }

  // ---- landing ----

  /** The job of a finished flight is idle and due again one interval after it finished. */
  ghost predicate ComesBack(jobs: seq<Job>, log: seq<Flight>, t: State, d: Done)
    requires d.id < |log| && log[d.id].job < |jobs|
  {
    var job := jobs[log[d.id].job];
    && d.id in t.finalized && d.id !in t.futures && t.maintenance != Some(d.id)
    && job.name !in t.active && job.name in t.nextRun && t.nextRun[job.name] == d.finished + job.interval
  }

  /** Landing others leaves a job that is not active as it is. */
  ghost predicate LeavesIdle(s: State, t: State, name: string) {
    && s.finalized <= t.finalized && t.futures <= s.futures && (t.maintenance.Some? ==> t.maintenance == s.maintenance)
    && name !in t.active && (name in s.nextRun ==> name in t.nextRun && t.nextRun[name] == s.nextRun[name])
  }

  lemma LandingLeavesIdle(jobs: seq<Job>, lim: Limits, s: State, d: Done, over: bool, name: string)
    requires Inv(jobs, lim, s) && InFlight(s, d.id) && name !in s.active
    ensures LeavesIdle(s, Finalized(jobs, Landed(s, d.id), d).(over := over), name)
  {
  }

  lemma {:induction false} CollectorReapsLeaveIdle(jobs: seq<Job>, lim: Limits, s: State, done: seq<Done>, name: string)
    requires Inv(jobs, lim, s) && name !in s.active
    ensures LeavesIdle(s, ReapCollectors(jobs, lim, s, done), name)
    decreases |done|
  {
    if done != [] && done[0].id in s.futures {
      LandingLeavesIdle(jobs, lim, s, done[0], true, name);
      LandingLeavesIdle(jobs, lim, s, done[0], s.over, name);
      FinalizingKeeps(jobs, lim, s, done[0]);
      CollectorReapsLeaveIdle(jobs, lim, Finalized(jobs, Landed(s, done[0].id), done[0]), done[1..], name);
    } else if done != [] {
      CollectorReapsLeaveIdle(jobs, lim, s, done[1..], name);
    }
  }

  lemma {:induction false} MaintenanceReapLeavesIdle(jobs: seq<Job>, lim: Limits, s: State, done: seq<Done>, name: string)
    requires Inv(jobs, lim, s) && name !in s.active
    ensures LeavesIdle(s, ReapMaintenance(jobs, lim, s, done), name)
    decreases |done|
  {
    if done != [] && s.maintenance == Some(done[0].id) {
      LandingLeavesIdle(jobs, lim, s, done[0], true, name);
      LandingLeavesIdle(jobs, lim, s, done[0], s.over, name);
    } else if done != [] {
      MaintenanceReapLeavesIdle(jobs, lim, s, done[1..], name);
    }
  }

  lemma LandedComesBack(jobs: seq<Job>, lim: Limits, s: State, d: Done, over: bool)
    requires Inv(jobs, lim, s) && InFlight(s, d.id)
    ensures d.id < |s.dispatched| && s.dispatched[d.id].job < |jobs|
    ensures ComesBack(jobs, s.dispatched, Finalized(jobs, Landed(s, d.id), d).(over := over), d)
  {
    var t := Finalized(jobs, Landed(s, d.id), d);
    assert t.finalized[|s.finalized|] == d.id;
  }

  /** Nothing among the results ends the loop. */
  predicate NoStop(lim: Limits, done: seq<Done>) {
    lim.stopOnError ==> forall k :: 0 <= k < |done| ==> done[k].ok
  }

  lemma {:induction false} FirstReapedComesBack(jobs: seq<Job>, lim: Limits, s: State, done: seq<Done>)
    requires Inv(jobs, lim, s) && NoStop(lim, done) && done != [] && done[0].id in s.futures
    ensures done[0].id < |s.dispatched| && s.dispatched[done[0].id].job < |jobs|
    ensures ComesBack(jobs, s.dispatched, ReapCollectors(jobs, lim, s, done), done[0])
  {
    assert InFlight(s, done[0].id);
    LandedComesBack(jobs, lim, s, done[0], s.over);
    FinalizingKeeps(jobs, lim, s, done[0]);
    CollectorReapsLeaveIdle(jobs, lim, Finalized(jobs, Landed(s, done[0].id), done[0]), done[1..],
                            jobs[s.dispatched[done[0].id].job].name);
  }

  lemma {:induction false} ReapedCollectorComesBack(jobs: seq<Job>, lim: Limits, s: State, done: seq<Done>, k: nat)
    requires Inv(jobs, lim, s) && DistinctIds(done) && NoStop(lim, done) && k < |done| && done[k].id in s.futures
    ensures InFlight(s, done[k].id) && done[k].id < |s.dispatched| && s.dispatched[done[k].id].job < |jobs|
    ensures ComesBack(jobs, s.dispatched, ReapCollectors(jobs, lim, s, done), done[k])
    decreases |done|
  {
    assert InFlight(s, done[k].id);
    var t := if done[0].id in s.futures then Finalized(jobs, Landed(s, done[0].id), done[0]) else s;
    if done[0].id in s.futures {
      FinalizingKeeps(jobs, lim, s, done[0]);
    }
    if k == 0 {
      FirstReapedComesBack(jobs, lim, s, done);
    } else {
      ReapedCollectorComesBack(jobs, lim, t, done[1..], k - 1);
    }
  }

  lemma {:induction false} ReapedMaintenanceComesBack(jobs: seq<Job>, lim: Limits, s: State, done: seq<Done>, k: nat)
    requires Inv(jobs, lim, s) && DistinctIds(done) && k < |done| && s.maintenance == Some(done[k].id)
    ensures InFlight(s, done[k].id) && done[k].id < |s.dispatched| && s.dispatched[done[k].id].job < |jobs|
    ensures ComesBack(jobs, s.dispatched, ReapMaintenance(jobs, lim, s, done), done[k])
    decreases |done|
  {
    assert InFlight(s, done[k].id);
    if k == 0 {
      LandedComesBack(jobs, lim, s, done[0], true);
      LandedComesBack(jobs, lim, s, done[0], s.over);
    } else {
      ReapedMaintenanceComesBack(jobs, lim, s, done[1..], k - 1);
    }
  }

  /**
   Every flight that has finished by a turn lands in it, unless an error stops the run: it is finalized, its job is idle
   again and due one interval after it finished.
   */
  lemma FinishedJobsComeBack(jobs: seq<Job>, lim: Limits, s: State, e: Tick, k: nat)
    requires Inv(jobs, lim, s) && DistinctIds(e.done) && NoStop(lim, e.done) && k < |e.done| && InFlight(s, e.done[k].id)
    ensures e.done[k].id < |s.dispatched| && s.dispatched[e.done[k].id].job < |jobs|
    ensures ComesBack(jobs, s.dispatched, Reaped(jobs, lim, s, e), e.done[k])
  {
    var c := ReapCollectors(jobs, lim, s, e.done);
    ReapingCollectorsKeeps(jobs, lim, lim, s, e.done);
    ReapingDispatchesNothing(jobs, lim, s, e.done);
    if e.done[k].id in s.futures {
      ReapedCollectorComesBack(jobs, lim, s, e.done, k);
      MaintenanceReapLeavesIdle(jobs, lim, c, e.done, jobs[s.dispatched[e.done[k].id].job].name);
    } else {
      ReapedMaintenanceComesBack(jobs, lim, c, e.done, k);
    }
  }
}
