/**
 The ops scheduler's loop: reap what finished, dispatch due collectors up to the concurrency budget, dispatch the
 oldest due maintenance job into its single slot, and drain on the way out. A tick is one turn of the loop; which
 futures are done by then, and what the clock says, is the tick's own.
 */
module Scheduler {
  import opened Options

  datatype Job = Job(name: string, collector: bool, interval: int)
  datatype Limits = Limits(concurrency: nat, maxRuns: Option<nat>, stopOnError: bool)

  /** One dispatch; its id is its place in the dispatch log. */
  datatype Flight = Flight(job: nat, started: int)
  datatype Done = Done(id: nat, finished: int, ok: bool)
  datatype Tick = Tick(done: seq<Done>, now: int, started: int)

  datatype State = State(
    runCount: nat, nextRun: map<string, int>, active: map<string, bool>, futures: set<nat>, maintenance: Option<nat>,
    dispatched: seq<Flight>, finalized: seq<nat>, over: bool)

  predicate Unique(jobs: seq<Job>) {
    forall i, j :: 0 <= i < j < |jobs| ==> jobs[i].name != jobs[j].name
  }

  function NextRun(s: State, name: string): int {
    if name in s.nextRun then s.nextRun[name] else 0
  }

  function NameOf(jobs: seq<Job>, log: seq<Flight>, id: nat): string {
    if id < |log| && log[id].job < |jobs| then jobs[log[id].job].name else ""
  }

  function CollectorOf(jobs: seq<Job>, log: seq<Flight>, id: nat): bool {
    id < |log| && log[id].job < |jobs| && jobs[log[id].job].collector
  }

  function IntervalOf(jobs: seq<Job>, log: seq<Flight>, id: nat): int {
    if id < |log| && log[id].job < |jobs| then jobs[log[id].job].interval else 0
  }

  /** Runs finished plus runs in flight. */
  function Started(s: State): nat {
    s.runCount + |s.futures| + if s.maintenance.Some? then 1 else 0
  }

  predicate Reached(maxRuns: Option<nat>, n: nat) {
    maxRuns.Some? && n >= maxRuns.value
  }

  // ---- reaping ----

  function Finalized(jobs: seq<Job>, s: State, d: Done): State {
    var name := NameOf(jobs, s.dispatched, d.id);
    s.(runCount := s.runCount + 1, active := s.active - {name},
       nextRun := s.nextRun[name := d.finished + IntervalOf(jobs, s.dispatched, d.id)], finalized := s.finalized + [d.id])
  }

  function ReapCollectors(jobs: seq<Job>, lim: Limits, s: State, done: seq<Done>): State
    decreases |done|
  {
    if done == [] then s
    else if done[0].id !in s.futures then ReapCollectors(jobs, lim, s, done[1..])
    else
      var t := Finalized(jobs, s.(futures := s.futures - {done[0].id}), done[0]);
      if !done[0].ok && lim.stopOnError then t.(over := true) else ReapCollectors(jobs, lim, t, done[1..])
  }

  function ReapMaintenance(jobs: seq<Job>, lim: Limits, s: State, done: seq<Done>): State
    decreases |done|
  {
    if done == [] || s.maintenance.None? then s
    else if done[0].id != s.maintenance.value then ReapMaintenance(jobs, lim, s, done[1..])
    else
      var t := Finalized(jobs, s.(maintenance := None), done[0]);
      if !done[0].ok && lim.stopOnError then t.(over := true) else t
  }

  // ---- dispatching ----

  /** Due and not active, by what was read at the start of the dispatching. */
  predicate Due(jobs: seq<Job>, seen: State, i: nat, now: int) {
    i < |jobs| && now >= NextRun(seen, jobs[i].name) && jobs[i].name !in seen.active
  }

  function CollectorNames(active: map<string, bool>): set<string> {
    set n | n in active && active[n]
  }

  function ActiveCollectors(s: State): nat {
    |CollectorNames(s.active)|
  }

  function Launched(jobs: seq<Job>, s: State, i: nat, started: int): State
    requires i < |jobs|
  {
    var t := s.(active := s.active[jobs[i].name := jobs[i].collector], dispatched := s.dispatched + [Flight(i, started)]);
    if jobs[i].collector then t.(futures := s.futures + {|s.dispatched|}) else t.(maintenance := Some(|s.dispatched|))
  }

  /** Collectors in config order from `i` on, while the budgets last. */
  function DispatchCollectors(jobs: seq<Job>, lim: Limits, seen: State, s: State, e: Tick, i: nat, busy: nat, started: nat): State
    decreases |jobs| - i
  {
    if i >= |jobs| then s
    else if !(jobs[i].collector && Due(jobs, seen, i, e.now)) then DispatchCollectors(jobs, lim, seen, s, e, i + 1, busy, started)
    else if busy >= lim.concurrency || Reached(lim.maxRuns, started) then s
    else DispatchCollectors(jobs, lim, seen, Launched(jobs, s, i, e.started), e, i + 1, busy + 1, started + 1)
  }

  /** The due maintenance job among the first `n` whose deadline is furthest in the past; the first of equals. */
  function OldestDue(jobs: seq<Job>, seen: State, now: int, n: nat): Option<nat>
    requires n <= |jobs|
  {
    if n == 0 then None
    else
      var best := OldestDue(jobs, seen, now, n - 1);
      if jobs[n - 1].collector || !Due(jobs, seen, n - 1, now) then best
      else if best.Some? && best.value < |jobs| && NextRun(seen, jobs[best.value].name) <= NextRun(seen, jobs[n - 1].name)
      then best
      else Some(n - 1)
  }

  function DispatchMaintenance(jobs: seq<Job>, lim: Limits, seen: State, s: State, e: Tick): State {
    var pick := OldestDue(jobs, seen, e.now, |jobs|);
    if s.maintenance.Some? || pick.None? || pick.value >= |jobs| || Reached(lim.maxRuns, Started(s)) then s
    else Launched(jobs, s, pick.value, e.started)
  }

  // ---- a turn of the loop, a run, and the way out ----

  function Reaped(jobs: seq<Job>, lim: Limits, s: State, e: Tick): State {
    ReapMaintenance(jobs, lim, ReapCollectors(jobs, lim, s, e.done), e.done)
  }

  function TickStep(jobs: seq<Job>, lim: Limits, s: State, e: Tick): State {
    if s.over then s
    else if Reached(lim.maxRuns, s.runCount) then s.(over := true)
    else
      var r := Reaped(jobs, lim, s, e);
      if r.over || Reached(lim.maxRuns, r.runCount) then r.(over := true)
      else
        var c := DispatchCollectors(jobs, lim, r, r, e, 0, ActiveCollectors(r), Started(r));
        DispatchMaintenance(jobs, lim, r, c, e)
  }

  function Ticks(jobs: seq<Job>, lim: Limits, s: State, es: seq<Tick>): State {
    if es == [] then s else TickStep(jobs, lim, Ticks(jobs, lim, s, es[..|es| - 1]), es[|es| - 1])
  }

  function Initial(jobs: seq<Job>, now: int): State {
    State(0, map i | 0 <= i < |jobs| :: jobs[i].name := now, map[], {}, None, [], [], false)
  }

  function Merged(s: State): State {
    s.(futures := s.futures + (if s.maintenance.Some? then {s.maintenance.value} else {}), maintenance := None)
  }

  /** Both executors are shut down first, so every future in flight has its result. */
  function Drained(jobs: seq<Job>, s: State, done: seq<Done>): State {
    ReapCollectors(jobs, Limits(0, None, false), Merged(s), done)
  }

  // ---- what every tick keeps ----

  predicate InFlight(s: State, id: nat) {
    id in s.futures || s.maintenance == Some(id)
  }

  /** Collectors fly in the pool, the maintenance job in its slot, each under its own active name. */
  ghost predicate Placed(jobs: seq<Job>, s: State) {
    && (forall id: nat :: InFlight(s, id) ==> id < |s.dispatched| && s.dispatched[id].job < |jobs|)
    && (forall id: nat :: InFlight(s, id) ==> CollectorOf(jobs, s.dispatched, id) == (id in s.futures))
    && (s.maintenance.Some? ==> s.maintenance.value !in s.futures)
    && (forall id: nat :: InFlight(s, id) ==>
          NameOf(jobs, s.dispatched, id) in s.active && s.active[NameOf(jobs, s.dispatched, id)] == CollectorOf(jobs, s.dispatched, id))
  }

  /** The active names are exactly those of the flights, and no two flights share one. */
  ghost predicate Named(jobs: seq<Job>, s: State) {
    && (forall n :: n in s.active ==> exists id: nat :: InFlight(s, id) && NameOf(jobs, s.dispatched, id) == n)
    && (forall a: nat, b: nat :: InFlight(s, a) && InFlight(s, b) && a != b ==> NameOf(jobs, s.dispatched, a) != NameOf(jobs, s.dispatched, b))
    && ActiveCollectors(s) == |s.futures|
  }

  /** Every dispatch is in flight or finalized, never both, and finalized once. */
  ghost predicate Conserved(s: State) {
    && s.runCount == |s.finalized|
    && (forall id: nat :: id < |s.dispatched| ==> (InFlight(s, id) <==> id !in s.finalized))
    && (forall k :: 0 <= k < |s.finalized| ==> s.finalized[k] < |s.dispatched|)
    && (forall j, k :: 0 <= j < k < |s.finalized| ==> s.finalized[j] != s.finalized[k])
  }

  ghost predicate Inv(jobs: seq<Job>, lim: Limits, s: State) {
    && Placed(jobs, s) && Named(jobs, s) && Conserved(s)
    && |s.futures| <= lim.concurrency
    && (lim.maxRuns.Some? ==> Started(s) <= lim.maxRuns.value)
  }

  // ---- reaping keeps it ----

  lemma CollectorNamesLose(s: State, name: string)
    requires name in s.active
    ensures ActiveCollectors(s.(active := s.active - {name})) == ActiveCollectors(s) - if s.active[name] then 1 else 0
  {
    assert CollectorNames(s.active - {name}) == CollectorNames(s.active) - {name};
  }

  lemma CollectorNamesGain(s: State, name: string, collector: bool)
    requires name !in s.active
    ensures ActiveCollectors(s.(active := s.active[name := collector])) == ActiveCollectors(s) + if collector then 1 else 0
  {
    var was := CollectorNames(s.active);
    assert CollectorNames(s.active[name := collector]) == if collector then was + {name} else was;
  }

  /** The state with a finished flight taken out of the pool or of the maintenance slot. */
  function Landed(s: State, id: nat): State {
    if id in s.futures then s.(futures := s.futures - {id}) else s.(maintenance := None)
  }

  lemma LandedFlights(s: State, id: nat)
    requires InFlight(s, id) && (s.maintenance.Some? ==> s.maintenance.value !in s.futures)
    ensures forall x: nat :: InFlight(Landed(s, id), x) <==> InFlight(s, x) && x != id
  {
  }

  /** One flight is gone, and its name with it. */
  ghost predicate OneLess(jobs: seq<Job>, s: State, t: State, id: nat) {
    && t.dispatched == s.dispatched && t.active == s.active - {NameOf(jobs, s.dispatched, id)}
    && (forall x: nat :: InFlight(t, x) <==> InFlight(s, x) && x != id)
    && t.futures == s.futures - {id} && (t.maintenance.Some? ==> t.maintenance == s.maintenance)
  }

  lemma FinalizedIsOneLess(jobs: seq<Job>, s: State, d: Done)
    requires Placed(jobs, s) && InFlight(s, d.id)
    ensures OneLess(jobs, s, Finalized(jobs, Landed(s, d.id), d), d.id)
  {
    LandedFlights(s, d.id);
  }

  lemma OneLessKeepsPlaces(jobs: seq<Job>, s: State, t: State, id: nat)
    requires Placed(jobs, s) && Named(jobs, s) && InFlight(s, id) && OneLess(jobs, s, t, id)
    ensures Placed(jobs, t)
  {
  }

  lemma OneLessKeepsNames(jobs: seq<Job>, s: State, t: State, id: nat)
    requires Placed(jobs, s) && Named(jobs, s) && InFlight(s, id) && OneLess(jobs, s, t, id)
    ensures Named(jobs, t)
  {
    var name := NameOf(jobs, s.dispatched, id);
    CollectorNamesLose(s, name);
    assert CollectorNames(t.active) == CollectorNames(s.active - {name});
    forall n | n in t.active ensures exists x: nat :: InFlight(t, x) && NameOf(jobs, t.dispatched, x) == n {
      var x: nat :| InFlight(s, x) && NameOf(jobs, s.dispatched, x) == n;
      assert InFlight(t, x);
    }
  }

  lemma FinalizingConserves(jobs: seq<Job>, s: State, d: Done)
    requires Conserved(s) && InFlight(s, d.id) && d.id < |s.dispatched|
    requires s.maintenance.Some? ==> s.maintenance.value !in s.futures
    ensures Conserved(Finalized(jobs, Landed(s, d.id), d))
    ensures Started(Finalized(jobs, Landed(s, d.id), d)) == Started(s)
  {
    var t := Finalized(jobs, Landed(s, d.id), d);
    assert t.finalized == s.finalized + [d.id];
    assert d.id !in s.finalized;
    forall id: nat | id < |t.dispatched| ensures InFlight(t, id) <==> id !in t.finalized {
      assert InFlight(s, id) <==> id !in s.finalized;
    }
  }

  lemma FinalizingKeeps(jobs: seq<Job>, lim: Limits, s: State, d: Done)
    requires Inv(jobs, lim, s) && InFlight(s, d.id)
    ensures Inv(jobs, lim, Finalized(jobs, Landed(s, d.id), d))
  {
    var t := Finalized(jobs, Landed(s, d.id), d);
    FinalizedIsOneLess(jobs, s, d);
    OneLessKeepsPlaces(jobs, s, t, d.id);
    OneLessKeepsNames(jobs, s, t, d.id);
    FinalizingConserves(jobs, s, d);
  }

  lemma OnlyTheFlightsMatter(jobs: seq<Job>, lim: Limits, s: State, over: bool)
    requires Inv(jobs, lim, s)
    ensures Inv(jobs, lim, s.(over := over))
  {
    var t := s.(over := over);
    forall n | n in t.active ensures exists id: nat :: InFlight(t, id) && NameOf(jobs, t.dispatched, id) == n {
      var id: nat :| InFlight(s, id) && NameOf(jobs, s.dispatched, id) == n;
      assert InFlight(t, id) && NameOf(jobs, t.dispatched, id) == n;
    }
    assert forall id: nat :: InFlight(t, id) == InFlight(s, id) && NameOf(jobs, t.dispatched, id) == NameOf(jobs, s.dispatched, id);
    assert forall id: nat :: CollectorOf(jobs, t.dispatched, id) == CollectorOf(jobs, s.dispatched, id);
  }

  lemma {:induction false} ReapingCollectorsKeeps(jobs: seq<Job>, lim: Limits, flags: Limits, s: State, done: seq<Done>)
    requires Inv(jobs, lim, s)
    ensures Inv(jobs, lim, ReapCollectors(jobs, flags, s, done))
    decreases |done|
  {
    if done != [] {
      if done[0].id in s.futures {
        FinalizingKeeps(jobs, lim, s, done[0]);
        var t := Finalized(jobs, Landed(s, done[0].id), done[0]);
        OnlyTheFlightsMatter(jobs, lim, t, true);
        ReapingCollectorsKeeps(jobs, lim, flags, t, done[1..]);
      } else {
        ReapingCollectorsKeeps(jobs, lim, flags, s, done[1..]);
      }
    }
  }

  lemma {:induction false} ReapingMaintenanceKeeps(jobs: seq<Job>, lim: Limits, s: State, done: seq<Done>)
    requires Inv(jobs, lim, s)
    ensures Inv(jobs, lim, ReapMaintenance(jobs, lim, s, done))
    decreases |done|
  {
    if done != [] && s.maintenance.Some? {
      if done[0].id == s.maintenance.value {
        FinalizingKeeps(jobs, lim, s, done[0]);
        var t := Finalized(jobs, Landed(s, done[0].id), done[0]);
        OnlyTheFlightsMatter(jobs, lim, t, true);
      } else {
        ReapingMaintenanceKeeps(jobs, lim, s, done[1..]);
      }
    }
  }

  // ---- dispatching keeps it ----

  lemma LaunchKeeps(jobs: seq<Job>, lim: Limits, s: State, i: nat, started: int)
    requires Inv(jobs, lim, s) && i < |jobs| && jobs[i].name !in s.active && !Reached(lim.maxRuns, Started(s))
    requires if jobs[i].collector then |s.futures| < lim.concurrency else s.maintenance.None?
    ensures var t := Launched(jobs, s, i, started);
            && Inv(jobs, lim, t) && Started(t) == Started(s) + 1 && t.over == s.over
            && (jobs[i].collector ==> |t.futures| == |s.futures| + 1 && t.maintenance == s.maintenance)
  {
    assert !InFlight(s, |s.dispatched|);
    LaunchKeepsPlaces(jobs, s, i, started);
    LaunchKeepsNames(jobs, s, i, started);
    LaunchConserves(jobs, s, i, started);
  }

  lemma LaunchKeepsPlaces(jobs: seq<Job>, s: State, i: nat, started: int)
    requires Placed(jobs, s) && i < |jobs| && jobs[i].name !in s.active && (jobs[i].collector || s.maintenance.None?)
    ensures Placed(jobs, Launched(jobs, s, i, started))
  {
    var t := Launched(jobs, s, i, started);
    forall id: nat | InFlight(t, id)
      ensures id == |s.dispatched| || (InFlight(s, id) && NameOf(jobs, t.dispatched, id) == NameOf(jobs, s.dispatched, id)
                                       && CollectorOf(jobs, t.dispatched, id) == CollectorOf(jobs, s.dispatched, id)) {
    }
  }

  lemma LaunchedFlights(jobs: seq<Job>, s: State, i: nat, started: int)
    requires Placed(jobs, s) && i < |jobs| && (jobs[i].collector || s.maintenance.None?)
    ensures var t := Launched(jobs, s, i, started);
            && (forall id: nat :: InFlight(t, id) <==> InFlight(s, id) || id == |s.dispatched|)
            && (forall id: nat :: InFlight(s, id) ==> id < |s.dispatched| && NameOf(jobs, t.dispatched, id) == NameOf(jobs, s.dispatched, id))
            && NameOf(jobs, t.dispatched, |s.dispatched|) == jobs[i].name
            && |t.futures| == |s.futures| + if jobs[i].collector then 1 else 0
  {
    assert !InFlight(s, |s.dispatched|);
  }

  lemma LaunchKeepsNames(jobs: seq<Job>, s: State, i: nat, started: int)
    requires Placed(jobs, s) && Named(jobs, s) && i < |jobs| && jobs[i].name !in s.active
    requires jobs[i].collector || s.maintenance.None?
    ensures Named(jobs, Launched(jobs, s, i, started))
  {
    var t := Launched(jobs, s, i, started);
    CollectorNamesGain(s, jobs[i].name, jobs[i].collector);
    assert ActiveCollectors(t) == ActiveCollectors(s.(active := s.active[jobs[i].name := jobs[i].collector]));
    LaunchedFlights(jobs, s, i, started);
    forall n | n in t.active ensures exists id: nat :: InFlight(t, id) && NameOf(jobs, t.dispatched, id) == n {
      if n != jobs[i].name {
        var id: nat :| InFlight(s, id) && NameOf(jobs, s.dispatched, id) == n;
        assert InFlight(t, id) && NameOf(jobs, t.dispatched, id) == n;
      }
    }
  }

  lemma LaunchConserves(jobs: seq<Job>, s: State, i: nat, started: int)
    requires Placed(jobs, s) && Conserved(s) && i < |jobs| && (jobs[i].collector || s.maintenance.None?)
    ensures Conserved(Launched(jobs, s, i, started))
    ensures Started(Launched(jobs, s, i, started)) == Started(s) + 1
  {
    var t := Launched(jobs, s, i, started);
    forall id: nat | id < |t.dispatched| ensures InFlight(t, id) <==> id !in t.finalized {
      assert id < |s.dispatched| ==> (InFlight(t, id) <==> InFlight(s, id));
    }
  }

  /** Names of maintenance jobs, and of collectors from `i` on, are active exactly as they were seen. */
  ghost predicate SeenFrom(jobs: seq<Job>, seen: State, s: State, i: nat) {
    forall k :: 0 <= k < |jobs| && (k >= i || !jobs[k].collector) ==>
      (jobs[k].name in s.active <==> jobs[k].name in seen.active)
  }

  lemma LaunchedSeenFrom(jobs: seq<Job>, seen: State, s: State, i: nat, started: int)
    requires Unique(jobs) && i < |jobs| && jobs[i].collector && SeenFrom(jobs, seen, s, i)
    ensures SeenFrom(jobs, seen, Launched(jobs, s, i, started), i + 1)
  {
    forall k | 0 <= k < |jobs| && (k >= i + 1 || !jobs[k].collector) ensures jobs[k].name != jobs[i].name {
    }
  }

  lemma {:induction false} DispatchingCollectorsKeeps(jobs: seq<Job>, lim: Limits, seen: State, s: State, e: Tick, i: nat)
    requires Unique(jobs) && Inv(jobs, lim, s) && SeenFrom(jobs, seen, s, i)
    ensures var t := DispatchCollectors(jobs, lim, seen, s, e, i, |s.futures|, Started(s));
            Inv(jobs, lim, t) && t.maintenance == s.maintenance && t.over == s.over && SeenFrom(jobs, seen, t, |jobs|)
    decreases |jobs| - i
  {
    if i >= |jobs| {
    } else if !(jobs[i].collector && Due(jobs, seen, i, e.now)) {
      DispatchingCollectorsKeeps(jobs, lim, seen, s, e, i + 1);
    } else if |s.futures| >= lim.concurrency || Reached(lim.maxRuns, Started(s)) {
      assert DispatchCollectors(jobs, lim, seen, s, e, i, |s.futures|, Started(s)) == s;
    } else {
      var t := Launched(jobs, s, i, e.started);
      LaunchKeeps(jobs, lim, s, i, e.started);
      LaunchedSeenFrom(jobs, seen, s, i, e.started);
      assert DispatchCollectors(jobs, lim, seen, s, e, i, |s.futures|, Started(s))
          == DispatchCollectors(jobs, lim, seen, t, e, i + 1, |t.futures|, Started(t));
      DispatchingCollectorsKeeps(jobs, lim, seen, t, e, i + 1);
    }
  }

  lemma {:induction false} OldestDueIsDue(jobs: seq<Job>, seen: State, now: int, n: nat)
    requires n <= |jobs|
    ensures var r := OldestDue(jobs, seen, now, n);
            match r {
              case None => forall k :: 0 <= k < n ==> jobs[k].collector || !Due(jobs, seen, k, now)
              case Some(b) =>
                && b < n && !jobs[b].collector && Due(jobs, seen, b, now)
                && forall k :: 0 <= k < n && !jobs[k].collector && Due(jobs, seen, k, now) ==>
                     NextRun(seen, jobs[b].name) < NextRun(seen, jobs[k].name)
                     || (NextRun(seen, jobs[b].name) == NextRun(seen, jobs[k].name) && b <= k)
            }
  {
    if n > 0 {
      OldestDueIsDue(jobs, seen, now, n - 1);
    }
  }

  lemma DispatchingMaintenanceKeeps(jobs: seq<Job>, lim: Limits, seen: State, s: State, e: Tick)
    requires Inv(jobs, lim, s) && SeenFrom(jobs, seen, s, |jobs|)
    ensures Inv(jobs, lim, DispatchMaintenance(jobs, lim, seen, s, e))
  {
    OldestDueIsDue(jobs, seen, e.now, |jobs|);
    var pick := OldestDue(jobs, seen, e.now, |jobs|);
    if pick.Some? && s.maintenance.None? && !Reached(lim.maxRuns, Started(s)) {
      LaunchKeeps(jobs, lim, s, pick.value, e.started);
    }
  }

  lemma ReapingKeeps(jobs: seq<Job>, lim: Limits, s: State, e: Tick)
    requires Inv(jobs, lim, s)
    ensures Inv(jobs, lim, Reaped(jobs, lim, s, e))
  {
    ReapingCollectorsKeeps(jobs, lim, lim, s, e.done);
    ReapingMaintenanceKeeps(jobs, lim, ReapCollectors(jobs, lim, s, e.done), e.done);
  }

  lemma TickKeeps(jobs: seq<Job>, lim: Limits, s: State, e: Tick)
    requires Unique(jobs) && Inv(jobs, lim, s)
    ensures Inv(jobs, lim, TickStep(jobs, lim, s, e))
  {
    OnlyTheFlightsMatter(jobs, lim, s, true);
    ReapingKeeps(jobs, lim, s, e);
    var r := Reaped(jobs, lim, s, e);
    OnlyTheFlightsMatter(jobs, lim, r, true);
    DispatchingCollectorsKeeps(jobs, lim, r, r, e, 0);
    DispatchingMaintenanceKeeps(jobs, lim, r, DispatchCollectors(jobs, lim, r, r, e, 0, |r.futures|, Started(r)), e);
  }

  lemma {:induction false} EveryRunKeeps(jobs: seq<Job>, lim: Limits, now: int, es: seq<Tick>)
    requires Unique(jobs)
    ensures Inv(jobs, lim, Ticks(jobs, lim, Initial(jobs, now), es))
  {
    if es != [] {
      EveryRunKeeps(jobs, lim, now, es[..|es| - 1]);
      TickKeeps(jobs, lim, Ticks(jobs, lim, Initial(jobs, now), es[..|es| - 1]), es[|es| - 1]);
    } else {
      assert CollectorNames(map[]) == {};
    }
  }

  /** Over every run: what is active, how much flies at once, and how much is ever started. */
  lemma EveryRunIsSafe(jobs: seq<Job>, lim: Limits, now: int, es: seq<Tick>)
    requires Unique(jobs)
    ensures var s := Ticks(jobs, lim, Initial(jobs, now), es);
            && (forall n :: n in s.active <==> exists id: nat :: InFlight(s, id) && NameOf(jobs, s.dispatched, id) == n)
            && (forall a: nat, b: nat :: InFlight(s, a) && InFlight(s, b) && a != b ==>
                  NameOf(jobs, s.dispatched, a) != NameOf(jobs, s.dispatched, b))
            && |s.futures| <= lim.concurrency
            && (forall id: nat :: InFlight(s, id) ==> CollectorOf(jobs, s.dispatched, id) == (id in s.futures))
            && (lim.maxRuns.Some? ==> Started(s) <= lim.maxRuns.value)
  {
    EveryRunKeeps(jobs, lim, now, es);
  }

  // ---- the way out ----

  predicate Ends(done: seq<Done>, id: nat) {
    exists k :: 0 <= k < |done| && done[k].id == id
  }

  ghost predicate ActiveCovered(jobs: seq<Job>, s: State) {
    forall n :: n in s.active ==> exists id: nat :: id in s.futures && NameOf(jobs, s.dispatched, id) == n
  }

  ghost predicate Drainable(jobs: seq<Job>, s: State) {
    Conserved(s) && ActiveCovered(jobs, s) && s.maintenance.None? && forall id: nat :: id in s.futures ==> id < |s.dispatched|
  }

  lemma FinalizingDrains(jobs: seq<Job>, s: State, d: Done)
    requires Drainable(jobs, s) && d.id in s.futures
    ensures Drainable(jobs, Finalized(jobs, Landed(s, d.id), d))
  {
    var t := Finalized(jobs, Landed(s, d.id), d);
    FinalizingConserves(jobs, s, d);
    forall n | n in t.active ensures exists id: nat :: id in t.futures && NameOf(jobs, t.dispatched, id) == n {
      var id: nat :| id in s.futures && NameOf(jobs, s.dispatched, id) == n;
      assert id in t.futures;
    }
  }

  lemma {:induction false} ReapingAllDrains(jobs: seq<Job>, s: State, done: seq<Done>)
    requires Drainable(jobs, s) && forall id: nat :: id in s.futures ==> Ends(done, id)
    ensures var t := ReapCollectors(jobs, Limits(0, None, false), s, done);
            Conserved(t) && t.dispatched == s.dispatched && t.futures == {} && t.maintenance.None? && t.active == map[]
    decreases |done|
  {
    if done == [] {
      assert s.futures == {};
      assert s.active == map[];
    } else {
      var t := if done[0].id in s.futures then Finalized(jobs, Landed(s, done[0].id), done[0]) else s;
      if done[0].id in s.futures {
        FinalizingDrains(jobs, s, done[0]);
      }
      forall id: nat | id in t.futures ensures Ends(done[1..], id) {
        var k :| 0 <= k < |done| && done[k].id == id;
        assert done[1..][k - 1].id == id;
      }
      ReapingAllDrains(jobs, t, done[1..]);
    }
  }

  /**
   A turn that an exception cuts short between two of its operations: after some of the reaping, or after reaping and
   `launched` collectors.
   */
  function CutTurn(jobs: seq<Job>, lim: Limits, s: State, e: Tick, reaped: nat, launched: Option<nat>): State {
    var r := Reaped(jobs, lim, s, e.(done := if reaped <= |e.done| then e.done[..reaped] else e.done));
    if launched.None? || r.over then r
    else DispatchCollectors(jobs, CutLimits(lim, r, launched.value), r, r, e, 0, ActiveCollectors(r), Started(r))
  }

  /** To launch no more than `launched` is to have no more room. */
  function CutLimits(lim: Limits, r: State, launched: nat): Limits {
    if |r.futures| + launched < lim.concurrency then lim.(concurrency := |r.futures| + launched) else lim
  }

  lemma CutTurnKeeps(jobs: seq<Job>, lim: Limits, s: State, e: Tick, reaped: nat, launched: Option<nat>)
    requires Unique(jobs) && Inv(jobs, lim, s)
    ensures Inv(jobs, lim, CutTurn(jobs, lim, s, e, reaped, launched))
  {
    var cut := e.(done := if reaped <= |e.done| then e.done[..reaped] else e.done);
    ReapingKeeps(jobs, lim, s, cut);
    var r := Reaped(jobs, lim, s, cut);
    if launched.Some? && !r.over {
      DispatchingCollectorsKeeps(jobs, CutLimits(lim, r, launched.value), r, r, e, 0);
    }
  }

  /**
   However the loop ended (a limit, an error, or an exception in the middle of a turn), the drain finalizes every
   dispatch, each exactly once.
   */
  lemma EveryDispatchIsFinalizedOnce(jobs: seq<Job>, lim: Limits, now: int, es: seq<Tick>, cut: Option<(Tick, nat, Option<nat>)>,
                                     done: seq<Done>)
    requires Unique(jobs)
    requires var s := Left(jobs, lim, now, es, cut); forall id: nat :: InFlight(s, id) ==> Ends(done, id)
    ensures var s := Left(jobs, lim, now, es, cut);
            var t := Drained(jobs, s, done);
            && t.dispatched == s.dispatched && t.runCount == |t.finalized| && t.active == map[]
            && (forall id: nat :: id < |t.dispatched| <==> id in t.finalized)
            && (forall j, k :: 0 <= j < k < |t.finalized| ==> t.finalized[j] != t.finalized[k])
  {
    EveryRunKeeps(jobs, lim, now, es);
    var s := Ticks(jobs, lim, Initial(jobs, now), es);
    if cut.Some? {
      CutTurnKeeps(jobs, lim, s, cut.value.0, cut.value.1, cut.value.2);
    }
    DrainFinalizesOnce(jobs, lim, Left(jobs, lim, now, es, cut), done);
  }

  /** What the loop leaves to the drain. */
  function Left(jobs: seq<Job>, lim: Limits, now: int, es: seq<Tick>, cut: Option<(Tick, nat, Option<nat>)>): State {
    var s := Ticks(jobs, lim, Initial(jobs, now), es);
    if cut.None? then s else CutTurn(jobs, lim, s, cut.value.0, cut.value.1, cut.value.2)
  }

  lemma DrainFinalizesOnce(jobs: seq<Job>, lim: Limits, s: State, done: seq<Done>)
    requires Inv(jobs, lim, s) && forall id: nat :: InFlight(s, id) ==> Ends(done, id)
    ensures var t := Drained(jobs, s, done);
            && t.dispatched == s.dispatched && t.runCount == |t.finalized| && t.active == map[]
            && (forall id: nat :: id < |t.dispatched| <==> id in t.finalized)
            && (forall j, k :: 0 <= j < k < |t.finalized| ==> t.finalized[j] != t.finalized[k])
  {
    MergingIsDrainable(jobs, lim, s);
    forall id: nat | id in Merged(s).futures ensures Ends(done, id) {
      MergedFlights(s, id);
    }
    ReapingAllDrains(jobs, Merged(s), done);
    AllFinalized(Drained(jobs, s, done));
  }

  lemma AllFinalized(t: State)
    requires Conserved(t) && t.futures == {} && t.maintenance.None?
    ensures forall id: nat :: id < |t.dispatched| <==> id in t.finalized
  {
    forall id: nat ensures id < |t.dispatched| <==> id in t.finalized {
      assert !InFlight(t, id);
    }
  }

  lemma MergedFlights(s: State, id: nat)
    ensures (id in Merged(s).futures <==> InFlight(s, id)) && (InFlight(Merged(s), id) <==> InFlight(s, id))
  {
  }

  lemma MergingConserves(s: State)
    requires Conserved(s)
    ensures Conserved(Merged(s))
  {
    forall id: nat | id < |s.dispatched| ensures InFlight(Merged(s), id) <==> id !in s.finalized {
      MergedFlights(s, id);
    }
  }

  lemma MergingCovers(jobs: seq<Job>, s: State)
    requires Named(jobs, s)
    ensures ActiveCovered(jobs, Merged(s))
  {
    forall n | n in s.active ensures exists id: nat :: id in Merged(s).futures && NameOf(jobs, s.dispatched, id) == n {
      var id: nat :| InFlight(s, id) && NameOf(jobs, s.dispatched, id) == n;
      MergedFlights(s, id);
    }
  }

  lemma MergingIsDrainable(jobs: seq<Job>, lim: Limits, s: State)
    requires Inv(jobs, lim, s)
    ensures Drainable(jobs, Merged(s))
  {
    MergingConserves(s);
    MergingCovers(jobs, s);
    forall id: nat | id in Merged(s).futures ensures id < |s.dispatched| {
      MergedFlights(s, id);
    }
  }

  // ---- stopping on an error ----

  ghost predicate DistinctIds(done: seq<Done>) {
    forall i, j :: 0 <= i < j < |done| ==> done[i].id != done[j].id
  }

  lemma {:induction false} FailedCollectorStops(jobs: seq<Job>, lim: Limits, s: State, done: seq<Done>, k: nat)
    requires lim.stopOnError && DistinctIds(done) && k < |done| && !done[k].ok && done[k].id in s.futures
    ensures ReapCollectors(jobs, lim, s, done).over
    decreases |done|
  {
    if k > 0 {
      var t := if done[0].id in s.futures then Finalized(jobs, Landed(s, done[0].id), done[0]) else s;
      FailedCollectorStops(jobs, lim, t, done[1..], k - 1);
    }
  }

  lemma {:induction false} FailedMaintenanceStops(jobs: seq<Job>, lim: Limits, s: State, done: seq<Done>)
    ensures s.over ==> ReapMaintenance(jobs, lim, s, done).over
    ensures lim.stopOnError && DistinctIds(done) && (exists k :: 0 <= k < |done| && s.maintenance == Some(done[k].id) && !done[k].ok)
            ==> ReapMaintenance(jobs, lim, s, done).over
    ensures ReapMaintenance(jobs, lim, s, done).dispatched == s.dispatched
    decreases |done|
  {
    if done != [] && s.maintenance.Some? && done[0].id != s.maintenance.value {
      FailedMaintenanceStops(jobs, lim, s, done[1..]);
      if k :| 0 <= k < |done| && s.maintenance == Some(done[k].id) && !done[k].ok {
        assert done[1..][k - 1] == done[k];
      }
    }
  }

  lemma {:induction false} ReapingDispatchesNothing(jobs: seq<Job>, lim: Limits, s: State, done: seq<Done>)
    ensures var t := ReapCollectors(jobs, lim, s, done);
            t.dispatched == s.dispatched && t.maintenance == s.maintenance && t.futures <= s.futures
    decreases |done|
  {
    if done != [] {
      var t := if done[0].id in s.futures then Finalized(jobs, Landed(s, done[0].id), done[0]) else s;
      ReapingDispatchesNothing(jobs, lim, t, done[1..]);
    }
  }

  /** When errors stop the run, a turn that reaps a failure ends the loop and dispatches nothing more. */
  lemma FailureEndsDispatching(jobs: seq<Job>, lim: Limits, s: State, e: Tick, k: nat)
    requires lim.stopOnError && DistinctIds(e.done) && k < |e.done| && !e.done[k].ok && InFlight(s, e.done[k].id)
    ensures TickStep(jobs, lim, s, e).over && TickStep(jobs, lim, s, e).dispatched == s.dispatched
  {
    var c := ReapCollectors(jobs, lim, s, e.done);
    ReapingDispatchesNothing(jobs, lim, s, e.done);
    FailedMaintenanceStops(jobs, lim, c, e.done);
    if e.done[k].id in s.futures {
      FailedCollectorStops(jobs, lim, s, e.done, k);
    }
  }

  // ---- two jobs under one name ----

  predicate DueCollector(jobs: seq<Job>, seen: State, k: nat, now: int) {
    k < |jobs| && jobs[k].collector && Due(jobs, seen, k, now)
  }

  function DueCollectors(jobs: seq<Job>, seen: State, now: int, n: nat): nat
    requires n <= |jobs|
  {
    if n == 0 then 0
    else DueCollectors(jobs, seen, now, n - 1) + if DueCollector(jobs, seen, n - 1, now) then 1 else 0
  }

  /** A flight of job `k`, dispatched since. */
  ghost predicate FliesSince(s: State, t: State, k: nat, id: nat) {
    id in t.futures && |s.dispatched| <= id < |t.dispatched| && t.dispatched[id].job == k
  }

  /** What dispatching only adds to. */
  ghost predicate OnlyMore(s: State, t: State) {
    s.futures <= t.futures && s.dispatched <= t.dispatched && s.maintenance == t.maintenance
  }

  /** With room for all due collectors up to `hi`, each of them flies. */
  lemma {:induction false} DueCollectorsFly(jobs: seq<Job>, lim: Limits, seen: State, s: State, e: Tick, i: nat, busy: nat,
                                            started: nat, hi: nat, k: nat) returns (id: nat)
    requires i <= k < hi <= |jobs| && DueCollector(jobs, seen, k, e.now)
    requires var more := DueCollectors(jobs, seen, e.now, hi) - DueCollectors(jobs, seen, e.now, i);
             busy + more <= lim.concurrency && (lim.maxRuns.Some? ==> started + more <= lim.maxRuns.value)
    ensures FliesSince(s, DispatchCollectors(jobs, lim, seen, s, e, i, busy, started), k, id)
    decreases |jobs| - i
  {
    MoreAreDue(jobs, seen, e.now, i + 1, hi);
    if !DueCollector(jobs, seen, i, e.now) {
      id := DueCollectorsFly(jobs, lim, seen, s, e, i + 1, busy, started, hi, k);
    } else {
      var t := Launched(jobs, s, i, e.started);
      if k == i {
        id := |s.dispatched|;
        DispatchingOnlyAdds(jobs, lim, seen, t, e, i + 1, busy + 1, started + 1);
      } else {
        id := DueCollectorsFly(jobs, lim, seen, t, e, i + 1, busy + 1, started + 1, hi, k);
      }
    }
  }

  lemma {:induction false} MoreAreDue(jobs: seq<Job>, seen: State, now: int, lo: nat, hi: nat)
    requires lo <= hi <= |jobs|
    ensures DueCollectors(jobs, seen, now, lo) <= DueCollectors(jobs, seen, now, hi)
  {
    if lo < hi {
      MoreAreDue(jobs, seen, now, lo, hi - 1);
    }
  }

  lemma {:induction false} DispatchingOnlyAdds(jobs: seq<Job>, lim: Limits, seen: State, s: State, e: Tick, i: nat, busy: nat,
                                               started: nat)
    ensures OnlyMore(s, DispatchCollectors(jobs, lim, seen, s, e, i, busy, started))
    decreases |jobs| - i
  {
    if i >= |jobs| {
    } else if !DueCollector(jobs, seen, i, e.now) {
      DispatchingOnlyAdds(jobs, lim, seen, s, e, i + 1, busy, started);
    } else if !(busy >= lim.concurrency || Reached(lim.maxRuns, started)) {
      DispatchingOnlyAdds(jobs, lim, seen, Launched(jobs, s, i, e.started), e, i + 1, busy + 1, started + 1);
    }
  }

  /**
   Without unique names: two collectors that share one and are due in a turn with room for both fly at once, under a
   single active entry.
   */
  lemma SharedNameFliesTwice(jobs: seq<Job>, lim: Limits, s: State, e: Tick, i: nat, j: nat) returns (a: nat, b: nat)
    requires i < j < |jobs| && jobs[i].name == jobs[j].name && !s.over && !Reached(lim.maxRuns, s.runCount)
    requires var r := Reaped(jobs, lim, s, e);
             && !r.over && DueCollector(jobs, r, i, e.now) && DueCollector(jobs, r, j, e.now)
             && ActiveCollectors(r) + DueCollectors(jobs, r, e.now, j + 1) <= lim.concurrency
             && (lim.maxRuns.Some? ==> r.runCount < lim.maxRuns.value
                                       && Started(r) + DueCollectors(jobs, r, e.now, j + 1) <= lim.maxRuns.value)
    ensures var t := TickStep(jobs, lim, s, e);
            && a != b && a in t.futures && b in t.futures
            && NameOf(jobs, t.dispatched, a) == NameOf(jobs, t.dispatched, b) == jobs[i].name
  {
    var r := Reaped(jobs, lim, s, e);
    var c := DispatchCollectors(jobs, lim, r, r, e, 0, ActiveCollectors(r), Started(r));
    a := DueCollectorsFly(jobs, lim, r, r, e, 0, ActiveCollectors(r), Started(r), j + 1, i);
    b := DueCollectorsFly(jobs, lim, r, r, e, 0, ActiveCollectors(r), Started(r), j + 1, j);
    MaintenanceOnlyAdds(jobs, lim, r, c, e);
  }

  lemma MaintenanceOnlyAdds(jobs: seq<Job>, lim: Limits, seen: State, s: State, e: Tick)
    ensures var t := DispatchMaintenance(jobs, lim, seen, s, e); s.futures <= t.futures && s.dispatched <= t.dispatched
  {
  }
}
