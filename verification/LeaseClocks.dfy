/**
 Clocks of the evidence lease. A claim samples its clocks before it holds the lock, so on honest clocks a trial can be
 stopped by a sample that went stale while the claim waited, and only by such a sample. Which stop's reason stays is a
 question of which writer checked last.
 */
module LeaseClocks {
  import opened Options
  import opened EvidenceLease
  import CanaryLedger

  type Instant = EvidenceLease.Instant

  // ---- why the sample belongs under the lock ----

  /** One nondecreasing pair of clocks whose readings stay within the tolerance of each other. */
  ghost predicate Honest(c: nat -> Instant) {
    && (forall i: nat, j: nat :: i <= j ==> c(i).wall <= c(j).wall && c(i).mono <= c(j).mono)
    && (forall i: nat, j: nat :: CanaryLedger.Abs((c(j).wall - c(i).wall) - (c(j).mono - c(i).mono)) <= TOLERANCE)
  }

  /** Between two readings of honest clocks the only jump is a step back. */
  lemma HonestJumpIff(c: nat -> Instant, sampled: nat, checkpointed: nat)
    requires Honest(c)
    ensures Jumped(c(sampled), c(checkpointed))
            <==> c(sampled).wall < c(checkpointed).wall || c(sampled).mono < c(checkpointed).mono
    ensures checkpointed <= sampled ==> !Jumped(c(sampled), c(checkpointed))
  {
    assert CanaryLedger.Abs((c(sampled).wall - c(checkpointed).wall) - (c(sampled).mono - c(checkpointed).mono)) <= TOLERANCE;
  }

  /** The second claimant samples, the first checkpoints, and only then does the second get the lock. */
  function StaleSample(a: string, b: string, claimed: Instant, sampled: Instant, checkpointed: Instant): seq<Event> {
    [Open(0, a), Open(1, b), ClaimSlot(0, claimed, true, true),
     Check(0, CheckEnv(checkpointed, true, true, checkpointed, true)), ClaimSlot(1, sampled, true, false)]
  }

  lemma RunSnoc(s: System, es: seq<Event>, e: Event)
    ensures Run(s, es + [e]) == Step(Run(s, es), e)
  {
    assert (es + [e])[..|es|] == es;
  }

  function Idle(runId: string): Holder {
    Holder(runId, false, None, EPOCH, EPOCH, 0.0)
  }

  /** The trial and its only writer after a first claim. */
  function Begun(a: string, now: Instant): (Trial, Holder) {
    (Trial(Some(now), Some(now), RESERVATION_BYTES, None, [ClaimRow(1, a, now.wall, RESERVATION_BYTES)]),
     Holder(a, true, Some(1), Deadline(now), now, now.mono))
  }

  lemma FirstClaim(a: string, now: Instant)
    requires ValidId(a) && 0.0 < now.wall
    ensures var r := ClaimStep(Prepared().trial, Idle(a), now, true, true);
            (r.trial, r.holder) == Begun(a, now) && r.refusal.None?
  {
    assert Guard(Prepared().trial, a, now).None?;
    var row := ClaimRow(1, a, now.wall, RESERVATION_BYTES);
    assert Prepared().trial.claims + [row] == [row];
  }

  lemma Opens(a: string, b: string)
    requires ValidId(a) && ValidId(b)
    ensures Run(Prepared(), [Open(0, a), Open(1, b)]) == Prepared().(holders := map[0 := Idle(a), 1 := Idle(b)])
  {
    var es := [Open(0, a), Open(1, b)];
    assert es[..1] == [] + [es[0]] && es == es[..1] + [es[1]];
    RunSnoc(Prepared(), [], es[0]);
    RunSnoc(Prepared(), es[..1], es[1]);
    assert Run(Prepared(), es[..1]).holders == map[0 := Idle(a)];
  }

  lemma ThenCheckpoints(a: string, now: Instant, at: Instant)
    requires !Jumped(at, now) && !Jumped(at, at) && at.wall < now.wall + SECONDS && at.mono < now.mono + SECONDS
    ensures var (t, h) := Begun(a, now);
            var r := CheckStep(t, h, CheckEnv(at, true, true, at, true));
            r.trial == t.(last := Some(at)) && r.holder == h.(lastClock := at, lastCheckpoint := at.mono)
  {
  }

  lemma StaleClaimStops(t: Trial, h: Holder, now: Instant)
    requires t.stopped.None? && t.claims != [] && t.last.Some? && Jumped(now, t.last.value) && !RowsCorrupt(t) && 0.0 < now.wall
    ensures ClaimStep(t, h, now, true, false).trial.stopped == Some(LeaseClockOrCorrupt)
  {
  }

  /**
   On any honest clocks: a second claim that samples before a checkpoint, and gets the lock after it, stops the trial
   for good, although nothing was wrong with either clock.
   */
  lemma StaleSampleStopsTheTrial(a: string, b: string, c: nat -> Instant, first: nat, sampled: nat, checkpointed: nat)
    requires Honest(c) && ValidId(a) && ValidId(b) && first <= sampled < checkpointed && 0.0 < c(first).wall
    requires c(sampled).wall < c(checkpointed).wall
    requires c(checkpointed).wall < c(first).wall + SECONDS && c(checkpointed).mono < c(first).mono + SECONDS
    ensures var s := Run(Prepared(), StaleSample(a, b, c(first), c(sampled), c(checkpointed)));
            && s.trial.stopped == Some(LeaseClockOrCorrupt)
            && 0 in s.holders && s.holders[0].writer && s.holders[0].deadline == Deadline(c(first))
            && s.holders[0].lastClock == c(checkpointed)
  {
    var es := StaleSample(a, b, c(first), c(sampled), c(checkpointed));
    HonestJumpIff(c, checkpointed, first);
    HonestJumpIff(c, checkpointed, checkpointed);
    HonestJumpIff(c, sampled, checkpointed);
    assert es[..2] == [Open(0, a), Open(1, b)];
    Opens(a, b);
    FirstClaim(a, c(first));
    assert es[..3] == es[..2] + [es[2]];
    RunSnoc(Prepared(), es[..2], es[2]);
    assert Enabled(Run(Prepared(), es[..2]), es[2]);
    ThenCheckpoints(a, c(first), c(checkpointed));
    assert es[..4] == es[..3] + [es[3]];
    RunSnoc(Prepared(), es[..3], es[3]);
    RunKeeps(es[..4]);
    assert c(first).wall <= c(sampled).wall;
    var t := Run(Prepared(), es[..4]);
    StaleClaimStops(t.trial, t.holders[1], c(sampled));
    assert es == es[..4] + [es[4]];
    RunSnoc(Prepared(), es[..4], es[4]);
  }

  // ---- which reason stays ----

  /** Once a trial is stopped only a writer's own clock check writes the reason again. */
  ghost function StopsAgain(s: System, e: Event): Option<Reason> {
    if Enabled(s, e) && e.Check? && s.holders[e.id].writer && e.env.stopCommits then ClockReason(s.holders[e.id], e.env.at) else None
  }

  lemma StoppedStep(s: System, e: Event)
    requires s.trial.stopped.Some?
    ensures Step(s, e).trial.stopped == if StopsAgain(s, e).Some? then StopsAgain(s, e) else s.trial.stopped
  {
  }

  ghost function StopsAgainAt(es: seq<Event>, i: nat): Option<Reason>
    requires i < |es|
  {
    StopsAgain(Run(Prepared(), es[..i]), es[i])
  }

  ghost function StoppedAt(es: seq<Event>, k: nat): Option<Reason>
    requires k <= |es|
  {
    Run(Prepared(), es[..k]).trial.stopped
  }

  /** The last event after `k` that writes the reason again. */
  ghost predicate LastStopAgain(es: seq<Event>, k: nat, i: nat) {
    k <= i < |es| && StopsAgainAt(es, i).Some? && forall j: nat :: i < j < |es| ==> StopsAgainAt(es, j).None?
  }

  /** After a stop the reason is that of the last failing clock check of a writer since, or the stop's own. */
  ghost predicate ReasonIs(es: seq<Event>, k: nat, last: Option<nat>)
    requires k <= |es|
  {
    match last {
      case None => (forall i: nat :: k <= i < |es| ==> StopsAgainAt(es, i).None?) && StoppedAt(es, |es|) == StoppedAt(es, k)
      case Some(i) => LastStopAgain(es, k, i) && StoppedAt(es, |es|) == StopsAgainAt(es, i)
    }
  }

  lemma PrefixReasons(es: seq<Event>, n: nat)
    requires n <= |es|
    ensures forall i: nat :: i < n ==> StopsAgainAt(es[..n], i) == StopsAgainAt(es, i)
    ensures forall k: nat :: k <= n ==> StoppedAt(es[..n], k) == StoppedAt(es, k)
  {
    forall i: nat | i <= n ensures es[..n][..i] == es[..i] {
    }
  }

  lemma StopAgainEndsThere(es: seq<Event>, k: nat)
    requires k < |es| && StoppedAt(es, |es| - 1).Some? && StopsAgainAt(es, |es| - 1).Some?
    ensures ReasonIs(es, k, Some(|es| - 1)) && StoppedAt(es, |es|).Some?
  {
    assert es[..|es|] == es;
    StoppedStep(Run(Prepared(), es[..|es| - 1]), es[|es| - 1]);
  }

  lemma ReasonStays(es: seq<Event>, k: nat, last: Option<nat>)
    requires k < |es| && StoppedAt(es, |es| - 1).Some? && StopsAgainAt(es, |es| - 1).None?
    requires ReasonIs(es[..|es| - 1], k, last)
    ensures ReasonIs(es, k, last) && StoppedAt(es, |es|).Some?
  {
    var n := |es| - 1;
    PrefixReasons(es, n);
    assert es[..|es|] == es;
    StoppedStep(Run(Prepared(), es[..n]), es[n]);
    assert StoppedAt(es, |es|) == StoppedAt(es, n) == StoppedAt(es[..n], n);
  }

  lemma {:induction false} ReasonIsTheLast(es: seq<Event>, k: nat) returns (last: Option<nat>)
    requires k <= |es| && StoppedAt(es, k).Some?
    ensures StoppedAt(es, |es|).Some? && ReasonIs(es, k, last)
  {
    if k == |es| {
      last := None;
    } else {
      var n := |es| - 1;
      PrefixReasons(es, n);
      last := ReasonIsTheLast(es[..n], k);
      if StopsAgainAt(es, n).Some? {
        StopAgainEndsThere(es, k);
        last := Some(n);
      } else {
        ReasonStays(es, k, last);
      }
    }
  }

  /**
   The reason at `k` is still there at the end exactly when no writer's clock check has failed and committed its stop
   since, or the last that did names the same reason.
   */
  lemma ReasonKeptIff(es: seq<Event>, k: nat)
    requires k <= |es| && StoppedAt(es, k).Some?
    ensures StoppedAt(es, |es|) == StoppedAt(es, k)
            <==> forall i: nat :: LastStopAgain(es, k, i) ==> StopsAgainAt(es, i) == StoppedAt(es, k)
  {
    var last := ReasonIsTheLast(es, k);
    forall i: nat | LastStopAgain(es, k, i) ensures last == Some(i) {
      if last.Some? {
        assert LastStopAgain(es, k, last.value);
      }
    }
  }

  /** The stale claim's stop, replaced by the expiry of the writer that was there all along; the clocks are honest. */
  lemma StopReasonIsReplaced(a: string, b: string, c: nat -> Instant, first: nat, sampled: nat, checkpointed: nat, late: nat)
    returns (es: seq<Event>)
    requires Honest(c) && ValidId(a) && ValidId(b) && first <= sampled < checkpointed <= late && 0.0 < c(first).wall
    requires c(sampled).wall < c(checkpointed).wall
    requires c(checkpointed).wall < c(first).wall + SECONDS && c(checkpointed).mono < c(first).mono + SECONDS
    requires c(first).wall + SECONDS <= c(late).wall
    ensures |es| == 6 && Run(Prepared(), es[..5]).trial.stopped == Some(LeaseClockOrCorrupt)
    ensures Run(Prepared(), es).trial.stopped == Some(LeaseExpired)
  {
    var stale := StaleSample(a, b, c(first), c(sampled), c(checkpointed));
    var check := Check(0, CheckEnv(c(late), true, true, c(late), true));
    StaleSampleStopsTheTrial(a, b, c, first, sampled, checkpointed);
    HonestJumpIff(c, late, checkpointed);
    es := stale + [check];
    assert es[..5] == stale;
    RunSnoc(Prepared(), stale, check);
    StoppedStep(Run(Prepared(), stale), check);
  }

  // ---- honest runs ----

  /** When an event's samples are taken; a claim and a check both sample before they have the lock. */
  datatype Moments = Moments(at: nat, after: nat)

  /** The latest sample of each process, and the sample the clock columns hold. */
  datatype Trace = Trace(own: map<nat, nat>, columns: nat)

  function Own(tr: Trace, id: nat): nat {
    if id in tr.own then tr.own[id] else 0
  }

  ghost predicate Sampled(c: nat -> Instant, e: Event, m: Moments) {
    match e {
      case ClaimSlot(_, now, _, _) => now == c(m.at)
      case Check(_, env) => env.at == c(m.at) && env.after == c(m.after) && m.at <= m.after
      case _ => true
    }
  }

  ghost function Traced(tr: Trace, s: System, e: Event, m: Moments): Trace {
    var columns := if Step(s, e).trial.last == s.trial.last then tr.columns else m.at;
    match e {
      case ClaimSlot(id, _, _, _) => Trace(tr.own[id := m.at], columns)
      case Check(id, _) => Trace(tr.own[id := m.after], columns)
      case _ => tr
    }
  }

  ghost function TraceOf(es: seq<Event>, ms: seq<Moments>): Trace
    requires |ms| == |es|
  {
    if es == [] then Trace(map[], 0)
    else
      var n := |es| - 1;
      Traced(TraceOf(es[..n], ms[..n]), Run(Prepared(), es[..n]), es[n], ms[n])
  }

  /** The samples of one process follow one another in true time; nothing orders those of different processes. */
  ghost predicate HonestRun(c: nat -> Instant, es: seq<Event>, ms: seq<Moments>)
    requires |ms| == |es|
  {
    es == []
    || var n := |es| - 1;
       && HonestRun(c, es[..n], ms[..n]) && Sampled(c, es[n], ms[n])
       && (es[n].ClaimSlot? || es[n].Check? ==> Own(TraceOf(es[..n], ms[..n]), es[n].id) <= ms[n].at)
  }

  ghost predicate Timely(c: nat -> Instant, tr: Trace, s: System) {
    && (s.trial.last.Some? ==> s.trial.last.value == c(tr.columns))
    && (s.trial.first.Some? ==> 0.0 <= s.trial.first.value.mono)
    && forall id: nat :: id in s.holders && s.holders[id].writer ==>
         exists k: nat :: k <= Own(tr, id) && s.holders[id].lastClock == c(k)
  }

  /** A claim that gets the lock with a sample reading earlier than the columns it meets. */
  ghost predicate StaleClaim(s: System, e: Event) {
    && Enabled(s, e) && e.ClaimSlot? && e.commits && 0.0 < e.now.wall && s.trial.stopped.None?
    && s.trial.claims != [] && s.trial.last.Some?
    && (e.now.wall < s.trial.last.value.wall || e.now.mono < s.trial.last.value.mono)
  }

  predicate ClockStop(t: Trial) {
    t.stopped == Some(LeaseClock) || t.stopped == Some(LeaseClockOrCorrupt)
  }

  lemma ClaimTimes(c: nat -> Instant, tr: Trace, s: System, e: Event, m: Moments)
    requires Honest(c) && 0.0 <= c(0).mono && Inv(s) && Timely(c, tr, s) && Sampled(c, e, m) && e.ClaimSlot? && Enabled(s, e)
    ensures Timely(c, Traced(tr, s, e, m), Step(s, e))
    ensures ClockStop(Step(s, e).trial) <==> ClockStop(s.trial) || StaleClaim(s, e)
  {
    assert c(0).mono <= c(m.at).mono;
    if s.trial.last.Some? {
      HonestJumpIff(c, m.at, tr.columns);
    }
    var next, tr' := Step(s, e), Traced(tr, s, e, m);
    forall id: nat | id in next.holders && next.holders[id].writer
      ensures exists k: nat :: k <= Own(tr', id) && next.holders[id].lastClock == c(k) {
      if id == e.id {
        assert m.at <= Own(tr', id) && next.holders[id].lastClock == c(m.at);
      } else {
        assert Own(tr', id) == Own(tr, id);
      }
    }
  }

  /** What a check leaves of the clocks, and the only ways it can stop for them. */
  lemma CheckStepTimes(t: Trial, h: Holder, env: CheckEnv)
    requires h.writer
    ensures var r := CheckStep(t, h, env);
            && (r.holder.lastClock == h.lastClock || r.holder.lastClock == env.at || r.holder.lastClock == env.after)
            && (r.trial.last == t.last || r.trial.last == Some(env.at))
            && (ClockStop(r.trial) ==> ClockStop(t) || Jumped(env.at, h.lastClock) || Jumped(env.after, env.at))
  {
  }

  /** A writer's own samples never jump on honest clocks, and the latest is the one it remembers. */
  lemma OwnCheckTimes(c: nat -> Instant, tr: Trace, s: System, e: Event, m: Moments)
    requires Honest(c) && Timely(c, tr, s) && Sampled(c, e, m) && e.Check? && Enabled(s, e) && Own(tr, e.id) <= m.at
    requires s.holders[e.id].writer
    ensures exists k: nat :: k <= m.after && Step(s, e).holders[e.id].lastClock == c(k)
    ensures ClockStop(Step(s, e).trial) ==> ClockStop(s.trial)
    ensures Step(s, e).trial.last == s.trial.last || Step(s, e).trial.last == Some(c(m.at))
  {
    var h := s.holders[e.id];
    var k: nat :| k <= Own(tr, e.id) && h.lastClock == c(k);
    HonestJumpIff(c, m.at, k);
    HonestJumpIff(c, m.after, m.at);
    CheckStepTimes(s.trial, h, e.env);
    var after := Step(s, e).holders[e.id].lastClock;
    assert after == c(k) || after == c(m.at) || after == c(m.after);
  }

  lemma CheckTimes(c: nat -> Instant, tr: Trace, s: System, e: Event, m: Moments)
    requires Honest(c) && Timely(c, tr, s) && Sampled(c, e, m) && e.Check? && Enabled(s, e) && Own(tr, e.id) <= m.at
    ensures Timely(c, Traced(tr, s, e, m), Step(s, e))
    ensures ClockStop(Step(s, e).trial) ==> ClockStop(s.trial)
  {
    var next, tr' := Step(s, e), Traced(tr, s, e, m);
    if s.holders[e.id].writer {
      OwnCheckTimes(c, tr, s, e, m);
    }
    forall id: nat | id in next.holders && next.holders[id].writer && id != e.id
      ensures exists k: nat :: k <= Own(tr', id) && next.holders[id].lastClock == c(k) {
      assert Own(tr', id) == Own(tr, id);
    }
  }

  lemma StepIsTimely(c: nat -> Instant, tr: Trace, s: System, e: Event, m: Moments)
    requires Honest(c) && 0.0 <= c(0).mono && Inv(s) && Timely(c, tr, s) && Sampled(c, e, m)
    requires e.ClaimSlot? || e.Check? ==> Own(tr, e.id) <= m.at
    ensures Timely(c, Traced(tr, s, e, m), Step(s, e))
    ensures ClockStop(Step(s, e).trial) ==> ClockStop(s.trial) || StaleClaim(s, e)
    ensures StaleClaim(s, e) ==> ClockStop(Step(s, e).trial)
  {
    if Enabled(s, e) && e.ClaimSlot? {
      ClaimTimes(c, tr, s, e, m);
    } else if Enabled(s, e) && e.Check? {
      CheckTimes(c, tr, s, e, m);
    } else {
      QuietStepTimes(c, tr, s, e, m);
    }
  }

  lemma QuietStepTimes(c: nat -> Instant, tr: Trace, s: System, e: Event, m: Moments)
    requires Timely(c, tr, s) && (Enabled(s, e) ==> !e.ClaimSlot? && !e.Check?)
    requires e.ClaimSlot? || e.Check? ==> Own(tr, e.id) <= m.at && (e.Check? ==> m.at <= m.after)
    ensures Timely(c, Traced(tr, s, e, m), Step(s, e)) && Step(s, e).trial == s.trial
  {
    var next, tr' := Step(s, e), Traced(tr, s, e, m);
    forall id: nat | id in next.holders && next.holders[id].writer
      ensures exists k: nat :: k <= Own(tr', id) && next.holders[id].lastClock == c(k) {
      var k: nat :| k <= Own(tr, id) && s.holders[id].lastClock == c(k);
      assert k <= Own(tr', id);
    }
  }

  lemma {:induction false} RunIsTimely(c: nat -> Instant, es: seq<Event>, ms: seq<Moments>)
    requires |ms| == |es| && Honest(c) && 0.0 <= c(0).mono && HonestRun(c, es, ms)
    ensures Timely(c, TraceOf(es, ms), Run(Prepared(), es))
  {
    if es != [] {
      var n := |es| - 1;
      RunIsTimely(c, es[..n], ms[..n]);
      RunKeeps(es[..n]);
      StepIsTimely(c, TraceOf(es[..n], ms[..n]), Run(Prepared(), es[..n]), es[n], ms[n]);
    }
  }

  ghost predicate ClockStoppedAt(es: seq<Event>, k: nat) {
    k <= |es| && ClockStop(Run(Prepared(), es[..k]).trial)
  }

  ghost predicate StaleAt(es: seq<Event>, i: nat) {
    i < |es| && StaleClaim(Run(Prepared(), es[..i]), es[i])
  }

  ghost predicate EverClockStopped(es: seq<Event>) {
    exists k: nat :: ClockStoppedAt(es, k)
  }

  ghost predicate EverStale(es: seq<Event>) {
    exists i: nat :: StaleAt(es, i)
  }

  lemma EverOneMore(es: seq<Event>)
    requires es != []
    ensures var n := |es| - 1;
            && (EverClockStopped(es) <==> EverClockStopped(es[..n]) || ClockStoppedAt(es, |es|))
            && (EverStale(es) <==> EverStale(es[..n]) || StaleAt(es, n))
  {
    var n := |es| - 1;
    forall k: nat | k <= n ensures ClockStoppedAt(es[..n], k) == ClockStoppedAt(es, k) {
      assert es[..n][..k] == es[..k];
    }
    forall i: nat | i < n ensures StaleAt(es[..n], i) == StaleAt(es, i) {
      assert es[..n][..i] == es[..i];
    }
    assert forall k: nat :: ClockStoppedAt(es, k) ==> k <= n || k == |es|;
    assert forall i: nat :: StaleAt(es, i) ==> i < n || i == n;
  }

  /**
   On honest clocks, over every run: the trial is at some time stopped for its clock exactly when some claim got the lock
   with a sample that read earlier than the columns it met. A writer's own checks never stop it for the clock.
   */
  lemma {:induction false} HonestRunIsStoppedIff(c: nat -> Instant, es: seq<Event>, ms: seq<Moments>)
    requires |ms| == |es| && Honest(c) && 0.0 <= c(0).mono && HonestRun(c, es, ms)
    ensures EverClockStopped(es) <==> EverStale(es)
  {
    if es != [] {
      var n := |es| - 1;
      HonestRunIsStoppedIff(c, es[..n], ms[..n]);
      RunIsTimely(c, es[..n], ms[..n]);
      RunKeeps(es[..n]);
      StepIsTimely(c, TraceOf(es[..n], ms[..n]), Run(Prepared(), es[..n]), es[n], ms[n]);
      EverOneMore(es);
      assert es[..|es|] == es && es[..n][..n] == es[..n];
      assert ClockStoppedAt(es[..n], n) == ClockStop(Run(Prepared(), es[..n]).trial);
    }
  }

  /** Every claim samples no earlier than the reading it finds in the columns, as it would under the lock. */
  ghost predicate SamplesUnderTheLock(es: seq<Event>, ms: seq<Moments>)
    requires |ms| == |es|
  {
    forall i :: 0 <= i < |es| && es[i].ClaimSlot? ==> TraceOf(es[..i], ms[..i]).columns <= ms[i].at
  }

  lemma {:induction false} HonestAt(c: nat -> Instant, es: seq<Event>, ms: seq<Moments>, i: nat)
    requires |ms| == |es| && HonestRun(c, es, ms) && i < |es|
    ensures HonestRun(c, es[..i], ms[..i]) && Sampled(c, es[i], ms[i])
  {
    var n := |es| - 1;
    if i < n {
      assert es[..n][..i] == es[..i] && ms[..n][..i] == ms[..i];
      HonestAt(c, es[..n], ms[..n], i);
    }
  }

  /** Had the samples been taken under the lock, honest clocks would never have stopped the trial. */
  lemma SamplesUnderTheLockNeverStop(c: nat -> Instant, es: seq<Event>, ms: seq<Moments>)
    requires |ms| == |es| && Honest(c) && 0.0 <= c(0).mono && HonestRun(c, es, ms) && SamplesUnderTheLock(es, ms)
    ensures !EverClockStopped(es)
  {
    HonestRunIsStoppedIff(c, es, ms);
    forall i: nat | i < |es| && es[i].ClaimSlot? ensures !StaleAt(es, i) {
      HonestAt(c, es, ms, i);
      RunIsTimely(c, es[..i], ms[..i]);
      assert c(TraceOf(es[..i], ms[..i]).columns).wall <= c(ms[i].at).wall;
      assert c(TraceOf(es[..i], ms[..i]).columns).mono <= c(ms[i].at).mono;
    }
  }

  /**
   A check samples before it has the lock, too: on honest clocks a writer's checkpoint on a trial nobody stopped is
   refused exactly when another process committed a later reading in between. This refusal leaves no stop.
   */
  lemma HonestCheckpointRefusedIff(c: nat -> Instant, es: seq<Event>, ms: seq<Moments>, id: nat, m: Moments, env: CheckEnv)
    requires |ms| == |es| && Honest(c) && 0.0 <= c(0).mono && HonestRun(c, es, ms)
    requires var s := Run(Prepared(), es);
             id in s.holders && s.holders[id].writer && s.trial.stopped.None? && Own(TraceOf(es, ms), id) <= m.at
             && c(m.at).wall < s.holders[id].deadline.wall && c(m.at).mono < s.holders[id].deadline.mono
    requires env.at == c(m.at) && env.checkpoint
    ensures var s := Run(Prepared(), es);
            var r := CheckStep(s.trial, s.holders[id], env);
            && (r.refusal == Some(LeaseClockOrMissing) <==> c(m.at).wall < c(TraceOf(es, ms).columns).wall)
            && (r.refusal == Some(LeaseClockOrMissing) ==> r.trial == s.trial)
  {
    RunIsTimely(c, es, ms);
    RunKeeps(es);
    var s := Run(Prepared(), es);
    var k: nat :| k <= Own(TraceOf(es, ms), id) && s.holders[id].lastClock == c(k);
    HonestJumpIff(c, m.at, k);
    CheckpointRefusedIff(s.trial, s.holders[id], env);
  }

  /**
   On honest clocks the check of a writer passes exactly when the hour is not over and, if a checkpoint is due, it commits
   on a trial nobody stopped and in which no later reading was committed, with the hour still not over afterwards.
   */
  lemma HonestCheckPassesIff(c: nat -> Instant, es: seq<Event>, ms: seq<Moments>, id: nat, m: Moments, env: CheckEnv)
    requires |ms| == |es| && Honest(c) && 0.0 <= c(0).mono && HonestRun(c, es, ms)
    requires var s := Run(Prepared(), es);
             id in s.holders && s.holders[id].writer && Own(TraceOf(es, ms), id) <= m.at <= m.after
    requires env.at == c(m.at) && env.after == c(m.after)
    ensures var s := Run(Prepared(), es);
            && s.trial.first.Some?
            && (CheckStep(s.trial, s.holders[id], env).refusal.None? <==>
                && !Expired(s.trial.first.value, c(m.at))
                && (env.checkpoint || c(m.at).mono - s.holders[id].lastCheckpoint >= 1.0 ==>
                      && s.trial.stopped.None? && env.commits && c(TraceOf(es, ms).columns).wall <= c(m.at).wall
                      && !Expired(s.trial.first.value, c(m.after))))
  {
    RunIsTimely(c, es, ms);
    RunKeeps(es);
    WritersShareOneHour(es, id);
    var s := Run(Prepared(), es);
    var k: nat :| k <= Own(TraceOf(es, ms), id) && s.holders[id].lastClock == c(k);
    HonestJumpIff(c, m.at, k);
    HonestJumpIff(c, m.after, m.at);
    CheckPassesIff(s.trial, s.holders[id], env);
  }

  lemma CheckpointRefusedIff(t: Trial, h: Holder, env: CheckEnv)
    requires h.writer && ClockReason(h, env.at).None? && env.checkpoint && t.last.Some? && t.stopped.None?
    ensures var r := CheckStep(t, h, env);
            && (r.refusal == Some(LeaseClockOrMissing) <==> env.at.wall < t.last.value.wall)
            && (r.refusal == Some(LeaseClockOrMissing) ==> r.trial == t)
  {
  }
}
