/**
 The canary's deadline. All grants of an attempt share one, counted from the first; no frame is let in after it and no
 claim succeeds within a minute of it. Both rest on exactly when an admission and a claim are let through.
 */
module CanaryDeadline {
  import opened Options
  import opened CanaryLedger
  import opened CanaryProtocol
  import opened CanarySafety

  /** A first claim needs no window; a later one needs a clock that agrees and a minute left on both deadlines. */
  predicate WindowOpen(l: Ledger, now: Instant) {
    l.first.Some? && l.last.Some? ==>
      && SaneRow(l.first.value, l.last.value) && !Backwards(now, l.last.value)
      && now.wall + MIN_CLAIM_SECONDS <= l.first.value.wall + l.maxSeconds
      && now.mono < l.first.value.mono + l.maxSeconds
  }

  /** Room after the lane's abandoned rows are charged what their runs hold. */
  predicate RoomFor(l: Ledger, rows: seq<Grant>, kind: Kind) {
    |rows| < l.maxGrants && Initial(kind) <= Pool(l) - ClosedConsumed(rows) && Initial(kind) <= Pool(l) - Committed(rows)
  }

  lemma ClaimSucceedsIff(l: Ledger, lane: string, kind: Kind, identity: string, worker: nat, now: Instant,
                         probe: nat -> Liveness, size: nat -> nat)
    ensures Claim(l, lane, kind, identity, worker, now, probe, size).refusal.None? <==>
            && l.stopped.None? && lane in l.lanes && l.lanes[lane] == Lane(kind, identity) && WindowOpen(l, now)
            && !Blocked(l.grants, Some(lane), probe)
            && RoomFor(l, Reconciled(l.grants, Some(lane), probe, size), kind)
  {
    GuardPassesIff(l, lane, kind, identity, now);
  }

  lemma GuardPassesIff(l: Ledger, lane: string, kind: Kind, identity: string, now: Instant)
    ensures ClaimGuard(l, lane, kind, identity, now).None? <==>
            l.stopped.None? && lane in l.lanes && l.lanes[lane] == Lane(kind, identity) && WindowOpen(l, now)
  {
  }

  /** What the transaction of an admission must find; a chunk also needs disk headroom for all that may still be written. */
  predicate CheckpointPasses(l: Ledger, w: Worker, env: AdmitEnv) {
    && env.connects && env.commits && l.stopped.None?
    && (l.last.Some? ==> l.last.value.wall <= env.locked.wall)
    && (NeedsChunk(w) ==>
          && FRAME_MARGIN_BYTES <= Pool(l) - Committed(l.grants)
          && (env.free.Some? ==> RequiredFree(Pool(l) - ClosedConsumed(l.grants), 0, w.minFree) <= env.free.value))
    && !Reached(w.deadline, env.after)
  }

  /** A frame is admitted before the deadline only, also when the database stalled in between. */
  lemma FrameAdmittedIff(l: Ledger, w: Worker, env: AdmitEnv)
    requires w.grant.Some? ==> w.grant.value < |l.grants|
    ensures AdmitStep(l, w, env).refusal.None? <==>
            && w.grant.Some? && w.stopReason.None? && !Backwards(env.at, w.lastClock) && !Reached(w.deadline, env.at)
            && ((!NeedsChunk(w) && env.at.mono - w.lastCheckpoint < 1.0) || CheckpointPasses(l, w, env))
  {
    if w.grant.Some? {
      TransactionPassesIff(l, w.(lastClock := env.at), env);
    }
  }

  lemma TransactionPassesIff(l: Ledger, w: Worker, env: AdmitEnv)
    requires w.grant.Some? && w.grant.value < |l.grants|
    ensures AdmitTransaction(l, w, env).refusal.None? && env.connects && !Reached(w.deadline, env.after)
            <==> CheckpointPasses(l, w, env)
  {
  }

  // ---- one deadline ----

  /** The window opened by the first grant, and every grant's own deadline. */
  ghost predicate OneDeadline(s: System) {
    forall id :: id in s.workers && s.workers[id].grant.Some? ==>
      s.ledger.first.Some? && s.workers[id].deadline == Deadline(s.ledger.first.value, s.ledger.maxSeconds)
  }

  /** The first grant's clock reading and the length of the attempt never change again. */
  ghost predicate WindowKept(a: Ledger, b: Ledger) {
    (a.first.Some? ==> b.first == a.first) && b.maxSeconds == a.maxSeconds
  }

  lemma ClaimKeepsWindow(l: Ledger, w: Worker, id: nat, now: Instant, probe: nat -> Liveness, size: nat -> nat, commits: bool)
    requires w.grant.None?
    ensures var r := ClaimStep(l, w, id, now, probe, size, commits);
            WindowKept(l, r.ledger)
            && (r.worker.grant.Some? ==>
                  r.ledger.first.Some? && r.worker.deadline == Deadline(r.ledger.first.value, r.ledger.maxSeconds))
  {
    ClaimShape(l, w.lane, w.kind, w.identity, id, now, probe, size);
  }

  lemma StepKeepsDeadline(s: System, e: Event)
    requires Inv(s) && OneDeadline(s)
    ensures OneDeadline(Step(s, e)) && WindowKept(s.ledger, Step(s, e).ledger)
  {
    if Enabled(s, e) {
      match e {
        case ClaimGrant(id, now, probe, size, commits) =>
          ClaimKeepsWindow(s.ledger, s.workers[id], id, now, probe, size, commits);
        case AdmitNext(id, env) =>
          assert WorkerOk(s, id);
          AdmitShape(s.ledger, s.workers[id], env);
        case _ =>
      }
    }
  }

  lemma {:induction false} EveryGrantSharesTheDeadline(s: System, es: seq<Event>)
    requires Prepared(s)
    ensures OneDeadline(Run(s, es))
  {
    if es != [] {
      var n := |es| - 1;
      EveryGrantSharesTheDeadline(s, es[..n]);
      EveryRunIsSafe(s, es[..n]);
      StepKeepsDeadline(Run(s, es[..n]), es[n]);
    }
  }

  predicate Before(now: Instant, deadline: Instant) {
    now.wall < deadline.wall && now.mono < deadline.mono
  }

  /**
   Over every run: a frame is let in only before the deadline counted from the attempt's first grant, on both clocks, and
   when the database was asked in between, again after it answered and only if nobody had stopped the attempt.
   */
  lemma NoFrameAfterTheDeadline(s: System, es: seq<Event>, id: nat, env: AdmitEnv)
    requires Prepared(s) && Running(Run(s, es), id)
    requires GrantKnown(Run(s, es), id) && AdmitStep(Run(s, es).ledger, Run(s, es).workers[id], env).refusal.None?
    ensures var t := Run(s, es);
            var w := t.workers[id];
            && t.ledger.first.Some?
            && var deadline := Deadline(t.ledger.first.value, t.ledger.maxSeconds);
               && Before(env.at, deadline)
               && (NeedsChunk(w) || env.at.mono - w.lastCheckpoint >= 1.0 ==> Before(env.after, deadline) && t.ledger.stopped.None?)
  {
    EveryGrantSharesTheDeadline(s, es);
    FrameAdmittedIff(Run(s, es).ledger, Run(s, es).workers[id], env);
  }

  /** Over every run: a claim that succeeds leaves its worker a minute of wall time before the shared deadline, or opens it. */
  lemma ClaimLeavesAMinute(s: System, es: seq<Event>, e: Event)
    requires Prepared(s) && e.ClaimGrant? && Enabled(Run(s, es), e) && 60.0 <= s.ledger.maxSeconds
    requires Step(Run(s, es), e).workers[e.id].grant.Some?
    ensures var t := Run(s, es);
            var w := Step(t, e).workers[e.id];
            && e.now.wall + MIN_CLAIM_SECONDS <= w.deadline.wall && e.now.mono < w.deadline.mono
            && t.ledger.stopped.None? && (t.ledger.first.Some? ==> w.deadline == Deadline(t.ledger.first.value, s.ledger.maxSeconds))
  {
    var t := Run(s, es);
    var w := t.workers[e.id];
    WindowStays(s, es);
    ClaimSucceedsIff(t.ledger, w.lane, w.kind, w.identity, e.id, e.now, e.probe, e.size);
    ClaimKeepsWindow(t.ledger, w, e.id, e.now, e.probe, e.size, e.commits);
    FirstOfClaim(t.ledger, w, e.id, e.now, e.probe, e.size, e.commits);
  }

  lemma FirstOfClaim(l: Ledger, w: Worker, id: nat, now: Instant, probe: nat -> Liveness, size: nat -> nat, commits: bool)
    requires w.grant.None? && ClaimStep(l, w, id, now, probe, size, commits).worker.grant.Some?
    ensures Claim(l, w.lane, w.kind, w.identity, id, now, probe, size).refusal.None?
    ensures ClaimStep(l, w, id, now, probe, size, commits).ledger.first == Some(if l.first.Some? then l.first.value else now)
  {
    ClaimShape(l, w.lane, w.kind, w.identity, id, now, probe, size);
  }

  /** The clock columns are set together, and the length of the attempt is what it was prepared with. */
  lemma {:induction false} WindowStays(s: System, es: seq<Event>)
    requires Prepared(s)
    ensures var l := Run(s, es).ledger; l.maxSeconds == s.ledger.maxSeconds && (l.first.Some? ==> l.last.Some?)
  {
    if es != [] {
      var n := |es| - 1;
      WindowStays(s, es[..n]);
      EveryRunIsSafe(s, es[..n]);
      EveryGrantSharesTheDeadline(s, es[..n]);
      StepKeepsDeadline(Run(s, es[..n]), es[n]);
      StepKeepsColumns(Run(s, es[..n]), es[n]);
    }
  }

  lemma StepKeepsColumns(s: System, e: Event)
    requires Inv(s) && (s.ledger.first.Some? ==> s.ledger.last.Some?)
    ensures Step(s, e).ledger.first.Some? ==> Step(s, e).ledger.last.Some?
  {
    if Enabled(s, e) && e.ClaimGrant? {
      var w := s.workers[e.id];
      ClaimShape(s.ledger, w.lane, w.kind, w.identity, e.id, e.now, e.probe, e.size);
    } else if Enabled(s, e) && e.AdmitNext? {
      assert WorkerOk(s, e.id);
      AdmitColumns(s.ledger, s.workers[e.id], e.env);
    }
  }

  lemma TransactionColumns(l: Ledger, w: Worker, env: AdmitEnv)
    requires w.grant.Some? && w.grant.value < |l.grants|
    ensures var r := AdmitTransaction(l, w, env); r.ledger.first == l.first && (l.last.Some? ==> r.ledger.last.Some?)
  {
  }

  lemma AdmitColumns(l: Ledger, w: Worker, env: AdmitEnv)
    requires w.grant.Some? ==> w.grant.value < |l.grants|
    ensures var r := AdmitStep(l, w, env); r.ledger.first == l.first && (l.last.Some? ==> r.ledger.last.Some?)
  {
    if w.grant.Some? {
      TransactionColumns(l, w.(lastClock := env.at), env);
    }
  }
}
