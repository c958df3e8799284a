/**
 Clocks shared by all canary workers. When every sample comes from one nondecreasing pair of clocks that drift apart
 by at most one percent, no run stops for its clock and the corruption branch of a claim is never taken. What makes
 this true is that a transaction samples the clock after it holds the lock.
 */
module CanaryClocks {
  import opened Options
  import opened CanaryLedger
  import opened CanaryProtocol
  import opened CanarySafety

  /** What the wall and monotonic clocks read at each moment of true time. */
  type Clock = nat -> Instant

  ghost predicate Later(a: Instant, b: Instant) {
    && a.wall <= b.wall && a.mono <= b.mono
    && Abs((b.wall - a.wall) - (b.mono - a.mono)) <= CLOCK_SLEW_FRACTION * (b.mono - a.mono)
  }

  ghost predicate Honest(c: Clock) {
    0.0 <= c(0).mono && forall i: nat, j: nat :: i <= j ==> Later(c(i), c(j))
  }

  lemma LaterIsNotBackwards(a: Instant, b: Instant)
    requires Later(a, b)
    ensures !Backwards(b, a)
  {
  }

  // ---- when the samples of an event are taken ----

  datatype Moments = Moments(at: nat, locked: nat)

  ghost predicate Sampled(c: Clock, e: Event, m: Moments) {
    match e {
      case ClaimGrant(_, now, _, _, _) => now == c(m.locked)
      case AdmitNext(_, env) => env.at == c(m.at) && env.locked == c(m.locked) && m.at <= m.locked
      case OperatorStop(reason) => reason.Token?
      case _ => true
    }
  }

  predicate EntersTransaction(w: Worker, env: AdmitEnv) {
    && w.grant.Some? && w.stopReason.None? && !Backwards(env.at, w.lastClock) && !Reached(w.deadline, env.at)
    && (NeedsChunk(w) || env.at.mono - w.lastCheckpoint >= 1.0) && env.connects
  }

  ghost predicate TakesLock(s: System, e: Event) {
    && Enabled(s, e)
    && (e.ClaimGrant? || (e.AdmitNext? && EntersTransaction(s.workers[e.id], e.env)))
  }

  /** The latest sample taken under the lock, and the latest sample of each worker. */
  datatype Trace = Trace(lock: nat, own: map<nat, nat>)

  function Own(tr: Trace, id: nat): nat {
    if id in tr.own then tr.own[id] else 0
  }

  ghost function Traced(tr: Trace, s: System, e: Event, m: Moments): Trace {
    var lock := if TakesLock(s, e) then m.locked else tr.lock;
    match e {
      case ClaimGrant(id, _, _, _, _) => Trace(lock, tr.own[id := m.locked])
      case AdmitNext(id, _) => Trace(lock, tr.own[id := m.at])
      case _ => tr
    }
  }

  /** Lock holders follow one another in true time, and so do the samples of one worker. */
  ghost predicate InOrder(tr: Trace, s: System, e: Event, m: Moments) {
    && (TakesLock(s, e) ==> tr.lock <= m.locked)
    && (e.ClaimGrant? ==> Own(tr, e.id) <= m.locked)
    && (e.AdmitNext? ==> Own(tr, e.id) <= m.at)
  }

  ghost function TraceOf(s: System, es: seq<Event>, ms: seq<Moments>): Trace
    requires |ms| == |es|
  {
    if es == [] then Trace(0, map[])
    else
      var n := |es| - 1;
      Traced(TraceOf(s, es[..n], ms[..n]), Run(s, es[..n]), es[n], ms[n])
  }

  ghost predicate HonestRun(c: Clock, s: System, es: seq<Event>, ms: seq<Moments>)
    requires |ms| == |es|
  {
    es == []
    || var n := |es| - 1;
       && HonestRun(c, s, es[..n], ms[..n]) && Sampled(c, es[n], ms[n])
       && InOrder(TraceOf(s, es[..n], ms[..n]), Run(s, es[..n]), es[n], ms[n])
  }

  // ---- what holds throughout ----

  predicate ClockReason(r: Option<Reason>) {
    r == Some(CanaryClock) || r == Some(CanaryCorrupt)
  }

  ghost predicate LedgerTimes(c: Clock, tr: Trace, l: Ledger) {
    && !ClockReason(l.stopped) && l.first.Some? == l.last.Some? && (l.grants != [] ==> l.last.Some?)
    && (l.last.Some? ==> exists j: nat, k: nat :: j <= k <= tr.lock && l.first.value == c(j) && l.last.value == c(k))
  }

  ghost predicate WorkerTimes(c: Clock, tr: Trace, id: nat, w: Worker) {
    && !ClockReason(w.stopReason)
    && (w.grant.Some? ==> exists k: nat :: k <= Own(tr, id) && w.lastClock == c(k))
  }

  ghost predicate Timely(c: Clock, tr: Trace, s: System) {
    && LedgerTimes(c, tr, s.ledger)
    && forall id :: id in s.workers ==> WorkerTimes(c, tr, id, s.workers[id])
  }

  ghost predicate ClockFailsClaim(l: Ledger, now: Instant) {
    l.first.Some? && l.last.Some? && (Backwards(now, l.last.value) || !SaneRow(l.first.value, l.last.value))
  }

  lemma GuardStops(l: Ledger, lane: string, kind: Kind, identity: string, now: Instant)
    ensures var g := ClaimGuard(l, lane, kind, identity, now);
            g.Some? && l.stopped.None? && ClockReason(Some(g.value.reason)) ==> ClockFailsClaim(l, now)
  {
  }

  /** The only ways a claim's transaction can stop the attempt for its clock. */
  lemma ClaimStops(l: Ledger, lane: string, kind: Kind, identity: string, worker: nat, now: Instant,
                   probe: nat -> Liveness, size: nat -> nat)
    ensures var o := Claim(l, lane, kind, identity, worker, now, probe, size);
            o.ledger.stopped == l.stopped || !ClockReason(o.ledger.stopped) || ClockFailsClaim(l, now)
  {
    GuardStops(l, lane, kind, identity, now);
  }

  /** How a claim touches the clock columns. */
  lemma ClaimTimes(l: Ledger, w: Worker, id: nat, now: Instant, probe: nat -> Liveness, size: nat -> nat, commits: bool)
    requires w.grant.None?
    ensures var r := ClaimStep(l, w, id, now, probe, size, commits);
            && ((r.ledger.last == l.last && r.ledger.first == l.first && |r.ledger.grants| == |l.grants| && r.worker == w)
                || (r.ledger.last == Some(now) && r.ledger.first == Some(if l.first.Some? then l.first.value else now)
                    && r.worker.lastClock == now && r.worker.stopReason == w.stopReason))
            && (r.ledger.stopped == l.stopped || !ClockReason(r.ledger.stopped) || ClockFailsClaim(l, now))
  {
    ClaimShape(l, w.lane, w.kind, w.identity, id, now, probe, size);
    ClaimStops(l, w.lane, w.kind, w.identity, id, now, probe, size);
    ReconciledLength(l.grants, Some(w.lane), probe, size);
  }

  lemma TransactionTimes(l: Ledger, w: Worker, env: AdmitEnv)
    requires w.grant.Some? && w.grant.value < |l.grants| && w.stopReason.None?
    ensures var r := AdmitTransaction(l, w, env);
            && r.ledger.first == l.first && |r.ledger.grants| == |l.grants|
            && r.worker.grant == w.grant && r.worker.lastClock == w.lastClock
            && (r.ledger.last == l.last || r.ledger.last == Some(env.locked))
            && (ClockReason(r.ledger.stopped) || ClockReason(r.worker.stopReason) ==>
                  ClockReason(l.stopped) || (l.last.Some? && env.locked.wall < l.last.value.wall))
  {
  }

  ghost predicate ClockFailsAdmission(l: Ledger, w: Worker, env: AdmitEnv) {
    || (w.grant.Some? && Backwards(env.at, w.lastClock))
    || (EntersTransaction(w, env) && l.last.Some? && env.locked.wall < l.last.value.wall)
  }

  lemma AdmitTimes(l: Ledger, w: Worker, env: AdmitEnv)
    requires w.grant.Some? ==> w.grant.value < |l.grants|
    ensures var r := AdmitStep(l, w, env);
            && r.ledger.first == l.first && |r.ledger.grants| == |l.grants| && r.worker.grant == w.grant
            && (r.ledger.last == l.last || (r.ledger.last == Some(env.locked) && EntersTransaction(w, env)))
            && (r.worker.lastClock == w.lastClock || r.worker.lastClock == env.at)
            && (ClockReason(r.ledger.stopped) || ClockReason(r.worker.stopReason) ==>
                  ClockReason(l.stopped) || ClockReason(w.stopReason) || ClockFailsAdmission(l, w, env))
  {
    if EntersTransaction(w, env) {
      TransactionTimes(l, w.(lastClock := env.at), env);
    }
  }

  /** How a claim's reply may differ from what it found, as far as clocks go. */
  ghost predicate ClaimReplyTimes(l: Ledger, w: Worker, r: Reply, now: Instant) {
    || (r.ledger.last == l.last && r.ledger.first == l.first && |r.ledger.grants| == |l.grants| && r.worker == w)
    || (r.ledger.last == Some(now) && r.ledger.first == Some(if l.first.Some? then l.first.value else now)
        && r.worker.lastClock == now && r.worker.stopReason == w.stopReason)
  }

  lemma ClaimReplyIsTimely(c: Clock, tr: Trace, s: System, id: nat, r: Reply, locked: nat)
    requires Timely(c, tr, s) && id in s.workers && tr.lock <= locked && Own(tr, id) <= locked
    requires ClaimReplyTimes(s.ledger, s.workers[id], r, c(locked))
    requires r.ledger.stopped == s.ledger.stopped || !ClockReason(r.ledger.stopped)
    ensures Timely(c, Trace(locked, tr.own[id := locked]), Told(s, id, r))
  {
    var tr' := Trace(locked, tr.own[id := locked]);
    ClaimLedgerTimely(c, tr, s.ledger, r.ledger, locked);
    assert WorkerTimes(c, tr, id, s.workers[id]);
    forall k | k in s.workers && k != id ensures WorkerTimes(c, tr', k, s.workers[k]) {
      assert WorkerTimes(c, tr, k, s.workers[k]) && Own(tr', k) == Own(tr, k);
    }
  }

  lemma ClaimIsTimely(c: Clock, tr: Trace, s: System, e: Event, m: Moments)
    requires Honest(c) && Timely(c, tr, s) && e.ClaimGrant? && Enabled(s, e) && Sampled(c, e, m) && InOrder(tr, s, e, m)
    ensures Timely(c, Traced(tr, s, e, m), Step(s, e))
  {
    ClaimTimes(s.ledger, s.workers[e.id], e.id, e.now, e.probe, e.size, e.commits);
    ClaimClocksAgree(c, tr, s.ledger, m.locked);
    ClaimReplyIsTimely(c, tr, s, e.id, ClaimStep(s.ledger, s.workers[e.id], e.id, e.now, e.probe, e.size, e.commits), m.locked);
  }

  lemma ClaimLedgerTimely(c: Clock, tr: Trace, l: Ledger, l': Ledger, locked: nat)
    requires LedgerTimes(c, tr, l) && tr.lock <= locked && (l'.stopped == l.stopped || !ClockReason(l'.stopped))
    requires (l'.last == l.last && l'.first == l.first && |l'.grants| == |l.grants|)
             || (l'.last == Some(c(locked)) && l'.first == Some(if l.first.Some? then l.first.value else c(locked)))
    ensures LedgerTimes(c, Trace(locked, tr.own), l')
  {
    if l.last.Some? {
      var j: nat, k: nat :| j <= k <= tr.lock && l.first.value == c(j) && l.last.value == c(k);
      assert j <= locked && l.first.value == c(j);
    }
  }

  lemma ClaimClocksAgree(c: Clock, tr: Trace, l: Ledger, locked: nat)
    requires Honest(c) && LedgerTimes(c, tr, l) && tr.lock <= locked
    ensures !ClockFailsClaim(l, c(locked))
  {
    if l.last.Some? {
      var j: nat, k: nat :| j <= k <= tr.lock && l.first.value == c(j) && l.last.value == c(k);
      assert Later(c(0), c(j)) && Later(c(j), c(k)) && Later(c(k), c(locked));
      LaterIsNotBackwards(c(k), c(locked));
    }
  }

  lemma AdmissionClocksAgree(c: Clock, tr: Trace, s: System, e: Event, m: Moments)
    requires Honest(c) && Timely(c, tr, s) && e.AdmitNext? && Enabled(s, e) && Sampled(c, e, m) && InOrder(tr, s, e, m)
    ensures !ClockFailsAdmission(s.ledger, s.workers[e.id], e.env)
  {
    var l, w := s.ledger, s.workers[e.id];
    assert WorkerTimes(c, tr, e.id, w);
    if w.grant.Some? {
      var k: nat :| k <= Own(tr, e.id) && w.lastClock == c(k);
      LaterIsNotBackwards(c(k), c(m.at));
    }
    if EntersTransaction(w, e.env) && l.last.Some? {
      var i: nat, j: nat :| i <= j <= tr.lock && l.first.value == c(i) && l.last.value == c(j);
      assert Later(c(j), c(m.locked));
    }
  }

  lemma AdmitIsTimely(c: Clock, tr: Trace, s: System, e: Event, m: Moments)
    requires Honest(c) && Timely(c, tr, s) && e.AdmitNext? && Enabled(s, e) && Sampled(c, e, m) && InOrder(tr, s, e, m)
    ensures Timely(c, Traced(tr, s, e, m), Step(s, e))
  {
    AdmitTimes(s.ledger, s.workers[e.id], e.env);
    AdmissionClocksAgree(c, tr, s, e, m);
    assert WorkerTimes(c, tr, e.id, s.workers[e.id]);
  }

  lemma OtherStepIsTimely(c: Clock, tr: Trace, s: System, e: Event, m: Moments)
    requires Timely(c, tr, s) && Sampled(c, e, m) && Enabled(s, e) && !e.ClaimGrant? && !e.AdmitNext?
    ensures Timely(c, tr, Step(s, e))
  {
    if e.SettleAll? {
      ReconciledLength(s.ledger.grants, None, e.probe, e.size);
    }
    forall id | id in Step(s, e).workers ensures WorkerTimes(c, tr, id, Step(s, e).workers[id]) {
      assert id in s.workers ==> WorkerTimes(c, tr, id, s.workers[id]);
    }
  }

  lemma StepIsTimely(c: Clock, tr: Trace, s: System, e: Event, m: Moments)
    requires Honest(c) && Timely(c, tr, s) && Sampled(c, e, m) && InOrder(tr, s, e, m)
    ensures Timely(c, Traced(tr, s, e, m), Step(s, e))
  {
    if Enabled(s, e) {
      match e {
        case ClaimGrant(_, _, _, _, _) => ClaimIsTimely(c, tr, s, e, m);
        case AdmitNext(_, _) => AdmitIsTimely(c, tr, s, e, m);
        case _ => OtherStepIsTimely(c, tr, s, e, m);
      }
    }
  }

  lemma {:induction false} RunIsTimely(c: Clock, s: System, es: seq<Event>, ms: seq<Moments>)
    requires |ms| == |es| && Prepared(s) && Honest(c) && HonestRun(c, s, es, ms)
    ensures Timely(c, TraceOf(s, es, ms), Run(s, es))
  {
    if es != [] {
      var n := |es| - 1;
      RunIsTimely(c, s, es[..n], ms[..n]);
      StepIsTimely(c, TraceOf(s, es[..n], ms[..n]), Run(s, es[..n]), es[n], ms[n]);
    }
  }

  /** No run under honest clocks is stopped for its clock, and its clock columns are always sane. */
  lemma HonestClocksNeverStop(c: Clock, s: System, es: seq<Event>, ms: seq<Moments>)
    requires |ms| == |es| && Prepared(s) && Honest(c) && HonestRun(c, s, es, ms)
    ensures var t := Run(s, es);
            && t.ledger.stopped != Some(CanaryClock) && t.ledger.stopped != Some(CanaryCorrupt)
            && (forall id :: id in t.workers ==> t.workers[id].stopReason != Some(CanaryClock))
            && (t.ledger.first.Some? ==> t.ledger.last.Some? && SaneRow(t.ledger.first.value, t.ledger.last.value))
  {
    RunIsTimely(c, s, es, ms);
    var l := Run(s, es).ledger;
    if l.first.Some? {
      var j: nat, k: nat :| j <= k <= TraceOf(s, es, ms).lock && l.first.value == c(j) && l.last.value == c(k);
      assert Later(c(0), c(j)) && Later(c(j), c(k));
    }
    forall id | id in Run(s, es).workers ensures Run(s, es).workers[id].stopReason != Some(CanaryClock) {
      assert WorkerTimes(c, TraceOf(s, es, ms), id, Run(s, es).workers[id]);
    }
  }
}
