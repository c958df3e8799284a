/**
 The shared pool when stream workers write the way the pipeline does: frames are charged after the admission that let
 them in, and a closing run holds little more than its frames. The margin kept free at every admission then absorbs
 lost commits, and the bounds under which it does are exact.
 */
module CanaryPacing {
  import opened Options
  import opened CanaryLedger
  import opened CanaryProtocol
  import opened CanarySafety
  import opened CanaryBudget

  /** Bytes charged for admitted frames, and whether a frame is admitted that has not been charged yet. */
  datatype Meter = Meter(frames: nat, admitted: bool)

  ghost function Metered(m: Meter, s: System, e: Event, id: nat): Meter {
    if !Enabled(s, e) then m
    else
      match e {
        case AdmitNext(k, env) =>
          if k == id && AdmitStep(s.ledger, s.workers[id], env).refusal.None? then m.(admitted := true) else m
        case ChargeFrame(k, nbytes) => if k == id && m.admitted then Meter(m.frames + nbytes, false) else m
        case _ => m
      }
  }

  ghost function MeterOf(s: System, es: seq<Event>, id: nat): Meter {
    if es == [] then Meter(0, false)
    else Metered(MeterOf(s, es[..|es| - 1], id), Run(s, es[..|es| - 1]), es[|es| - 1], id)
  }

  /**
   Only stream workers ask for frames and charge them. A charged frame has at most `frame` bytes, and a closing run at
   most `tail` more than its frames: the last metrics row, the replay summary, slack. Snapshot runs and the runs of
   dead workers may hold anything.
   */
  ghost predicate PacedStep(frame: nat, tail: nat, s: System, m: Meter, e: Event) {
    match e {
      case AdmitNext(id, _) => id in s.workers && s.workers[id].kind.Stream?
      case ChargeFrame(id, nbytes) => id in s.workers && s.workers[id].kind.Stream? && (m.admitted ==> nbytes <= frame)
      case CloseGrant(id, measured, _, _) => id in s.workers && (s.workers[id].kind.Stream? ==> measured <= m.frames + tail)
      case _ => true
    }
  }

  function ActorOf(e: Event): nat {
    match e {
      case AdmitNext(id, _) => id
      case ChargeFrame(id, _) => id
      case CloseGrant(id, _, _, _) => id
      case _ => 0
    }
  }

  ghost predicate Paced(frame: nat, tail: nat, s: System, es: seq<Event>) {
    es == []
    || var n := |es| - 1;
       && Paced(frame, tail, s, es[..n])
       && PacedStep(frame, tail, Run(s, es[..n]), MeterOf(s, es[..n], ActorOf(es[n])), es[n])
  }

  // ---- what pacing keeps ----

  const ROOM := FRAME_MARGIN_BYTES + SEGMENT_OVERHEAD_BYTES

  /** The row itself, not only what its worker believes, covers the frames and the room an admission leaves. */
  ghost predicate Covered(frame: nat, s: System, id: nat, m: Meter)
    requires id in s.workers
  {
    var w := s.workers[id];
    match w.grant {
      case None => m == Meter(0, false) && 0 <= w.accounted
      case Some(g) =>
        g < |s.ledger.grants| && !s.ledger.grants[g].closed ==>
          var row := s.ledger.grants[g].reserved;
          if w.kind.Stream? then m.frames <= w.accounted && m.frames + ROOM - (if m.admitted then 0 else frame) <= row
          else row == w.reserved
    }
  }

  ghost predicate PaceKept(frame: nat, s: System, meters: nat -> Meter) {
    && Recorded(s) <= Pool(s.ledger)
    && forall id: nat :: id in s.workers ==> Covered(frame, s, id, meters(id))
  }

  /** An admitted frame finds the room in the row: what the worker had left, or a chunk that was committed. */
  lemma AdmissionLeavesRoom(l: Ledger, w: Worker, env: AdmitEnv, frames: nat)
    requires w.grant.Some? && w.grant.value < |l.grants| && !l.grants[w.grant.value].closed
    requires w.stopReason.None? ==> l.grants[w.grant.value].reserved == w.reserved
    requires frames <= w.accounted && frames + SEGMENT_OVERHEAD_BYTES <= l.grants[w.grant.value].reserved
    ensures var r := AdmitStep(l, w, env);
            && w.grant.value < |r.ledger.grants|
            && l.grants[w.grant.value].reserved <= r.ledger.grants[w.grant.value].reserved
            && (r.refusal.None? ==> frames + ROOM <= r.ledger.grants[w.grant.value].reserved)
  {
    if w.stopReason.None? {
      TransactionLeavesRoom(l, w.(lastClock := env.at), env, frames);
    }
  }

  lemma TransactionLeavesRoom(l: Ledger, w: Worker, env: AdmitEnv, frames: nat)
    requires w.grant.Some? && w.grant.value < |l.grants| && w.stopReason.None?
    requires l.grants[w.grant.value].reserved == w.reserved
    requires frames <= w.accounted && frames + SEGMENT_OVERHEAD_BYTES <= w.reserved
    ensures var r := AdmitTransaction(l, w, env);
            && |r.ledger.grants| == |l.grants|
            && w.reserved <= r.ledger.grants[w.grant.value].reserved
            && (r.refusal.None? ==> frames + ROOM <= r.ledger.grants[w.grant.value].reserved)
  {
  }

  lemma OthersStayCovered(frame: nat, s: System, next: System, actor: Option<nat>, meters: nat -> Meter)
    requires Inv(s) && PaceKept(frame, s, meters) && RowsKept(s, next.ledger.grants, actor)
    requires forall id: nat :: id in next.workers && Some(id) != actor ==> id in s.workers && next.workers[id] == s.workers[id]
    ensures forall id: nat :: id in next.workers && Some(id) != actor ==> Covered(frame, next, id, meters(id))
  {
    forall id: nat | id in next.workers && Some(id) != actor ensures Covered(frame, next, id, meters(id)) {
      assert WorkerOk(s, id) && Covered(frame, s, id, meters(id));
    }
  }

  ghost function After(s: System, meters: nat -> Meter, e: Event): nat -> Meter {
    (id: nat) => Metered(meters(id), s, e, id)
  }

  lemma MetersUnmoved(frame: nat, next: System, s: System, meters: nat -> Meter, e: Event)
    requires PaceKept(frame, next, meters) && !e.AdmitNext? && !e.ChargeFrame?
    ensures PaceKept(frame, next, After(s, meters, e))
  {
    forall id: nat | id in next.workers ensures Covered(frame, next, id, After(s, meters, e)(id)) {
      assert Covered(frame, next, id, meters(id));
    }
  }

  lemma ClaimLeavesTheRest(l: Ledger, w: Worker, id: nat, now: Instant, probe: nat -> Liveness, size: nat -> nat, commits: bool)
    ensures var r := ClaimStep(l, w, id, now, probe, size, commits);
            r.worker.kind == w.kind && r.worker.accounted == w.accounted
  {
  }

  lemma ClaimRowsKept(s: System, e: Event)
    requires Inv(s) && e.ClaimGrant? && Enabled(s, e)
    ensures RowsKept(s, ClaimStep(s.ledger, s.workers[e.id], e.id, e.now, e.probe, e.size, e.commits).ledger.grants, Some(e.id))
  {
    var l, w := s.ledger, s.workers[e.id];
    ClaimShape(l, w.lane, w.kind, w.identity, e.id, e.now, e.probe, e.size);
    ReconciledKept(s, Some(w.lane), e.probe, e.size, Some(e.id));
    if Claim(l, w.lane, w.kind, w.identity, e.id, e.now, e.probe, e.size).refusal.None? {
      NewGrantKept(s, e.id, w.lane, Initial(w.kind), e.probe, e.size);
    }
  }

  /** A claimed row starts with more than a first frame's room. */
  lemma ClaimReplyKeepsPace(frame: nat, s: System, meters: nat -> Meter, id: nat, rs: seq<Grant>, r: Reply)
    requires frame <= FRAME_MARGIN_BYTES && Inv(s) && PaceKept(frame, s, meters) && id in s.workers && s.workers[id].grant.None?
    requires ClaimOutcome(s, id, rs, r) && RowsKept(s, r.ledger.grants, Some(id))
    requires r.worker.kind == s.workers[id].kind && r.worker.accounted == s.workers[id].accounted
    requires Committed(rs) - Overshoots(rs) <= Recorded(s)
    ensures PaceKept(frame, Told(s, id, r), meters)
  {
    var next := Told(s, id, r);
    OthersStayCovered(frame, s, next, Some(id), meters);
    assert Covered(frame, s, id, meters(id));
    assert Covered(frame, next, id, meters(id));
    if r.worker.grant.Some? {
      NoOvershootIsNegative(r.ledger.grants);
    }
  }

  lemma ClaimKeepsPace(frame: nat, s: System, meters: nat -> Meter, e: Event)
    requires frame <= FRAME_MARGIN_BYTES && Inv(s) && PaceKept(frame, s, meters) && e.ClaimGrant? && Enabled(s, e)
    ensures PaceKept(frame, Step(s, e), After(s, meters, e))
  {
    var w := s.workers[e.id];
    var rs := Reconciled(s.ledger.grants, Some(w.lane), e.probe, e.size);
    var r := ClaimStep(s.ledger, w, e.id, e.now, e.probe, e.size, e.commits);
    ClaimHasOutcome(s, e.id, e.now, e.probe, e.size, e.commits);
    ReconciledAt(s.ledger.grants, Some(w.lane), e.probe, e.size);
    ClaimRowsKept(s, e);
    ClaimLeavesTheRest(s.ledger, w, e.id, e.now, e.probe, e.size, e.commits);
    ClaimReplyKeepsPace(frame, s, meters, e.id, rs, r);
    MetersUnmoved(frame, Told(s, e.id, r), s, meters, e);
  }

  /** An admission moves its own row up, and its own meter when it lets a frame in. */
  lemma AdmittedIsCovered(frame: nat, s: System, id: nat, m: Meter, env: AdmitEnv)
    requires frame <= FRAME_MARGIN_BYTES && Inv(s) && Running(s, id) && s.workers[id].kind.Stream? && Covered(frame, s, id, m)
    ensures GrantKnown(s, id)
    ensures var r := AdmitStep(s.ledger, s.workers[id], env);
            Covered(frame, Told(s, id, r), id, if r.refusal.None? then m.(admitted := true) else m)
  {
    assert WorkerOk(s, id);
    AdmitShape(s.ledger, s.workers[id], env);
    if s.workers[id].grant.Some? {
      AdmissionLeavesRoom(s.ledger, s.workers[id], env, m.frames);
    }
  }

  lemma AdmissionKeepsPace(frame: nat, s: System, meters: nat -> Meter, e: Event)
    requires frame <= FRAME_MARGIN_BYTES && Inv(s) && PaceKept(frame, s, meters) && e.AdmitNext? && Enabled(s, e)
    requires s.workers[e.id].kind.Stream?
    ensures PaceKept(frame, Step(s, e), After(s, meters, e))
  {
    assert WorkerOk(s, e.id) && Covered(frame, s, e.id, meters(e.id));
    AdmitShape(s.ledger, s.workers[e.id], e.env);
    AdmitKeeps(s, e.id, e.env);
    OthersStayCovered(frame, s, Step(s, e), Some(e.id), meters);
    AdmittedIsCovered(frame, s, e.id, meters(e.id), e.env);
    NoOvershootIsNegative(Step(s, e).ledger.grants);
  }

  lemma ChargeKeepsPace(frame: nat, s: System, meters: nat -> Meter, e: Event)
    requires Inv(s) && PaceKept(frame, s, meters) && e.ChargeFrame? && Enabled(s, e)
    requires s.workers[e.id].kind.Stream? && (meters(e.id).admitted ==> e.nbytes <= frame)
    ensures PaceKept(frame, Step(s, e), After(s, meters, e))
  {
    OthersStayCovered(frame, s, Step(s, e), Some(e.id), meters);
    assert Covered(frame, s, e.id, meters(e.id));
  }

  /** The row that closes covers what its run holds, or its overshoot is recorded against that very row. */
  lemma CloseKeepsPace(frame: nat, tail: nat, s: System, meters: nat -> Meter, e: Event)
    requires frame + tail <= ROOM && Inv(s) && PaceKept(frame, s, meters) && e.CloseGrant? && Enabled(s, e)
    requires s.workers[e.id].kind.Stream? ==> e.measured <= meters(e.id).frames + tail
    ensures PaceKept(frame, Step(s, e), After(s, meters, e))
  {
    var l, w := s.ledger, s.workers[e.id];
    var next := Step(s, e);
    assert WorkerOk(s, e.id) && Covered(frame, s, e.id, meters(e.id));
    OthersStayCovered(frame, s, next, Some(e.id), meters);
    if next.ledger.grants != l.grants {
      SumsOfUpdate(l.grants, w.grant.value, next.ledger.grants[w.grant.value]);
    }
  }

  lemma SettleKeepsPace(frame: nat, s: System, meters: nat -> Meter, e: Event)
    requires Inv(s) && PaceKept(frame, s, meters) && Enabled(s, e) && e.SettleAll?
    ensures PaceKept(frame, Step(s, e), meters)
  {
    SettleRows(s, e);
    OthersStayCovered(frame, s, Step(s, e), None, meters);
  }

  lemma {:induction false} SettleLeaves(s: System, e: Event)
    requires e.SettleAll?
    ensures var next := Step(s, e);
            || next == s
            || (Enabled(s, e) && next.workers == s.workers && Pool(next.ledger) == Pool(s.ledger)
                && next.ledger.grants == Reconciled(s.ledger.grants, None, e.probe, e.size))
  {
  }

  lemma {:induction false} SettleRows(s: System, e: Event)
    requires Inv(s) && Enabled(s, e) && e.SettleAll?
    ensures var next := Step(s, e);
            && next.workers == s.workers && RowsKept(s, next.ledger.grants, None)
            && Pool(next.ledger) == Pool(s.ledger) && Recorded(next) <= Recorded(s)
  {
    SettleLeaves(s, e);
    ReconciledSums(s.ledger.grants, None, e.probe, e.size);
    ReconciledKept(s, None, e.probe, e.size, None);
  }

  lemma OtherStepKeepsPace(frame: nat, s: System, meters: nat -> Meter, e: Event)
    requires Inv(s) && PaceKept(frame, s, meters) && Enabled(s, e)
    requires e.Spawn? || e.Die? || e.OperatorStop? || e.MarkFinalized?
    requires e.Spawn? ==> meters(e.id) == Meter(0, false)
    ensures PaceKept(frame, Step(s, e), After(s, meters, e))
  {
    OthersStayCovered(frame, s, Step(s, e), if e.Spawn? then Some(e.id) else None, meters);
  }

  lemma StepKeepsPace(frame: nat, tail: nat, s: System, meters: nat -> Meter, e: Event)
    requires frame <= FRAME_MARGIN_BYTES && frame + tail <= ROOM && Inv(s) && PaceKept(frame, s, meters)
    requires PacedStep(frame, tail, s, meters(ActorOf(e)), e)
    requires e.Spawn? && e.id !in s.workers ==> meters(e.id) == Meter(0, false)
    ensures PaceKept(frame, Step(s, e), After(s, meters, e))
  {
    if Enabled(s, e) {
      match e {
        case ClaimGrant(_, _, _, _, _) => ClaimKeepsPace(frame, s, meters, e);
        case AdmitNext(_, _) => AdmissionKeepsPace(frame, s, meters, e);
        case ChargeFrame(_, _) => ChargeKeepsPace(frame, s, meters, e);
        case CloseGrant(_, _, _, _) => CloseKeepsPace(frame, tail, s, meters, e);
        case SettleAll(_, _, _, _) =>
          SettleKeepsPace(frame, s, meters, e);
          MetersUnmoved(frame, Step(s, e), s, meters, e);
        case _ => OtherStepKeepsPace(frame, s, meters, e);
      }
    } else {
      NothingMetered(frame, s, meters, e);
    }
  }

  lemma NothingMetered(frame: nat, s: System, meters: nat -> Meter, e: Event)
    requires PaceKept(frame, s, meters) && !Enabled(s, e)
    ensures PaceKept(frame, s, After(s, meters, e))
  {
    forall id: nat | id in s.workers ensures Covered(frame, s, id, After(s, meters, e)(id)) {
      assert Covered(frame, s, id, meters(id));
    }
  }

  ghost function Meters(s: System, es: seq<Event>): nat -> Meter {
    (id: nat) => MeterOf(s, es, id)
  }

  lemma {:induction false} UnbornHaveNoMeter(s: System, es: seq<Event>, id: nat)
    requires id !in Run(s, es).workers
    ensures MeterOf(s, es, id) == Meter(0, false)
  {
    if es != [] {
      UnbornHaveNoMeter(s, es[..|es| - 1], id);
    }
  }

  lemma {:induction false} PacedRunKeepsPace(frame: nat, tail: nat, s: System, es: seq<Event>)
    requires frame <= FRAME_MARGIN_BYTES && frame + tail <= ROOM && Prepared(s) && Paced(frame, tail, s, es)
    ensures PaceKept(frame, Run(s, es), Meters(s, es))
  {
    if es != [] {
      var n := |es| - 1;
      var t := Run(s, es[..n]);
      PacedRunKeepsPace(frame, tail, s, es[..n]);
      EveryRunIsSafe(s, es[..n]);
      if es[n].Spawn? && es[n].id !in t.workers {
        UnbornHaveNoMeter(s, es[..n], es[n].id);
      }
      StepKeepsPace(frame, tail, t, Meters(s, es[..n]), es[n]);
      MetersFollow(frame, s, es, Step(t, es[n]));
    }
  }

  lemma MetersFollow(frame: nat, s: System, es: seq<Event>, next: System)
    requires es != [] && PaceKept(frame, next, After(Run(s, es[..|es| - 1]), Meters(s, es[..|es| - 1]), es[|es| - 1]))
    ensures PaceKept(frame, next, Meters(s, es))
  {
    var n := |es| - 1;
    forall id: nat | id in next.workers ensures Covered(frame, next, id, Meters(s, es)(id)) {
      assert Covered(frame, next, id, After(Run(s, es[..n]), Meters(s, es[..n]), es[n])(id));
    }
  }

  /**
   The pool over every interleaving of claims, admissions, closes, deaths, stops and settlements, with any number of
   lost commits: a worker that takes a chunk whose commit is lost never writes past its row.
   */
  lemma PoolIsNeverOverbooked(s: System, es: seq<Event>)
    requires Prepared(s) && Paced(FRAME_MARGIN_BYTES, SEGMENT_OVERHEAD_BYTES, s, es)
    ensures var l := Run(s, es).ledger;
            Committed(l.grants) <= Pool(l) + Overshoots(l.grants)
  {
    PacedRunKeepsPace(FRAME_MARGIN_BYTES, SEGMENT_OVERHEAD_BYTES, s, es);
  }
}
