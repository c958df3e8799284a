/**
 Stream lanes driven by the pipeline. A driver follows what the pipeline does next for one worker while other lanes act
 in between; its turns are the pipeline's turns, and when its charges fit the margin and its tail the overhead, the run
 is paced. So lanes that run the pipeline never overbook the pool.
 */
module PipelinePacing {
  import opened Options
  import opened CanaryLedger
  import opened CanaryProtocol
  import opened CanaryPacing
  import opened Pipeline

  /** A segment to be collected; `rest` are the bytes of files written beside the sinks once the loop is over. */
  datatype Plan = Plan(frames: seq<Frame>, every: nat, end: Shutdown, rest: nat)

  /** Where a pipeline stands: frames taken, what its sinks wrote and charged, and whether a frame is being written. */
  datatype Drive = Drive(taken: nat, totals: Totals, charged: nat, exit: Option<Exit>, writing: bool, done: bool)

  const IDLE := Drive(0, Totals(0, 0, 0, 0, 0), 0, None, false, false)

  function SegmentOf(s: System, id: nat, d: Drive): Segment
    requires id in s.workers
  {
    Segment(s.ledger, s.workers[id], d.totals, d.charged, d.exit)
  }

  function Closing(d: Drive, end: Shutdown): Totals {
    d.totals.(metrics := d.totals.metrics + if end.metrics.Some? then end.metrics.value else 0)
  }

  // ---- the driver's steps ----

  ghost function Admitted(d: Drive, p: Plan, refusal: Option<Reason>): Drive
    requires d.taken < |p.frames|
  {
    var f := p.frames[d.taken];
    if refusal.Some? then d.(taken := d.taken + 1, exit := Some(Refused(refusal.value)))
    else if FailsWriting(f) then d.(taken := d.taken + 1, totals := FrameWritten(d.totals, f), exit := Some(Raised))
    else d.(writing := true)
  }

  /** After the charge: overshoot, deadline, or a metrics row if one is due. */
  ghost function Charging(d: Drive, p: Plan, w: Worker): Drive
    requires d.taken < |p.frames|
  {
    var f := p.frames[d.taken];
    var t := FrameWritten(d.totals, f);
    var next := Drive(d.taken + 1, t, Written(t), None, false, false);
    if w.accounted > w.reserved && w.stopReason.Some? then next.(exit := Some(Overshot(w.stopReason.value)))
    else if f.late then next.(exit := Some(DeadlineReached))
    else if !FlushDue(p.every, t.messages) then next
    else if f.failsAt.Some? then next.(exit := Some(Raised))
    else next.(totals := t.(metrics := t.metrics + f.flush))
  }

  ghost function Driven(d: Drive, p: Plan, s: System, e: Event, id: nat): Drive {
    match e {
      case AdmitNext(k, env) =>
        if k == id && Enabled(s, e) && d.taken < |p.frames| then Admitted(d, p, AdmitStep(s.ledger, s.workers[id], env).refusal)
        else d
      case ChargeFrame(k, nbytes) =>
        if k != id || !Enabled(s, e) then d
        else if d.writing && d.taken < |p.frames| then Charging(d, p, Charged(s.workers[id], nbytes))
        else d.(totals := Closing(d, p.end), charged := Written(Closing(d, p.end)), done := true)
      case _ => d
    }
  }

  /** What the pipeline does next, charges within the margin and a tail within the overhead included. */
  ghost predicate Follows(d: Drive, p: Plan, s: System, e: Event)
    requires ActorOf(e) in s.workers
  {
    match e {
      case AdmitNext(id, env) =>
        && Enabled(s, e) && s.workers[id].kind.Stream? && !d.writing && !d.done && d.exit.None? && d.taken < |p.frames|
        && env == p.frames[d.taken].env && ChargeAt(p.frames, d.taken, p.every) <= FRAME_MARGIN_BYTES
      case ChargeFrame(id, nbytes) =>
        && Enabled(s, e) && s.workers[id].kind.Stream?
        && if d.writing then
             d.taken < |p.frames| && nbytes == Written(FrameWritten(d.totals, p.frames[d.taken])) - d.charged
           else
             && !d.done && (d.exit.Some? || d.taken == |p.frames|)
             && nbytes == Written(Closing(d, p.end)) - d.charged && nbytes + p.rest <= SEGMENT_OVERHEAD_BYTES
      case CloseGrant(id, measured, _, _) => s.workers[id].kind.Stream? ==> d.done && measured <= Written(d.totals) + p.rest
      case _ => true
    }
  }

  ghost function DriveOf(plan: Plan, s: System, es: seq<Event>, id: nat): Drive {
    if es == [] then IDLE
    else
      var n := |es| - 1;
      Driven(DriveOf(plan, s, es[..n], id), plan, Run(s, es[..n]), es[n], id)
  }

  predicate Own(e: Event) {
    e.AdmitNext? || e.ChargeFrame? || e.CloseGrant?
  }

  /** Every worker's own events follow its pipeline; claims, deaths and operators come in between as they like. */
  ghost predicate DrivenRun(plans: nat -> Plan, s: System, es: seq<Event>) {
    es == []
    || var n := |es| - 1;
       && DrivenRun(plans, s, es[..n])
       && (Own(es[n]) ==>
             var id := ActorOf(es[n]);
             && id in Run(s, es[..n]).workers
             && Follows(DriveOf(plans(id), s, es[..n], id), plans(id), Run(s, es[..n]), es[n]))
  }

  // ---- the driver is the pipeline ----

  /** Admission and charge with nothing in between make one turn of the pipeline. */
  lemma TurnIsFrameStep(s: System, id: nat, d: Drive, p: Plan)
    requires id in s.workers && Running(s, id) && GrantKnown(s, id) && !d.writing && !d.done && d.exit.None?
    requires d.taken < |p.frames| && p.frames[d.taken].found == s.ledger && d.charged <= Written(d.totals)
    requires s.workers[id].grant.Some?
    ensures var f := p.frames[d.taken];
            var admit := AdmitNext(id, f.env);
            var s1, d1 := Step(s, admit), Driven(d, p, s, admit, id);
            var next := FrameStep(SegmentOf(s, id, d), f, p.every);
            && id in s1.workers
            && (!d1.writing ==> SegmentOf(s1, id, d1) == next)
            && (d1.writing && Running(s1, id) ==>
                  && d1.charged <= Written(FrameWritten(d1.totals, f))
                  && var charge := ChargeFrame(id, Written(FrameWritten(d1.totals, f)) - d1.charged);
                     SegmentOf(Step(s1, charge), id, Driven(d1, p, s1, charge, id)) == next)
  {
  }

  // ---- driven runs are paced ----

  /** The metrics row written since the last charge. */
  function Pending(d: Drive, p: Plan): nat {
    if 0 < d.taken <= |p.frames| && FlushDue(p.every, d.taken) then p.frames[d.taken - 1].flush else 0
  }

  /** What the driver's books and the meter agree on. */
  ghost predicate InStep(d: Drive, p: Plan, m: Meter) {
    if d.done then !d.writing && Written(d.totals) + p.rest <= m.frames + SEGMENT_OVERHEAD_BYTES
    else
      && m.frames == d.charged <= Written(d.totals)
      && (d.writing ==>
            && m.admitted && d.exit.None? && d.taken < |p.frames| && !FailsWriting(p.frames[d.taken])
            && ChargeAt(p.frames, d.taken, p.every) <= FRAME_MARGIN_BYTES)
      && (d.exit.None? ==> d.totals.messages == d.taken <= |p.frames| && Written(d.totals) - d.charged == Pending(d, p))
  }

  lemma AdmissionInStep(d: Drive, p: Plan, s: System, m: Meter, e: Event)
    requires InStep(d, p, m) && e.AdmitNext? && e.id in s.workers && Follows(d, p, s, e)
    ensures InStep(Driven(d, p, s, e, e.id), p, Metered(m, s, e, e.id))
  {
  }

  /** A frame's charge is its bytes and the metrics row before it. */
  lemma FrameChargeInStep(d: Drive, p: Plan, s: System, m: Meter, e: Event)
    requires InStep(d, p, m) && e.ChargeFrame? && e.id in s.workers && Follows(d, p, s, e) && d.writing && !d.done
    ensures e.nbytes <= FRAME_MARGIN_BYTES && InStep(Driven(d, p, s, e, e.id), p, Metered(m, s, e, e.id))
  {
    var f := p.frames[d.taken];
    FrameBytesAreWritten(d.totals, f);
    assert e.nbytes == ChargeAt(p.frames, d.taken, p.every);
    var next := Charging(d, p, Charged(s.workers[e.id], e.nbytes));
    assert next.charged == d.charged + e.nbytes && next.taken == next.totals.messages;
  }

  /** The shutdown's charge; with the files beside the sinks it fits the overhead. */
  lemma TailInStep(d: Drive, p: Plan, s: System, m: Meter, e: Event)
    requires InStep(d, p, m) && e.ChargeFrame? && e.id in s.workers && Follows(d, p, s, e) && !d.writing
    ensures e.nbytes <= FRAME_MARGIN_BYTES && InStep(Driven(d, p, s, e, e.id), p, Metered(m, s, e, e.id))
  {
  }

  lemma OwnEventIsPaced(d: Drive, p: Plan, s: System, m: Meter, e: Event)
    requires InStep(d, p, m) && Own(e) && ActorOf(e) in s.workers && Follows(d, p, s, e)
    requires s.workers[ActorOf(e)].kind.Stream?
    ensures PacedStep(FRAME_MARGIN_BYTES, SEGMENT_OVERHEAD_BYTES, s, m, e)
    ensures InStep(Driven(d, p, s, e, ActorOf(e)), p, Metered(m, s, e, ActorOf(e)))
  {
    if e.AdmitNext? {
      AdmissionInStep(d, p, s, m, e);
    } else if e.ChargeFrame? {
      if d.writing {
        FrameChargeInStep(d, p, s, m, e);
      } else {
        TailInStep(d, p, s, m, e);
      }
    }
  }

  /** Other workers' events leave a driver and its meter alone. */
  lemma OthersLeaveInStep(d: Drive, p: Plan, s: System, m: Meter, e: Event, id: nat)
    requires InStep(d, p, m) && (Own(e) ==> ActorOf(e) != id)
    ensures Driven(d, p, s, e, id) == d && Metered(m, s, e, id) == m
  {
  }

  lemma IdleIsInStep(p: Plan)
    ensures InStep(IDLE, p, Meter(0, false))
  {
  }

  lemma {:induction false} DrivenWorkerIsInStep(plans: nat -> Plan, s: System, es: seq<Event>, id: nat)
    requires DrivenRun(plans, s, es)
    requires id in Run(s, es).workers ==> Run(s, es).workers[id].kind.Stream?
    ensures InStep(DriveOf(plans(id), s, es, id), plans(id), MeterOf(s, es, id))
  {
    if es == [] {
      IdleIsInStep(plans(id));
    } else {
      var n := |es| - 1;
      var t := Run(s, es[..n]);
      if id in t.workers {
        KindStays(t, es[n], id);
      }
      DrivenWorkerIsInStep(plans, s, es[..n], id);
      var d, m := DriveOf(plans(id), s, es[..n], id), MeterOf(s, es[..n], id);
      if Own(es[n]) && ActorOf(es[n]) == id {
        OwnEventIsPaced(d, plans(id), t, m, es[n]);
      } else {
        OthersLeaveInStep(d, plans(id), t, m, es[n], id);
      }
    }
  }

  lemma KindStays(s: System, e: Event, id: nat)
    requires id in s.workers
    ensures id in Step(s, e).workers && Step(s, e).workers[id].kind == s.workers[id].kind
  {
  }

  lemma {:induction false} DrivenIsPaced(plans: nat -> Plan, s: System, es: seq<Event>)
    requires DrivenRun(plans, s, es)
    ensures Paced(FRAME_MARGIN_BYTES, SEGMENT_OVERHEAD_BYTES, s, es)
  {
    if es != [] {
      var n := |es| - 1;
      var t, id := Run(s, es[..n]), ActorOf(es[n]);
      DrivenIsPaced(plans, s, es[..n]);
      if Own(es[n]) && t.workers[id].kind.Stream? {
        DrivenWorkerIsInStep(plans, s, es[..n], id);
        OwnEventIsPaced(DriveOf(plans(id), s, es[..n], id), plans(id), t, MeterOf(s, es[..n], id), es[n]);
      }
    }
  }

  /** End to end: lanes that run the pipeline within its margins never overbook the pool, whatever commits are lost. */
  lemma PipelinesNeverOverbook(plans: nat -> Plan, s: System, es: seq<Event>)
    requires Prepared(s) && DrivenRun(plans, s, es)
    ensures var l := Run(s, es).ledger; Committed(l.grants) <= Pool(l) + Overshoots(l.grants)
  {
    DrivenIsPaced(plans, s, es);
    PoolIsNeverOverbooked(s, es);
  }
}
