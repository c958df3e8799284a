/**
 The collector pipeline's frame loop under a canary budget: admit, write, charge what the sinks wrote, and on every
 way out write the shutdown metrics row and charge the rest. A script gives what each frame brings, what its admission
 finds in the control database, and where a write raises.
 */
module Pipeline {
  import opened Options
  import opened CanaryLedger
  import opened CanaryProtocol
  import opened CanaryGrants

  datatype Verdict = Verdict(accepted: bool, bytes: nat)

  /** `failsAt` counts the frame's writes (raw, then its events, then the metrics flush): that one raises. */
  datatype Frame = Frame(raw: nat, events: seq<Verdict>, flush: nat, failsAt: Option<nat>, late: bool, found: Ledger,
                         env: AdmitEnv)

  datatype Exit = Refused(reason: Reason) | Overshot(reason: Reason) | DeadlineReached | Raised

  datatype Totals = Totals(raw: nat, clean: nat, quarantine: nat, metrics: nat, messages: nat)

  function Written(t: Totals): nat {
    t.raw + t.clean + t.quarantine + t.metrics
  }

  datatype Segment = Segment(ledger: Ledger, worker: Worker, totals: Totals, charged: nat, exit: Option<Exit>)

  /** The shutdown: whether the stream itself raised, and the last metrics row, if its write succeeds. */
  datatype Shutdown = Shutdown(streamRaises: bool, metrics: Option<nat>)

  // ---- the loop, frame by frame ----

  function CleanBytes(vs: seq<Verdict>): nat {
    if vs == [] then 0 else CleanBytes(vs[..|vs| - 1]) + if vs[|vs| - 1].accepted then vs[|vs| - 1].bytes else 0
  }

  function QuarantineBytes(vs: seq<Verdict>): nat {
    if vs == [] then 0 else QuarantineBytes(vs[..|vs| - 1]) + if vs[|vs| - 1].accepted then 0 else vs[|vs| - 1].bytes
  }

  /** How many of the frame's events are written before a write raises. */
  function Landed(f: Frame): nat {
    if f.failsAt.Some? && 0 < f.failsAt.value <= |f.events| then f.failsAt.value - 1 else |f.events|
  }

  predicate FailsWriting(f: Frame) {
    f.failsAt.Some? && f.failsAt.value <= |f.events|
  }

  function FrameWritten(t: Totals, f: Frame): Totals {
    if f.failsAt == Some(0) then t.(messages := t.messages + 1)
    else
      t.(raw := t.raw + f.raw, clean := t.clean + CleanBytes(f.events[..Landed(f)]),
         quarantine := t.quarantine + QuarantineBytes(f.events[..Landed(f)]), messages := t.messages + 1)
  }

  predicate FlushDue(every: nat, messages: nat) {
    every > 0 && messages % every == 0
  }

  function Flushed(seg: Segment, f: Frame, every: nat): Segment {
    if !FlushDue(every, seg.totals.messages) then seg
    else if f.failsAt.Some? then seg.(exit := Some(Raised))
    else seg.(totals := seg.totals.(metrics := seg.totals.metrics + f.flush))
  }

  lemma AdmissionCharges(l: Ledger, w: Worker, env: AdmitEnv)
    requires w.grant.Some? ==> w.grant.value < |l.grants|
    ensures var r := AdmitStep(l, w, env); r.worker.grant == w.grant && r.worker.accounted == w.accounted
  {
  }

  function FrameStep(seg: Segment, f: Frame, every: nat): (r: Segment)
    requires seg.worker.grant.Some? ==> seg.worker.grant.value < |f.found.grants|
    requires seg.charged <= Written(seg.totals)
    ensures r.charged <= Written(r.totals) && r.worker.grant == seg.worker.grant
    ensures r.worker.accounted - seg.worker.accounted == r.charged - seg.charged
  {
    AdmissionCharges(f.found, seg.worker, f.env);
    if seg.exit.Some? then seg
    else
      var r := AdmitStep(f.found, seg.worker, f.env);
      if r.refusal.Some? then seg.(ledger := r.ledger, worker := r.worker, exit := Some(Refused(r.refusal.value)))
      else
        var t := FrameWritten(seg.totals, f);
        if FailsWriting(f) then Segment(r.ledger, r.worker, t, seg.charged, Some(Raised))
        else
          var w := Charged(r.worker, Written(t) - seg.charged);
          var next := Segment(r.ledger, w, t, Written(t), None);
          if w.accounted > w.reserved && w.stopReason.Some? then next.(exit := Some(Overshot(w.stopReason.value)))
          else if f.late then next.(exit := Some(DeadlineReached))
          else Flushed(next, f, every)
  }

  /** What the admissions find always holds the grant's own row. */
  predicate Found(w: Worker, frames: seq<Frame>) {
    w.grant.Some? ==> forall i :: 0 <= i < |frames| ==> w.grant.value < |frames[i].found.grants|
  }

  function Frames(seg: Segment, frames: seq<Frame>, every: nat): (r: Segment)
    requires Found(seg.worker, frames) && seg.charged <= Written(seg.totals)
    ensures r.charged <= Written(r.totals) && r.worker.grant == seg.worker.grant
  {
    if frames == [] then seg
    else FrameStep(Frames(seg, frames[..|frames| - 1], every), frames[|frames| - 1], every)
  }

  /** The finally block; a lane with a budget carries no session evidence, so nothing is published before the charge. */
  function Finished(seg: Segment, end: Shutdown): Segment
    requires seg.charged <= Written(seg.totals)
  {
    var t := seg.totals.(metrics := seg.totals.metrics + if end.metrics.Some? then end.metrics.value else 0);
    var s := seg.(totals := t, exit := if seg.exit.None? && end.streamRaises then Some(Raised) else seg.exit);
    s.(worker := Charged(seg.worker, Written(t) - seg.charged), charged := Written(t))
  }

  // ---- the pipeline itself ----

  class CollectorPipeline {
    const grant: CanaryGrant
    const flushEvery: nat
    var rawBytes: nat
    var cleanBytes: nat
    var quarantineBytes: nat
    var metricsBytes: nat
    var messages: nat
    var accountedBytes: nat
    var exit: Option<Exit>

    constructor (grant: CanaryGrant, flushEvery: nat)
      ensures this.grant == grant && this.flushEvery == flushEvery
      ensures View() == Segment(grant.db.rows, grant.Self(), Totals(0, 0, 0, 0, 0), 0, None)
    {
      this.grant, this.flushEvery := grant, flushEvery;
      rawBytes, cleanBytes, quarantineBytes, metricsBytes, messages, accountedBytes := 0, 0, 0, 0, 0, 0;
      exit := None;
    }

    ghost function Sinks(): Totals
      reads this
    {
      Totals(rawBytes, cleanBytes, quarantineBytes, metricsBytes, messages)
    }

    ghost function View(): Segment
      reads this, grant, grant.db
    {
      Segment(grant.db.rows, grant.Self(), Sinks(), accountedBytes, exit)
    }

    function BytesWritten(): nat
      reads this
    {
      rawBytes + cleanBytes + quarantineBytes + metricsBytes
    }

    /** Writes the frame and its judged events until one write raises. */
    method WriteFrame(f: Frame) returns (raised: bool)
      modifies this
      ensures Sinks() == FrameWritten(old(Sinks()), f) && raised == FailsWriting(f)
      ensures accountedBytes == old(accountedBytes) && exit == old(exit)
    {
      messages := messages + 1;
      if f.failsAt == Some(0) {
        return true;
      }
      rawBytes := rawBytes + f.raw;
      for i := 0 to |f.events|
        invariant i <= Landed(f)
        invariant Sinks() == old(Sinks()).(raw := old(rawBytes) + f.raw, messages := old(messages) + 1,
                                           clean := old(cleanBytes) + CleanBytes(f.events[..i]),
                                           quarantine := old(quarantineBytes) + QuarantineBytes(f.events[..i]))
        invariant accountedBytes == old(accountedBytes) && exit == old(exit)
      {
        if f.failsAt == Some(i + 1) {
          return true;
        }
        assert f.events[..i + 1][..i] == f.events[..i];
        if f.events[i].accepted {
          cleanBytes := cleanBytes + f.events[i].bytes;
        } else {
          quarantineBytes := quarantineBytes + f.events[i].bytes;
        }
      }
      return false;
    }

    /** One turn of the loop over `found`, the rows its admission meets. */
    method Turn(f: Frame)
      requires exit.None? && accountedBytes <= BytesWritten()
      requires grant.Self().grant.Some? && grant.Self().grant.value < |f.found.grants|
      modifies this, grant, grant.db
      ensures View() == FrameStep(old(View()), f, flushEvery)
    {
      grant.db.rows := f.found;
      var refusal := grant.AdmitFrame(f.env);
      if refusal.Some? {
        exit := Some(Refused(refusal.value));
        return;
      }
      var raised := WriteFrame(f);
      if raised {
        exit := Some(Raised);
        return;
      }
      var total := BytesWritten();
      var overshoot := grant.Consumed(total - accountedBytes);
      accountedBytes := total;
      if overshoot.Some? {
        exit := Some(Overshot(overshoot.value));
      } else if f.late {
        exit := Some(DeadlineReached);
      } else if FlushDue(flushEvery, messages) {
        if f.failsAt.Some? {
          exit := Some(Raised);
        } else {
          metricsBytes := metricsBytes + f.flush;
        }
      }
    }

    method TurnAt(ghost start: Segment, frames: seq<Frame>, i: nat)
      requires i < |frames| && Found(start.worker, frames) && start.charged <= Written(start.totals)
      requires exit.None? && View() == Frames(start, frames[..i], flushEvery) && start.worker.grant.Some?
      modifies this, grant, grant.db
      ensures View() == Frames(start, frames[..i + 1], flushEvery)
    {
      FramesSnoc(start, frames, i, flushEvery);
      Turn(frames[i]);
    }

    method Loop(frames: seq<Frame>)
      requires exit.None? && accountedBytes <= BytesWritten() && Found(grant.Self(), frames) && grant.Self().grant.Some?
      modifies this, grant, grant.db
      ensures accountedBytes <= BytesWritten() && View() == Frames(old(View()), frames, flushEvery)
    {
      ghost var start := View();
      var i := 0;
      while i < |frames| && exit.None?
        invariant 0 <= i <= |frames| && accountedBytes <= BytesWritten()
        invariant View() == Frames(start, frames[..i], flushEvery)
      {
        TurnAt(start, frames, i);
        i := i + 1;
      }
      NothingAfterExit(start, frames, i, flushEvery);
    }

    method Run(frames: seq<Frame>, end: Shutdown)
      requires exit.None? && accountedBytes <= BytesWritten() && Found(grant.Self(), frames) && grant.Self().grant.Some?
      modifies this, grant, grant.db
      ensures View() == Finished(Frames(old(View()), frames, flushEvery), end)
    {
      Loop(frames);
      Finish(end);
    }

    method Finish(end: Shutdown)
      requires accountedBytes <= BytesWritten()
      modifies this, grant
      ensures View() == Finished(old(View()), end)
    {
      if exit.None? && end.streamRaises {
        exit := Some(Raised);
      }
      if end.metrics.Some? {
        metricsBytes := metricsBytes + end.metrics.value;
      }
      var _ := grant.Consumed(BytesWritten() - accountedBytes);
      accountedBytes := BytesWritten();
    }
  }

  // ---- properties of every run ----

  lemma FramesSnoc(seg: Segment, frames: seq<Frame>, i: nat, every: nat)
    requires i < |frames| && Found(seg.worker, frames) && seg.charged <= Written(seg.totals)
    ensures Found(Frames(seg, frames[..i], every).worker, [frames[i]])
    ensures Frames(seg, frames[..i + 1], every) == FrameStep(Frames(seg, frames[..i], every), frames[i], every)
  {
    assert frames[..i + 1][..i] == frames[..i];
  }

  /** Once the loop has an exit no later frame is admitted, written or charged. */
  lemma {:induction false} NothingAfterExit(seg: Segment, frames: seq<Frame>, k: nat, every: nat)
    requires k <= |frames| && Found(seg.worker, frames) && seg.charged <= Written(seg.totals)
    requires k == |frames| || Frames(seg, frames[..k], every).exit.Some?
    ensures Frames(seg, frames, every) == Frames(seg, frames[..k], every)
  {
    if k == |frames| {
      assert frames[..k] == frames;
    } else {
      var n := |frames| - 1;
      assert frames[..n][..k] == frames[..k];
      NothingAfterExit(seg, frames[..n], k, every);
    }
  }

  /** Each charge is what the sinks wrote since the last one. */
  lemma {:induction false} ChargesTelescope(seg: Segment, frames: seq<Frame>, every: nat)
    requires Found(seg.worker, frames) && seg.charged <= Written(seg.totals)
    ensures var r := Frames(seg, frames, every);
            r.worker.accounted - seg.worker.accounted == r.charged - seg.charged
  {
    if frames != [] {
      ChargesTelescope(seg, frames[..|frames| - 1], every);
    }
  }

  /**
   On every way out of a budgeted lane (end of stream, refusal, overshoot, deadline, an exception in the stream or in any
   write), the grant has accounted exactly the bytes the sinks wrote.
   */
  lemma AccountedIsWritten(start: Segment, frames: seq<Frame>, every: nat, end: Shutdown)
    requires Found(start.worker, frames) && start.charged == Written(start.totals) == 0
    ensures var r := Finished(Frames(start, frames, every), end);
            r.worker.accounted - start.worker.accounted == r.charged == Written(r.totals)
  {
    ChargesTelescope(start, frames, every);
  }

  // ---- the frame margin ----

  /** A worker that may still be admitted has not gone past its reservation. */
  predicate Solvent(w: Worker) {
    w.stopReason.None? ==> w.accounted <= w.reserved
  }

  /** An admitted frame finds room for one worst-case frame. */
  lemma AdmittedFrameHasMargin(l: Ledger, w: Worker, env: AdmitEnv)
    requires (w.grant.Some? ==> w.grant.value < |l.grants|) && Solvent(w)
    ensures var r := AdmitStep(l, w, env);
            && Solvent(r.worker)
            && (r.refusal.None? ==> r.worker.stopReason.None? && r.worker.reserved - r.worker.accounted >= FRAME_MARGIN_BYTES)
  {
  }

  function FrameBytes(f: Frame): nat {
    f.raw + CleanBytes(f.events) + QuarantineBytes(f.events)
  }

  /** What the frame at `i` is charged: its own rows and the metrics row written just before it. */
  function ChargeAt(frames: seq<Frame>, i: nat, every: nat): nat
    requires i < |frames|
  {
    FrameBytes(frames[i]) + if i > 0 && FlushDue(every, i) then frames[i - 1].flush else 0
  }

  /** While the loop runs, every frame so far was written whole and only a due metrics row is not charged yet. */
  predicate Steady(r: Segment, frames: seq<Frame>, every: nat) {
    && r.totals.messages == |frames| && Solvent(r.worker) && r.worker.stopReason.None?
    && Written(r.totals) - r.charged == (if |frames| > 0 && FlushDue(every, |frames|) then frames[|frames| - 1].flush else 0)
  }

  lemma {:induction false} FrameBytesAreWritten(t: Totals, f: Frame)
    requires !FailsWriting(f)
    ensures Written(FrameWritten(t, f)) == Written(t) + FrameBytes(f)
    ensures FrameWritten(t, f).messages == t.messages + 1
  {
    assert f.events[..|f.events|] == f.events;
  }

  /** One more frame: it stays steady, or leaves with an excess its charge explains. */
  lemma SteadyStep(r: Segment, frames: seq<Frame>, every: nat)
    requires frames != [] && r.exit.None? && r.charged <= Written(r.totals)
    requires Found(r.worker, frames) && Steady(r, frames[..|frames| - 1], every)
    ensures var n := |frames| - 1;
            var next := FrameStep(r, frames[n], every);
            && (next.exit.None? ==> Steady(next, frames, every))
            && (next.exit.Some? && next.exit.value.Overshot? ==>
                  0 < next.worker.accounted - next.worker.reserved == next.worker.overshoot
                      <= ChargeAt(frames, n, every) - FRAME_MARGIN_BYTES)
            && (next.exit.None? || !next.exit.value.Overshot? ==> next.worker.accounted <= next.worker.reserved)
  {
    var f := frames[|frames| - 1];
    AdmittedFrameHasMargin(f.found, r.worker, f.env);
    var a := AdmitStep(f.found, r.worker, f.env);
    if a.refusal.None? && !FailsWriting(f) {
      FrameBytesAreWritten(r.totals, f);
      ChargeWithinMargin(a.worker, Written(FrameWritten(r.totals, f)) - r.charged);
    }
  }

  lemma ChargeWithinMargin(w: Worker, nbytes: nat)
    requires w.stopReason.None? && w.reserved - w.accounted >= FRAME_MARGIN_BYTES
    ensures var c := Charged(w, nbytes);
            if c.accounted > c.reserved
            then c.accounted - c.reserved == c.overshoot <= nbytes - FRAME_MARGIN_BYTES && c.stopReason.Some?
            else c.stopReason.None?
  {
  }

  /**
   The margin over whole runs. The loop leaves with an overshoot only when one frame was charged more than the margin,
   the excess is then at most that charge less the margin, and otherwise the reservation was never passed.
   */
  lemma {:induction false} ReservationHoldsUntilABigFrame(start: Segment, frames: seq<Frame>, every: nat)
    requires Found(start.worker, frames) && start.charged == Written(start.totals) == start.totals.messages == 0
    requires start.exit.None? && start.worker.stopReason.None? && start.worker.accounted <= start.worker.reserved
    ensures var r := Frames(start, frames, every);
            && (r.exit.None? ==> Steady(r, frames, every))
            && (r.exit.None? || !r.exit.value.Overshot? ==> r.worker.accounted <= r.worker.reserved)
            && (r.exit.Some? && r.exit.value.Overshot? ==>
                  exists i :: 0 <= i < |frames| && 0 < r.worker.accounted - r.worker.reserved == r.worker.overshoot
                                                        <= ChargeAt(frames, i, every) - FRAME_MARGIN_BYTES)
  {
    if frames != [] {
      var n := |frames| - 1;
      var r := Frames(start, frames[..n], every);
      ReservationHoldsUntilABigFrame(start, frames[..n], every);
      if r.exit.None? {
        SteadyStep(r, frames, every);
      } else if r.exit.value.Overshot? {
        var i :| 0 <= i < n && 0 < r.worker.accounted - r.worker.reserved == r.worker.overshoot
                                   <= ChargeAt(frames[..n], i, every) - FRAME_MARGIN_BYTES;
        assert ChargeAt(frames, i, every) == ChargeAt(frames[..n], i, every);
      }
    }
  }
}
