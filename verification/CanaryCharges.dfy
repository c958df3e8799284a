/**
 What closed grants are charged. Over every run a row that was closed, by its own worker or as abandoned, has consumed
 exactly the bytes measured when it closed, so the committed total, and with it the bound on the pool, is about bytes.
 */
module CanaryCharges {
  import opened Options
  import opened CanaryLedger
  import opened CanaryProtocol
  import opened CanarySafety
  import opened CanaryBudget
  import opened CanaryPacing

  /** The bytes an event finds for a row, should it close it: its worker's measure, or what the abandoned run holds. */
  function MeasuredBy(e: Event, i: nat): nat {
    match e {
      case CloseGrant(_, measured, _, _) => measured
      case ClaimGrant(_, _, _, size, _) => size(i)
      case SettleAll(_, _, size, _) => size(i)
      case _ => 0
    }
  }

  predicate IsClosed(gs: seq<Grant>, i: nat) {
    i < |gs| && gs[i].closed
  }

  /** What was measured for a row by the event that closed it. */
  ghost function MeasuredFor(s: System, es: seq<Event>, i: nat): Option<nat> {
    if es == [] then None
    else
      var n := |es| - 1;
      var before := MeasuredFor(s, es[..n], i);
      if before.None? && IsClosed(Run(s, es).ledger.grants, i) then Some(MeasuredBy(es[n], i)) else before
  }

  /** What the event that closes a row makes of it. */
  predicate ClosedBy(e: Event, i: nat, before: Grant, after: Grant) {
    var measured := MeasuredBy(e, i);
    && after.closed && after.consumed == measured && after.reserved == before.reserved
    && if e.CloseGrant? then after.reason == e.reason
       else after.reason == AbandonedRow && after.overshoot == if measured > before.reserved then measured - before.reserved else 0
  }

  predicate RowCharged(e: Event, i: nat, before: seq<Grant>, after: seq<Grant>) {
    && (IsClosed(before, i) ==> i < |after| && after[i] == before[i])
    && (IsClosed(after, i) && !IsClosed(before, i) ==> i < |before| && ClosedBy(e, i, before[i], after[i]))
  }

  lemma {:induction false} ReconcilingCharges(e: Event, i: nat, gs: seq<Grant>, lane: Option<string>, probe: nat -> Liveness,
                                              size: nat -> nat)
    requires RowsOk(gs) && !e.CloseGrant? && size(i) == MeasuredBy(e, i)
    ensures RowCharged(e, i, gs, Reconciled(gs, lane, probe, size)) && |Reconciled(gs, lane, probe, size)| == |gs|
  {
    ReconciledAt(gs, lane, probe, size);
    if i < |gs| {
      assert RowReconciled(gs[i], Reconciled(gs, lane, probe, size)[i], size(i), lane, probe);
    }
  }

  /** The rows a claim leaves: as they were, reconciled, or reconciled with an open row after them. */
  ghost predicate ClaimRows(gs: seq<Grant>, rs: seq<Grant>, after: seq<Grant>) {
    after == gs || after == rs || (|after| == |rs| + 1 && after[..|rs|] == rs && !after[|rs|].closed)
  }

  lemma {:induction false} ClaimLeavesRows(l: Ledger, w: Worker, id: nat, now: Instant, probe: nat -> Liveness,
                                           size: nat -> nat, commits: bool)
    ensures ClaimRows(l.grants, Reconciled(l.grants, Some(w.lane), probe, size),
                      ClaimStep(l, w, id, now, probe, size, commits).ledger.grants)
  {
    ClaimShape(l, w.lane, w.kind, w.identity, id, now, probe, size);
  }

  lemma {:induction false} ClaimCharges(s: System, e: Event, i: nat)
    requires Inv(s) && e.ClaimGrant? && Enabled(s, e)
    ensures RowCharged(e, i, s.ledger.grants, Step(s, e).ledger.grants)
  {
    var gs, w, after := s.ledger.grants, s.workers[e.id], Step(s, e).ledger.grants;
    var rs := Reconciled(gs, Some(w.lane), e.probe, e.size);
    ClaimLeavesRows(s.ledger, w, e.id, e.now, e.probe, e.size, e.commits);
    ReconcilingCharges(e, i, gs, Some(w.lane), e.probe, e.size);
    assert after != gs && i < |rs| ==> after[i] == rs[i];
  }

  lemma {:induction false} SettleCharges(s: System, e: Event, i: nat)
    requires Inv(s) && e.SettleAll? && Enabled(s, e)
    ensures RowCharged(e, i, s.ledger.grants, Step(s, e).ledger.grants)
  {
    ReconcilingCharges(e, i, s.ledger.grants, None, e.probe, e.size);
  }

  lemma {:induction false} AdmitCharges(s: System, e: Event, i: nat)
    requires Inv(s) && e.AdmitNext? && Enabled(s, e)
    ensures RowCharged(e, i, s.ledger.grants, Step(s, e).ledger.grants)
  {
    assert WorkerOk(s, e.id);
    AdmitShape(s.ledger, s.workers[e.id], e.env);
  }

  lemma {:induction false} StepCharges(s: System, e: Event, i: nat)
    requires Inv(s)
    ensures RowCharged(e, i, s.ledger.grants, Step(s, e).ledger.grants)
  {
    if Enabled(s, e) {
      match e {
        case ClaimGrant(_, _, _, _, _) => ClaimCharges(s, e, i);
        case AdmitNext(_, _) => AdmitCharges(s, e, i);
        case SettleAll(_, _, _, _) => SettleCharges(s, e, i);
        case _ =>
      }
    }
  }

  /** Over every run: a row is closed exactly when an event measured it, and is charged what that event measured. */
  lemma {:induction false} ClosedRowsAreCharged(s: System, es: seq<Event>, i: nat)
    requires Prepared(s)
    ensures var gs := Run(s, es).ledger.grants;
            && (IsClosed(gs, i) <==> MeasuredFor(s, es, i).Some?)
            && (IsClosed(gs, i) ==> gs[i].consumed == MeasuredFor(s, es, i).value)
  {
    if es != [] {
      var n := |es| - 1;
      ClosedRowsAreCharged(s, es[..n], i);
      EveryRunIsSafe(s, es[..n]);
      StepCharges(Run(s, es[..n]), es[n], i);
    }
  }

  /** The bytes the attempt answers for: what was measured for each closed row, what is reserved for each open one. */
  ghost function Answered(s: System, es: seq<Event>, n: nat): int
    requires n <= |Run(s, es).ledger.grants|
  {
    if n == 0 then 0
    else Answered(s, es, n - 1) + match MeasuredFor(s, es, n - 1) {
                                    case Some(bytes) => bytes
                                    case None => Run(s, es).ledger.grants[n - 1].reserved
                                  }
  }

  lemma {:induction false} CommittedIsAnswered(s: System, es: seq<Event>, n: nat)
    requires Prepared(s) && n <= |Run(s, es).ledger.grants|
    ensures Committed(Run(s, es).ledger.grants[..n]) == Answered(s, es, n)
  {
    if n > 0 {
      var gs := Run(s, es).ledger.grants;
      CommittedIsAnswered(s, es, n - 1);
      ClosedRowsAreCharged(s, es, n - 1);
      assert gs[..n][..n - 1] == gs[..n - 1];
    }
  }

  /** The bound on the pool in bytes: measured by whoever closed a row, recorded beyond it, or still reserved. */
  lemma {:induction false} MeasuredBytesFitThePool(s: System, es: seq<Event>)
    requires Prepared(s) && Paced(FRAME_MARGIN_BYTES, SEGMENT_OVERHEAD_BYTES, s, es)
    ensures var l := Run(s, es).ledger;
            Answered(s, es, |l.grants|) <= Pool(l) + Overshoots(l.grants)
  {
    var gs := Run(s, es).ledger.grants;
    PoolIsNeverOverbooked(s, es);
    CommittedIsAnswered(s, es, |gs|);
    assert gs[..|gs|] == gs;
  }
}
