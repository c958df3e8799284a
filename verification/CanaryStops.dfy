/**
 What ends an attempt. A claim is refused for good where nothing can make it succeed later, and only for now where
 waiting may; an attempt is settled only when it is over and nobody can still be writing.
 */
module CanaryStops {
  import opened Options
  import opened CanaryLedger
  import opened CanaryProtocol
  import opened CanarySafety

  // ---- room for a claim ----

  /** Rows as they may become without a claim or an admission: some open ones close, with whatever they are charged. */
  ghost predicate MayBecome(before: seq<Grant>, after: seq<Grant>) {
    && |after| == |before|
    && forall i :: 0 <= i < |before| ==> after[i] == before[i] || (!before[i].closed && after[i].closed && 0 <= after[i].consumed)
  }

  ghost predicate NothingOwed(gs: seq<Grant>) {
    forall i :: 0 <= i < |gs| ==> 0 <= gs[i].reserved && 0 <= gs[i].consumed
  }

  /** Over every run no row owes a negative number of bytes. */
  lemma {:induction false} NothingIsOwed(s: System, es: seq<Event>)
    requires Prepared(s)
    ensures NothingOwed(Run(s, es).ledger.grants)
  {
    if es != [] {
      var n := |es| - 1;
      NothingIsOwed(s, es[..n]);
      EveryRunIsSafe(s, es[..n]);
      StepOwesNothing(Run(s, es[..n]), es[n]);
    }
  }

  lemma ReconciledOwesNothing(gs: seq<Grant>, lane: Option<string>, probe: nat -> Liveness, size: nat -> nat)
    requires NothingOwed(gs)
    ensures NothingOwed(Reconciled(gs, lane, probe, size))
  {
    ReconciledRows(gs, lane, probe, size);
  }

  lemma ClaimOwesNothing(l: Ledger, w: Worker, id: nat, now: Instant, probe: nat -> Liveness, size: nat -> nat, commits: bool)
    requires NothingOwed(l.grants)
    ensures NothingOwed(ClaimStep(l, w, id, now, probe, size, commits).ledger.grants)
  {
    ReconciledOwesNothing(l.grants, Some(w.lane), probe, size);
    ClaimShape(l, w.lane, w.kind, w.identity, id, now, probe, size);
  }

  lemma {:induction false} StepOwesNothing(s: System, e: Event)
    requires Inv(s) && NothingOwed(s.ledger.grants)
    ensures NothingOwed(Step(s, e).ledger.grants)
  {
    if Enabled(s, e) {
      match e {
        case ClaimGrant(id, now, probe, size, commits) => ClaimOwesNothing(s.ledger, s.workers[id], id, now, probe, size, commits);
        case AdmitNext(id, env) =>
          assert WorkerOk(s, id);
          AdmitShape(s.ledger, s.workers[id], env);
        case SettleAll(_, probe, size, _) => ReconciledOwesNothing(s.ledger.grants, None, probe, size);
        case _ =>
      }
    }
  }

  lemma {:induction false} ClosedStayCharged(before: seq<Grant>, after: seq<Grant>)
    requires MayBecome(before, after) && NothingOwed(before)
    ensures ClosedConsumed(before) <= Committed(after)
  {
    if before != [] {
      var n := |before| - 1;
      assert forall i :: 0 <= i < n ==> before[..n][i] == before[i] && after[..n][i] == after[i];
      ClosedStayCharged(before[..n], after[..n]);
    }
  }

  function Freed(gs: seq<Grant>): seq<Grant> {
    if gs == [] then []
    else
      var g := gs[|gs| - 1];
      Freed(gs[..|gs| - 1]) + [if g.closed then g else g.(closed := true, consumed := 0)]
  }

  lemma {:induction false} FreedRows(gs: seq<Grant>)
    ensures MayBecome(gs, Freed(gs)) && Committed(Freed(gs)) == ClosedConsumed(gs)
  {
    if gs != [] {
      var n := |gs| - 1;
      FreedRows(gs[..n]);
      assert Freed(gs)[..n] == Freed(gs[..n]);
      assert forall i :: 0 <= i < n ==> gs[..n][i] == gs[i];
    }
  }

  function FirstReservation(kind: Kind): int {
    if kind.Stream? then 17 * MIB else 6 * MIB
  }

  /** A claim's first reservation fits beside these rows. */
  predicate Fits(l: Ledger, rows: seq<Grant>, kind: Kind) {
    Committed(rows) + FirstReservation(kind) <= l.maxBytes - l.metadataBytes
  }

  /**
   Of a claim that got as far as the budget: it is refused for good exactly when the grants are used up, or no way the
   open ones may close makes room; it is refused for now exactly when only that could make room.
   */
  lemma BudgetStopIff(l: Ledger, kind: Kind)
    requires NothingOwed(l.grants)
    ensures var g := BudgetGuard(l, kind);
            && (g.None? <==> |l.grants| < l.maxGrants && Fits(l, l.grants, kind))
            && (g.Some? && g.value.durable <==>
                l.maxGrants <= |l.grants| || forall rows :: MayBecome(l.grants, rows) ==> !Fits(l, rows, kind))
  {
    FreedRows(l.grants);
    ClosedStayCharged(l.grants, l.grants);
    if BudgetGuard(l, kind).Some? && BudgetGuard(l, kind).value.durable && |l.grants| < l.maxGrants {
      forall rows | MayBecome(l.grants, rows) ensures !Fits(l, rows, kind) {
        ClosedStayCharged(l.grants, rows);
      }
    }
  }

  // ---- what a claim stops ----

  /** Beyond the last committed reading: back on either clock, or apart by more than half a second and one percent. */
  predicate ClockJumped(now: Instant, last: Instant) {
    var wall, mono := now.wall - last.wall, now.mono - last.mono;
    || wall < 0.0 || mono < 0.0
    || wall - mono > 0.5 + 0.01 * mono || mono - wall > 0.5 + 0.01 * mono
  }

  predicate PastTheEnd(l: Ledger, first: Instant, now: Instant) {
    now.wall - first.wall >= l.maxSeconds || now.mono - first.mono >= l.maxSeconds
  }

  predicate Mistimed(l: Ledger, now: Instant) {
    l.first.Some? && l.last.Some? &&
    (|| !(l.first.value.wall <= l.last.value.wall && 0.0 <= l.first.value.mono <= l.last.value.mono)
     || ClockJumped(now, l.last.value) || PastTheEnd(l, l.first.value, now))
  }

  /** Less than a minute is left. */
  predicate TooLate(l: Ledger, now: Instant) {
    l.first.Some? && l.last.Some? && now.wall + 60.0 > l.first.value.wall + l.maxSeconds
  }

  ghost predicate WriterLeft(gs: seq<Grant>, lane: Option<string>, probe: nat -> Liveness) {
    exists i :: 0 <= i < |gs| && !gs[i].closed && (lane.None? || gs[i].lane == lane.value) && probe(gs[i].worker) != Gone
  }

  /**
   A committed claim stops a running attempt exactly when its lane is the prepared one and the clock columns are corrupt,
   the clock jumped or the time is over, or when, with a minute left and the lane free, the budget is gone for good.
   */
  lemma ClaimStopsIff(l: Ledger, lane: string, kind: Kind, identity: string, worker: nat, now: Instant,
                      probe: nat -> Liveness, size: nat -> nat)
    requires l.stopped.None?
    ensures var o := Claim(l, lane, kind, identity, worker, now, probe, size);
            var budget := BudgetGuard(l.(grants := Reconciled(l.grants, Some(lane), probe, size)), kind);
            && (o.ledger.stopped.Some? <==>
                && lane in l.lanes && l.lanes[lane] == Lane(kind, identity)
                && (Mistimed(l, now)
                    || (!TooLate(l, now) && !WriterLeft(l.grants, Some(lane), probe) && budget.Some? && budget.value.durable)))
            && (o.ledger.stopped.Some? ==> o.refusal == o.ledger.stopped)
  {
  }

  // ---- settling ----

  /**
   An attempt is settled exactly when it is not finalized, has been stopped or run out of wall time, and no open grant's
   worker may still be alive.
   */
  lemma SettleSucceedsIff(l: Ledger, now: Instant, probe: nat -> Liveness, size: nat -> nat)
    ensures Settle(l, now, probe, size).refusal.None? <==>
            && !l.finalized && (l.stopped.Some? || (l.first.Some? && now.wall - l.first.value.wall >= l.maxSeconds))
            && !WriterLeft(l.grants, None, probe)
    ensures Settle(l, now, probe, size).refusal.Some? ==> Settle(l, now, probe, size).ledger == l
  {
  }

  /** Somebody stopped the attempt, or its time was over, in some state of the run. */
  ghost predicate Over(s: System, es: seq<Event>) {
    exists k :: 0 <= k < |es| && EndsAttempt(Run(s, es[..k]), es[k])
  }

  /** The event leaves the attempt stopped for a reason other than settling it early. */
  ghost predicate EndsAttempt(s: System, e: Event) {
    Step(s, e).ledger.stopped.Some? &&
    (!e.SettleAll? || (s.ledger.first.Some? && e.now.wall - s.ledger.first.value.wall >= s.ledger.maxSeconds))
  }

  lemma {:induction false} StoppedMeansOver(s: System, es: seq<Event>)
    requires Prepared(s) && Run(s, es).ledger.stopped.Some?
    ensures Over(s, es)
  {
    if es != [] {
      var n := |es| - 1;
      var t := Run(s, es[..n]);
      if t.ledger.stopped.Some? {
        StoppedMeansOver(s, es[..n]);
        var k :| 0 <= k < n && EndsAttempt(Run(s, es[..n][..k]), es[..n][k]);
        assert es[..n][..k] == es[..k] && es[..n][k] == es[k];
      } else if es[n].SettleAll? {
        SettleSucceedsIff(t.ledger, es[n].now, es[n].probe, es[n].size);
        assert EndsAttempt(t, es[n]);
      } else {
        assert EndsAttempt(t, es[n]);
      }
    }
  }

  /** Over every run: nothing is settled, and so nothing finalized, before the attempt was stopped or its time was over. */
  lemma SettledMeansOver(s: System, es: seq<Event>)
    requires Prepared(s) && (Run(s, es).settled || Run(s, es).ledger.finalized)
    ensures Over(s, es) && AllClosed(Run(s, es).ledger.grants)
  {
    EveryRunIsSafe(s, es);
    StoppedMeansOver(s, es);
  }
}
