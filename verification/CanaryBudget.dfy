/**
 The shared pool over whole runs, whatever workers write and measure. Open reservations plus closed consumption stay
 within the pool, the recorded overshoots and the chunks whose commits were lost. `CanaryPacing` removes
 the last term for workers that write what they were admitted for.
 */
module CanaryBudget {
  import opened Options
  import opened CanaryLedger
  import opened CanaryProtocol
  import opened CanarySafety

  // ---- what workers believe they hold beyond their rows ----

  function Sum(xs: seq<int>): int {
    if xs == [] then 0 else Sum(xs[..|xs| - 1]) + xs[|xs| - 1]
  }

  lemma {:induction false} SumBump(xs: seq<int>, ys: seq<int>, k: nat, d: int)
    requires |xs| == |ys|
    requires forall i :: 0 <= i < |xs| ==> xs[i] <= ys[i] + if i == k then d else 0
    ensures Sum(xs) <= Sum(ys) + if k < |xs| then d else 0
  {
    if xs != [] {
      SumBump(xs[..|xs| - 1], ys[..|ys| - 1], k, d);
    }
  }

  ghost predicate Owns(s: System, i: nat)
    requires i < |s.ledger.grants|
  {
    var g := s.ledger.grants[i];
    !g.closed && g.worker in s.workers && s.workers[g.worker].grant == Some(i)
  }

  /** What the owner of an open row believes it reserved beyond what the row says. */
  ghost function Excess(s: System, i: nat): int
    requires i < |s.ledger.grants|
  {
    if Owns(s, i) then s.workers[s.ledger.grants[i].worker].reserved - s.ledger.grants[i].reserved else 0
  }

  ghost function Excesses(s: System): (r: seq<int>)
    ensures |r| == |s.ledger.grants|
  {
    seq(|s.ledger.grants|, i requires 0 <= i < |s.ledger.grants| => Excess(s, i))
  }

  ghost function Recorded(s: System): int {
    Committed(s.ledger.grants) - Overshoots(s.ledger.grants)
  }

  ghost predicate Within(s: System, lost: nat) {
    && Sum(Excesses(s)) <= lost
    && Recorded(s) + Sum(Excesses(s)) <= Pool(s.ledger) + lost
  }

  /** The bytes an admission took in memory while its transaction was lost: nothing, or one chunk. */
  ghost function LostBy(s: System, e: Event): (r: nat)
    ensures r > 0 ==> e.AdmitNext? && Enabled(s, e) && !e.env.commits
  {
    if !(e.AdmitNext? && Enabled(s, e)) then 0
    else
      var r := AdmitStep(s.ledger, s.workers[e.id], e.env);
      if r.worker.reserved > s.workers[e.id].reserved && r.ledger.grants == s.ledger.grants
      then r.worker.reserved - s.workers[e.id].reserved
      else 0
  }

  ghost function LostBytes(s: System, es: seq<Event>): nat {
    if es == [] then 0 else LostBytes(s, es[..|es| - 1]) + LostBy(Run(s, es[..|es| - 1]), es[|es| - 1])
  }

  lemma {:induction false} NoOvershootIsNegative(gs: seq<Grant>)
    requires RowsOk(gs)
    ensures 0 <= Overshoots(gs)
  {
    if gs != [] {
      assert RowsOk(gs[..|gs| - 1]);
      NoOvershootIsNegative(gs[..|gs| - 1]);
    }
  }

  /** Reconciling lets go of excesses and never raises what is recorded. */
  lemma ReconcilingStaysWithin(s: System, next: System, lane: Option<string>, probe: nat -> Liveness, size: nat -> nat, lost: nat)
    requires RowsOk(s.ledger.grants) && Within(s, lost) && next.workers == s.workers && Pool(next.ledger) == Pool(s.ledger)
    requires (forall id :: id in s.workers ==> WorkerOk(s, id))
    requires next.ledger.grants == Reconciled(s.ledger.grants, lane, probe, size)
    ensures Within(next, lost)
  {
    ReconciledAt(s.ledger.grants, lane, probe, size);
    forall i | 0 <= i < |next.ledger.grants| ensures Excesses(next)[i] <= Excesses(s)[i] {
      if Owns(s, i) {
        assert WorkerOk(s, s.ledger.grants[i].worker);
      }
    }
    SumBump(Excesses(next), Excesses(s), |next.ledger.grants|, 0);
  }

  lemma OnlyRowsAndWorkersMatter(s: System, t: System, lost: nat)
    requires Within(s, lost) && t.workers == s.workers && t.ledger.grants == s.ledger.grants && Pool(t.ledger) == Pool(s.ledger)
    ensures Within(t, lost)
  {
    assert Excesses(t) == Excesses(s);
  }

  /** A new row that fits the pool, owned by the worker that claimed it. */
  lemma NewRowStaysWithin(s: System, next: System, id: nat, g: Grant, lost: nat)
    requires Within(s, lost) && id in s.workers && s.workers[id].grant.None? && g.worker == id
    requires next.ledger.grants == s.ledger.grants + [g] && Pool(next.ledger) == Pool(s.ledger)
    requires id in next.workers && next.workers == s.workers[id := next.workers[id]]
    requires next.workers[id].grant == Some(|s.ledger.grants|) && next.workers[id].reserved == g.reserved
    requires RowsOk(next.ledger.grants) && Committed(next.ledger.grants) <= Pool(next.ledger)
    ensures Within(next, lost)
  {
    NoOvershootIsNegative(next.ledger.grants);
    assert Excesses(next)[..|s.ledger.grants|] == Excesses(s);
  }

  /** What a claim leaves in the rows and in its worker. */
  ghost predicate ClaimOutcome(s: System, id: nat, rs: seq<Grant>, r: Reply)
    requires id in s.workers
  {
    && Pool(r.ledger) == Pool(s.ledger)
    && (if r.worker.grant.None? then r.worker == s.workers[id] && (r.ledger.grants == s.ledger.grants || r.ledger.grants == rs)
        else
          && r.worker.grant == Some(|rs|) && r.worker.reserved == Initial(s.workers[id].kind)
          && r.ledger.grants == rs + [Grant(s.workers[id].lane, id, r.worker.reserved, 0, 0, 0, false, Unset)]
          && RowsOk(r.ledger.grants) && Committed(r.ledger.grants) <= Pool(r.ledger))
  }

  lemma RefusedClaimHasOutcome(s: System, id: nat, now: Instant, probe: nat -> Liveness, size: nat -> nat, commits: bool)
    requires id in s.workers && s.workers[id].grant.None?
    requires var w := s.workers[id];
             !commits || Claim(s.ledger, w.lane, w.kind, w.identity, id, now, probe, size).refusal.Some?
    ensures ClaimOutcome(s, id, Reconciled(s.ledger.grants, Some(s.workers[id].lane), probe, size),
                         ClaimStep(s.ledger, s.workers[id], id, now, probe, size, commits))
  {
    var l, w := s.ledger, s.workers[id];
    ClaimShape(l, w.lane, w.kind, w.identity, id, now, probe, size);
    ReconciledLength(l.grants, Some(w.lane), probe, size);
  }

  lemma TakenReplyHasOutcome(s: System, id: nat, rs: seq<Grant>, l: Ledger, now: Instant)
    requires id in s.workers && s.workers[id].grant.None? && Pool(l) == Pool(s.ledger) && l.first.Some?
    requires var w := s.workers[id]; l.grants == rs + [Grant(w.lane, id, Initial(w.kind), 0, 0, 0, false, Unset)]
    requires RowsOk(l.grants) && Committed(l.grants) <= Pool(l)
    ensures ClaimOutcome(s, id, rs, ClaimReply(s.ledger, s.workers[id], Outcome(l, None), now, true))
  {
  }

  lemma TakenClaimHasOutcome(s: System, id: nat, now: Instant, probe: nat -> Liveness, size: nat -> nat)
    requires Inv(s) && Running(s, id) && s.workers[id].grant.None? && Truthful(s, probe)
    requires var w := s.workers[id]; Claim(s.ledger, w.lane, w.kind, w.identity, id, now, probe, size).refusal.None?
    ensures ClaimOutcome(s, id, Reconciled(s.ledger.grants, Some(s.workers[id].lane), probe, size),
                         ClaimStep(s.ledger, s.workers[id], id, now, probe, size, true))
  {
    var l, w := s.ledger, s.workers[id];
    var rs := Reconciled(l.grants, Some(w.lane), probe, size);
    ClaimShape(l, w.lane, w.kind, w.identity, id, now, probe, size);
    NewGrantKept(s, id, w.lane, Initial(w.kind), probe, size);
    ClaimReservesWithinPool(l, w.lane, w.kind, w.identity, id, now, probe, size);
    TakenReplyHasOutcome(s, id, rs, Claimed(l.(grants := rs), w.lane, w.kind, id, now), now);
  }

  lemma ClaimHasOutcome(s: System, id: nat, now: Instant, probe: nat -> Liveness, size: nat -> nat, commits: bool)
    requires Inv(s) && Running(s, id) && s.workers[id].grant.None? && Truthful(s, probe)
    ensures ClaimOutcome(s, id, Reconciled(s.ledger.grants, Some(s.workers[id].lane), probe, size),
                         ClaimStep(s.ledger, s.workers[id], id, now, probe, size, commits))
  {
    var w := s.workers[id];
    if commits && Claim(s.ledger, w.lane, w.kind, w.identity, id, now, probe, size).refusal.None? {
      TakenClaimHasOutcome(s, id, now, probe, size);
    } else {
      RefusedClaimHasOutcome(s, id, now, probe, size, commits);
    }
  }

  lemma ClaimStaysWithin(s: System, id: nat, lane: Option<string>, probe: nat -> Liveness, size: nat -> nat, r: Reply, lost: nat)
    requires Inv(s) && Within(s, lost) && id in s.workers && s.workers[id].grant.None?
    requires ClaimOutcome(s, id, Reconciled(s.ledger.grants, lane, probe, size), r)
    ensures Within(Told(s, id, r), lost)
  {
    var rs := Reconciled(s.ledger.grants, lane, probe, size);
    var mid := s.(ledger := s.ledger.(grants := rs));
    ReconcilingStaysWithin(s, mid, lane, probe, size, lost);
    if r.worker.grant.None? {
      assert s.workers[id := r.worker] == s.workers;
      OnlyRowsAndWorkersMatter(if r.ledger.grants == s.ledger.grants then s else mid, Told(s, id, r), lost);
    } else {
      NewRowStaysWithin(mid, Told(s, id, r), id, r.ledger.grants[|rs|], lost);
    }
  }

  lemma AdmitStaysWithin(s: System, id: nat, r: Reply, lost: nat)
    requires Inv(s) && Within(s, lost) && id in s.workers && GrantKnown(s, id) && AdmitOutcome(s.ledger, s.workers[id], r)
    requires RowsOk(r.ledger.grants)
    ensures Within(Told(s, id, r),
                   lost + if r.worker.reserved > s.workers[id].reserved && r.ledger.grants == s.ledger.grants
                          then r.worker.reserved - s.workers[id].reserved else 0)
  {
    var w := s.workers[id];
    var next := Told(s, id, r);
    assert WorkerOk(s, id);
    var gained := r.worker.reserved - w.reserved;
    if r.ledger.grants == s.ledger.grants {
      SumBump(Excesses(next), Excesses(s), if w.grant.Some? then w.grant.value else |s.ledger.grants|, gained);
    } else {
      SumBump(Excesses(next), Excesses(s), |s.ledger.grants|, 0);
      NoOvershootIsNegative(next.ledger.grants);
    }
  }

  /** Closing a row trades its owner's excess for consumption the recorded overshoot does not cover. */
  lemma RowClosingStaysWithin(s: System, next: System, i: nat, g: Grant, lost: nat)
    requires Within(s, lost) && i < |s.ledger.grants| && Owns(s, i) && Pool(next.ledger) == Pool(s.ledger)
    requires s.ledger.grants[i].overshoot == 0 && next.ledger.grants == s.ledger.grants[i := g] && g.closed
    requires g.consumed - g.overshoot <= s.workers[s.ledger.grants[i].worker].reserved
    requires 0 <= Excess(s, i) && forall j :: 0 <= j < |s.ledger.grants| && j != i ==> Excess(next, j) == Excess(s, j)
    ensures Within(next, lost)
  {
    SumsOfUpdate(s.ledger.grants, i, g);
    SumBump(Excesses(next), Excesses(s), i, -Excess(s, i));
  }

  ghost predicate CloseOutcome(l: Ledger, w: Worker, r: Reply) {
    && r.worker == w.(finished := r.worker.finished)
    && (r.ledger == l
        || (w.grant.Some? && w.grant.value < |l.grants| == |r.ledger.grants| && !l.grants[w.grant.value].closed
            && var g := r.ledger.grants[w.grant.value];
               && r.ledger == l.(grants := l.grants[w.grant.value := g]) && g.closed
               && g.consumed - g.overshoot <= w.reserved))
  }

  lemma CloseHasOutcome(l: Ledger, w: Worker, measured: nat, reason: Reason, commits: bool)
    requires w.grant.Some? ==> w.grant.value < |l.grants|
    ensures CloseOutcome(l, w, CloseStep(l, w, measured, reason, commits))
  {
  }

  /** A worker that keeps its grant and reservation, and rows that stay as they were, keep their excesses. */
  lemma ExcessStays(s: System, id: nat, w: Worker, l: Ledger, j: nat)
    requires id in s.workers && w.grant == s.workers[id].grant && w.reserved == s.workers[id].reserved
    requires j < |s.ledger.grants| && j < |l.grants| && l.grants[j] == s.ledger.grants[j]
    ensures Excess(Told(s, id, Reply(l, w, None)), j) == Excess(s, j)
  {
  }

  lemma CloseStaysWithin(s: System, id: nat, r: Reply, lost: nat)
    requires Inv(s) && Within(s, lost) && id in s.workers && CloseOutcome(s.ledger, s.workers[id], r)
    ensures Within(Told(s, id, r), lost)
  {
    var w := s.workers[id];
    var next := Told(s, id, r);
    assert WorkerOk(s, id);
    assert next == Told(s, id, Reply(r.ledger, r.worker, None));
    forall j: nat | j < |s.ledger.grants| && r.ledger.grants[j] == s.ledger.grants[j] ensures Excess(next, j) == Excess(s, j) {
      ExcessStays(s, id, r.worker, r.ledger, j);
    }
    if r.ledger == s.ledger {
      assert Excesses(next) == Excesses(s);
    } else {
      RowClosingStaysWithin(s, next, w.grant.value, r.ledger.grants[w.grant.value], lost);
    }
  }

  lemma ClaimantStaysWithin(s: System, id: nat, now: Instant, probe: nat -> Liveness, size: nat -> nat, commits: bool, lost: nat)
    requires Inv(s) && Within(s, lost) && Running(s, id) && s.workers[id].grant.None? && Truthful(s, probe)
    ensures Within(Told(s, id, ClaimStep(s.ledger, s.workers[id], id, now, probe, size, commits)), lost)
  {
    ClaimHasOutcome(s, id, now, probe, size, commits);
    ClaimStaysWithin(s, id, Some(s.workers[id].lane), probe, size,
                     ClaimStep(s.ledger, s.workers[id], id, now, probe, size, commits), lost);
  }

  lemma AdmittedRowsOk(s: System, id: nat, env: AdmitEnv)
    requires Inv(s) && Running(s, id) && GrantKnown(s, id)
    ensures RowsOk(AdmitStep(s.ledger, s.workers[id], env).ledger.grants)
  {
    AdmitKeeps(s, id, env);
  }

  lemma AdmissionStaysWithin(s: System, id: nat, env: AdmitEnv, lost: nat)
    requires Inv(s) && Within(s, lost) && Running(s, id) && GrantKnown(s, id)
    ensures Within(Told(s, id, AdmitStep(s.ledger, s.workers[id], env)),
                   lost + LostBy(s, AdmitNext(id, env)))
  {
    assert WorkerOk(s, id);
    AdmitShape(s.ledger, s.workers[id], env);
    AdmittedRowsOk(s, id, env);
    AdmitStaysWithin(s, id, AdmitStep(s.ledger, s.workers[id], env), lost);
  }

  lemma ClosingStaysWithin(s: System, id: nat, measured: nat, reason: Reason, commits: bool, lost: nat)
    requires Inv(s) && Within(s, lost) && id in s.workers && GrantKnown(s, id)
    ensures Within(Told(s, id, CloseStep(s.ledger, s.workers[id], measured, reason, commits)), lost)
  {
    CloseHasOutcome(s.ledger, s.workers[id], measured, reason, commits);
    CloseStaysWithin(s, id, CloseStep(s.ledger, s.workers[id], measured, reason, commits), lost);
  }

  lemma OtherEventsStayWithin(s: System, e: Event, lost: nat)
    requires Inv(s) && Within(s, lost) && Enabled(s, e)
    requires e.Spawn? || e.ChargeFrame? || e.Die? || e.OperatorStop? || e.MarkFinalized?
    ensures Within(Step(s, e), lost)
  {
    SumBump(Excesses(Step(s, e)), Excesses(s), |s.ledger.grants|, 0);
  }

  lemma StepStaysWithin(s: System, e: Event, lost: nat)
    requires Inv(s) && Within(s, lost)
    ensures Within(Step(s, e), lost + LostBy(s, e))
  {
    if Enabled(s, e) {
      match e {
        case ClaimGrant(id, now, probe, size, commits) =>
          ClaimantStaysWithin(s, id, now, probe, size, commits, lost);
        case AdmitNext(id, env) => AdmissionStaysWithin(s, id, env, lost);
        case CloseGrant(id, measured, reason, commits) => ClosingStaysWithin(s, id, measured, reason, commits, lost);
        case SettleAll(now, probe, size, commits) =>
          if commits && Settle(s.ledger, now, probe, size).refusal.None? {
            ReconcilingStaysWithin(s, Step(s, e), None, probe, size, lost);
          }
        case _ => OtherEventsStayWithin(s, e, lost);
      }
    }
  }

  lemma OneMoreEventStaysWithin(s: System, es: seq<Event>)
    requires es != [] && Inv(Run(s, es[..|es| - 1])) && Within(Run(s, es[..|es| - 1]), LostBytes(s, es[..|es| - 1]))
    ensures Within(Run(s, es), LostBytes(s, es))
  {
    StepStaysWithin(Run(s, es[..|es| - 1]), es[|es| - 1], LostBytes(s, es[..|es| - 1]));
  }

  lemma {:induction false} EveryRunStaysWithin(s: System, es: seq<Event>)
    requires Prepared(s)
    ensures Within(Run(s, es), LostBytes(s, es))
  {
    if es == [] {
      PreparedIsWithin(s);
    } else {
      EveryRunIsSafe(s, es[..|es| - 1]);
      EveryRunStaysWithin(s, es[..|es| - 1]);
      OneMoreEventStaysWithin(s, es);
    }
  }

  lemma PreparedIsWithin(s: System)
    requires Prepared(s)
    ensures Within(s, 0)
  {
    assert Excesses(s) == [];
  }

  lemma {:induction false} ExcessesAreNotNegative(s: System, xs: seq<int>)
    requires forall i :: 0 <= i < |xs| ==> 0 <= xs[i]
    ensures 0 <= Sum(xs)
  {
    if xs != [] {
      ExcessesAreNotNegative(s, xs[..|xs| - 1]);
    }
  }

  /** Without any bound on what is written or measured, lost commits hide at most the chunks they lost. */
  lemma OnlyLostChunksAreHidden(s: System, es: seq<Event>)
    requires Prepared(s)
    ensures var l := Run(s, es).ledger;
            Committed(l.grants) <= Pool(l) + Overshoots(l.grants) + LostBytes(s, es)
  {
    var t := Run(s, es);
    EveryRunStaysWithin(s, es);
    EveryRunIsSafe(s, es);
    forall i | 0 <= i < |Excesses(t)| ensures 0 <= Excesses(t)[i] {
      if Owns(t, i) {
        assert WorkerOk(t, t.ledger.grants[i].worker);
      }
    }
    ExcessesAreNotNegative(t, Excesses(t));
  }

  /** A new row or a grown reservation leaves the committed total within the pool, whatever was lost before. */
  lemma ReservationsFitThePool(s: System, e: Event, i: nat)
    requires Inv(s) && i < |Step(s, e).ledger.grants|
    requires i < |s.ledger.grants| ==> Step(s, e).ledger.grants[i].reserved > s.ledger.grants[i].reserved
    ensures Committed(Step(s, e).ledger.grants) <= Pool(Step(s, e).ledger)
  {
    if e.ClaimGrant? && Enabled(s, e) {
      NewRowFits(s, e.id, e.now, e.probe, e.size, e.commits, i);
    } else if e.AdmitNext? && Enabled(s, e) {
      GrownRowFits(s, e.id, e.env, i);
    } else {
      OtherEventsReserveNothing(s, e);
    }
  }

  lemma {:induction false} OtherEventsReserveNothing(s: System, e: Event)
    requires RowsOk(s.ledger.grants) && (Enabled(s, e) ==> !e.ClaimGrant? && !e.AdmitNext?)
    ensures var gs := Step(s, e).ledger.grants;
            |gs| == |s.ledger.grants| && forall i :: 0 <= i < |gs| ==> gs[i].reserved == s.ledger.grants[i].reserved
  {
    if e.SettleAll? {
      ReconcilingReservesNothing(s.ledger.grants, None, e.probe, e.size);
    }
  }

  lemma ReconcilingReservesNothing(gs: seq<Grant>, lane: Option<string>, probe: nat -> Liveness, size: nat -> nat)
    ensures var rs := Reconciled(gs, lane, probe, size);
            |rs| == |gs| && forall i :: 0 <= i < |gs| ==> rs[i].reserved == gs[i].reserved
  {
    ReconciledRows(gs, lane, probe, size);
  }

  lemma GrownRowFits(s: System, id: nat, env: AdmitEnv, i: nat)
    requires Inv(s) && Running(s, id) && GrantKnown(s, id)
    requires var gs := AdmitStep(s.ledger, s.workers[id], env).ledger.grants;
             i < |gs| && (i < |s.ledger.grants| ==> gs[i].reserved > s.ledger.grants[i].reserved)
    ensures var l := AdmitStep(s.ledger, s.workers[id], env).ledger; Committed(l.grants) <= Pool(l)
  {
    assert WorkerOk(s, id);
    AdmitShape(s.ledger, s.workers[id], env);
  }

  lemma NewRowFits(s: System, id: nat, now: Instant, probe: nat -> Liveness, size: nat -> nat, commits: bool, i: nat)
    requires Inv(s) && Running(s, id) && s.workers[id].grant.None? && Truthful(s, probe)
    requires var gs := ClaimStep(s.ledger, s.workers[id], id, now, probe, size, commits).ledger.grants;
             i < |gs| && (i < |s.ledger.grants| ==> gs[i].reserved > s.ledger.grants[i].reserved)
    ensures var l := ClaimStep(s.ledger, s.workers[id], id, now, probe, size, commits).ledger;
            Committed(l.grants) <= Pool(l)
  {
    ClaimHasOutcome(s, id, now, probe, size, commits);
    ReconciledAt(s.ledger.grants, Some(s.workers[id].lane), probe, size);
  }

  /**
   When a close hides bytes from the pool: exactly when the worker believes it holds more than its row and the run
   outgrew the row by more than the overshoot noticed while writing.
   */
  lemma CloseHidesBytesIff(s: System, id: nat, measured: nat, reason: Reason)
    requires Inv(s) && id in s.workers && s.workers[id].grant.Some? && GrantKnown(s, id)
    requires !s.ledger.grants[s.workers[id].grant.value].closed
    ensures var w := s.workers[id];
            var row := s.ledger.grants[w.grant.value].reserved;
            Recorded(Step(s, CloseGrant(id, measured, reason, true))) > Recorded(s)
            <==> w.reserved > row && measured > row + Max(w.overshoot, 0)
  {
    var w := s.workers[id];
    var i := w.grant.value;
    assert WorkerOk(s, id);
    var next := Step(s, CloseGrant(id, measured, reason, true));
    SumsOfUpdate(s.ledger.grants, i, next.ledger.grants[i]);
  }
}
