/**
 What every run of the canary protocol keeps: one open grant a lane, a bounded number of grants, rows that are frozen
 once closed, and a first stop reason that stays.
 */
module CanarySafety {
  import opened Options
  import opened CanaryLedger
  import opened CanaryProtocol

  // ---- what every step keeps ----

  ghost predicate OneOpenPerLane(gs: seq<Grant>) {
    forall i, j :: 0 <= i < j < |gs| && gs[i].lane == gs[j].lane ==> gs[i].closed || gs[j].closed
  }

  ghost predicate AllClosed(gs: seq<Grant>) {
    forall i :: 0 <= i < |gs| ==> gs[i].closed
  }

  /** A claimed worker names its own row, open as long as the worker runs, and believes at least what the row says. */
  ghost predicate WorkerOk(s: System, id: nat)
    requires id in s.workers
  {
    var w := s.workers[id];
    match w.grant {
      case None => w.reserved == 0
      case Some(g) =>
        && g < |s.ledger.grants| && s.ledger.grants[g].worker == id
        && (Running(s, id) ==> !s.ledger.grants[g].closed)
        && (!s.ledger.grants[g].closed ==> s.ledger.grants[g].reserved <= w.reserved)
        && (!s.ledger.grants[g].closed && w.stopReason.None? ==> s.ledger.grants[g].reserved == w.reserved)
    }
  }

  ghost predicate Inv(s: System) {
    && RowsOk(s.ledger.grants) && OneOpenPerLane(s.ledger.grants) && |s.ledger.grants| <= s.ledger.maxGrants
    && (forall id :: id in s.workers ==> WorkerOk(s, id))
    && (s.settled ==> s.ledger.stopped.Some? && AllClosed(s.ledger.grants))
    && (s.ledger.finalized ==> s.settled)
  }

  lemma AdmitReservesWithinPool(l: Ledger, grant: nat, now: Instant, needChunk: bool, free: Option<int>, minFree: int)
    requires grant < |l.grants| && !l.grants[grant].closed
    ensures var a := Admit(l, grant, now, needChunk, free, minFree);
            && a.chunk >= 0
            && (a.chunk > 0 ==> Committed(a.ledger.grants) <= Pool(l) && a.chunk >= FRAME_MARGIN_BYTES)
            && (a.refusal.None? ==> (a.chunk == 0 <==> !needChunk))
            && (a.refusal.Some? ==> a.chunk == 0)
            && |a.ledger.grants| == |l.grants|
            && a.ledger.grants == l.grants[grant := l.grants[grant].(reserved := l.grants[grant].reserved + a.chunk)]
  {
    var g := l.grants[grant];
    SumsOfUpdate(l.grants, grant, g.(reserved := g.reserved + Min(CHUNK_BYTES, Pool(l) - Committed(l.grants))));
    assert g.(reserved := g.reserved + 0) == g && l.grants[grant := g] == l.grants;
  }

  /** How the rows of one ledger become those of the next: nothing is lost, closed rows are frozen. */
  ghost predicate RowsFollow(before: seq<Grant>, after: seq<Grant>) {
    && |before| <= |after|
    && forall i :: 0 <= i < |before| ==>
         && after[i].lane == before[i].lane && after[i].worker == before[i].worker
         && (before[i].closed ==> after[i] == before[i])
  }

  /** Rows change only for the worker that acts, or because their worker is dead. */
  ghost predicate RowsKept(s: System, after: seq<Grant>, actor: Option<nat>) {
    && |s.ledger.grants| <= |after|
    && forall i :: 0 <= i < |s.ledger.grants| ==>
         && after[i].lane == s.ledger.grants[i].lane && after[i].worker == s.ledger.grants[i].worker
         && (after[i] == s.ledger.grants[i] || Some(s.ledger.grants[i].worker) == actor
             || (s.ledger.grants[i].worker in s.gone && after[i].closed))
  }

  lemma OthersStayOk(s: System, next: System, actor: Option<nat>)
    requires Inv(s) && next.gone == s.gone && RowsKept(s, next.ledger.grants, actor)
    requires forall id :: id in next.workers && Some(id) != actor ==> id in s.workers && next.workers[id] == s.workers[id]
    ensures forall id :: id in next.workers && Some(id) != actor ==> WorkerOk(next, id)
  {
    forall id | id in next.workers && Some(id) != actor ensures WorkerOk(next, id) {
      assert WorkerOk(s, id);
    }
  }

  /** What a transaction may do to the ledger on behalf of `actor`. */
  ghost predicate LedgerKept(s: System, after: Ledger, actor: nat) {
    && RowsKept(s, after.grants, Some(actor)) && RowsOk(after.grants) && OneOpenPerLane(after.grants)
    && |after.grants| <= after.maxGrants && after.finalized == s.ledger.finalized
    && (s.ledger.stopped.Some? ==> after.stopped == s.ledger.stopped)
  }

  lemma ReplyKeeps(s: System, id: nat, r: Reply)
    requires Inv(s) && Running(s, id) && LedgerKept(s, r.ledger, id) && WorkerOk(Told(s, id, r), id)
    requires s.settled ==> r.ledger.grants == s.ledger.grants
    ensures Inv(Told(s, id, r))
  {
    OthersStayOk(s, Told(s, id, r), Some(id));
  }

  /** Reconciling one lane keeps every row's owner and closes only rows of the dead. */
  lemma ReconciledKept(s: System, lane: Option<string>, probe: nat -> Liveness, size: nat -> nat, actor: Option<nat>)
    requires Inv(s) && Truthful(s, probe)
    ensures var rs := Reconciled(s.ledger.grants, lane, probe, size);
            RowsKept(s, rs, actor) && RowsOk(rs) && OneOpenPerLane(rs) && |rs| == |s.ledger.grants|
  {
    ReconciledAt(s.ledger.grants, lane, probe, size);
  }

  /** The three ways a claim's transaction can end. */
  lemma ClaimShape(l: Ledger, lane: string, kind: Kind, identity: string, worker: nat, now: Instant,
                   probe: nat -> Liveness, size: nat -> nat)
    ensures var o := Claim(l, lane, kind, identity, worker, now, probe, size);
            var rs := Reconciled(l.grants, Some(lane), probe, size);
            || (o.ledger == l && o.refusal.Some?)
            || (o.refusal.Some? && l.stopped.None?
                && (o.ledger == Stop(l, o.refusal.value) || o.ledger == Stop(l.(grants := rs), o.refusal.value)))
            || (o.refusal.None? && l.stopped.None? && !Blocked(l.grants, Some(lane), probe) && |rs| < l.maxGrants
                && o.ledger == Claimed(l.(grants := rs), lane, kind, worker, now))
  {
  }

  /** A committed reservation never lifts the total above the pool. */
  lemma ClaimReservesWithinPool(l: Ledger, lane: string, kind: Kind, identity: string, worker: nat, now: Instant,
                                probe: nat -> Liveness, size: nat -> nat)
    requires RowsOk(l.grants)
    ensures var o := Claim(l, lane, kind, identity, worker, now, probe, size);
            o.refusal.None? ==> Committed(o.ledger.grants) <= Pool(o.ledger)
  {
    var rs := Reconciled(l.grants, Some(lane), probe, size);
    SumsOfAppend(rs, Grant(lane, worker, Initial(kind), 0, 0, 0, false, Unset));
  }

  lemma AppendKeepsLanes(gs: seq<Grant>, g: Grant)
    requires OneOpenPerLane(gs) && forall i :: 0 <= i < |gs| && gs[i].lane == g.lane ==> gs[i].closed
    ensures OneOpenPerLane(gs + [g])
  {
  }

  lemma LaneIsFree(gs: seq<Grant>, lane: string, probe: nat -> Liveness, size: nat -> nat)
    requires RowsOk(gs) && !Blocked(gs, Some(lane), probe)
    ensures var rs := Reconciled(gs, Some(lane), probe, size);
            forall i :: 0 <= i < |rs| && rs[i].lane == lane ==> rs[i].closed
  {
    ReconciledAt(gs, Some(lane), probe, size);
    var rs := Reconciled(gs, Some(lane), probe, size);
    forall i | 0 <= i < |rs| && rs[i].lane == lane ensures rs[i].closed {
      assert gs[i].lane == lane;
    }
  }

  lemma NewGrantKept(s: System, id: nat, lane: string, reserved: int, probe: nat -> Liveness, size: nat -> nat)
    requires Inv(s) && Truthful(s, probe) && !Blocked(s.ledger.grants, Some(lane), probe)
    ensures var rs := Reconciled(s.ledger.grants, Some(lane), probe, size);
            var after := rs + [Grant(lane, id, reserved, 0, 0, 0, false, Unset)];
            RowsKept(s, after, Some(id)) && RowsOk(after) && OneOpenPerLane(after)
  {
    ReconciledKept(s, Some(lane), probe, size, Some(id));
    LaneIsFree(s.ledger.grants, lane, probe, size);
    AppendKeepsLanes(Reconciled(s.ledger.grants, Some(lane), probe, size),
                     Grant(lane, id, reserved, 0, 0, 0, false, Unset));
  }

  lemma ClaimKeeps(s: System, id: nat, now: Instant, probe: nat -> Liveness, size: nat -> nat, commits: bool)
    requires Inv(s) && Running(s, id) && s.workers[id].grant.None? && Truthful(s, probe)
    ensures Inv(Told(s, id, ClaimStep(s.ledger, s.workers[id], id, now, probe, size, commits)))
  {
    var l, w := s.ledger, s.workers[id];
    var r := ClaimStep(l, w, id, now, probe, size, commits);
    ClaimShape(l, w.lane, w.kind, w.identity, id, now, probe, size);
    ReconciledKept(s, Some(w.lane), probe, size, Some(id));
    assert WorkerOk(s, id);
    if r.worker.grant.Some? {
      NewGrantKept(s, id, w.lane, Initial(w.kind), probe, size);
    }
    ReplyKeeps(s, id, r);
  }

  function Grown(gs: seq<Grant>, i: nat, chunk: int): seq<Grant>
    requires i < |gs|
  {
    gs[i := gs[i].(reserved := gs[i].reserved + chunk)]
  }

  /** An admission leaves the rows alone or grows its own by a committed chunk; a lost chunk stops the worker. */
  ghost predicate AdmitOutcome(l: Ledger, w: Worker, r: Reply)
    requires w.grant.Some? ==> w.grant.value < |l.grants|
  {
    var gained := r.worker.reserved - w.reserved;
    && r.worker == w.(reserved := r.worker.reserved, stopReason := r.worker.stopReason, terminal := r.worker.terminal,
                      lastClock := r.worker.lastClock, lastCheckpoint := r.worker.lastCheckpoint)
    && r.ledger == l.(grants := r.ledger.grants, stopped := r.ledger.stopped, last := r.ledger.last)
    && (l.stopped.Some? ==> r.ledger.stopped == l.stopped)
    && (w.stopReason.Some? ==> r.worker.stopReason.Some?)
    && 0 <= gained <= CHUNK_BYTES
    && (gained > 0 ==> w.grant.Some?)
    && (if gained > 0 && r.ledger.grants != l.grants
        then r.ledger.grants == Grown(l.grants, w.grant.value, gained) && Committed(r.ledger.grants) <= Pool(l)
        else r.ledger.grants == l.grants && (gained > 0 ==> r.worker.stopReason.Some?))
  }

  lemma TransactionShape(l: Ledger, w: Worker, env: AdmitEnv)
    requires w.grant.Some? && w.grant.value < |l.grants| && !l.grants[w.grant.value].closed && w.stopReason.None?
    ensures AdmitOutcome(l, w, AdmitTransaction(l, w, env))
  {
    AdmitReservesWithinPool(l, w.grant.value, env.locked, NeedsChunk(w), env.free, w.minFree);
  }

  lemma StoppingKeepsOutcome(l: Ledger, w: Worker, r: Reply, reason: Reason, connects: bool)
    requires (w.grant.Some? ==> w.grant.value < |l.grants|) && AdmitOutcome(l, w, r)
    ensures AdmitOutcome(l, w, DurableStop(r.ledger, r.worker, reason, connects))
  {
  }

  lemma SeeingKeepsOutcome(l: Ledger, w: Worker, at: Instant, r: Reply)
    requires (w.grant.Some? ==> w.grant.value < |l.grants|) && AdmitOutcome(l, w.(lastClock := at), r)
    ensures AdmitOutcome(l, w, r)
  {
  }

  lemma AdmitShape(l: Ledger, w: Worker, env: AdmitEnv)
    requires w.grant.Some? ==> w.grant.value < |l.grants| && !l.grants[w.grant.value].closed
    ensures AdmitOutcome(l, w, AdmitStep(l, w, env))
  {
    if w.grant.Some? && w.stopReason.None? {
      var seen := w.(lastClock := env.at);
      TransactionShape(l, seen, env);
      var r := AdmitTransaction(l, seen, env);
      SeeingKeepsOutcome(l, w, env.at, r);
      StoppingKeepsOutcome(l, w, Reply(l, w, None), CanaryClock, env.stopConnects);
      StoppingKeepsOutcome(l, w, Reply(l, seen, None), CanaryExpired, env.stopConnects);
      StoppingKeepsOutcome(l, w, r, CanaryExpired, env.stopConnects);
    }
  }

  lemma AdmitKeeps(s: System, id: nat, env: AdmitEnv)
    requires Inv(s) && Running(s, id)
    ensures GrantKnown(s, id) && Inv(Told(s, id, AdmitStep(s.ledger, s.workers[id], env)))
  {
    assert WorkerOk(s, id);
    AdmitShape(s.ledger, s.workers[id], env);
    ReplyKeeps(s, id, AdmitStep(s.ledger, s.workers[id], env));
  }

  lemma CloseKeeps(s: System, id: nat, measured: nat, reason: Reason, commits: bool)
    requires Inv(s) && id in s.workers
    ensures GrantKnown(s, id) && Inv(Told(s, id, CloseStep(s.ledger, s.workers[id], measured, reason, commits)))
  {
    assert WorkerOk(s, id);
    var r := CloseStep(s.ledger, s.workers[id], measured, reason, commits);
    OthersStayOk(s, Told(s, id, r), Some(id));
  }

  lemma SettleKeeps(s: System, now: Instant, probe: nat -> Liveness, size: nat -> nat)
    requires Inv(s) && Truthful(s, probe)
    ensures var o := Settle(s.ledger, now, probe, size);
            o.refusal.None? ==> Inv(s.(ledger := o.ledger, settled := true))
  {
    var o := Settle(s.ledger, now, probe, size);
    var next := s.(ledger := o.ledger, settled := true);
    if o.refusal.None? {
      ReconciledKept(s, None, probe, size, None);
      OthersStayOk(s, next, None);
      NothingStaysOpen(s.ledger.grants, probe, size);
    }
  }

  lemma NothingStaysOpen(gs: seq<Grant>, probe: nat -> Liveness, size: nat -> nat)
    requires RowsOk(gs) && !Blocked(gs, None, probe)
    ensures AllClosed(Reconciled(gs, None, probe, size))
  {
    ReconciledAt(gs, None, probe, size);
    var rs := Reconciled(gs, None, probe, size);
    forall i | 0 <= i < |rs| ensures rs[i].closed {
      assert gs[i].closed || probe(gs[i].worker) == Gone;
    }
  }

  lemma StepKeepsInv(s: System, e: Event)
    requires Inv(s)
    ensures Inv(Step(s, e))
  {
    if Enabled(s, e) {
      match e {
        case ClaimGrant(id, now, probe, size, commits) => ClaimKeeps(s, id, now, probe, size, commits);
        case AdmitNext(id, env) => AdmitKeeps(s, id, env);
        case CloseGrant(id, measured, reason, commits) => CloseKeeps(s, id, measured, reason, commits);
        case SettleAll(now, probe, size, commits) => SettleKeeps(s, now, probe, size);
        case _ => SmallStepKeeps(s, e);
      }
    }
  }

  lemma SmallStepKeeps(s: System, e: Event)
    requires Inv(s) && (e.Spawn? || e.ChargeFrame? || e.Die? || e.OperatorStop? || e.MarkFinalized?)
    ensures Inv(Step(s, e))
  {
    var next := Step(s, e);
    forall id | id in next.workers ensures WorkerOk(next, id) {
      assert id in s.workers ==> WorkerOk(s, id);
    }
  }

  lemma {:induction false} EveryRunIsSafe(s: System, es: seq<Event>)
    requires Prepared(s)
    ensures Inv(Run(s, es))
  {
    if es != [] {
      EveryRunIsSafe(s, es[..|es| - 1]);
      StepKeepsInv(Run(s, es[..|es| - 1]), es[|es| - 1]);
    }
  }

  // ---- what never changes again ----

  /** Later ledgers keep every row's owner, every closed row, the first stop reason and, once stopped, the row count. */
  ghost predicate Follows(a: Ledger, b: Ledger) {
    && RowsFollow(a.grants, b.grants)
    && (a.stopped.Some? ==> b.stopped == a.stopped && |b.grants| == |a.grants|)
    && (a.finalized ==> b.finalized)
    && b.maxGrants == a.maxGrants && Pool(b) == Pool(a)
  }

  lemma ClaimFollows(l: Ledger, w: Worker, id: nat, now: Instant, probe: nat -> Liveness, size: nat -> nat, commits: bool)
    requires RowsOk(l.grants)
    ensures Follows(l, ClaimStep(l, w, id, now, probe, size, commits).ledger)
  {
    ClaimShape(l, w.lane, w.kind, w.identity, id, now, probe, size);
    ReconciledFollows(l.grants, Some(w.lane), probe, size);
  }

  lemma AdmitFollows(l: Ledger, w: Worker, env: AdmitEnv)
    requires w.grant.Some? ==> w.grant.value < |l.grants| && !l.grants[w.grant.value].closed
    ensures Follows(l, AdmitStep(l, w, env).ledger)
  {
    AdmitShape(l, w, env);
  }

  lemma StepFollows(s: System, e: Event)
    requires Inv(s)
    ensures Follows(s.ledger, Step(s, e).ledger)
  {
    if Enabled(s, e) {
      match e {
        case ClaimGrant(id, now, probe, size, commits) => ClaimFollows(s.ledger, s.workers[id], id, now, probe, size, commits);
        case AdmitNext(id, env) =>
          assert WorkerOk(s, id);
          AdmitFollows(s.ledger, s.workers[id], env);
        case SettleAll(now, probe, size, commits) => ReconciledFollows(s.ledger.grants, None, probe, size);
        case _ =>
      }
    }
  }

  lemma ReconciledFollows(gs: seq<Grant>, lane: Option<string>, probe: nat -> Liveness, size: nat -> nat)
    requires RowsOk(gs)
    ensures RowsFollow(gs, Reconciled(gs, lane, probe, size)) && |Reconciled(gs, lane, probe, size)| == |gs|
  {
    ReconciledAt(gs, lane, probe, size);
  }

  lemma FollowsIsTransitive(a: Ledger, b: Ledger, c: Ledger)
    requires Follows(a, b) && Follows(b, c)
    ensures Follows(a, c)
  {
  }

  /** Whatever happens after any point of a run: a stop keeps its reason and admits no new grant, a closed grant is frozen. */
  lemma {:induction false} EveryRunFollows(s: System, es: seq<Event>, k: nat)
    requires Prepared(s) && k <= |es|
    ensures Follows(Run(s, es[..k]).ledger, Run(s, es).ledger)
  {
    if k == |es| {
      assert es[..k] == es;
    } else {
      var n := |es| - 1;
      assert es[..n][..k] == es[..k];
      EveryRunFollows(s, es[..n], k);
      EveryRunIsSafe(s, es[..n]);
      StepFollows(Run(s, es[..n]), es[n]);
      FollowsIsTransitive(Run(s, es[..k]).ledger, Run(s, es[..n]).ledger, Run(s, es).ledger);
    }
  }

  /** A finalized attempt is stopped with every grant closed, and no later event changes a row or the reason. */
  lemma FinalizedIsForever(s: System, es: seq<Event>, k: nat)
    requires Prepared(s) && k <= |es| && Run(s, es[..k]).ledger.finalized
    ensures var final := Run(s, es[..k]).ledger;
            && final.stopped.Some? && AllClosed(final.grants)
            && Run(s, es).ledger.finalized && Run(s, es).ledger.stopped == final.stopped
            && Run(s, es).ledger.grants == final.grants
  {
    EveryRunIsSafe(s, es[..k]);
    EveryRunFollows(s, es, k);
  }
}
