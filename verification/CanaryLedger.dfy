/**
 The canary's control database and its transactions. Each function below is one `BEGIN IMMEDIATE` block: it maps the
 rows it finds to the rows it leaves. A refusal rolls back; a durable stop commits whatever the block had already
 written and then raises; a lost commit leaves the rows as they were.
 */
module CanaryLedger {
  import opened Options

  const MIB := 1048576
  const CHUNK_BYTES := 16 * MIB
  const FRAME_MARGIN_BYTES := 4 * MIB
  const SEGMENT_OVERHEAD_BYTES := MIB
  const SNAPSHOT_RESERVE_BYTES := 6 * MIB
  const MIN_CLAIM_SECONDS := 60.0
  const CLOCK_TOLERANCE_SECONDS := 0.5
  const CLOCK_SLEW_FRACTION := 0.01

  /** The reason tokens of the source; `Token` stands for an operator's or a segment's own text. */
  datatype Reason =
    | CanaryIdentity | CanaryCorrupt | CanaryClock | CanaryExpired | CanaryExpiring | CanaryLaneBusy
    | CanaryGrantsExhausted | CanaryExhausted | CanaryBudgetLow | CanaryBudget | CanaryHeadroom | CanaryOvershoot
    | CanaryControlDb | CanaryControlBusy | CanaryNotClaimed | CanaryNotTerminal | CanaryWritersAliveOrUnknown
    | CanaryAlreadyFinalized | AbandonedRow | Unset | Token(text: string)

  datatype Instant = Instant(wall: real, mono: real)
  datatype Kind = Stream | Snapshot
  datatype Lane = Lane(kind: Kind, identity: string)
  datatype Liveness = Alive | Gone | Unknown

  datatype Grant = Grant(lane: string, worker: nat, reserved: int, consumed: int, accounted: int, overshoot: int,
                         closed: bool, reason: Reason)

  datatype Ledger = Ledger(
    maxBytes: int, metadataBytes: int, maxSeconds: real, maxGrants: nat, lanes: map<string, Lane>,
    first: Option<Instant>, last: Option<Instant>, stopped: Option<Reason>, finalized: bool, grants: seq<Grant>)

  function Pool(l: Ledger): int {
    l.maxBytes - l.metadataBytes
  }

  function Charge(g: Grant): int {
    if g.closed then g.consumed else g.reserved
  }

  function Committed(gs: seq<Grant>): int {
    if gs == [] then 0 else Committed(gs[..|gs| - 1]) + Charge(gs[|gs| - 1])
  }

  function ClosedConsumed(gs: seq<Grant>): int {
    if gs == [] then 0
    else ClosedConsumed(gs[..|gs| - 1]) + if gs[|gs| - 1].closed then gs[|gs| - 1].consumed else 0
  }

  function Overshoots(gs: seq<Grant>): int {
    if gs == [] then 0 else Overshoots(gs[..|gs| - 1]) + gs[|gs| - 1].overshoot
  }

  function Min(a: int, b: int): int {
    if a <= b then a else b
  }

  function Max(a: int, b: int): int {
    if a >= b then a else b
  }

  function Abs(x: real): real {
    if x < 0.0 then -x else x
  }

  // ---- clocks ----

  predicate Disagrees(now: Instant, last: Instant) {
    var gap := if now.mono - last.mono > 0.0 then now.mono - last.mono else 0.0;
    Abs((now.wall - last.wall) - (now.mono - last.mono)) > CLOCK_TOLERANCE_SECONDS + CLOCK_SLEW_FRACTION * gap
  }

  predicate Backwards(now: Instant, last: Instant) {
    now.wall < last.wall || now.mono < last.mono || Disagrees(now, last)
  }

  predicate SaneRow(first: Instant, last: Instant) {
    first.wall <= last.wall && 0.0 <= first.mono <= last.mono
  }

  predicate Reached(deadline: Instant, now: Instant) {
    now.wall >= deadline.wall || now.mono >= deadline.mono
  }

  function Deadline(first: Instant, maxSeconds: real): Instant {
    Instant(first.wall + maxSeconds, first.mono + maxSeconds)
  }

  // ---- stopping ----

  /** COALESCE: the first reason stays. */
  function Stop(l: Ledger, reason: Reason): Ledger {
    if l.stopped.Some? then l else l.(stopped := Some(reason))
  }

  datatype Refusal = Refusal(reason: Reason, durable: bool)

  // ---- reconciling ----

  predicate Abandoned(g: Grant, lane: Option<string>, probe: nat -> Liveness) {
    !g.closed && (lane.Some? ==> g.lane == lane.value) && probe(g.worker) == Gone
  }

  function ReconciledRow(g: Grant, held: nat, lane: Option<string>, probe: nat -> Liveness): Grant {
    if Abandoned(g, lane, probe)
    then g.(closed := true, consumed := held, overshoot := Max(0, held - g.reserved), reason := AbandonedRow)
    else g
  }

  /** Closes the grants of provably gone workers, charging each what its run directory holds. */
  function Reconciled(gs: seq<Grant>, lane: Option<string>, probe: nat -> Liveness, size: nat -> nat): seq<Grant> {
    if gs == [] then []
    else Reconciled(gs[..|gs| - 1], lane, probe, size) + [ReconciledRow(gs[|gs| - 1], size(|gs| - 1), lane, probe)]
  }

  /** Some grant is still open with a worker that is alive or of unknown liveness. */
  predicate Blocked(gs: seq<Grant>, lane: Option<string>, probe: nat -> Liveness) {
    exists i :: 0 <= i < |gs| && !gs[i].closed && (lane.Some? ==> gs[i].lane == lane.value) && probe(gs[i].worker) != Gone
  }

  // ---- claiming ----

  function Initial(kind: Kind): int {
    if kind.Stream? then CHUNK_BYTES + SEGMENT_OVERHEAD_BYTES else SNAPSHOT_RESERVE_BYTES
  }

  function ClaimGuard(l: Ledger, lane: string, kind: Kind, identity: string, now: Instant): Option<Refusal> {
    if l.stopped.Some? then Some(Refusal(l.stopped.value, false))
    else if lane !in l.lanes || l.lanes[lane] != Lane(kind, identity) then Some(Refusal(CanaryIdentity, false))
    else if l.first.None? || l.last.None? then None
    else if !SaneRow(l.first.value, l.last.value) then Some(Refusal(CanaryCorrupt, true))
    else if Backwards(now, l.last.value) then Some(Refusal(CanaryClock, true))
    else if Reached(Deadline(l.first.value, l.maxSeconds), now) then Some(Refusal(CanaryExpired, true))
    else if now.wall + MIN_CLAIM_SECONDS > l.first.value.wall + l.maxSeconds then Some(Refusal(CanaryExpiring, false))
    else None
  }

  function BudgetGuard(l: Ledger, kind: Kind): Option<Refusal> {
    if |l.grants| >= l.maxGrants then Some(Refusal(CanaryGrantsExhausted, true))
    else if Pool(l) - ClosedConsumed(l.grants) < Initial(kind) then Some(Refusal(CanaryExhausted, true))
    else if Pool(l) - Committed(l.grants) < Initial(kind) then Some(Refusal(CanaryBudgetLow, false))
    else None
  }

  datatype Outcome = Outcome(ledger: Ledger, refusal: Option<Reason>)

  function Refuse(before: Ledger, written: Ledger, r: Refusal): Outcome {
    Outcome(if r.durable then Stop(written, r.reason) else before, Some(r.reason))
  }

  function Claimed(l: Ledger, lane: string, kind: Kind, worker: nat, now: Instant): Ledger {
    l.(grants := l.grants + [Grant(lane, worker, Initial(kind), 0, 0, 0, false, Unset)],
       first := if l.first.Some? then l.first else Some(now), last := Some(now))
  }

  function Claim(l: Ledger, lane: string, kind: Kind, identity: string, worker: nat, now: Instant,
                 probe: nat -> Liveness, size: nat -> nat): Outcome {
    var guard := ClaimGuard(l, lane, kind, identity, now);
    if guard.Some? then Refuse(l, l, guard.value)
    else
      var written := l.(grants := Reconciled(l.grants, Some(lane), probe, size));
      if Blocked(l.grants, Some(lane), probe) then Outcome(l, Some(CanaryLaneBusy))
      else
        var budget := BudgetGuard(written, kind);
        if budget.Some? then Refuse(l, written, budget.value)
        else Outcome(Claimed(written, lane, kind, worker, now), None)
  }

  // ---- admitting a frame ----

  /** What the transaction does for a grant: checkpoint the clock and, if the local reservation runs low, add a chunk. */
  datatype Admission = Admission(ledger: Ledger, refusal: Option<Reason>, terminal: bool, checkpointed: bool, chunk: int)

  function Checkpointed(l: Ledger, now: Instant): Ledger {
    l.(last := Some(now))
  }

  function RequiredFree(maxBytes: int, written: int, minFree: int): int {
    minFree + Max(0, maxBytes - written)
  }

  function Admit(l: Ledger, grant: nat, now: Instant, needChunk: bool, free: Option<int>, minFree: int): Admission
    requires grant < |l.grants|
  {
    if l.stopped.Some? then Admission(l, l.stopped, true, false, 0)
    else if l.last.Some? && now.wall < l.last.value.wall then
      Admission(Stop(l, CanaryClock), Some(CanaryClock), true, false, 0)
    else
      var l1 := Checkpointed(l, now);
      if !needChunk then Admission(l1, None, false, true, 0)
      else
        var chunk := Min(CHUNK_BYTES, Pool(l) - Committed(l.grants));
        if chunk < FRAME_MARGIN_BYTES then Admission(l1, Some(CanaryBudget), false, true, 0)
        else if free.Some? && free.value < RequiredFree(Pool(l) - ClosedConsumed(l.grants), 0, minFree) then
          Admission(Stop(l1, CanaryHeadroom), Some(CanaryHeadroom), true, true, 0)
        else
          var g := l.grants[grant];
          Admission(l1.(grants := l1.grants[grant := g.(reserved := g.reserved + chunk)]), None, false, true, chunk)
  }

  // ---- closing, stopping, finalizing ----

  function Closed(l: Ledger, grant: nat, measured: nat, accounted: int, overshoot: int, reason: Reason): Ledger
    requires grant < |l.grants|
  {
    var g := l.grants[grant];
    if g.closed then l
    else l.(grants := l.grants[grant := g.(closed := true, consumed := measured, accounted := accounted,
                                            overshoot := overshoot, reason := reason)])
  }

  /** The overshoot a closing worker records, from what it believes it reserved. */
  function RecordedOvershoot(overshoot: int, reserved: int, measured: nat): int {
    Max(overshoot, Max(measured - reserved, 0))
  }

  /** Finalize's first transaction: the attempt must be over and every writer provably gone. */
  function Settle(l: Ledger, now: Instant, probe: nat -> Liveness, size: nat -> nat): Outcome {
    if l.finalized then Outcome(l, Some(CanaryAlreadyFinalized))
    else if l.stopped.None? && !(l.first.Some? && now.wall >= l.first.value.wall + l.maxSeconds) then
      Outcome(l, Some(CanaryNotTerminal))
    else if Blocked(l.grants, None, probe) then Outcome(l, Some(CanaryWritersAliveOrUnknown))
    else Outcome(Stop(l, CanaryExpired).(grants := Reconciled(l.grants, None, probe, size)), None)
  }

  // ---- sums over rows ----

  lemma {:induction false} SumsOfUpdate(gs: seq<Grant>, i: nat, g: Grant)
    requires i < |gs|
    ensures Committed(gs[i := g]) == Committed(gs) - Charge(gs[i]) + Charge(g)
    ensures Overshoots(gs[i := g]) == Overshoots(gs) - gs[i].overshoot + g.overshoot
  {
    var n := |gs| - 1;
    if i < n {
      assert gs[i := g][..n] == gs[..n][i := g];
      SumsOfUpdate(gs[..n], i, g);
    } else {
      assert gs[i := g][..n] == gs[..n];
    }
  }

  lemma SumsOfAppend(gs: seq<Grant>, g: Grant)
    ensures Committed(gs + [g]) == Committed(gs) + Charge(g)
    ensures Overshoots(gs + [g]) == Overshoots(gs) + g.overshoot
  {
    assert (gs + [g])[..|gs|] == gs;
  }

  lemma {:induction false} ReconciledLength(gs: seq<Grant>, lane: Option<string>, probe: nat -> Liveness, size: nat -> nat)
    ensures |Reconciled(gs, lane, probe, size)| == |gs|
  {
    if gs != [] {
      ReconciledLength(gs[..|gs| - 1], lane, probe, size);
    }
  }

  ghost predicate RowsOk(gs: seq<Grant>) {
    forall i :: 0 <= i < |gs| ==> 0 <= gs[i].overshoot && (!gs[i].closed ==> gs[i].overshoot == 0)
  }

  /**
   Of two rows, what reconciling the first to the second keeps and changes: an open row of a gone worker is closed and
   charged what its run holds, and what that exceeds its reservation by is its overshoot.
   */
  predicate RowReconciled(g: Grant, r: Grant, held: nat, lane: Option<string>, probe: nat -> Liveness) {
    && r.lane == g.lane && r.worker == g.worker && r.reserved == g.reserved && r.accounted == g.accounted
    && (if !g.closed && (lane.None? || g.lane == lane.value) && probe(g.worker) == Gone
        then r.closed && r.consumed == held && r.reason == AbandonedRow
             && r.overshoot == if held > g.reserved then held - g.reserved else 0
        else r == g)
  }

  lemma RowIsReconciled(g: Grant, held: nat, lane: Option<string>, probe: nat -> Liveness)
    requires 0 <= g.overshoot && (!g.closed ==> g.overshoot == 0)
    ensures var r := ReconciledRow(g, held, lane, probe);
            && RowReconciled(g, r, held, lane, probe) && 0 <= r.overshoot && (!r.closed ==> r.overshoot == 0)
            && Charge(r) - r.overshoot <= Charge(g) - g.overshoot
  {
  }

  lemma {:induction false} ReconciledRows(gs: seq<Grant>, lane: Option<string>, probe: nat -> Liveness, size: nat -> nat)
    ensures var rs := Reconciled(gs, lane, probe, size);
            |rs| == |gs| && forall i :: 0 <= i < |gs| ==> rs[i] == ReconciledRow(gs[i], size(i), lane, probe)
  {
    if gs != [] {
      ReconciledRows(gs[..|gs| - 1], lane, probe, size);
    }
  }

  lemma {:induction false} ReconciledSums(gs: seq<Grant>, lane: Option<string>, probe: nat -> Liveness, size: nat -> nat)
    requires RowsOk(gs)
    ensures var rs := Reconciled(gs, lane, probe, size); Committed(rs) - Overshoots(rs) <= Committed(gs) - Overshoots(gs)
  {
    if gs != [] {
      var n := |gs| - 1;
      assert RowsOk(gs[..n]);
      ReconciledSums(gs[..n], lane, probe, size);
      RowIsReconciled(gs[n], size(n), lane, probe);
      SumsOfAppend(Reconciled(gs[..n], lane, probe, size), ReconciledRow(gs[n], size(n), lane, probe));
    }
  }

  /**
   Reconciling closes the open rows of gone workers, each charged what its run holds, changes no other row, and never
   raises the committed total by more than it records as overshoot.
   */
  lemma ReconciledAt(gs: seq<Grant>, lane: Option<string>, probe: nat -> Liveness, size: nat -> nat)
    requires RowsOk(gs)
    ensures var rs := Reconciled(gs, lane, probe, size);
            && |rs| == |gs| && RowsOk(rs)
            && Committed(rs) - Overshoots(rs) <= Committed(gs) - Overshoots(gs)
            && (forall i :: 0 <= i < |gs| ==> RowReconciled(gs[i], rs[i], size(i), lane, probe))
  {
    ReconciledRows(gs, lane, probe, size);
    ReconciledSums(gs, lane, probe, size);
    forall i | 0 <= i < |gs| ensures RowReconciled(gs[i], Reconciled(gs, lane, probe, size)[i], size(i), lane, probe) {
      RowIsReconciled(gs[i], size(i), lane, probe);
    }
    forall i | 0 <= i < |gs| ensures 0 <= Reconciled(gs, lane, probe, size)[i].overshoot {
      RowIsReconciled(gs[i], size(i), lane, probe);
    }
  }
}
