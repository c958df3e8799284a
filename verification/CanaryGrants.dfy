/**
 One lane's claim on the canary, as the worker process holds it: fields updated in place, and the control database it
 shares with its siblings. Every method is proved to be the corresponding step of `CanaryProtocol`.
 */
module CanaryGrants {
  import opened Options
  import opened CanaryLedger
  import opened CanaryProtocol

  class ControlDb {
    var rows: Ledger

    constructor (rows: Ledger)
      ensures this.rows == rows
    {
      this.rows := rows;
    }
  }

  /** Closes the provably abandoned rows of a lane one by one; tells whether some other open row blocks the lane. */
  method ReconcileOpenGrants(gs: seq<Grant>, lane: Option<string>, probe: nat -> Liveness, size: nat -> nat)
    returns (rows: seq<Grant>, blocked: bool)
    ensures rows == Reconciled(gs, lane, probe, size) && blocked == Blocked(gs, lane, probe)
  {
    rows, blocked := [], false;
    for i := 0 to |gs|
      invariant rows == Reconciled(gs[..i], lane, probe, size) && blocked == Blocked(gs[..i], lane, probe)
    {
      var g := gs[i];
      assert gs[..i + 1][..i] == gs[..i];
      if !g.closed && (lane.Some? ==> g.lane == lane.value) {
        if probe(g.worker) == Gone {
          g := g.(closed := true, consumed := size(i), overshoot := Max(0, size(i) - g.reserved), reason := AbandonedRow);
        } else {
          assert gs[..i + 1][i] == g;
          blocked := true;
        }
      }
      rows := rows + [g];
    }
    assert gs[..|gs|] == gs;
  }

  class CanaryGrant {
    const db: ControlDb
    const pid: nat
    const lane: string
    const kind: Kind
    const identity: string
    const minFree: int
    var grantId: Option<nat>
    var claimed: bool
    var reserved: int
    var accounted: int
    var overshoot: int
    var stopReason: Option<Reason>
    var terminal: bool
    var deadline: Instant
    var lastClock: Instant
    var lastCheckpoint: real
    var finished: bool

    /** The worker of the protocol holds a grant once its claim has returned, not from the insert on. */
    ghost function Self(): Worker
      reads this
    {
      Worker(lane, kind, identity, minFree, if claimed then grantId else None, reserved, accounted, overshoot, stopReason, terminal, deadline,
             lastClock, lastCheckpoint, finished)
    }

    constructor (db: ControlDb, pid: nat, lane: string, kind: Kind, identity: string, minFree: int)
      ensures Self() == NewWorker(lane, kind, identity, minFree) && grantId.None? && this.db == db && this.pid == pid
    {
      this.db, this.pid, this.lane, this.kind, this.identity, this.minFree := db, pid, lane, kind, identity, minFree;
      grantId, reserved, accounted, overshoot := None, 0, 0, 0;
      claimed, stopReason, terminal, finished := false, None, false, false;
      deadline, lastClock, lastCheckpoint := EPOCH, EPOCH, 0.0;
    }

    /** A durable stop commits what was written so far and then refuses; without its commit nothing is left. */
    method CommitStop(written: Ledger, reason: Reason, commits: bool) returns (refusal: Option<Reason>)
      requires written.stopped.None?
      modifies db
      ensures db.rows == if commits then Stop(written, reason) else old(db.rows)
      ensures refusal == Some(if commits then reason else CanaryControlDb)
    {
      if commits {
        db.rows := written.(stopped := Some(reason));
        return Some(reason);
      }
      return Some(CanaryControlDb);
    }

    method CheckClaim(now: Instant, commits: bool) returns (refusal: Option<Reason>)
      modifies db
      ensures var g := ClaimGuard(old(db.rows), lane, kind, identity, now);
              && (g.None? <==> refusal.None?)
              && (g.Some? ==> refusal == Some(if g.value.durable && !commits then CanaryControlDb else g.value.reason))
              && db.rows == if g.Some? && g.value.durable && commits then Stop(old(db.rows), g.value.reason) else old(db.rows)
    {
      var l := db.rows;
      if l.stopped.Some? {
        return l.stopped;
      }
      if lane !in l.lanes || l.lanes[lane] != Lane(kind, identity) {
        return Some(CanaryIdentity);
      }
      if l.first.None? || l.last.None? {
        return None;
      }
      var first, last := l.first.value, l.last.value;
      if !SaneRow(first, last) {
        refusal := CommitStop(l, CanaryCorrupt, commits);
      } else if Backwards(now, last) {
        refusal := CommitStop(l, CanaryClock, commits);
      } else if now.wall >= first.wall + l.maxSeconds || now.mono >= first.mono + l.maxSeconds {
        refusal := CommitStop(l, CanaryExpired, commits);
      } else if now.wall + MIN_CLAIM_SECONDS > first.wall + l.maxSeconds {
        refusal := Some(CanaryExpiring);
      } else {
        refusal := None;
      }
    }

    /** The id of an inserted row stays behind when its commit is lost; a repeated claim overwrites it. */
    method Claim(now: Instant, probe: nat -> Liveness, size: nat -> nat, commits: bool) returns (refusal: Option<Reason>)
      requires !claimed
      modifies this, db
      ensures var r := ClaimStep(old(db.rows), old(Self()), pid, now, probe, size, commits);
              db.rows == r.ledger && Self() == r.worker && refusal == r.refusal
      ensures var inserts := CanaryLedger.Claim(old(db.rows), lane, kind, identity, pid, now, probe, size).refusal.None?;
              && claimed == (inserts && commits)
              && grantId == if inserts then Some(|old(db.rows).grants|) else old(grantId)
    {
      var l := db.rows;
      refusal := CheckClaim(now, commits);
      if refusal.Some? {
        return;
      }
      var rows, blocked := ReconcileOpenGrants(l.grants, Some(lane), probe, size);
      if blocked {
        return Some(CanaryLaneBusy);
      }
      var written := l.(grants := rows);
      refusal := CheckBudget(written, commits);
      if refusal.Some? {
        return;
      }
      ReconciledLength(l.grants, Some(lane), probe, size);
      grantId := Some(|rows|);
      if !commits {
        return Some(CanaryControlDb);
      }
      Take(written, now);
    }

    method Take(written: Ledger, now: Instant)
      requires grantId == Some(|written.grants|)
      modifies this, db
      ensures db.rows == Claimed(written, lane, kind, pid, now) && claimed && grantId == old(grantId)
      ensures var first := if written.first.Some? then written.first.value else now;
              Self() == old(Self()).(grant := Some(|written.grants|), reserved := Initial(kind),
                                     deadline := Deadline(first, written.maxSeconds), lastClock := now,
                                     lastCheckpoint := now.mono)
    {
      var first := if written.first.Some? then written.first.value else now;
      claimed := true;
      reserved := Initial(kind);
      db.rows := written.(grants := written.grants + [Grant(lane, pid, reserved, 0, 0, 0, false, Unset)],
                          first := Some(first), last := Some(now));
      deadline := Instant(first.wall + written.maxSeconds, first.mono + written.maxSeconds);
      lastClock := now;
      lastCheckpoint := now.mono;
    }

    method CheckBudget(written: Ledger, commits: bool) returns (refusal: Option<Reason>)
      requires written.stopped.None?
      modifies db
      ensures var g := BudgetGuard(written, kind);
              && (g.None? <==> refusal.None?)
              && (g.Some? ==> refusal == Some(if g.value.durable && !commits then CanaryControlDb else g.value.reason))
              && db.rows == if g.Some? && g.value.durable && commits then Stop(written, g.value.reason) else old(db.rows)
    {
      var initial := Initial(kind);
      if |written.grants| >= written.maxGrants {
        refusal := CommitStop(written, CanaryGrantsExhausted, commits);
      } else if Pool(written) - ClosedConsumed(written.grants) < initial {
        refusal := CommitStop(written, CanaryExhausted, commits);
      } else if Pool(written) - Committed(written.grants) < initial {
        refusal := Some(CanaryBudgetLow);
      } else {
        refusal := None;
      }
    }

    // ---- per-frame admission ----

    method EndDurably(reason: Reason, connects: bool) returns (refusal: Option<Reason>)
      modifies this, db
      ensures var r := DurableStop(old(db.rows), old(Self()), reason, connects);
              db.rows == r.ledger && Self() == r.worker && refusal == r.refusal
    {
      stopReason, terminal := Some(reason), true;
      if connects {
        db.rows := Stop(db.rows, reason);
      }
      return Some(reason);
    }

    method AdmitFrame(env: AdmitEnv) returns (refusal: Option<Reason>)
      requires grantId.Some? ==> claimed && grantId.value < |db.rows.grants|
      modifies this, db
      ensures var r := AdmitStep(old(db.rows), old(Self()), env);
              db.rows == r.ledger && Self() == r.worker && refusal == r.refusal
    {
      if grantId.None? {
        return Some(CanaryNotClaimed);
      }
      if stopReason.Some? {
        return stopReason;
      }
      if Backwards(env.at, lastClock) {
        refusal := EndDurably(CanaryClock, env.stopConnects);
        return;
      }
      lastClock := env.at;
      if Reached(deadline, env.at) {
        refusal := EndDurably(CanaryExpired, env.stopConnects);
        return;
      }
      var needChunk := reserved - accounted < FRAME_MARGIN_BYTES + SEGMENT_OVERHEAD_BYTES;
      if !needChunk && env.at.mono - lastCheckpoint < 1.0 {
        return None;
      }
      if !env.connects {
        stopReason := Some(CanaryControlDb);
        return stopReason;
      }
      refusal := Transact(env, needChunk);
      if refusal.None? && Reached(deadline, env.after) {
        refusal := EndDurably(CanaryExpired, env.stopConnects);
      }
    }

    /** The body of the admission's transaction, run in memory first and then committed, or lost. */
    method Transact(env: AdmitEnv, needChunk: bool) returns (refusal: Option<Reason>)
      requires claimed && grantId.Some? && grantId.value < |db.rows.grants| && needChunk == NeedsChunk(Self()) && stopReason.None?
      modifies this, db
      ensures var r := AdmitTransaction(old(db.rows), old(Self()), env);
              db.rows == r.ledger && Self() == r.worker && refusal == r.refusal
    {
      var l := db.rows;
      var rows := l;
      if l.stopped.Some? {
        stopReason, terminal := l.stopped, true;
      } else if l.last.Some? && env.locked.wall < l.last.value.wall {
        stopReason, terminal := Some(CanaryClock), true;
        rows := rows.(stopped := Some(CanaryClock));
      } else {
        rows := rows.(last := Some(env.locked));
        lastCheckpoint := env.locked.mono;
        if needChunk {
          var chunk := Min(CHUNK_BYTES, Pool(l) - Committed(l.grants));
          if chunk < FRAME_MARGIN_BYTES {
            stopReason := Some(CanaryBudget);
          } else if env.free.Some? && env.free.value < RequiredFree(Pool(l) - ClosedConsumed(l.grants), 0, minFree) {
            stopReason, terminal := Some(CanaryHeadroom), true;
            rows := rows.(stopped := Some(CanaryHeadroom));
          } else {
            var g := rows.grants[grantId.value];
            rows := rows.(grants := rows.grants[grantId.value := g.(reserved := g.reserved + chunk)]);
            reserved := reserved + chunk;
          }
        }
      }
      if !env.commits && l.stopped.None? {
        stopReason := Some(CanaryControlDb);
      } else {
        db.rows := rows;
      }
      return stopReason;
    }

    method Consumed(nbytes: nat) returns (refusal: Option<Reason>)
      modifies this
      ensures Self() == Charged(old(Self()), nbytes)
      ensures refusal == if accounted > reserved then stopReason else None
    {
      accounted := accounted + nbytes;
      if accounted > reserved {
        overshoot := accounted - reserved;
        if stopReason.None? {
          stopReason := Some(CanaryOvershoot);
        }
        return stopReason;
      }
      return None;
    }

    method Close(measured: nat, reason: Reason, commits: bool) returns (refusal: Option<Reason>)
      requires grantId.Some? ==> claimed && grantId.value < |db.rows.grants|
      modifies this, db
      ensures var r := CloseStep(old(db.rows), old(Self()), measured, reason, commits);
              db.rows == r.ledger && Self() == r.worker && refusal == r.refusal
    {
      if grantId.None? {
        return Some(CanaryNotClaimed);
      }
      var over := Max(overshoot, Max(measured - reserved, 0));
      if !commits {
        return Some(CanaryControlBusy);
      }
      var g := db.rows.grants[grantId.value];
      if !g.closed {
        g := g.(closed := true, consumed := measured, accounted := accounted, overshoot := over, reason := reason);
        db.rows := db.rows.(grants := db.rows.grants[grantId.value := g]);
      }
      finished := true;
      return None;
    }
  }
}
