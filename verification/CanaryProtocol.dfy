/**
 Many lane workers sharing one canary ledger. A worker's side of claim, admission and close is given here next to the
 transactions of `CanaryLedger`; an event is one of these, a death, or an operator action, and a run is any sequence of
 events. Commits may be lost, workers may die at any point, and process liveness answers "gone" only for the dead.
 */
module CanaryProtocol {
  import opened Options
  import opened CanaryLedger

  datatype Worker = Worker(
    lane: string, kind: Kind, identity: string, minFree: int,
    grant: Option<nat>, reserved: int, accounted: int, overshoot: int,
    stopReason: Option<Reason>, terminal: bool, deadline: Instant, lastClock: Instant, lastCheckpoint: real,
    finished: bool)

  const EPOCH := Instant(0.0, 0.0)

  function NewWorker(lane: string, kind: Kind, identity: string, minFree: int): Worker {
    Worker(lane, kind, identity, minFree, None, 0, 0, 0, None, false, EPOCH, EPOCH, 0.0, false)
  }

  datatype Reply = Reply(ledger: Ledger, worker: Worker, refusal: Option<Reason>)

  // ---- a worker's steps ----

  /** What a worker makes of its claim's transaction, which may still be lost. */
  function ClaimReply(l: Ledger, w: Worker, o: Outcome, now: Instant, commits: bool): Reply {
    if !commits && o.ledger != l then Reply(l, w, Some(CanaryControlDb))
    else if o.refusal.Some? || |o.ledger.grants| == 0 || o.ledger.first.None? then Reply(o.ledger, w, o.refusal)
    else
      Reply(o.ledger,
            w.(grant := Some(|o.ledger.grants| - 1), reserved := Initial(w.kind),
               deadline := Deadline(o.ledger.first.value, l.maxSeconds), lastClock := now, lastCheckpoint := now.mono),
            None)
  }

  function ClaimStep(l: Ledger, w: Worker, id: nat, now: Instant, probe: nat -> Liveness, size: nat -> nat, commits: bool): Reply {
    ClaimReply(l, w, Claim(l, w.lane, w.kind, w.identity, id, now, probe, size), now, commits)
  }

  /** What one admission observes: the clock on entry, under the lock and at the end, and whether the database answers. */
  datatype AdmitEnv = AdmitEnv(at: Instant, connects: bool, locked: Instant, free: Option<int>, commits: bool,
                               after: Instant, stopConnects: bool)

  function DurableStop(l: Ledger, w: Worker, reason: Reason, connects: bool): Reply {
    Reply(if connects then Stop(l, reason) else l, w.(stopReason := Some(reason), terminal := true), Some(reason))
  }

  function NeedsChunk(w: Worker): bool {
    w.reserved - w.accounted < FRAME_MARGIN_BYTES + SEGMENT_OVERHEAD_BYTES
  }

  /**
   The transaction of an admission, which writes unless it finds a stop; a lost commit costs the rows, not what the
   worker already believes.
   */
  function AdmitTransaction(l: Ledger, w: Worker, env: AdmitEnv): Reply
    requires w.grant.Some? && w.grant.value < |l.grants|
  {
    var a := Admit(l, w.grant.value, env.locked, NeedsChunk(w), env.free, w.minFree);
    var told := w.(stopReason := a.refusal, terminal := w.terminal || a.terminal, reserved := w.reserved + a.chunk,
                   lastCheckpoint := if a.checkpointed then env.locked.mono else w.lastCheckpoint);
    if !env.commits && l.stopped.None? then Reply(l, told.(stopReason := Some(CanaryControlDb)), Some(CanaryControlDb))
    else Reply(a.ledger, told, a.refusal)
  }

  function AdmitStep(l: Ledger, w: Worker, env: AdmitEnv): Reply
    requires w.grant.Some? ==> w.grant.value < |l.grants|
  {
    if w.grant.None? then Reply(l, w, Some(CanaryNotClaimed))
    else if w.stopReason.Some? then Reply(l, w, w.stopReason)
    else if Backwards(env.at, w.lastClock) then DurableStop(l, w, CanaryClock, env.stopConnects)
    else
      var seen := w.(lastClock := env.at);
      if Reached(w.deadline, env.at) then DurableStop(l, seen, CanaryExpired, env.stopConnects)
      else if !NeedsChunk(w) && env.at.mono - w.lastCheckpoint < 1.0 then Reply(l, seen, None)
      else if !env.connects then Reply(l, seen.(stopReason := Some(CanaryControlDb)), Some(CanaryControlDb))
      else
        var r := AdmitTransaction(l, seen, env);
        if r.refusal.None? && Reached(w.deadline, env.after) then
          DurableStop(r.ledger, r.worker, CanaryExpired, env.stopConnects)
        else r
  }

  /** Bytes the sinks wrote; going past the reservation stops the worker. */
  function Charged(w: Worker, nbytes: nat): Worker {
    var accounted := w.accounted + nbytes;
    if accounted > w.reserved then
      w.(accounted := accounted, overshoot := accounted - w.reserved,
         stopReason := if w.stopReason.Some? then w.stopReason else Some(CanaryOvershoot))
    else w.(accounted := accounted)
  }

  function CloseStep(l: Ledger, w: Worker, measured: nat, reason: Reason, commits: bool): Reply
    requires w.grant.Some? ==> w.grant.value < |l.grants|
  {
    if w.grant.None? then Reply(l, w, Some(CanaryNotClaimed))
    else
      var overshoot := RecordedOvershoot(w.overshoot, w.reserved, measured);
      if commits then Reply(Closed(l, w.grant.value, measured, w.accounted, overshoot, reason), w.(finished := true), None)
      else Reply(l, w, Some(CanaryControlBusy))
  }

  // ---- the system ----

  datatype System = System(ledger: Ledger, workers: map<nat, Worker>, gone: set<nat>, settled: bool)

  datatype Event =
    | Spawn(id: nat, worker: Worker)
    | ClaimGrant(id: nat, now: Instant, probe: nat -> Liveness, size: nat -> nat, commits: bool)
    | AdmitNext(id: nat, env: AdmitEnv)
    | ChargeFrame(id: nat, nbytes: nat)
    | CloseGrant(id: nat, measured: nat, reason: Reason, commits: bool)
    | Die(id: nat)
    | OperatorStop(reason: Reason)
    | SettleAll(now: Instant, probe: nat -> Liveness, size: nat -> nat, commits: bool)
    | MarkFinalized

  predicate Running(s: System, id: nat) {
    id in s.workers && id !in s.gone && !s.workers[id].finished
  }

  /** "Gone" is only ever said of a dead worker. */
  ghost predicate Truthful(s: System, probe: nat -> Liveness) {
    forall id :: probe(id) == Gone ==> id in s.gone
  }

  /** A close may come late, from a worker already taken for dead, and may be repeated. */
  ghost predicate Enabled(s: System, e: Event) {
    match e {
      case Spawn(id, w) => id !in s.workers && id !in s.gone && w == NewWorker(w.lane, w.kind, w.identity, w.minFree)
      case ClaimGrant(id, _, probe, _, _) => Running(s, id) && s.workers[id].grant.None? && Truthful(s, probe)
      case AdmitNext(id, _) => Running(s, id) && GrantKnown(s, id)
      case ChargeFrame(id, _) => Running(s, id)
      case CloseGrant(id, _, _, _) => id in s.workers && GrantKnown(s, id)
      case Die(id) => id in s.workers
      case OperatorStop(_) => true
      case SettleAll(_, probe, _, _) => Truthful(s, probe)
      case MarkFinalized => s.settled
    }
  }

  predicate GrantKnown(s: System, id: nat)
    requires id in s.workers
  {
    s.workers[id].grant.Some? ==> s.workers[id].grant.value < |s.ledger.grants|
  }

  function Told(s: System, id: nat, r: Reply): System {
    s.(ledger := r.ledger, workers := s.workers[id := r.worker])
  }

  /** Events that cannot happen leave the system alone, so every sequence of events is a run. */
  ghost function Step(s: System, e: Event): System {
    if !Enabled(s, e) then s
    else
      match e {
        case Spawn(id, w) => s.(workers := s.workers[id := w])
        case ClaimGrant(id, now, probe, size, commits) =>
          Told(s, id, ClaimStep(s.ledger, s.workers[id], id, now, probe, size, commits))
        case AdmitNext(id, env) => Told(s, id, AdmitStep(s.ledger, s.workers[id], env))
        case ChargeFrame(id, nbytes) => s.(workers := s.workers[id := Charged(s.workers[id], nbytes)])
        case CloseGrant(id, measured, reason, commits) =>
          Told(s, id, CloseStep(s.ledger, s.workers[id], measured, reason, commits))
        case Die(id) => s.(gone := s.gone + {id})
        case OperatorStop(reason) => s.(ledger := Stop(s.ledger, reason))
        case SettleAll(now, probe, size, commits) =>
          var o := Settle(s.ledger, now, probe, size);
          if commits && o.refusal.None? then s.(ledger := o.ledger, settled := true) else s
        case MarkFinalized => s.(ledger := s.ledger.(finalized := true))
      }
  }

  ghost function Run(s: System, es: seq<Event>): System {
    if es == [] then s else Step(Run(s, es[..|es| - 1]), es[|es| - 1])
  }

  ghost predicate Prepared(s: System) {
    && s.ledger.grants == [] && s.ledger.first.None? && s.ledger.last.None? && s.ledger.stopped.None?
    && !s.ledger.finalized && !s.settled && s.workers == map[] && s.gone == {} && 0 <= Pool(s.ledger)
  }
}
