/**
 How much a frame and a segment's tail may take for the ledger bound to hold with lost commits: at the source's own
 margin exactly the segment overhead, and with that overhead exactly frames of at most the margin.
 */
module CanaryBounds {
  import opened Options
  import opened CanaryLedger
  import opened CanaryProtocol
  import opened CanaryBudget
  import opened CanaryPacing
  import CanarySafety

  /** No paced run of any prepared attempt hides a byte above the pool. */
  ghost predicate Safe(frame: nat, tail: nat) {
    forall s: System, es: seq<Event> :: Prepared(s) && Paced(frame, tail, s, es) ==>
      Committed(Run(s, es).ledger.grants) <= Pool(s.ledger) + Overshoots(Run(s, es).ledger.grants)
  }

  // ---- a run up to its last frame ----

  const ORIGIN := Instant(0.0, 0.0)

  /** Room for one stream lane and one snapshot lane, and for any number of grants from two up. */
  function SmallPool(slots: nat): System {
    System(Ledger(55 * MIB, 32 * MIB, 3600.0, slots, map["a" := Lane(Stream, "x"), "b" := Lane(Snapshot, "y")],
                  None, None, None, false, []), map[], {}, false)
  }

  function StreamRow(): Grant {
    Grant("a", 0, 17 * MIB, 0, 0, 0, false, Unset)
  }

  function SnapshotRow(): Grant {
    Grant("b", 1, 6 * MIB, 0, 0, 0, false, Unset)
  }

  function HeldWorker(accounted: nat): Worker {
    NewWorker("a", Stream, "x", 0).(grant := Some(0), reserved := 17 * MIB, accounted := accounted,
                                    deadline := Instant(3600.0, 3600.0), lastClock := ORIGIN)
  }

  function LostWorker(accounted: nat): Worker {
    HeldWorker(accounted).(reserved := 23 * MIB, stopReason := Some(CanaryControlDb))
  }

  function Waiting(): Worker {
    NewWorker("b", Snapshot, "y", 0)
  }

  function Opened(slots: nat, rows: seq<Grant>): Ledger {
    SmallPool(slots).ledger.(first := Some(ORIGIN), last := Some(ORIGIN), grants := rows)
  }

  /** The stream lane holds 17 MiB and has written `accounted` of them. */
  function Held(slots: nat, accounted: nat): System {
    System(Opened(slots, [StreamRow()]), map[0 := HeldWorker(accounted), 1 := Waiting()], {}, false)
  }

  function LostChunk(slots: nat, accounted: nat): System {
    System(Opened(slots, [StreamRow()]), map[0 := LostWorker(accounted), 1 := Waiting()], {}, false)
  }

  function Admission(commits: bool): Event {
    AdmitNext(0, AdmitEnv(ORIGIN, true, ORIGIN, None, commits, ORIGIN, true))
  }

  function ClaimBy(id: nat): Event {
    ClaimGrant(id, ORIGIN, _ => Alive, _ => 0, true)
  }

  ghost predicate Reaches(frame: nat, tail: nat, slots: nat, es: seq<Event>, t: System, m: Meter) {
    Run(SmallPool(slots), es) == t && MeterOf(SmallPool(slots), es, 0) == m && Paced(frame, tail, SmallPool(slots), es)
  }

  lemma Extend(frame: nat, tail: nat, slots: nat, es: seq<Event>, t: System, m: Meter, e: Event)
    requires Reaches(frame, tail, slots, es, t, m) && PacedStep(frame, tail, t, m, e) && ActorOf(e) == 0
    ensures Reaches(frame, tail, slots, es + [e], Step(t, e), Metered(m, t, e, 0))
  {
    assert (es + [e])[..|es|] == es;
  }

  lemma Spawned(slots: nat)
    ensures var a := NewWorker("a", Stream, "x", 0);
            Step(Step(SmallPool(slots), Spawn(0, a)), Spawn(1, Waiting())) == SmallPool(slots).(workers := map[0 := a, 1 := Waiting()])
  {
  }

  lemma FirstClaim(slots: nat)
    requires 2 <= slots
    ensures Step(SmallPool(slots).(workers := map[0 := NewWorker("a", Stream, "x", 0), 1 := Waiting()]), ClaimBy(0)) == Held(slots, 0)
  {
    var l, e := SmallPool(slots).ledger, ClaimBy(0);
    assert Claim(l, "a", Stream, "x", 0, ORIGIN, e.probe, e.size) == Outcome(Held(slots, 0).ledger, None);
  }

  lemma Opening(frame: nat, tail: nat, slots: nat) returns (es: seq<Event>)
    requires 2 <= slots
    ensures Reaches(frame, tail, slots, es, Held(slots, 0), Meter(0, false))
  {
    var s0 := SmallPool(slots);
    var a := NewWorker("a", Stream, "x", 0);
    var e0, e1, e2 := Spawn(0, a), Spawn(1, Waiting()), ClaimBy(0);
    Spawned(slots);
    FirstClaim(slots);
    Extend(frame, tail, slots, [], s0, Meter(0, false), e0);
    Extend(frame, tail, slots, [] + [e0], Step(s0, e0), Meter(0, false), e1);
    Extend(frame, tail, slots, [] + [e0] + [e1], Step(Step(s0, e0), e1), Meter(0, false), e2);
    es := [] + [e0] + [e1] + [e2];
  }

  /** Where a margin and the overhead are left, a frame is let in without the database and charged. */
  lemma OneFrame(frame: nat, tail: nat, slots: nat, es: seq<Event>, accounted: nat, nbytes: nat) returns (longer: seq<Event>)
    requires Reaches(frame, tail, slots, es, Held(slots, accounted), Meter(accounted, false))
    requires accounted <= 12 * MIB && nbytes <= frame && accounted + nbytes <= 17 * MIB
    ensures Reaches(frame, tail, slots, longer, Held(slots, accounted + nbytes), Meter(accounted + nbytes, false))
  {
    var t, w := Held(slots, accounted), HeldWorker(accounted);
    var admit, charge := Admission(true), ChargeFrame(0, nbytes);
    assert AdmitStep(t.ledger, w, admit.env) == Reply(t.ledger, w, None);
    assert t.workers[0 := w] == t.workers;
    Extend(frame, tail, slots, es, t, Meter(accounted, false), admit);
    Extend(frame, tail, slots, es + [admit], t, Meter(accounted, true), charge);
    assert t.workers[0 := HeldWorker(accounted + nbytes)] == Held(slots, accounted + nbytes).workers;
    longer := es + [admit] + [charge];
  }

  lemma {:induction false} SmallFrames(frame: nat, tail: nat, slots: nat, n: nat) returns (es: seq<Event>)
    requires 2 <= slots && 1 <= frame && n <= 12 * MIB
    ensures Reaches(frame, tail, slots, es, Held(slots, n), Meter(n, false))
  {
    if n == 0 {
      es := Opening(frame, tail, slots);
    } else {
      es := SmallFrames(frame, tail, slots, n - 1);
      es := OneFrame(frame, tail, slots, es, n - 1, 1);
    }
  }

  // ---- the lost chunk and the close ----

  /** What a lost commit of a six-MiB chunk leaves: the rows as they were, and a worker that believes in the chunk. */
  lemma LosesSixMiB(l: Ledger, w: Worker, env: AdmitEnv)
    requires w.grant == Some(0) && 0 < |l.grants| && w.stopReason.None? && l.stopped.None? && l.last == Some(env.locked)
    requires NeedsChunk(w) && !Backwards(env.at, w.lastClock) && !Reached(w.deadline, env.at)
    requires env.connects && !env.commits && env.free.None? && Pool(l) - Committed(l.grants) == 6 * MIB
    ensures AdmitStep(l, w, env) == Reply(l, w.(lastClock := env.at, reserved := w.reserved + 6 * MIB, lastCheckpoint := env.locked.mono,
                                                stopReason := Some(CanaryControlDb)), Some(CanaryControlDb))
  {
    assert Admit(l, 0, env.locked, true, None, w.minFree).chunk == 6 * MIB;
  }

  lemma AdmissionIsLost(slots: nat, accounted: nat)
    requires 12 * MIB < accounted <= 17 * MIB
    ensures Step(Held(slots, accounted), Admission(false)) == LostChunk(slots, accounted)
  {
    OneRow(StreamRow(), "b", _ => Alive, _ => 0);
    LosesSixMiB(Held(slots, accounted).ledger, HeldWorker(accounted), Admission(false).env);
    assert Held(slots, accounted).workers[0 := LostWorker(accounted)] == LostChunk(slots, accounted).workers;
  }

  lemma OneRow(g: Grant, lane: string, probe: nat -> Liveness, size: nat -> nat)
    requires !g.closed && g.lane != lane
    ensures Reconciled([g], Some(lane), probe, size) == [g] && !Blocked([g], Some(lane), probe)
    ensures Committed([g]) == g.reserved && ClosedConsumed([g]) == 0
  {
    assert [g][..0] == [];
  }

  lemma AtTheStart(l: Ledger, lane: string, kind: Kind, identity: string, now: Instant)
    requires l.stopped.None? && lane in l.lanes && l.lanes[lane] == Lane(kind, identity) && 60.0 <= l.maxSeconds
    requires l.first == Some(now) && l.last == Some(now) && 0.0 <= now.mono
    ensures ClaimGuard(l, lane, kind, identity, now).None?
  {
  }

  lemma ClaimBeside(l: Ledger, row: Grant, lane: string, kind: Kind, identity: string, worker: nat, now: Instant,
                    probe: nat -> Liveness, size: nat -> nat)
    requires ClaimGuard(l, lane, kind, identity, now).None? && l.grants == [row] && !row.closed && row.lane != lane
    requires 2 <= l.maxGrants && 0 <= row.reserved && Initial(kind) <= Pool(l) - row.reserved
    ensures Claim(l, lane, kind, identity, worker, now, probe, size) == Outcome(Claimed(l, lane, kind, worker, now), None)
  {
    OneRow(row, lane, probe, size);
    assert l.(grants := Reconciled(l.grants, Some(lane), probe, size)) == l;
  }

  lemma StepOfClaim(s: System, e: Event, l: Ledger)
    requires e.ClaimGrant? && e.commits && Enabled(s, e) && l.grants != [] && l.first.Some?
    requires var w := s.workers[e.id];
             Claim(s.ledger, w.lane, w.kind, w.identity, e.id, e.now, e.probe, e.size) == Outcome(l, None)
    ensures Step(s, e).ledger == l && Step(s, e).gone == s.gone
    ensures forall id: nat :: id in s.workers && id != e.id ==> id in Step(s, e).workers && Step(s, e).workers[id] == s.workers[id]
  {
  }

  lemma SnapshotFits(slots: nat, l: Ledger, probe: nat -> Liveness, size: nat -> nat)
    requires 2 <= slots && l == Opened(slots, [StreamRow()])
    ensures Claim(l, "b", Snapshot, "y", 1, ORIGIN, probe, size) == Outcome(Opened(slots, [StreamRow(), SnapshotRow()]), None)
  {
    assert "a"[0] != "b"[0];
    AtTheStart(l, "b", Snapshot, "y", ORIGIN);
    ClaimBeside(l, StreamRow(), "b", Snapshot, "y", 1, ORIGIN, probe, size);
    assert Claimed(l, "b", Snapshot, 1, ORIGIN) == Opened(slots, [StreamRow(), SnapshotRow()]);
  }

  lemma SnapshotClaims(slots: nat, s: System, e: Event)
    requires 2 <= slots && s.ledger == Opened(slots, [StreamRow()])
    requires e.ClaimGrant? && e.commits && e.now == ORIGIN && Enabled(s, e) && e.id == 1 && s.workers[e.id] == Waiting()
    ensures Step(s, e).ledger == Opened(slots, [StreamRow(), SnapshotRow()]) && Step(s, e).gone == s.gone
    ensures forall id: nat :: id in s.workers && id != 1 ==> id in Step(s, e).workers && Step(s, e).workers[id] == s.workers[id]
  {
    SnapshotFits(slots, s.ledger, e.probe, e.size);
    StepOfClaim(s, e, Opened(slots, [StreamRow(), SnapshotRow()]));
  }

  lemma LastClose(slots: nat, accounted: nat, t: System)
    requires t.ledger == Opened(slots, [StreamRow(), SnapshotRow()])
    requires 0 in t.workers && t.workers[0] == LostWorker(accounted)
    ensures var l := Step(t, CloseGrant(0, 17 * MIB + 1, CanaryControlDb, true)).ledger;
            Committed(l.grants) == 23 * MIB + 1 && Overshoots(l.grants) == 0
  {
    var closed := StreamRow().(closed := true, consumed := 17 * MIB + 1, accounted := accounted, reason := CanaryControlDb);
    assert CloseStep(t.ledger, LostWorker(accounted), 17 * MIB + 1, CanaryControlDb, true).ledger
        == t.ledger.(grants := [closed, SnapshotRow()]);
    SumsOfAppend([], closed);
    SumsOfAppend([closed], SnapshotRow());
    assert [] + [closed] == [closed] && [closed] + [SnapshotRow()] == [closed, SnapshotRow()];
  }

  /** One lost commit at the end of a run whose last frame and tail together pass the room an admission leaves. */
  lemma LostCommitHidesAByte(frame: nat, tail: nat, slots: nat) returns (es: seq<Event>)
    requires 2 <= slots && 1 <= frame && ROOM < (if frame <= ROOM then frame else ROOM) + tail
    ensures Prepared(SmallPool(slots)) && Paced(frame, tail, SmallPool(slots), es)
    ensures var l := Run(SmallPool(slots), es).ledger; Committed(l.grants) == Pool(l) + 1 && Overshoots(l.grants) == 0
  {
    var last := if frame <= ROOM then frame else ROOM;
    es := SmallFrames(frame, tail, slots, 12 * MIB);
    es := OneFrame(frame, tail, slots, es, 12 * MIB, last);
    es := LoseThenClose(frame, tail, slots, es, 12 * MIB + last);
  }

  lemma LoseThenClose(frame: nat, tail: nat, slots: nat, es: seq<Event>, written: nat) returns (longer: seq<Event>)
    requires 2 <= slots && 12 * MIB < written <= 17 * MIB < written + tail
    requires Reaches(frame, tail, slots, es, Held(slots, written), Meter(written, false))
    ensures Paced(frame, tail, SmallPool(slots), longer)
    ensures var l := Run(SmallPool(slots), longer).ledger;
            Committed(l.grants) == 23 * MIB + 1 && Overshoots(l.grants) == 0 && Pool(l) == 23 * MIB
  {
    AdmissionIsLost(slots, written);
    SnapshotClaims(slots, LostChunk(slots, written), ClaimBy(1));
    var t := Step(LostChunk(slots, written), ClaimBy(1));
    var close := CloseGrant(0, 17 * MIB + 1, CanaryControlDb, true);
    LastClose(slots, written, t);
    Extend(frame, tail, slots, es, Held(slots, written), Meter(written, false), Admission(false));
    var lost := es + [Admission(false)];
    Extend(frame, tail, slots, lost, LostChunk(slots, written), Meter(written, false), ClaimBy(1));
    var both := lost + [ClaimBy(1)];
    Extend(frame, tail, slots, both, t, Meter(written, false), close);
    longer := both + [close];
  }

  // ---- which bounds are safe ----

  /** Frames within the margin: the ledger bound holds exactly when a frame and a tail fit the room an admission leaves. */
  lemma SafeTailIff(frame: nat, tail: nat)
    requires 1 <= frame <= FRAME_MARGIN_BYTES
    ensures Safe(frame, tail) <==> frame + tail <= FRAME_MARGIN_BYTES + SEGMENT_OVERHEAD_BYTES
  {
    if frame + tail <= ROOM {
      forall s: System, es: seq<Event> | Prepared(s) && Paced(frame, tail, s, es)
        ensures Committed(Run(s, es).ledger.grants) <= Pool(s.ledger) + Overshoots(Run(s, es).ledger.grants) {
        PacedRunKeepsPace(frame, tail, s, es);
        PoolIsFixed(s, es);
      }
    } else {
      HiddenByteIsUnsafe(frame, tail);
    }
  }

  /** Tails of the segment overhead: the ledger bound holds exactly when no frame passes the margin. */
  lemma SafeFrameIff(frame: nat)
    requires 1 <= frame
    ensures Safe(frame, SEGMENT_OVERHEAD_BYTES) <==> frame <= FRAME_MARGIN_BYTES
  {
    if frame <= FRAME_MARGIN_BYTES {
      SafeTailIff(frame, SEGMENT_OVERHEAD_BYTES);
    } else {
      HiddenByteIsUnsafe(frame, SEGMENT_OVERHEAD_BYTES);
    }
  }

  lemma HiddenByteIsUnsafe(frame: nat, tail: nat)
    requires 1 <= frame && ROOM < (if frame <= ROOM then frame else ROOM) + tail
    ensures !Safe(frame, tail)
  {
    var slots: nat := 2;
    var es := LostCommitHidesAByte(frame, tail, slots);
    PoolIsFixed(SmallPool(slots), es);
  }

  lemma PoolIsFixed(s: System, es: seq<Event>)
    requires Prepared(s)
    ensures Pool(Run(s, es).ledger) == Pool(s.ledger)
  {
    CanarySafety.EveryRunFollows(s, es, 0);
    assert es[..0] == [];
  }
}
