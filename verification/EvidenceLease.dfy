/**
 The two-slot, nonrenewable evidence lease. A claim spends a slot for good; holders check their clock and checkpoint
 it; every refusal for the clock is durable. Unlike the canary, a claim samples its clock before it holds the lock.
 */
module EvidenceLease {
  import opened Options
  import CanaryLedger

  type Instant = CanaryLedger.Instant

  const MIB := 1048576
  const SLOTS := 2
  const SECONDS := 3600.0
  const TOLERANCE := 0.5
  const RESERVATION_BYTES := (512 + 8) * MIB

  datatype Reason =
    | LeaseIdentity | LeaseClock | LeaseStopped | LeaseCorrupt | LeaseClockOrCorrupt | LeaseExpired | LeaseSpent
    | LeaseRunAlreadySpent | LeaseNotClaimed | LeaseClockOrMissing | ControlError | WriterBusy

  datatype ClaimRow = ClaimRow(slot: nat, runId: string, started: real, reserved: nat)

  datatype Trial = Trial(first: Option<Instant>, last: Option<Instant>, reserved: nat, stopped: Option<Reason>,
                         claims: seq<ClaimRow>)

  datatype Holder = Holder(runId: string, writer: bool, slot: Option<nat>, deadline: Instant, lastClock: Instant,
                           lastCheckpoint: real)

  datatype Reply = Reply(trial: Trial, holder: Holder, refusal: Option<Reason>)

  predicate Alnum(c: char) {
    'a' <= c <= 'z' || 'A' <= c <= 'Z' || '0' <= c <= '9'
  }

  predicate ValidId(id: string) {
    1 <= |id| <= 64 && Alnum(id[0]) && forall i :: 1 <= i < |id| ==> Alnum(id[i]) || id[i] == '_' || id[i] == '-'
  }

  // ---- claiming ----

  predicate RowsCorrupt(t: Trial) {
    || |t.claims| > SLOTS || t.reserved != |t.claims| * RESERVATION_BYTES
    || exists i :: 0 <= i < |t.claims| && (t.claims[i].slot != i + 1 || t.claims[i].reserved != RESERVATION_BYTES
                                           || !ValidId(t.claims[i].runId))
  }

  predicate ColumnsCorrupt(t: Trial)
    requires t.claims != []
  {
    || t.first.None? || t.last.None? || t.first.value.wall <= 0.0 || t.last.value.wall < t.first.value.wall
    || t.claims[0].started != t.first.value.wall
    || (exists i :: 0 <= i < |t.claims| && !(t.first.value.wall <= t.claims[i].started <= t.last.value.wall))
    || !(0.0 <= t.first.value.mono <= t.last.value.mono)
  }

  predicate Jumped(now: Instant, last: Instant) {
    || now.wall < last.wall || now.mono < last.mono
    || CanaryLedger.Abs((now.wall - last.wall) - (now.mono - last.mono)) > TOLERANCE
  }

  predicate Expired(first: Instant, now: Instant) {
    now.wall >= first.wall + SECONDS || now.mono >= first.mono + SECONDS
  }

  predicate Spent(t: Trial, runId: string) {
    exists i :: 0 <= i < |t.claims| && t.claims[i].runId == runId
  }

  datatype Refusal = Refusal(reason: Reason, durable: bool)

  /** Everything a claim checks, in order. */
  function Guard(t: Trial, runId: string, now: Instant): Option<Refusal> {
    if t.stopped.Some? then Some(Refusal(LeaseStopped, false))
    else if RowsCorrupt(t) then Some(Refusal(LeaseCorrupt, false))
    else if t.claims != [] && (ColumnsCorrupt(t) || Jumped(now, t.last.value)) then Some(Refusal(LeaseClockOrCorrupt, true))
    else if t.claims != [] && t.first.Some? && Expired(t.first.value, now) then Some(Refusal(LeaseExpired, true))
    else if t.claims == [] && (t.first.Some? || t.last.Some?) then Some(Refusal(LeaseCorrupt, false))
    else if |t.claims| >= SLOTS then Some(Refusal(LeaseSpent, false))
    else if Spent(t, runId) then Some(Refusal(LeaseRunAlreadySpent, false))
    else None
  }

  /** The reason is overwritten, not kept. */
  function Stop(t: Trial, reason: Reason): Trial {
    t.(stopped := Some(reason))
  }

  function Claimed(t: Trial, runId: string, now: Instant): Trial {
    var n := |t.claims| + 1;
    t.(claims := t.claims + [ClaimRow(n, runId, now.wall, RESERVATION_BYTES)], reserved := n * RESERVATION_BYTES,
       first := if t.first.Some? then t.first else Some(now), last := Some(now))
  }

  /** A committed slot is spent even when the writer lock is then not to be had. */
  function ClaimStep(t: Trial, h: Holder, now: Instant, commits: bool, writerFree: bool): Reply {
    if now.wall <= 0.0 then Reply(t, h, Some(LeaseClock))
    else
      var guard := Guard(t, h.runId, now);
      if guard.Some? then
        if !guard.value.durable then Reply(t, h, Some(guard.value.reason))
        else if commits then Reply(Stop(t, guard.value.reason), h, Some(guard.value.reason))
        else Reply(t, h, Some(ControlError))
      else
        var tried := h.(slot := Some(|t.claims| + 1));
        if !commits then Reply(t, tried, Some(ControlError))
        else
          var after := Claimed(t, h.runId, now);
          var first := if t.first.Some? then t.first.value else now;
          var held := tried.(deadline := CanaryLedger.Instant(first.wall + SECONDS, first.mono + SECONDS), lastClock := now,
                             lastCheckpoint := now.mono);
          if writerFree then Reply(after, held.(writer := true), None) else Reply(after, held, Some(WriterBusy))
  }

  // ---- holding ----

  function ClockReason(h: Holder, now: Instant): Option<Reason> {
    if Jumped(now, h.lastClock) then Some(LeaseClock)
    else if now.wall >= h.deadline.wall || now.mono >= h.deadline.mono then Some(LeaseExpired)
    else None
  }

  function ClockChecked(t: Trial, h: Holder, now: Instant, commits: bool): Reply {
    var reason := ClockReason(h, now);
    if reason.None? then Reply(t, h.(lastClock := now), None)
    else if commits then Reply(Stop(t, reason.value), h, reason)
    else Reply(t, h, Some(ControlError))
  }

  datatype CheckEnv = CheckEnv(at: Instant, checkpoint: bool, commits: bool, after: Instant, stopCommits: bool)

  function CheckStep(t: Trial, h: Holder, env: CheckEnv): Reply {
    if !h.writer then Reply(t, h, Some(LeaseNotClaimed))
    else
      var seen := ClockChecked(t, h, env.at, env.stopCommits);
      if seen.refusal.Some? || !(env.checkpoint || env.at.mono - h.lastCheckpoint >= 1.0) then seen
      else if t.last.None? || env.at.wall < t.last.value.wall || t.stopped.Some? then
        seen.(refusal := Some(LeaseClockOrMissing))
      else if !env.commits then seen.(refusal := Some(ControlError))
      else ClockChecked(t.(last := Some(env.at)), seen.holder.(lastCheckpoint := env.at.mono), env.after, env.stopCommits)
  }

  // ---- many processes ----

  /** `granted` lists the runs that ever got the writer. */
  datatype System = System(trial: Trial, holders: map<nat, Holder>, granted: seq<string>)

  datatype Event =
    | Open(id: nat, runId: string)
    | ClaimSlot(id: nat, now: Instant, commits: bool, writerFree: bool)
    | Check(id: nat, env: CheckEnv)
    | Release(id: nat)

  const EPOCH := CanaryLedger.Instant(0.0, 0.0)

  predicate WriterHeld(s: System) {
    exists id: nat :: id in s.holders && s.holders[id].writer
  }

  ghost predicate Enabled(s: System, e: Event) {
    match e {
      case Open(id, runId) => id !in s.holders && ValidId(runId)
      case ClaimSlot(id, _, _, writerFree) => id in s.holders && !s.holders[id].writer && (writerFree ==> !WriterHeld(s))
      case Check(id, _) => id in s.holders
      case Release(id) => id in s.holders
    }
  }

  ghost function Step(s: System, e: Event): System {
    if !Enabled(s, e) then s
    else
      match e {
        case Open(id, runId) => s.(holders := s.holders[id := Holder(runId, false, None, EPOCH, EPOCH, 0.0)])
        case ClaimSlot(id, now, commits, writerFree) =>
          var r := ClaimStep(s.trial, s.holders[id], now, commits, writerFree);
          System(r.trial, s.holders[id := r.holder], if r.refusal.None? then s.granted + [r.holder.runId] else s.granted)
        case Check(id, env) =>
          var r := CheckStep(s.trial, s.holders[id], env);
          s.(trial := r.trial, holders := s.holders[id := r.holder])
        case Release(id) => s.(holders := s.holders[id := s.holders[id].(writer := false)])
      }
  }

  ghost function Run(s: System, es: seq<Event>): System {
    if es == [] then s else Step(Run(s, es[..|es| - 1]), es[|es| - 1])
  }

  function Prepared(): System {
    System(Trial(None, None, 0, None, []), map[], [])
  }

  // ---- what every run keeps ----

  /** The rows and columns as every claim and checkpoint leaves them, whatever the clocks say. */
  ghost predicate Sound(t: Trial) {
    && !RowsCorrupt(t)
    && (forall i, j :: 0 <= i < j < |t.claims| ==> t.claims[i].runId != t.claims[j].runId)
    && t.first.Some? == t.last.Some? == (t.claims != [])
    && (t.claims != [] ==>
          && 0.0 < t.first.value.wall == t.claims[0].started && t.first.value.wall <= t.last.value.wall
          && t.first.value.mono <= t.last.value.mono
          && forall i :: 0 <= i < |t.claims| ==> t.first.value.wall <= t.claims[i].started <= t.last.value.wall)
  }

  function Deadline(first: Instant): Instant {
    CanaryLedger.Instant(first.wall + SECONDS, first.mono + SECONDS)
  }

  /** A holder of the writer claimed under its own run, within the one hour that began with the first claim. */
  ghost predicate HolderOk(t: Trial, h: Holder) {
    && ValidId(h.runId)
    && (h.writer ==>
          && t.first.Some? && h.deadline == Deadline(t.first.value) && t.first.value.mono <= h.lastClock.mono
          && Spent(t, h.runId))
  }

  ghost predicate Inv(s: System) {
    && Sound(s.trial)
    && (forall id: nat :: id in s.holders ==> HolderOk(s.trial, s.holders[id]))
    && (forall k :: 0 <= k < |s.granted| ==> Spent(s.trial, s.granted[k]))
    && (forall j, k :: 0 <= j < k < |s.granted| ==> s.granted[j] != s.granted[k])
  }

  /** Claims are only ever added; a stop is never lifted and freezes them. */
  ghost predicate Follows(a: Trial, b: Trial) {
    && |a.claims| <= |b.claims| && b.claims[..|a.claims|] == a.claims
    && (a.first.Some? ==> b.first == a.first)
    && (a.stopped.Some? ==> b.stopped.Some? && b.claims == a.claims && b.last == a.last)
  }

  lemma ClaimedIsSound(t: Trial, runId: string, now: Instant)
    requires Sound(t) && ValidId(runId) && 0.0 < now.wall && Guard(t, runId, now).None?
    ensures Sound(Claimed(t, runId, now)) && Spent(Claimed(t, runId, now), runId) && Follows(t, Claimed(t, runId, now))
  {
    var u := Claimed(t, runId, now);
    assert u.claims[|t.claims|].runId == runId;
    forall i | 0 <= i < |u.claims| ensures u.claims[i].slot == i + 1 && u.claims[i].reserved == RESERVATION_BYTES
                                           && ValidId(u.claims[i].runId) {
      assert i < |t.claims| ==> u.claims[i] == t.claims[i];
    }
  }

  lemma RefusedClaimKeeps(t: Trial, h: Holder, now: Instant, commits: bool, writerFree: bool)
    requires Sound(t) && HolderOk(t, h) && (now.wall <= 0.0 || Guard(t, h.runId, now).Some?)
    ensures var r := ClaimStep(t, h, now, commits, writerFree);
            Sound(r.trial) && r.holder == h && Follows(t, r.trial) && r.refusal.Some? && HolderOk(r.trial, h)
  {
    FollowsItself(t);
  }

  lemma ClaimKeeps(t: Trial, h: Holder, now: Instant, commits: bool, writerFree: bool)
    requires Sound(t) && HolderOk(t, h)
    ensures var r := ClaimStep(t, h, now, commits, writerFree);
            && Sound(r.trial) && HolderOk(r.trial, r.holder) && r.holder.runId == h.runId && Follows(t, r.trial)
            && (r.refusal.None? ==> Spent(r.trial, h.runId) && !Spent(t, h.runId))
            && (!h.writer && r.refusal.Some? ==> !r.holder.writer)
  {
    if now.wall <= 0.0 || Guard(t, h.runId, now).Some? {
      RefusedClaimKeeps(t, h, now, commits, writerFree);
    } else {
      ClaimedIsSound(t, h.runId, now);
      FollowsItself(t);
    }
  }

  lemma FollowsItself(t: Trial)
    ensures Follows(t, t) && forall r :: t.stopped.None? ==> Follows(t, Stop(t, r))
  {
    assert t.claims[..|t.claims|] == t.claims;
  }

  lemma ClockCheckKeeps(t: Trial, h: Holder, now: Instant, commits: bool)
    requires Sound(t) && HolderOk(t, h)
    ensures var r := ClockChecked(t, h, now, commits);
            && Sound(r.trial) && HolderOk(r.trial, r.holder) && r.holder.runId == h.runId && Follows(t, r.trial)
            && r.holder.writer == h.writer && (r.refusal.None? ==> r.trial == t && h.lastClock.mono <= r.holder.lastClock.mono)
  {
  }

  lemma CheckpointKeeps(t: Trial, h: Holder, at: Instant)
    requires Sound(t) && HolderOk(t, h) && h.writer && h.lastClock == at && t.stopped.None?
    requires t.last.Some? && t.last.value.wall <= at.wall
    ensures var u := t.(last := Some(at)); Sound(u) && HolderOk(u, h) && Follows(t, u)
  {
  }

  /** A checkpoint and the second look at the clock that follows it. */
  lemma CheckpointThenClockKeeps(t: Trial, h: Holder, env: CheckEnv)
    requires Sound(t) && HolderOk(t, h) && h.writer && h.lastClock == env.at && t.stopped.None?
    requires t.last.Some? && t.last.value.wall <= env.at.wall
    ensures var r := ClockChecked(t.(last := Some(env.at)), h.(lastCheckpoint := env.at.mono), env.after, env.stopCommits);
            && Sound(r.trial) && HolderOk(r.trial, r.holder) && r.holder.runId == h.runId && Follows(t, r.trial)
  {
    CheckpointKeeps(t, h, env.at);
    var u, k := t.(last := Some(env.at)), h.(lastCheckpoint := env.at.mono);
    ClockCheckKeeps(u, k, env.after, env.stopCommits);
    FollowsIsTransitive(t, u, ClockChecked(u, k, env.after, env.stopCommits).trial);
  }

  lemma CheckKeeps(t: Trial, h: Holder, env: CheckEnv)
    requires Sound(t) && HolderOk(t, h)
    ensures var r := CheckStep(t, h, env);
            && Sound(r.trial) && HolderOk(r.trial, r.holder) && r.holder.runId == h.runId && Follows(t, r.trial)
  {
    if h.writer {
      ClockCheckKeeps(t, h, env.at, env.stopCommits);
      var seen := ClockChecked(t, h, env.at, env.stopCommits);
      if seen.refusal.None? && t.last.Some? && env.at.wall >= t.last.value.wall && t.stopped.None? {
        CheckpointThenClockKeeps(t, seen.holder, env);
      }
    }
  }

  lemma SpentStaysSpent(a: Trial, b: Trial, runId: string)
    requires Follows(a, b) && Spent(a, runId)
    ensures Spent(b, runId)
  {
    var i :| 0 <= i < |a.claims| && a.claims[i].runId == runId;
    assert b.claims[..|a.claims|][i] == b.claims[i];
  }

  lemma HolderStaysOk(a: Trial, b: Trial, h: Holder)
    requires Follows(a, b) && HolderOk(a, h)
    ensures HolderOk(b, h)
  {
    if h.writer {
      SpentStaysSpent(a, b, h.runId);
    }
  }

  lemma OthersStayOk(s: System, t: System, id: nat)
    requires Inv(s) && Follows(s.trial, t.trial) && id in s.holders && id in t.holders
    requires t.holders == s.holders[id := t.holders[id]]
    ensures forall k: nat :: k in t.holders && k != id ==> HolderOk(t.trial, t.holders[k])
    ensures forall k :: 0 <= k < |s.granted| ==> Spent(t.trial, s.granted[k])
  {
    forall k: nat | k in t.holders && k != id ensures HolderOk(t.trial, t.holders[k]) {
      HolderStaysOk(s.trial, t.trial, s.holders[k]);
    }
    forall k | 0 <= k < |s.granted| ensures Spent(t.trial, s.granted[k]) {
      SpentStaysSpent(s.trial, t.trial, s.granted[k]);
    }
  }

  lemma StepKeeps(s: System, e: Event)
    requires Inv(s)
    ensures Inv(Step(s, e)) && Follows(s.trial, Step(s, e).trial)
  {
    assert s.trial.claims[..|s.trial.claims|] == s.trial.claims;
    if Enabled(s, e) && e.ClaimSlot? {
      ClaimKeeps(s.trial, s.holders[e.id], e.now, e.commits, e.writerFree);
      OthersStayOk(s, Step(s, e), e.id);
    } else if Enabled(s, e) && e.Check? {
      CheckKeeps(s.trial, s.holders[e.id], e.env);
      OthersStayOk(s, Step(s, e), e.id);
    }
  }

  lemma {:induction false} RunKeeps(es: seq<Event>)
    ensures Inv(Run(Prepared(), es))
  {
    if es != [] {
      RunKeeps(es[..|es| - 1]);
      StepKeeps(Run(Prepared(), es[..|es| - 1]), es[|es| - 1]);
    }
  }

  lemma FollowsIsTransitive(a: Trial, b: Trial, c: Trial)
    requires Follows(a, b) && Follows(b, c)
    ensures Follows(a, c)
  {
    assert c.claims[..|a.claims|] == c.claims[..|b.claims|][..|a.claims|];
  }

  /** Slots are never refunded, a stop is never lifted, and nothing is claimed or checkpointed after it. */
  lemma {:induction false} EveryRunFollows(es: seq<Event>, k: nat)
    requires k <= |es|
    ensures Follows(Run(Prepared(), es[..k]).trial, Run(Prepared(), es).trial)
  {
    var n := |es| - 1;
    if k == |es| {
      assert es[..k] == es;
      var t := Run(Prepared(), es).trial;
      assert t.claims[..|t.claims|] == t.claims;
    } else {
      assert es[..n][..k] == es[..k];
      EveryRunFollows(es[..n], k);
      RunKeeps(es[..n]);
      StepKeeps(Run(Prepared(), es[..n]), es[n]);
      FollowsIsTransitive(Run(Prepared(), es[..k]).trial, Run(Prepared(), es[..n]).trial, Run(Prepared(), es).trial);
    }
  }

  function RunIds(claims: seq<ClaimRow>): (r: set<string>)
    ensures |r| <= |claims|
  {
    if claims == [] then {} else RunIds(claims[..|claims| - 1]) + {claims[|claims| - 1].runId}
  }

  lemma {:induction false} RunIdsHas(claims: seq<ClaimRow>, i: nat)
    requires i < |claims|
    ensures claims[i].runId in RunIds(claims)
  {
    if i < |claims| - 1 {
      RunIdsHas(claims[..|claims| - 1], i);
    }
  }

  lemma {:induction false} DistinctFit(xs: seq<string>, room: set<string>)
    requires forall a, b :: 0 <= a < b < |xs| ==> xs[a] != xs[b]
    requires forall a :: 0 <= a < |xs| ==> xs[a] in room
    ensures |xs| <= |room|
  {
    if xs != [] {
      DistinctFit(xs[..|xs| - 1], room - {xs[|xs| - 1]});
    }
  }

  /** Over every interleaving, lost commit and busy writer: two slots at most, each a full reservation, two writers at most. */
  lemma AtMostTwoRunsEverWrite(es: seq<Event>)
    ensures var s := Run(Prepared(), es);
            && |s.trial.claims| <= SLOTS && s.trial.reserved == |s.trial.claims| * RESERVATION_BYTES
            && (forall i :: 0 <= i < |s.trial.claims| ==> s.trial.claims[i].slot == i + 1)
            && (forall i, j :: 0 <= i < j < |s.trial.claims| ==> s.trial.claims[i].runId != s.trial.claims[j].runId)
            && |s.granted| <= SLOTS
            && forall k :: 0 <= k < |s.granted| ==> Spent(s.trial, s.granted[k])
  {
    RunKeeps(es);
    var s := Run(Prepared(), es);
    forall k | 0 <= k < |s.granted| ensures s.granted[k] in RunIds(s.trial.claims) {
      var i :| 0 <= i < |s.trial.claims| && s.trial.claims[i].runId == s.granted[k];
      RunIdsHas(s.trial.claims, i);
    }
    DistinctFit(s.granted, RunIds(s.trial.claims));
  }

  /** No renewal: whichever slot it holds, a writer's time ends an hour after the first claim of the trial. */
  lemma WritersShareOneHour(es: seq<Event>, id: nat)
    requires id in Run(Prepared(), es).holders && Run(Prepared(), es).holders[id].writer
    ensures var s := Run(Prepared(), es);
            s.trial.first.Some? && s.holders[id].deadline == Deadline(s.trial.first.value)
  {
    RunKeeps(es);
  }

  /** A check passes only before the deadline, also after a checkpoint that stalled, and a checkpoint only on a trial not stopped. */
  lemma CheckPassesIff(t: Trial, h: Holder, env: CheckEnv)
    ensures var due := env.checkpoint || env.at.mono - h.lastCheckpoint >= 1.0;
            CheckStep(t, h, env).refusal.None? <==>
            && h.writer && !Jumped(env.at, h.lastClock) && env.at.wall < h.deadline.wall && env.at.mono < h.deadline.mono
            && (due ==>
                  && t.last.Some? && t.last.value.wall <= env.at.wall && t.stopped.None? && env.commits
                  && !Jumped(env.after, env.at) && env.after.wall < h.deadline.wall && env.after.mono < h.deadline.mono)
  {
  }

  /** In a reachable trial a claim gets a slot exactly when one is left, the run has none, and the hour is not over. */
  lemma ClaimSucceedsIff(es: seq<Event>, h: Holder, now: Instant, commits: bool)
    ensures var t := Run(Prepared(), es).trial;
            ClaimStep(t, h, now, commits, true).refusal.None? <==>
            && 0.0 < now.wall && t.stopped.None? && commits && |t.claims| < SLOTS && !Spent(t, h.runId)
            && (t.first.Some? && t.last.Some? ==>
                  0.0 <= t.first.value.mono && !Jumped(now, t.last.value) && !Expired(t.first.value, now))
  {
    RunKeeps(es);
  }

  /** In a reachable trial a claim never finds corrupt rows, and refuses for its clock only when the clock disagrees. */
  lemma CorruptionIsNeverFound(es: seq<Event>, runId: string, now: Instant)
    ensures var t := Run(Prepared(), es).trial;
            var g := Guard(t, runId, now);
            && (g.Some? ==> g.value.reason != LeaseCorrupt)
            && (t.stopped.None? ==>
                  ((g.Some? && g.value.reason == LeaseClockOrCorrupt)
                   <==> t.claims != [] && t.first.Some? && t.last.Some? && (Jumped(now, t.last.value) || t.first.value.mono < 0.0)))
  {
    RunKeeps(es);
  }

  // ---- the object ----

  class LeaseDb {
    var trial: Trial

    constructor (trial: Trial)
      ensures this.trial == trial
    {
      this.trial := trial;
    }
  }

  class Lease {
    const db: LeaseDb
    const runId: string
    var writer: bool
    var slot: Option<nat>
    var deadline: Instant
    var lastClock: Instant
    var lastCheckpoint: real

    ghost function Self(): Holder
      reads this
    {
      Holder(runId, writer, slot, deadline, lastClock, lastCheckpoint)
    }

    constructor (db: LeaseDb, runId: string)
      ensures Self() == Holder(runId, false, None, EPOCH, EPOCH, 0.0) && this.db == db
    {
      this.db, this.runId := db, runId;
      writer, slot, deadline, lastClock, lastCheckpoint := false, None, EPOCH, EPOCH, 0.0;
    }

    method CommitStop(reason: Reason, commits: bool) returns (refusal: Option<Reason>)
      modifies db
      ensures db.trial == if commits then Stop(old(db.trial), reason) else old(db.trial)
      ensures refusal == Some(if commits then reason else ControlError)
    {
      if commits {
        db.trial := db.trial.(stopped := Some(reason));
        return Some(reason);
      }
      return Some(ControlError);
    }

    method Claim(now: Instant, commits: bool, writerFree: bool) returns (refusal: Option<Reason>)
      modifies this, db
      ensures var r := ClaimStep(old(db.trial), old(Self()), now, commits, writerFree);
              db.trial == r.trial && Self() == r.holder && refusal == r.refusal
    {
      if now.wall <= 0.0 {
        return Some(LeaseClock);
      }
      var guard := Guard(db.trial, runId, now);
      if guard.Some? {
        if guard.value.durable {
          refusal := CommitStop(guard.value.reason, commits);
          return;
        }
        return Some(guard.value.reason);
      }
      var t := db.trial;
      var n := |t.claims| + 1;
      slot := Some(n);
      if !commits {
        return Some(ControlError);
      }
      var first := if t.first.Some? then t.first.value else now;
      db.trial := t.(claims := t.claims + [ClaimRow(n, runId, now.wall, RESERVATION_BYTES)],
                     reserved := n * RESERVATION_BYTES, first := Some(first), last := Some(now));
      deadline := CanaryLedger.Instant(first.wall + SECONDS, first.mono + SECONDS);
      lastClock := now;
      lastCheckpoint := now.mono;
      if !writerFree {
        return Some(WriterBusy);
      }
      writer := true;
      return None;
    }

    method CheckClock(now: Instant, commits: bool) returns (refusal: Option<Reason>)
      modifies this, db
      ensures var r := ClockChecked(old(db.trial), old(Self()), now, commits);
              db.trial == r.trial && Self() == r.holder && refusal == r.refusal
    {
      if Jumped(now, lastClock) {
        refusal := CommitStop(LeaseClock, commits);
      } else if now.wall >= deadline.wall || now.mono >= deadline.mono {
        refusal := CommitStop(LeaseExpired, commits);
      } else {
        lastClock := now;
        refusal := None;
      }
    }

    method Check(env: CheckEnv) returns (refusal: Option<Reason>)
      modifies this, db
      ensures var r := CheckStep(old(db.trial), old(Self()), env);
              db.trial == r.trial && Self() == r.holder && refusal == r.refusal
    {
      if !writer {
        return Some(LeaseNotClaimed);
      }
      refusal := CheckClock(env.at, env.stopCommits);
      if refusal.Some? || !(env.checkpoint || env.at.mono - lastCheckpoint >= 1.0) {
        return;
      }
      var t := db.trial;
      if t.last.None? || env.at.wall < t.last.value.wall || t.stopped.Some? {
        return Some(LeaseClockOrMissing);
      }
      if !env.commits {
        return Some(ControlError);
      }
      db.trial := t.(last := Some(env.at));
      lastCheckpoint := env.at.mono;
      refusal := CheckClock(env.after, env.stopCommits);
    }
  }
}
