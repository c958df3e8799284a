/**
 The collector of one Binance depth segment: bootstrap anchoring, the frame loop, and reconnecting in place on the
 old snapshot. Its rows are then scored by `DepthReplay`; the results say exactly when that score is clean.
 */
module BinanceSegment {
  import opened Options
  import opened Books
  import opened DepthReplay

  /** A decoded diff-depth payload. */
  datatype Message = Message(firstId: Option<int>, finalId: Option<int>, parseErrors: bool, bids: seq<Level>, asks: seq<Level>)

  datatype RestSnapshot = RestSnapshot(lastUpdateId: int, bids: seq<Level>, asks: seq<Level>)

  function FinalOf(m: Message): Option<int> {
    if m.firstId.Some? && m.finalId.Some? then m.finalId else None
  }

  function Align(buffered: seq<Message>, seen: int): seq<Message> {
    if buffered == [] then []
    else
      var n := |buffered| - 1;
      var rest := Align(buffered[..n], seen);
      if FinalOf(buffered[n]).Some? && FinalOf(buffered[n]).value > seen then rest + [buffered[n]] else rest
  }

  method AlignBuffered(buffered: seq<Message>, seen: int) returns (aligned: seq<Message>)
    ensures aligned == Align(buffered, seen)
  {
    aligned := [];
    for i := 0 to |buffered|
      invariant aligned == Align(buffered[..i], seen)
    {
      assert buffered[..i + 1][..i] == buffered[..i];
      if FinalOf(buffered[i]).Some? && FinalOf(buffered[i]).value > seen {
        aligned := aligned + [buffered[i]];
      }
    }
    assert buffered[..|buffered|] == buffered;
  }

  /** True: the buffer anchors on the snapshot. None: it has not reached it yet. False: it has run ahead of it. */
  function Bridges(buffered: seq<Message>, snapshotId: int): Option<bool> {
    var aligned := Align(buffered, snapshotId);
    if aligned == [] || FinalOf(aligned[0]).None? then None
    else Some(aligned[0].firstId.value <= snapshotId + 1)
  }

  predicate AlignmentHolds(aligned: seq<Message>, seen: int) {
    aligned == [] || FinalOf(aligned[0]).None? || aligned[0].firstId.value <= seen + 1
  }

  /** The first buffered message that ends past an id: everything before it is unreadable or ends earlier. */
  ghost predicate IsFirstPast(buffered: seq<Message>, i: int, seen: int) {
    && 0 <= i < |buffered|
    && buffered[i].firstId.Some? && buffered[i].finalId.Some? && buffered[i].finalId.value > seen
    && forall j :: 0 <= j < i ==> buffered[j].firstId.None? || buffered[j].finalId.None? || buffered[j].finalId.value <= seen
  }

  /** In ids: the buffer's first news starts beyond the next id, so something in between is missing. */
  ghost predicate StartsBeyond(buffered: seq<Message>, seen: int) {
    exists i :: IsFirstPast(buffered, i, seen) && buffered[i].firstId.value > seen + 1
  }

  lemma {:induction false} AlignKeepsFirstPast(buffered: seq<Message>, seen: int)
    ensures forall i :: IsFirstPast(buffered, i, seen) ==> Align(buffered, seen) != [] && Align(buffered, seen)[0] == buffered[i]
    ensures Align(buffered, seen) != [] ==> exists i :: IsFirstPast(buffered, i, seen)
  {
    if buffered != [] {
      var n := |buffered| - 1;
      AlignKeepsFirstPast(buffered[..n], seen);
      assert forall i :: 0 <= i < n ==> buffered[..n][i] == buffered[i];
      assert forall i :: 0 <= i < n ==> (IsFirstPast(buffered[..n], i, seen) <==> IsFirstPast(buffered, i, seen));
      if Align(buffered[..n], seen) != [] {
        var i :| IsFirstPast(buffered[..n], i, seen);
        assert IsFirstPast(buffered, i, seen);
      } else {
        NothingPast(buffered[..n], seen);
        assert FinalOf(buffered[n]).Some? && FinalOf(buffered[n]).value > seen <==> IsFirstPast(buffered, n, seen);
      }
    }
  }

  lemma {:induction false} NothingPast(buffered: seq<Message>, seen: int)
    requires Align(buffered, seen) == []
    ensures forall i :: 0 <= i < |buffered| ==>
              buffered[i].firstId.None? || buffered[i].finalId.None? || buffered[i].finalId.value <= seen
  {
    if buffered != [] {
      var n := |buffered| - 1;
      NothingPast(buffered[..n], seen);
      assert forall i :: 0 <= i < n ==> buffered[..n][i] == buffered[i];
    }
  }

  /** The test the source makes on the aligned buffer is a test of the ids received. */
  lemma AlignmentHoldsIff(buffered: seq<Message>, seen: int)
    ensures AlignmentHolds(Align(buffered, seen), seen) <==> !StartsBeyond(buffered, seen)
  {
    AlignKeepsFirstPast(buffered, seen);
  }

  // ---- bootstrap ----

  /** One pass of the anchoring loop: a refetched snapshot may be ready, a message may arrive before the timeout. */
  datatype Tick = Tick(refetched: Option<RestSnapshot>, received: Option<Message>)

  function Received(ticks: seq<Tick>): seq<Message> {
    if ticks == [] then []
    else Received(ticks[..|ticks| - 1]) +
         (if ticks[|ticks| - 1].received.Some? then [ticks[|ticks| - 1].received.value] else [])
  }

  /** The anchoring loop between two passes; `refetching` while a newer snapshot is on its way. */
  datatype Anchoring = Anchoring(snapshot: RestSnapshot, buffered: seq<Message>, refetching: bool, fetches: nat, anchored: bool)

  function Adopted(a: Anchoring, tick: Tick): Anchoring {
    if a.refetching && tick.refetched.Some? then a.(snapshot := tick.refetched.value, refetching := false) else a
  }

  function Pass(a: Anchoring, tick: Tick, maxFetches: nat): Anchoring {
    var b := Adopted(a, tick);
    var bridges := Bridges(b.buffered, b.snapshot.lastUpdateId);
    if bridges == Some(true) then b.(anchored := true)
    else
      var ask := bridges == Some(false) && !b.refetching && b.fetches < maxFetches;
      b.(refetching := b.refetching || ask, fetches := b.fetches + (if ask then 1 else 0),
         buffered := b.buffered + if tick.received.Some? then [tick.received.value] else [])
  }

  /** The passes until the buffer anchors or the deadline comes. */
  function Passes(a: Anchoring, ticks: seq<Tick>, maxFetches: nat): Anchoring
    decreases |ticks|
  {
    if ticks == [] || a.anchored then a else Passes(Pass(a, ticks[0], maxFetches), ticks[1..], maxFetches)
  }

  /**
   `early` arrived while the first snapshot was being fetched; `ticks` are the passes before the anchoring deadline.
   Nothing received is lost to a refetch, and leaving early means the first kept message meets the snapshot.
   */
  method CaptureSnapshotAndBuffer(early: seq<Message>, first: RestSnapshot, ticks: seq<Tick>, maxFetches: nat)
    returns (snapshot: RestSnapshot, aligned: seq<Message>, used: nat, anchored: bool, fetches: nat)
    ensures used <= |ticks| && (!anchored ==> used == |ticks|)
    ensures aligned == Align(early + Received(ticks[..used]), snapshot.lastUpdateId)
    ensures anchored ==> aligned != [] && FinalOf(aligned[0]).Some? &&
                         aligned[0].firstId.value <= snapshot.lastUpdateId + 1
    ensures fetches <= (if maxFetches >= 1 then maxFetches else 1)
    ensures snapshot == first || exists i :: 0 <= i < |ticks| && ticks[i].refetched == Some(snapshot)
    ensures var end := Passes(Anchoring(first, early, false, 1, false), ticks, maxFetches);
            snapshot == end.snapshot && anchored == end.anchored && fetches == end.fetches &&
            aligned == Align(end.buffered, snapshot.lastUpdateId)
  {
    var a := Anchoring(first, early, false, 1, false);
    used := 0;
    assert ticks[..0] == [];
    while used < |ticks| && !a.anchored
      invariant used <= |ticks| && (!a.anchored || used < |ticks|)
      invariant a.buffered == early + Received(ticks[..used])
      invariant a.anchored ==> Bridges(a.buffered, a.snapshot.lastUpdateId) == Some(true)
      invariant a.fetches <= (if maxFetches >= 1 then maxFetches else 1)
      invariant a.snapshot == first || exists i :: 0 <= i < |ticks| && ticks[i].refetched == Some(a.snapshot)
      invariant Passes(Anchoring(first, early, false, 1, false), ticks, maxFetches) == Passes(a, ticks[used..], maxFetches)
      decreases |ticks| - used, !a.anchored
    {
      assert ticks[used..][1..] == ticks[used + 1..] && ticks[..used + 1][..used] == ticks[..used];
      a := AnchoringPass(a, ticks[used], maxFetches);
      if !a.anchored {
        used := used + 1;
      }
    }
    snapshot, anchored, fetches := a.snapshot, a.anchored, a.fetches;
    aligned := AlignBuffered(a.buffered, a.snapshot.lastUpdateId);
  }

  method AnchoringPass(a: Anchoring, tick: Tick, maxFetches: nat) returns (next: Anchoring)
    requires !a.anchored
    ensures next == Pass(a, tick, maxFetches)
    ensures next.buffered == a.buffered + (if next.anchored || tick.received.None? then [] else [tick.received.value])
    ensures next.snapshot == a.snapshot || Some(next.snapshot) == tick.refetched
    ensures next.anchored ==> Bridges(next.buffered, next.snapshot.lastUpdateId) == Some(true)
    ensures a.fetches <= next.fetches <= a.fetches + if a.fetches < maxFetches then 1 else 0
  {
    next := a;
    if next.refetching && tick.refetched.Some? {
      next := next.(snapshot := tick.refetched.value, refetching := false);
    }
    var bridges := Bridges(next.buffered, next.snapshot.lastUpdateId);
    if bridges == Some(true) {
      return next.(anchored := true);
    }
    if bridges == Some(false) && !next.refetching && next.fetches < maxFetches {
      next := next.(refetching := true, fetches := next.fetches + 1);
    }
    if tick.received.Some? {
      next := next.(buffered := next.buffered + [tick.received.value]);
    }
  }

  // ---- the segment ----

  datatype Segment = Segment(lastSeen: int, messages: nat, clean: seq<Row>, quarantined: seq<Row>,
                             reconnects: nat, breaks: nat)

  function RowOf(m: Message): Row {
    Row(m.firstId, m.finalId, m.bids, m.asks)
  }

  /** The gate rejects parse errors and windows that end before they start. */
  predicate Accepted(m: Message) {
    !m.parseErrors && !(m.firstId.Some? && m.finalId.Some? && m.finalId.value < m.firstId.value)
  }

  function SidecarOf(snapshot: RestSnapshot): Option<Sidecar> {
    Some(Sidecar(Some(snapshot.lastUpdateId), snapshot.bids, snapshot.asks))
  }

  /** The REST snapshot is also written as the first clean row, with U = u = L. */
  function SnapshotRow(snapshot: RestSnapshot): Row {
    Row(Some(snapshot.lastUpdateId), Some(snapshot.lastUpdateId), snapshot.bids, snapshot.asks)
  }

  function Opened(snapshot: RestSnapshot): Segment {
    Segment(snapshot.lastUpdateId, 0, [SnapshotRow(snapshot)], [], 0, 0)
  }

  function Processed(seg: Segment, m: Message): Segment {
    seg.(messages := seg.messages + 1,
         clean := if Accepted(m) then seg.clean + [RowOf(m)] else seg.clean,
         quarantined := if Accepted(m) then seg.quarantined else seg.quarantined + [RowOf(m)],
         lastSeen := if FinalOf(m).Some? && FinalOf(m).value > seg.lastSeen then FinalOf(m).value else seg.lastSeen)
  }

  /** `stop(n)`: the frame limit is reached, or the deadline has passed, once n messages are processed. */
  function Batch(seg: Segment, ms: seq<Message>, stop: nat -> bool): (Segment, bool)
    decreases |ms|
  {
    if ms == [] then (seg, false)
    else
      var next := Processed(seg, ms[0]);
      if stop(next.messages) then (next, true) else Batch(next, ms[1..], stop)
  }

  /** What one connection delivers: the resubscribe buffer, then the frames read until it ends. */
  datatype Connection = Connection(buffered: seq<Message>, frames: seq<Message>)

  /** The messages a connection adds to the run once its buffer is aligned. */
  function Kept(connection: Connection, seen: int): seq<Message> {
    Align(connection.buffered, seen) + connection.frames
  }

  function Resumed(seg: Segment, connections: seq<Connection>, stop: nat -> bool): Segment
    decreases |connections|
  {
    if connections == [] then seg
    else
      var aligned := Align(connections[0].buffered, seg.lastSeen);
      var reopened := seg.(reconnects := seg.reconnects + 1);
      if !AlignmentHolds(aligned, seg.lastSeen) then reopened.(breaks := seg.breaks + 1)
      else
        var (next, done) := Batch(reopened, Kept(connections[0], seg.lastSeen), stop);
        if done then next else Resumed(next, connections[1..], stop)
  }

  function Collected(snapshot: RestSnapshot, pending: seq<Message>, frames: seq<Message>,
                     reconnections: seq<Connection>, stop: nat -> bool): Segment {
    var (next, done) := Batch(Opened(snapshot), pending + frames, stop);
    if done then next else Resumed(next, reconnections, stop)
  }

  lemma {:induction false} BatchOfConcat(seg: Segment, a: seq<Message>, b: seq<Message>, stop: nat -> bool)
    ensures Batch(seg, a + b, stop) ==
            if Batch(seg, a, stop).1 then Batch(seg, a, stop) else Batch(Batch(seg, a, stop).0, b, stop)
    decreases |a|
  {
    if a == [] {
      assert a + b == b;
    } else {
      assert (a + b)[0] == a[0] && (a + b)[1..] == a[1..] + b;
      BatchOfConcat(Processed(seg, a[0]), a[1..], b, stop);
    }
  }

  class DepthSegment {
    var lastSeen: int
    var messages: nat
    var clean: seq<Row>
    var quarantined: seq<Row>
    var reconnects: nat
    var breaks: nat

    constructor (snapshot: RestSnapshot)
      ensures Contents() == Opened(snapshot)
    {
      lastSeen, messages := snapshot.lastUpdateId, 0;
      clean, quarantined := [SnapshotRow(snapshot)], [];
      reconnects, breaks := 0, 0;
    }

    function Contents(): Segment
      reads this
    {
      Segment(lastSeen, messages, clean, quarantined, reconnects, breaks)
    }

    method ProcessBatch(raws: seq<Message>, stop: nat -> bool) returns (done: bool)
      modifies this
      ensures (Contents(), done) == Batch(old(Contents()), raws, stop)
    {
      for i := 0 to |raws|
        invariant Batch(old(Contents()), raws, stop) == Batch(Contents(), raws[i..], stop)
      {
        assert raws[i..][1..] == raws[i + 1..];
        var m := raws[i];
        messages := messages + 1;
        if Accepted(m) {
          clean := clean + [RowOf(m)];
        } else {
          quarantined := quarantined + [RowOf(m)];
        }
        if FinalOf(m).Some? && FinalOf(m).value > lastSeen {
          lastSeen := FinalOf(m).value;
        }
        if stop(messages) {
          return true;
        }
      }
      done := false;
    }

    method Collect(pending: seq<Message>, frames: seq<Message>, reconnections: seq<Connection>, stop: nat -> bool)
      modifies this
      ensures var (next, done) := Batch(old(Contents()), pending + frames, stop);
              Contents() == if done then next else Resumed(next, reconnections, stop)
    {
      BatchOfConcat(Contents(), pending, frames, stop);
      var done := ProcessBatch(pending, stop);
      if done {
        return;
      }
      done := ProcessBatch(frames, stop);
      if done {
        return;
      }
      ghost var streamed := Contents();
      for i := 0 to |reconnections|
        invariant Resumed(streamed, reconnections, stop) == Resumed(Contents(), reconnections[i..], stop)
      {
        assert reconnections[i..][0] == reconnections[i] && reconnections[i..][1..] == reconnections[i + 1..];
        done := Reconnect(reconnections[i], stop);
        if done {
          return;
        }
      }
    }

    /** A resubscribe: the buffer is aligned to what was seen, or the segment ends with a recorded break. */
    method Reconnect(connection: Connection, stop: nat -> bool) returns (done: bool)
      modifies this
      ensures var seen := old(Contents());
              var aligned := Align(connection.buffered, seen.lastSeen);
              var reopened := seen.(reconnects := seen.reconnects + 1);
              if AlignmentHolds(aligned, seen.lastSeen)
              then (Contents(), done) == Batch(reopened, aligned + connection.frames, stop)
              else done && Contents() == reopened.(breaks := seen.breaks + 1)
    {
      reconnects := reconnects + 1;
      var aligned := AlignBuffered(connection.buffered, lastSeen);
      if !AlignmentHolds(aligned, lastSeen) {
        breaks := breaks + 1;
        return true;
      }
      BatchOfConcat(Contents(), aligned, connection.frames, stop);
      done := ProcessBatch(aligned, stop);
      if !done {
        done := ProcessBatch(connection.frames, stop);
      }
    }
  }

  // ---- the scorer sees what the collector saw ----

  predicate WellFormed(m: Message) {
    m.firstId.Some? && m.finalId.Some? && m.firstId.value <= m.finalId.value && !m.parseErrors
  }

  /** A connection delivers overlapping or abutting windows, each reaching past the one before. */
  ghost predicate Unbroken(ms: seq<Message>) {
    && (forall i :: 0 <= i < |ms| ==> WellFormed(ms[i]))
    && (forall i :: 0 < i < |ms| ==> ms[i - 1].finalId.value < ms[i].finalId.value &&
                                     ms[i].firstId.value <= ms[i - 1].finalId.value + 1)
  }

  /** The message continues what has been seen, or is superseded by a snapshot nothing has followed yet. */
  predicate Meets(snapshotId: int, seen: int, m: Message)
    requires WellFormed(m)
  {
    || (seen < m.finalId.value && m.firstId.value <= seen + 1)
    || (seen == snapshotId && m.finalId.value <= snapshotId)
  }

  function Score(snapshot: RestSnapshot, seg: Segment): State {
    Scan(SidecarOf(snapshot), seg.clean)
  }

  /** The collector's reconnect cursor is the scorer's cursor. */
  ghost predicate CursorsAgree(snapshot: RestSnapshot, seg: Segment) {
    var st := Score(snapshot, seg);
    && st.events > 0
    && (st.anchored <==> seg.lastSeen > snapshot.lastUpdateId)
    && (st.anchored <==> st.previous.Some?)
    && seg.lastSeen == (if st.anchored then st.previous.value else snapshot.lastUpdateId)
  }

  lemma OpenedAgrees(snapshot: RestSnapshot)
    ensures CursorsAgree(snapshot, Opened(snapshot)) && Clean(Score(snapshot, Opened(snapshot)))
    ensures LocalSide(Score(snapshot, Opened(snapshot)), true) == FromSnapshot(snapshot.bids)
    ensures LocalSide(Score(snapshot, Opened(snapshot)), false) == FromSnapshot(snapshot.asks)
  {
    var s, row := SidecarOf(snapshot), SnapshotRow(snapshot);
    assert [row][..0] == [] && [row][0] == row;
    assert Scan(s, [row]) == Step(Anchor(s), Start(s), row);
    assert Predates(Anchor(s), Start(s), row);
  }

  lemma ProcessedAgrees(snapshot: RestSnapshot, seg: Segment, m: Message)
    requires CursorsAgree(snapshot, seg) && WellFormed(m)
    ensures CursorsAgree(snapshot, Processed(seg, m))
    ensures Clean(Score(snapshot, Processed(seg, m))) <==>
            Clean(Score(snapshot, seg)) && Meets(snapshot.lastUpdateId, seg.lastSeen, m)
  {
    var next := Processed(seg, m);
    assert next.clean[..|next.clean| - 1] == seg.clean;
    assert Score(snapshot, next) == Step(Some(snapshot.lastUpdateId), Score(snapshot, seg), RowOf(m));
  }

  /** Within an unbroken connection only the first processed message can spoil the score. */
  lemma {:induction false} BatchAgrees(snapshot: RestSnapshot, seg: Segment, ms: seq<Message>, stop: nat -> bool)
    requires CursorsAgree(snapshot, seg) && Unbroken(ms)
    ensures var next := Batch(seg, ms, stop).0;
            && CursorsAgree(snapshot, next)
            && (Clean(Score(snapshot, next)) <==>
                Clean(Score(snapshot, seg)) && (ms == [] || Meets(snapshot.lastUpdateId, seg.lastSeen, ms[0])))
    decreases |ms|
  {
    if ms != [] {
      var next := Processed(seg, ms[0]);
      ProcessedAgrees(snapshot, seg, ms[0]);
      if !stop(next.messages) {
        UnbrokenSlice(ms, 1, |ms|);
        assert ms[1..|ms|] == ms[1..];
        BatchAgrees(snapshot, next, ms[1..], stop);
      }
    }
  }

  lemma UnbrokenSlice(ms: seq<Message>, lo: nat, hi: nat)
    requires Unbroken(ms) && lo <= hi <= |ms|
    ensures Unbroken(ms[lo..hi])
  {
    assert forall i :: 0 <= i < hi - lo ==> ms[lo..hi][i] == ms[lo + i];
  }

  lemma {:induction false} AlignIsSuffix(ms: seq<Message>, seen: int) returns (k: nat)
    requires Unbroken(ms)
    ensures k <= |ms| && Align(ms, seen) == ms[k..]
    ensures k < |ms| ==> ms[k].finalId.value > seen && ms[|ms| - 1].finalId.value > seen
  {
    if ms == [] {
      k := 0;
    } else {
      var n := |ms| - 1;
      var prefix := ms[..n];
      UnbrokenSlice(ms, 0, n);
      assert ms[0..n] == prefix;
      k := AlignIsSuffix(prefix, seen);
      assert n > 0 ==> prefix[n - 1].finalId.value < ms[n].finalId.value;
      if ms[n].finalId.value > seen {
        assert ms[k..] == prefix[k..] + [ms[n]];
      } else {
        assert k == n;
        k := n + 1;
      }
    }
  }

  lemma KeptIsUnbroken(connection: Connection, seen: int)
    requires Unbroken(connection.buffered + connection.frames)
    ensures Unbroken(Kept(connection, seen))
  {
    var ms := connection.buffered + connection.frames;
    UnbrokenSlice(ms, 0, |connection.buffered|);
    assert ms[0..|connection.buffered|] == connection.buffered;
    var k := AlignIsSuffix(connection.buffered, seen);
    UnbrokenSlice(ms, k, |ms|);
    assert Kept(connection, seen) == ms[k..|ms|];
  }

  /** Every connection the segment gets to resumes where the segment stood. */
  ghost predicate EveryReconnectMeets(snapshot: RestSnapshot, seg: Segment, connections: seq<Connection>, stop: nat -> bool)
    decreases |connections|
  {
    connections != [] && AlignmentHolds(Align(connections[0].buffered, seg.lastSeen), seg.lastSeen) ==>
      var kept := Kept(connections[0], seg.lastSeen);
      var (next, done) := Batch(seg.(reconnects := seg.reconnects + 1), kept, stop);
      && (kept != [] && WellFormed(kept[0]) ==> Meets(snapshot.lastUpdateId, seg.lastSeen, kept[0]))
      && (done || EveryReconnectMeets(snapshot, next, connections[1..], stop))
  }

  ghost predicate ConnectionsUnbroken(connections: seq<Connection>) {
    forall i :: 0 <= i < |connections| ==> Unbroken(connections[i].buffered + connections[i].frames)
  }

  /** One connection: its kept messages run on, and only the first of them can spoil the score. */
  lemma ConnectionAgrees(snapshot: RestSnapshot, seg: Segment, connection: Connection, stop: nat -> bool)
    requires CursorsAgree(snapshot, seg) && Unbroken(connection.buffered + connection.frames)
    ensures var kept := Kept(connection, seg.lastSeen);
            var next := Batch(seg.(reconnects := seg.reconnects + 1), kept, stop).0;
            && CursorsAgree(snapshot, next) && (kept != [] ==> WellFormed(kept[0]))
            && (Clean(Score(snapshot, next)) <==>
                Clean(Score(snapshot, seg)) && (kept == [] || Meets(snapshot.lastUpdateId, seg.lastSeen, kept[0])))
  {
    var reopened := seg.(reconnects := seg.reconnects + 1);
    assert Score(snapshot, reopened) == Score(snapshot, seg);
    KeptIsUnbroken(connection, seg.lastSeen);
    BatchAgrees(snapshot, reopened, Kept(connection, seg.lastSeen), stop);
  }

  lemma {:induction false} ResumedAgrees(snapshot: RestSnapshot, seg: Segment, connections: seq<Connection>, stop: nat -> bool)
    requires CursorsAgree(snapshot, seg) && ConnectionsUnbroken(connections)
    ensures var end := Resumed(seg, connections, stop);
            && CursorsAgree(snapshot, end)
            && (Clean(Score(snapshot, end)) <==>
                Clean(Score(snapshot, seg)) && EveryReconnectMeets(snapshot, seg, connections, stop))
    decreases |connections|
  {
    if connections == [] {
    } else if AlignmentHolds(Align(connections[0].buffered, seg.lastSeen), seg.lastSeen) {
      ConnectionAgrees(snapshot, seg, connections[0], stop);
      var (next, done) := Batch(seg.(reconnects := seg.reconnects + 1), Kept(connections[0], seg.lastSeen), stop);
      if !done {
        ResumedAgrees(snapshot, next, connections[1..], stop);
      }
    } else {
      var broken := seg.(reconnects := seg.reconnects + 1, breaks := seg.breaks + 1);
      assert Score(snapshot, broken) == Score(snapshot, seg);
    }
  }

  /**
   The rows of a segment are replayable exactly when the bootstrap anchored and every reconnect the segment got to
   resumed at its cursor; the snapshot row written first is always skipped.
   */
  lemma CollectedIsReplayableIff(snapshot: RestSnapshot, pending: seq<Message>, frames: seq<Message>,
                                 reconnections: seq<Connection>, stop: nat -> bool)
    requires Unbroken(pending + frames) && ConnectionsUnbroken(reconnections)
    ensures var end := Collected(snapshot, pending, frames, reconnections, stop);
            var (first, done) := Batch(Opened(snapshot), pending + frames, stop);
            && CursorsAgree(snapshot, end)
            && (Replayable(Score(snapshot, end)) <==>
                && (pending + frames == [] || Meets(snapshot.lastUpdateId, snapshot.lastUpdateId, (pending + frames)[0]))
                && (done || EveryReconnectMeets(snapshot, first, reconnections, stop)))
  {
    OpenedAgrees(snapshot);
    BatchAgrees(snapshot, Opened(snapshot), pending + frames, stop);
    var (first, done) := Batch(Opened(snapshot), pending + frames, stop);
    if !done {
      ResumedAgrees(snapshot, first, reconnections, stop);
    }
  }

  /** Enough for that: the buffer of each reconnect that goes on still holds something new when it is aligned. */
  ghost predicate EveryBufferHelps(seg: Segment, connections: seq<Connection>, stop: nat -> bool)
    decreases |connections|
  {
    connections != [] && AlignmentHolds(Align(connections[0].buffered, seg.lastSeen), seg.lastSeen) ==>
      var aligned := Align(connections[0].buffered, seg.lastSeen);
      var (next, done) := Batch(seg.(reconnects := seg.reconnects + 1), Kept(connections[0], seg.lastSeen), stop);
      aligned != [] && (done || EveryBufferHelps(next, connections[1..], stop))
  }

  lemma {:induction false} HelpfulBuffersMeet(snapshot: RestSnapshot, seg: Segment, connections: seq<Connection>, stop: nat -> bool)
    requires EveryBufferHelps(seg, connections, stop) && ConnectionsUnbroken(connections)
    ensures EveryReconnectMeets(snapshot, seg, connections, stop)
    decreases |connections|
  {
    if connections != [] && AlignmentHolds(Align(connections[0].buffered, seg.lastSeen), seg.lastSeen) {
      var connection := connections[0];
      var kept := Kept(connection, seg.lastSeen);
      assert Unbroken(connection.buffered + connection.frames);
      UnbrokenSlice(connection.buffered + connection.frames, 0, |connection.buffered|);
      assert (connection.buffered + connection.frames)[0..|connection.buffered|] == connection.buffered;
      var k := AlignIsSuffix(connection.buffered, seg.lastSeen);
      assert kept[0] == connection.buffered[k];
      var (next, done) := Batch(seg.(reconnects := seg.reconnects + 1), kept, stop);
      if !done {
        HelpfulBuffersMeet(snapshot, next, connections[1..], stop);
      }
    }
  }

  /** A segment that anchored before its deadline and always found news in its resubscribe buffers is replayable. */
  lemma AnchoredSegmentIsReplayable(snapshot: RestSnapshot, received: seq<Message>, frames: seq<Message>,
                                    reconnections: seq<Connection>, stop: nat -> bool)
    requires Unbroken(received + frames) && ConnectionsUnbroken(reconnections)
    requires Bridges(received, snapshot.lastUpdateId) == Some(true)
    requires var (first, done) := Batch(Opened(snapshot), Align(received, snapshot.lastUpdateId) + frames, stop);
             done || EveryBufferHelps(first, reconnections, stop)
    ensures Replayable(Score(snapshot, Collected(snapshot, Align(received, snapshot.lastUpdateId), frames, reconnections, stop)))
  {
    var pending := Align(received, snapshot.lastUpdateId);
    KeptIsUnbroken(Connection(received, frames), snapshot.lastUpdateId);
    UnbrokenSlice(received + frames, 0, |received|);
    assert (received + frames)[0..|received|] == received;
    var k := AlignIsSuffix(received, snapshot.lastUpdateId);
    assert (pending + frames)[0] == received[k];
    CollectedIsReplayableIff(snapshot, pending, frames, reconnections, stop);
    var (first, done) := Batch(Opened(snapshot), pending + frames, stop);
    if !done {
      HelpfulBuffersMeet(snapshot, first, reconnections, stop);
    }
  }

  /**
   A non-empty resubscribe buffer is not enough: if all of it is stale the next frame is taken unaligned, and when that
   frame is stale too the run is scored as reordered although the venue lost nothing.
   */
  lemma StaleBufferSpoilsTheRun(stop: nat -> bool)
    returns (snapshot: RestSnapshot, frames: seq<Message>, again: Connection)
    requires !stop(1) && !stop(2)
    ensures Unbroken(frames) && Unbroken(again.buffered + again.frames) && again.buffered != []
    ensures var end := Collected(snapshot, [], frames, [again], stop);
            end.breaks == 0 && !Replayable(Score(snapshot, end))
  {
    snapshot := RestSnapshot(10, [], []);
    var live := Message(Some(11), Some(20), false, [], []);
    var stale, later := Message(Some(15), Some(16), false, [], []), Message(Some(17), Some(18), false, [], []);
    frames, again := [live], Connection([stale], [later]);
    assert [] + frames == frames && [stale] + [later] == [stale, later];
    var first := Processed(Opened(snapshot), live);
    OneMessage(Opened(snapshot), live, stop);
    StaleReconnect(first, stale, later, stop);
    CollectedIsReplayableIff(snapshot, [], frames, [again], stop);
    StaleReconnectMisses(snapshot, first, stale, later, stop);
  }

  lemma StaleReconnectMisses(snapshot: RestSnapshot, seg: Segment, stale: Message, later: Message, stop: nat -> bool)
    requires WellFormed(stale) && WellFormed(later) && stale.finalId.value <= seg.lastSeen && !stop(seg.messages + 1)
    requires later.finalId.value <= seg.lastSeen && snapshot.lastUpdateId < seg.lastSeen
    ensures !EveryReconnectMeets(snapshot, seg, [Connection([stale], [later])], stop)
  {
    StaleReconnect(seg, stale, later, stop);
  }

  lemma StaleReconnect(seg: Segment, stale: Message, later: Message, stop: nat -> bool)
    requires WellFormed(stale) && stale.finalId.value <= seg.lastSeen && !stop(seg.messages + 1)
    ensures Kept(Connection([stale], [later]), seg.lastSeen) == [later]
    ensures AlignmentHolds(Align([stale], seg.lastSeen), seg.lastSeen)
    ensures Resumed(seg, [Connection([stale], [later])], stop) == Processed(seg.(reconnects := seg.reconnects + 1), later)
  {
    assert [stale][..0] == [];
    assert Align([stale], seg.lastSeen) == [];
    OneMessage(seg.(reconnects := seg.reconnects + 1), later, stop);
    assert [Connection([stale], [later])][1..] == [];
  }

  lemma OneMessage(seg: Segment, m: Message, stop: nat -> bool)
    requires !stop(seg.messages + 1)
    ensures Batch(seg, [m], stop) == (Processed(seg, m), false)
  {
    assert [m][1..] == [];
  }

  /** End to end: the book replayed from a replayable segment is the venue's at the last id the collector saw. */
  lemma CollectedBookIsTheVenues(snapshot: RestSnapshot, v: Venue, pending: seq<Message>, frames: seq<Message>,
                                 reconnections: seq<Connection>, stop: nat -> bool)
    requires Unbroken(pending + frames) && ConnectionsUnbroken(reconnections) && ProperVenue(v)
    requires var end := Collected(snapshot, pending, frames, reconnections, stop);
             && Replayable(Score(snapshot, end))
             && AppliedRowsFaithful(v, Some(snapshot.lastUpdateId), end.clean)
    requires Lists(snapshot.bids, v.bids(snapshot.lastUpdateId)) && Lists(snapshot.asks, v.asks(snapshot.lastUpdateId))
    ensures var end := Collected(snapshot, pending, frames, reconnections, stop);
            Score(snapshot, end).bids == v.bids(end.lastSeen) && Score(snapshot, end).asks == v.asks(end.lastSeen)
  {
    var end := Collected(snapshot, pending, frames, reconnections, stop);
    CollectedIsReplayableIff(snapshot, pending, frames, reconnections, stop);
    ReplayedBookIsTheVenues(SidecarOf(snapshot), v, end.clean, |end.clean|);
    assert end.clean[..|end.clean|] == end.clean;
    CursorAgrees(SidecarOf(snapshot), end.clean);
  }
}
