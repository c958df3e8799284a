/**
 What the Binance collector keeps of a feed. A reconnect costs the segment exactly when its resubscribe buffer starts
 beyond the cursor; over a feed without a hole it never does, and nothing new is left out of the clean rows.
 */
module BinanceFeed {
  import opened Options
  import opened DepthReplay
  import opened BinanceSegment

  lemma {:induction false} BatchKeeps(seg: Segment, ms: seq<Message>, stop: nat -> bool)
    ensures Batch(seg, ms, stop).0.breaks == seg.breaks
    ensures forall row :: row in seg.clean ==> row in Batch(seg, ms, stop).0.clean
    decreases |ms|
  {
    if ms != [] && !stop(Processed(seg, ms[0]).messages) {
      BatchKeeps(Processed(seg, ms[0]), ms[1..], stop);
    }
  }

  lemma ResumedOnce(seg: Segment, connection: Connection, stop: nat -> bool)
    ensures var reopened := seg.(reconnects := seg.reconnects + 1);
            Resumed(seg, [connection], stop) ==
            if AlignmentHolds(Align(connection.buffered, seg.lastSeen), seg.lastSeen)
            then Batch(reopened, Kept(connection, seg.lastSeen), stop).0 else reopened.(breaks := seg.breaks + 1)
  {
    assert [connection][1..] == [];
  }

  /** A reconnect is recorded as a break, and ends the segment as it stood, exactly when its buffer starts beyond the cursor. */
  lemma BreakIff(seg: Segment, connection: Connection, stop: nat -> bool)
    ensures var end := Resumed(seg, [connection], stop);
            && (end.breaks != seg.breaks <==> StartsBeyond(connection.buffered, seg.lastSeen))
            && (StartsBeyond(connection.buffered, seg.lastSeen) ==>
                  end == seg.(reconnects := seg.reconnects + 1, breaks := seg.breaks + 1))
  {
    var reopened := seg.(reconnects := seg.reconnects + 1);
    AlignmentHoldsIff(connection.buffered, seg.lastSeen);
    BatchKeeps(reopened, Kept(connection, seg.lastSeen), stop);
    ResumedOnce(seg, connection, stop);
  }

  function Reach(seen: int, ms: seq<Message>): int {
    if ms != [] && FinalOf(ms[|ms| - 1]).Some? && FinalOf(ms[|ms| - 1]).value > seen then FinalOf(ms[|ms| - 1]).value else seen
  }

  function Delivered(c: Connection): seq<Message> {
    c.buffered + c.frames
  }

  /** Each resubscribe buffer that holds anything starts at or before the id after the last one delivered until then. */
  ghost predicate ReachesBack(seen: int, connections: seq<Connection>)
    decreases |connections|
  {
    connections != [] ==>
      var c := connections[0];
      && (c.buffered != [] && c.buffered[0].firstId.Some? ==> c.buffered[0].firstId.value <= seen + 1)
      && ReachesBack(Reach(seen, Delivered(c)), connections[1..])
  }

  lemma ReachingBackHolds(buffered: seq<Message>, seen: int)
    requires Unbroken(buffered) && (buffered != [] ==> buffered[0].firstId.value <= seen + 1)
    ensures !StartsBeyond(buffered, seen)
  {
    forall i | IsFirstPast(buffered, i, seen) ensures buffered[i].firstId.value <= seen + 1 {
      assert i > 0 ==> buffered[i].firstId.value <= buffered[i - 1].finalId.value + 1;
    }
  }

  /** Without a stop an unbroken batch is written row by row and the cursor ends at its last id. */
  lemma {:induction false} BatchWritesAll(seg: Segment, ms: seq<Message>, stop: nat -> bool)
    requires Unbroken(ms) && !Batch(seg, ms, stop).1
    ensures var next := Batch(seg, ms, stop).0;
            && next.lastSeen == Reach(seg.lastSeen, ms)
            && (forall m :: m in ms ==> RowOf(m) in next.clean)
    decreases |ms|
  {
    if ms != [] {
      var next := Processed(seg, ms[0]);
      UnbrokenSlice(ms, 1, |ms|);
      assert ms[1..|ms|] == ms[1..];
      BatchWritesAll(next, ms[1..], stop);
      BatchKeeps(next, ms[1..], stop);
      assert next.clean[|next.clean| - 1] == RowOf(ms[0]);
      forall m | m in ms ensures RowOf(m) in Batch(next, ms[1..], stop).0.clean {
        assert m == ms[0] || m in ms[1..];
      }
      LastIsHighest(ms, 0);
    }
  }

  lemma {:induction false} LastIsHighest(ms: seq<Message>, j: nat)
    requires Unbroken(ms) && j < |ms|
    ensures ms[j].finalId.value <= ms[|ms| - 1].finalId.value
    decreases |ms| - j
  {
    if j < |ms| - 1 {
      assert ms[j + 1 - 1].finalId.value < ms[j + 1].finalId.value;
      LastIsHighest(ms, j + 1);
    }
  }

  lemma {:induction false} AlignKeepsNews(buffered: seq<Message>, seen: int, m: Message)
    requires m in buffered && FinalOf(m).Some? && FinalOf(m).value > seen
    ensures m in Align(buffered, seen)
  {
    var n := |buffered| - 1;
    if m != buffered[n] {
      assert m in buffered[..n];
      AlignKeepsNews(buffered[..n], seen, m);
    }
  }

  lemma {:induction false} NoStopNoEnd(seg: Segment, ms: seq<Message>, stop: nat -> bool)
    requires forall n: nat :: !stop(n)
    ensures !Batch(seg, ms, stop).1
    decreases |ms|
  {
    if ms != [] {
      NoStopNoEnd(Processed(seg, ms[0]), ms[1..], stop);
    }
  }

  /** One reconnect that reaches back: no break, and unless it stops, all its news written and the cursor at its last id. */
  lemma ReconnectGoesOn(seg: Segment, c: Connection, stop: nat -> bool)
    requires Unbroken(Delivered(c)) && ReachesBack(seg.lastSeen, [c])
    ensures AlignmentHolds(Align(c.buffered, seg.lastSeen), seg.lastSeen)
    ensures var (next, done) := Batch(seg.(reconnects := seg.reconnects + 1), Kept(c, seg.lastSeen), stop);
            && next.breaks == seg.breaks
            && (!done ==> next.lastSeen == Reach(seg.lastSeen, Delivered(c)))
            && (!done ==> forall m :: m in Delivered(c) && FinalOf(m).Some? && FinalOf(m).value > seg.lastSeen ==> RowOf(m) in next.clean)
  {
    var ms, kept, reopened := Delivered(c), Kept(c, seg.lastSeen), seg.(reconnects := seg.reconnects + 1);
    UnbrokenSlice(ms, 0, |c.buffered|);
    assert ms[0..|c.buffered|] == c.buffered;
    ReachingBackHolds(c.buffered, seg.lastSeen);
    AlignmentHoldsIff(c.buffered, seg.lastSeen);
    KeptIsUnbroken(c, seg.lastSeen);
    BatchKeeps(reopened, kept, stop);
    if !Batch(reopened, kept, stop).1 {
      BatchWritesAll(reopened, kept, stop);
      forall m | m in ms && FinalOf(m).Some? && FinalOf(m).value > seg.lastSeen ensures m in kept {
        if m in c.buffered {
          AlignKeepsNews(c.buffered, seg.lastSeen, m);
        }
      }
      KeptReachesAsFar(c, seg.lastSeen);
    }
  }

  lemma KeptReachesAsFar(c: Connection, seen: int)
    requires Unbroken(Delivered(c))
    ensures Reach(seen, Kept(c, seen)) == Reach(seen, Delivered(c))
  {
    var ms, kept := Delivered(c), Kept(c, seen);
    if ms != [] && FinalOf(ms[|ms| - 1]).value > seen {
      if c.frames == [] {
        AlignKeepsNews(c.buffered, seen, ms[|ms| - 1]);
        UnbrokenSlice(ms, 0, |c.buffered|);
        assert ms[0..|c.buffered|] == c.buffered;
        var k := AlignIsSuffix(c.buffered, seen);
      }
      assert kept != [] && kept[|kept| - 1] == ms[|ms| - 1];
    } else if kept != [] && c.frames == [] {
      UnbrokenSlice(ms, 0, |c.buffered|);
      assert ms[0..|c.buffered|] == c.buffered;
      var k := AlignIsSuffix(c.buffered, seen);
    }
  }

  lemma {:induction false} ResumedKeepsRows(seg: Segment, connections: seq<Connection>, stop: nat -> bool)
    ensures forall row :: row in seg.clean ==> row in Resumed(seg, connections, stop).clean
    decreases |connections|
  {
    if connections != [] {
      var reopened, kept := seg.(reconnects := seg.reconnects + 1), Kept(connections[0], seg.lastSeen);
      BatchKeeps(reopened, kept, stop);
      var (next, done) := Batch(reopened, kept, stop);
      if !done {
        ResumedKeepsRows(next, connections[1..], stop);
      }
    }
  }

  lemma {:induction false} ResumedNeverBreaks(seg: Segment, connections: seq<Connection>, stop: nat -> bool)
    requires ConnectionsUnbroken(connections) && ReachesBack(seg.lastSeen, connections)
    ensures Resumed(seg, connections, stop).breaks == seg.breaks
    decreases |connections|
  {
    if connections != [] {
      var c := connections[0];
      assert [c][1..] == [];
      ReconnectGoesOn(seg, c, stop);
      var (next, done) := Batch(seg.(reconnects := seg.reconnects + 1), Kept(c, seg.lastSeen), stop);
      if !done {
        ResumedNeverBreaks(next, connections[1..], stop);
      }
    }
  }

  /** Message m of connection i ends past the id seen and past everything delivered before that connection. */
  ghost predicate IsNews(seen: int, connections: seq<Connection>, i: nat, m: Message)
    requires i < |connections|
  {
    && m in Delivered(connections[i]) && FinalOf(m).Some? && FinalOf(m).value > seen
    && forall k, x :: 0 <= k < i && x in Delivered(connections[k]) && FinalOf(x).Some? ==> FinalOf(x).value < FinalOf(m).value
  }

  lemma NewsOfRest(seen: int, connections: seq<Connection>, i: nat, m: Message)
    requires 0 < i < |connections| && IsNews(seen, connections, i, m)
    ensures IsNews(Reach(seen, Delivered(connections[0])), connections[1..], i - 1, m)
  {
    var ms := Delivered(connections[0]);
    assert ms != [] ==> ms[|ms| - 1] in ms;
    forall k, x | 0 <= k < i - 1 && x in Delivered(connections[1..][k]) && FinalOf(x).Some?
      ensures FinalOf(x).value < FinalOf(m).value
    {
      assert x in Delivered(connections[k + 1]);
    }
  }

  lemma {:induction false} ResumedWritesNews(seg: Segment, connections: seq<Connection>, stop: nat -> bool, i: nat, m: Message)
    requires ConnectionsUnbroken(connections) && ReachesBack(seg.lastSeen, connections) && forall n: nat :: !stop(n)
    requires i < |connections| && IsNews(seg.lastSeen, connections, i, m)
    ensures RowOf(m) in Resumed(seg, connections, stop).clean
    decreases |connections|
  {
    var next := GoesOn(seg, connections, stop, m);
    if i == 0 {
      ResumedKeepsRows(next, connections[1..], stop);
    } else {
      NewsOfRest(seg.lastSeen, connections, i, m);
      ResumedWritesNews(next, connections[1..], stop, i - 1, m);
    }
  }

  lemma GoesOn(seg: Segment, connections: seq<Connection>, stop: nat -> bool, m: Message) returns (next: Segment)
    requires ConnectionsUnbroken(connections) && ReachesBack(seg.lastSeen, connections) && forall n: nat :: !stop(n)
    requires connections != []
    ensures Resumed(seg, connections, stop) == Resumed(next, connections[1..], stop)
    ensures next.lastSeen == Reach(seg.lastSeen, Delivered(connections[0])) && ReachesBack(next.lastSeen, connections[1..])
    ensures IsNews(seg.lastSeen, connections, 0, m) ==> RowOf(m) in next.clean
  {
    var c := connections[0];
    assert Unbroken(Delivered(c));
    assert [c][1..] == [];
    ReconnectGoesOn(seg, c, stop);
    NoStopNoEnd(seg.(reconnects := seg.reconnects + 1), Kept(c, seg.lastSeen), stop);
    next := Batch(seg.(reconnects := seg.reconnects + 1), Kept(c, seg.lastSeen), stop).0;
    ResumedFirst(seg, connections, stop);
  }

  lemma {:induction false} ResumedFirst(seg: Segment, connections: seq<Connection>, stop: nat -> bool)
    requires connections != [] && AlignmentHolds(Align(connections[0].buffered, seg.lastSeen), seg.lastSeen)
    ensures var (next, done) := Batch(seg.(reconnects := seg.reconnects + 1), Kept(connections[0], seg.lastSeen), stop);
            Resumed(seg, connections, stop) == if done then next else Resumed(next, connections[1..], stop)
  {
  }

  /**
   A venue feed without a hole, every resubscribe reaching back to the cursor: no break is recorded, and until a stop
   every message of the first connection and everything new on each later one is in the clean rows.
   */
  lemma UnbrokenFeedIsWritten(snapshot: RestSnapshot, pending: seq<Message>, frames: seq<Message>,
                              reconnections: seq<Connection>, stop: nat -> bool)
    requires Unbroken(pending + frames) && ConnectionsUnbroken(reconnections)
    requires ReachesBack(Reach(snapshot.lastUpdateId, pending + frames), reconnections)
    ensures var end := Collected(snapshot, pending, frames, reconnections, stop);
            && end.breaks == 0
            && ((forall n: nat :: !stop(n)) ==>
                  && (forall m :: m in pending + frames ==> RowOf(m) in end.clean)
                  && (forall i, m :: 0 <= i < |reconnections|
                                     && IsNews(Reach(snapshot.lastUpdateId, pending + frames), reconnections, i, m)
                                     ==> RowOf(m) in end.clean))
  {
    var ms := pending + frames;
    var (first, done) := Batch(Opened(snapshot), ms, stop);
    BatchKeeps(Opened(snapshot), ms, stop);
    if !done {
      BatchWritesAll(Opened(snapshot), ms, stop);
      ResumedNeverBreaks(first, reconnections, stop);
      ResumedKeepsRows(first, reconnections, stop);
    }
    if forall n: nat :: !stop(n) {
      NoStopNoEnd(Opened(snapshot), ms, stop);
      forall i, m | 0 <= i < |reconnections| && IsNews(first.lastSeen, reconnections, i, m)
        ensures RowOf(m) in Resumed(first, reconnections, stop).clean
      {
        ResumedWritesNews(first, reconnections, stop, i, m);
      }
    }
  }

  // ---- clean or quarantined ----

  /** A payload that did not parse, or a window that ends before it starts. */
  predicate Bad(m: Message) {
    m.parseErrors || (m.firstId.Some? && m.finalId.Some? && m.firstId.value > m.finalId.value)
  }

  /** Every message processed is written once; what only bad messages say stays out of the clean rows, and conversely. */
  lemma {:induction false} BatchSorts(seg: Segment, ms: seq<Message>, stop: nat -> bool, row: Row)
    ensures var next := Batch(seg, ms, stop).0;
            && |next.clean| + |next.quarantined| - next.messages == |seg.clean| + |seg.quarantined| - seg.messages
            && ((forall m :: m in ms && RowOf(m) == row ==> Bad(m)) && row in next.clean ==> row in seg.clean)
            && ((forall m :: m in ms && RowOf(m) == row ==> !Bad(m)) && row in next.quarantined ==> row in seg.quarantined)
    decreases |ms|
  {
    if ms != [] && !stop(Processed(seg, ms[0]).messages) {
      BatchSorts(Processed(seg, ms[0]), ms[1..], stop, row);
    }
  }

  // ---- the bootstrap ----

  lemma StaysFirstPast(buffered: seq<Message>, more: seq<Message>, seen: int)
    requires StartsBeyond(buffered, seen)
    ensures StartsBeyond(buffered + more, seen)
  {
    var i :| IsFirstPast(buffered, i, seen) && buffered[i].firstId.value > seen + 1;
    assert IsFirstPast(buffered + more, i, seen);
  }

  /** The first kept message covers or abuts the snapshot. */
  ghost predicate MeetsSnapshot(buffered: seq<Message>, id: int) {
    exists i :: IsFirstPast(buffered, i, id) && buffered[i].firstId.value <= id + 1
  }

  lemma BridgesInIds(buffered: seq<Message>, id: int)
    ensures Bridges(buffered, id) == Some(true) <==> MeetsSnapshot(buffered, id)
    ensures Bridges(buffered, id) == Some(false) <==> StartsBeyond(buffered, id)
  {
    AlignKeepsFirstPast(buffered, id);
    if Align(buffered, id) != [] {
      var i :| IsFirstPast(buffered, i, id);
      assert Align(buffered, id)[0] == buffered[i];
    }
  }

  /** A buffer that meets the snapshot ends the wait at once; a newer snapshot is asked for only when the buffer is ahead. */
  lemma PassInIds(a: Anchoring, tick: Tick, maxFetches: nat)
    requires !a.anchored
    ensures var b, next := Adopted(a, tick), Pass(a, tick, maxFetches);
            && (next.anchored <==> MeetsSnapshot(b.buffered, b.snapshot.lastUpdateId))
            && (next.fetches != a.fetches <==>
                StartsBeyond(b.buffered, b.snapshot.lastUpdateId) && !b.refetching && a.fetches < maxFetches)
  {
    var b := Adopted(a, tick);
    BridgesInIds(b.buffered, b.snapshot.lastUpdateId);
  }

  lemma {:induction false} WaitingKeepsReading(a: Anchoring, ticks: seq<Tick>, maxFetches: nat)
    requires !a.anchored && a.refetching && StartsBeyond(a.buffered, a.snapshot.lastUpdateId)
    requires forall i :: 0 <= i < |ticks| ==> ticks[i].refetched.None?
    ensures Passes(a, ticks, maxFetches) == a.(buffered := a.buffered + Received(ticks))
    decreases |ticks|
  {
    if ticks == [] {
      assert a.buffered + [] == a.buffered;
    } else {
      var more := ReceivedIn(ticks[0]);
      AheadPassReads(a, ticks[0], maxFetches);
      WaitingKeepsReading(a.(buffered := a.buffered + more), ticks[1..], maxFetches);
      ReceivedOnto(a.buffered, ticks);
    }
  }

  function ReceivedIn(tick: Tick): seq<Message> {
    if tick.received.Some? then [tick.received.value] else []
  }

  lemma ReceivedOnto(buffered: seq<Message>, ticks: seq<Tick>)
    requires ticks != []
    ensures buffered + ReceivedIn(ticks[0]) + Received(ticks[1..]) == buffered + Received(ticks)
  {
    ReceivedFirst(ticks);
  }

  /** While the buffer is ahead a pass reads on, and has a newer snapshot on its way if it may. */
  lemma AheadPassReads(a: Anchoring, tick: Tick, maxFetches: nat)
    requires !a.anchored && StartsBeyond(a.buffered, a.snapshot.lastUpdateId) && (a.refetching ==> tick.refetched.None?)
    ensures var ask := !a.refetching && a.fetches < maxFetches;
            Pass(a, tick, maxFetches) == a.(refetching := a.refetching || ask, fetches := a.fetches + (if ask then 1 else 0),
                                            buffered := a.buffered + ReceivedIn(tick))
    ensures StartsBeyond(a.buffered + ReceivedIn(tick), a.snapshot.lastUpdateId)
  {
    BridgesInIds(a.buffered, a.snapshot.lastUpdateId);
    StaysFirstPast(a.buffered, ReceivedIn(tick), a.snapshot.lastUpdateId);
  }

  lemma {:induction false} ReceivedFirst(ticks: seq<Tick>)
    requires ticks != []
    ensures Received(ticks) == ReceivedIn(ticks[0]) + Received(ticks[1..])
  {
    var n := |ticks| - 1;
    if n > 0 {
      ReceivedFirst(ticks[..n]);
      assert ticks[..n][1..] == ticks[1..][..n - 1];
    }
  }

  lemma {:induction false} PassesSplit(a: Anchoring, ticks: seq<Tick>, k: nat, maxFetches: nat)
    requires k <= |ticks|
    ensures Passes(a, ticks, maxFetches) == Passes(Passes(a, ticks[..k], maxFetches), ticks[k..], maxFetches)
    decreases k
  {
    if k > 0 && !a.anchored {
      assert ticks[..k][1..] == ticks[1..][..k - 1] && ticks[1..][k - 1..] == ticks[k..];
      PassesSplit(Pass(a, ticks[0], maxFetches), ticks[1..], k - 1, maxFetches);
    } else if k == 0 {
      assert ticks[0..] == ticks;
    }
  }

  /**
   A buffer that has run ahead of its snapshot asks for a newer one, goes on reading while that is fetched, and anchors
   on it as soon as it comes, if the buffer by then meets it.
   */
  lemma AheadBufferIsAnchored(a: Anchoring, first: Tick, waiting: seq<Tick>, ready: Tick, maxFetches: nat)
    requires !a.anchored && !a.refetching && a.fetches < maxFetches
    requires StartsBeyond(a.buffered, a.snapshot.lastUpdateId)
    requires (forall i :: 0 <= i < |waiting| ==> waiting[i].refetched.None?) && ready.refetched.Some?
    requires MeetsSnapshot(a.buffered + Received([first] + waiting), ready.refetched.value.lastUpdateId)
    ensures Passes(a, [first] + waiting + [ready], maxFetches) ==
            Anchoring(ready.refetched.value, a.buffered + Received([first] + waiting), false, a.fetches + 1, true)
  {
    AheadPassReads(a, first, maxFetches);
    ReceivedOnto(a.buffered, [first] + waiting);
    assert ([first] + waiting)[1..] == waiting;
    WaitThenAnchor(Pass(a, first, maxFetches), waiting, ready, maxFetches);
    FirstPass(a, first, waiting + [ready], maxFetches);
    assert [first] + waiting + [ready] == [first] + (waiting + [ready]);
  }

  lemma FirstPass(a: Anchoring, first: Tick, rest: seq<Tick>, maxFetches: nat)
    requires !a.anchored
    ensures Passes(a, [first] + rest, maxFetches) == Passes(Pass(a, first, maxFetches), rest, maxFetches)
  {
    assert ([first] + rest)[1..] == rest;
  }

  lemma WaitThenAnchor(a: Anchoring, waiting: seq<Tick>, ready: Tick, maxFetches: nat)
    requires !a.anchored && a.refetching && StartsBeyond(a.buffered, a.snapshot.lastUpdateId)
    requires (forall i :: 0 <= i < |waiting| ==> waiting[i].refetched.None?) && ready.refetched.Some?
    requires MeetsSnapshot(a.buffered + Received(waiting), ready.refetched.value.lastUpdateId)
    ensures Passes(a, waiting + [ready], maxFetches) ==
            Anchoring(ready.refetched.value, a.buffered + Received(waiting), false, a.fetches, true)
  {
    var ticks := waiting + [ready];
    assert ticks[..|waiting|] == waiting && ticks[|waiting|..] == [ready];
    PassesSplit(a, ticks, |waiting|, maxFetches);
    WaitingKeepsReading(a, waiting, maxFetches);
    ReadyAnchors(a.(buffered := a.buffered + Received(waiting)), ready, maxFetches);
  }

  lemma ReadyAnchors(a: Anchoring, ready: Tick, maxFetches: nat)
    requires !a.anchored && a.refetching && ready.refetched.Some?
    requires MeetsSnapshot(a.buffered, ready.refetched.value.lastUpdateId)
    ensures Passes(a, [ready], maxFetches) == Anchoring(ready.refetched.value, a.buffered, false, a.fetches, true)
  {
    BridgesInIds(a.buffered, ready.refetched.value.lastUpdateId);
    assert [ready][1..] == [];
  }
}
