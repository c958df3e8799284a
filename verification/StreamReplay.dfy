/**
 The scorer for runs whose snapshot arrives in the stream. One loop serves three proofs of gaplessness: a dense id
 that grows by one per event, a chain in which each event names its predecessor's id, and a checksum of the ten best
 levels per side; with none of them the verdict is structural only. Sides may be trimmed to a fixed depth.
 */
module StreamReplay {
  import opened Options
  import opened Books
  import opened DepthReplay

  datatype Event = Event(
    isSnapshot: bool, denseId: Option<int>, firstId: Option<int>, finalId: Option<int>,
    time: Option<int>, checksum: Option<int>, bids: seq<Level>, asks: seq<Level>)

  /** `crc` is the venue's checksum of the ten best asks and bids; the dense id wins when both id modes are asked for. */
  datatype Config = Config(denseKey: bool, chainSequence: bool, crc: Option<(Side, Side) -> int>, bookDepth: Option<int>)

  datatype Linkage = Unlinked | Dense | Chain

  function LinkageOf(cfg: Config): Linkage {
    if cfg.denseKey then Dense else if cfg.chainSequence then Chain else Unlinked
  }

  datatype Links = Links(previous: Option<int>, first: Option<int>, last: Option<int>,
                         missing: nat, gaps: nat, reorders: nat)

  datatype Clock = Clock(previous: Option<int>, nonMonotonic: nat)

  datatype Book = Book(bids: Side, asks: Side, snapshots: nat, bidUpdates: nat, askUpdates: nat, crossed: nat)

  datatype Checks = Checks(checked: nat, mismatches: nat, missing: nat)

  datatype StreamState = StreamState(events: nat, firstIsSnapshot: bool, links: Links, clock: Clock, book: Book,
                                     checks: Checks)

  const START := StreamState(0, false, Links(None, None, None, 0, 0, 0), Clock(None, 0), Book(map[], map[], 0, 0, 0, 0),
                             Checks(0, 0, 0))

  /** The id an event carries in the configured mode. */
  function IdOf(linkage: Linkage, e: Event): Option<int> {
    match linkage { case Unlinked => None case Dense => e.denseId case Chain => e.finalId }
  }

  function Linked(linkage: Linkage, k: Links, e: Event): Links {
    var id := IdOf(linkage, e);
    if linkage.Unlinked? then k
    else if id.None? then k.(missing := k.missing + 1)
    else
      var seen := k.(previous := id, first := if k.first.None? then id else k.first, last := id);
      if e.isSnapshot || k.previous.None? then seen
      else if linkage.Dense? then
        var delta := id.value - k.previous.value;
        if delta <= 0 then seen.(reorders := k.reorders + 1)
        else if delta > 1 then seen.(gaps := k.gaps + 1)
        else seen
      else if id.value < k.previous.value then seen.(reorders := k.reorders + 1)
      else if e.firstId != k.previous then seen.(gaps := k.gaps + 1)
      else seen
  }

  function Timed(c: Clock, e: Event): Clock {
    if e.time.None? then c
    else if c.previous.Some? && e.time.value < c.previous.value then c.(nonMonotonic := c.nonMonotonic + 1)
    else c.(previous := e.time)
  }

  function Trim(depth: Option<int>, side: Side, highest: bool): Side {
    if depth.None? then side else Trimmed(side, depth.value, highest)
  }

  function EventLevels(e: Event, bid: bool): seq<Level> {
    if bid then e.bids else e.asks
  }

  /** One side after an event: reseeded by a snapshot, updated by a delta, then trimmed. */
  function NextSide(depth: Option<int>, side: Side, e: Event, bid: bool): Side {
    Trim(depth, if e.isSnapshot then FromSnapshot(EventLevels(e, bid)) else Applied(side, EventLevels(e, bid)), bid)
  }

  function BookSideOf(b: Book, bid: bool): Side {
    if bid then b.bids else b.asks
  }

  function Booked(depth: Option<int>, b: Book, e: Event): Book {
    var bids, asks := NextSide(depth, b.bids, e, true), NextSide(depth, b.asks, e, false);
    Book(bids, asks,
         b.snapshots + (if e.isSnapshot then 1 else 0),
         b.bidUpdates + (if e.isSnapshot then 0 else |e.bids|),
         b.askUpdates + (if e.isSnapshot then 0 else |e.asks|),
         b.crossed + if Crossed(bids, asks) then 1 else 0)
  }

  function TopTenCrc(crc: (Side, Side) -> int, b: Book): int {
    crc(Top(b.asks, 10, false), Top(b.bids, 10, true))
  }

  predicate Matches(crc: (Side, Side) -> int, b: Book, e: Event) {
    e.checksum == Some(TopTenCrc(crc, b))
  }

  function Checked(crc: Option<(Side, Side) -> int>, k: Checks, b: Book, e: Event): Checks {
    if crc.None? then k
    else if e.checksum.None? then k.(missing := k.missing + 1)
    else Checks(k.checked + 1, k.mismatches + (if Matches(crc.value, b, e) then 0 else 1), k.missing)
  }

  function StreamStep(cfg: Config, st: StreamState, e: Event): StreamState {
    var book := Booked(cfg.bookDepth, st.book, e);
    StreamState(st.events + 1, if st.events == 0 then e.isSnapshot else st.firstIsSnapshot,
                Linked(LinkageOf(cfg), st.links, e), Timed(st.clock, e), book, Checked(cfg.crc, st.checks, book, e))
  }

  function StreamScan(cfg: Config, events: seq<Event>): StreamState {
    if events == [] then START
    else StreamStep(cfg, StreamScan(cfg, events[..|events| - 1]), events[|events| - 1])
  }

  predicate LinksClean(k: Links) {
    k.missing == 0 && k.gaps == 0 && k.reorders == 0
  }

  predicate StreamReplayable(cfg: Config, st: StreamState) {
    && st.events > 0 && st.book.snapshots >= 1 && st.firstIsSnapshot && st.clock.nonMonotonic == 0
    && (!LinkageOf(cfg).Unlinked? ==> LinksClean(st.links))
    && (cfg.crc.Some? ==> st.checks.checked > 0 && st.checks.missing == 0 && st.checks.mismatches == 0)
  }

  // ---- the loop ----

  method LinkEvent(linkage: Linkage, before: Links, e: Event) returns (k: Links)
    ensures k == Linked(linkage, before, e)
  {
    k := before;
    if linkage.Dense? {
      if e.denseId.None? {
        k := k.(missing := k.missing + 1);
      } else {
        k := k.(first := if k.first.None? then e.denseId else k.first, last := e.denseId);
        if !e.isSnapshot && k.previous.Some? {
          var delta := e.denseId.value - k.previous.value;
          if delta <= 0 {
            k := k.(reorders := k.reorders + 1);
          } else if delta > 1 {
            k := k.(gaps := k.gaps + 1);
          }
        }
        k := k.(previous := e.denseId);
      }
    } else if linkage.Chain? {
      if e.finalId.None? {
        k := k.(missing := k.missing + 1);
      } else {
        k := k.(first := if k.first.None? then e.finalId else k.first, last := e.finalId);
        if !e.isSnapshot && k.previous.Some? {
          if e.finalId.value < k.previous.value {
            k := k.(reorders := k.reorders + 1);
          } else if e.firstId.None? || e.firstId.value != k.previous.value {
            k := k.(gaps := k.gaps + 1);
          }
        }
        k := k.(previous := e.finalId);
      }
    }
  }

  method UpdateSide(depth: Option<int>, side: BookSide, e: Event, bid: bool)
    modifies side
    ensures side.levels == NextSide(depth, old(side.levels), e, bid)
  {
    if e.isSnapshot {
      side.levels := BookFromSnapshot(EventLevels(e, bid));
    } else {
      side.ApplyLevels(EventLevels(e, bid));
    }
    if depth.Some? {
      side.Trim(depth.value, bid);
    }
  }

  method BookEvent(depth: Option<int>, bids: BookSide, asks: BookSide, before: Book, e: Event) returns (b: Book)
    requires bids != asks && bids.levels == before.bids && asks.levels == before.asks
    modifies bids, asks
    ensures b == Booked(depth, before, e)
    ensures bids.levels == b.bids && asks.levels == b.asks
  {
    UpdateSide(depth, bids, e, true);
    UpdateSide(depth, asks, e, false);
    b := before.(bids := bids.levels, asks := asks.levels);
    if e.isSnapshot {
      b := b.(snapshots := b.snapshots + 1);
    } else {
      b := b.(bidUpdates := b.bidUpdates + |e.bids|, askUpdates := b.askUpdates + |e.asks|);
    }
    var isCrossed := IsCrossed(bids.levels, asks.levels);
    if isCrossed {
      b := b.(crossed := b.crossed + 1);
    }
  }

  method TimeEvent(before: Clock, e: Event) returns (c: Clock)
    ensures c == Timed(before, e)
  {
    c := before;
    if e.time.Some? {
      if c.previous.Some? && e.time.value < c.previous.value {
        c := c.(nonMonotonic := c.nonMonotonic + 1);
      }
      if c.previous.None? || e.time.value >= c.previous.value {
        c := c.(previous := e.time);
      }
    }
  }

  method CheckEvent(crc: Option<(Side, Side) -> int>, before: Checks, b: Book, e: Event) returns (k: Checks)
    ensures k == Checked(crc, before, b, e)
  {
    k := before;
    if crc.Some? {
      if e.checksum.None? {
        k := k.(missing := k.missing + 1);
      } else {
        k := k.(checked := k.checked + 1);
        var actual := TopTenCrc(crc.value, b);
        if actual != e.checksum.value {
          k := k.(mismatches := k.mismatches + 1);
        }
      }
    }
  }

  method ReplayDepthStreamRun(cfg: Config, events: seq<Event>) returns (st: StreamState, replayable: bool)
    ensures st == StreamScan(cfg, events)
    ensures replayable <==> StreamReplayable(cfg, st)
  {
    st := START;
    var bids := new BookSide(map[]);
    var asks := new BookSide(map[]);
    for i := 0 to |events|
      invariant fresh(bids) && fresh(asks) && bids != asks
      invariant bids.levels == st.book.bids && asks.levels == st.book.asks
      invariant st == StreamScan(cfg, events[..i])
    {
      assert events[..i + 1][..i] == events[..i];
      assert StreamScan(cfg, events[..i + 1]) == StreamStep(cfg, st, events[i]);
      var e := events[i];
      var first := if st.events == 0 then e.isSnapshot else st.firstIsSnapshot;
      var links := LinkEvent(LinkageOf(cfg), st.links, e);
      var clock := TimeEvent(st.clock, e);
      var book := BookEvent(cfg.bookDepth, bids, asks, st.book, e);
      var checks := CheckEvent(cfg.crc, st.checks, book, e);
      st := StreamState(st.events + 1, first, links, clock, book, checks);
    }
    assert events[..|events|] == events;
    replayable := st.events > 0 && st.book.snapshots >= 1 && st.firstIsSnapshot && st.clock.nonMonotonic == 0;
    if !LinkageOf(cfg).Unlinked? {
      replayable := replayable && st.links.missing == 0 && st.links.gaps == 0 && st.links.reorders == 0;
    }
    if cfg.crc.Some? {
      replayable := replayable && st.checks.checked > 0 && st.checks.missing == 0 && st.checks.mismatches == 0;
    }
  }

  // ---- which runs are replayable ----

  /** Every delta is the immediate successor of the event before it. */
  ghost predicate Succeeds(linkage: Linkage, previous: Event, e: Event) {
    match linkage {
      case Unlinked => true
      case Dense => previous.denseId.Some? && e.denseId == Some(previous.denseId.value + 1)
      case Chain => previous.finalId.Some? && e.finalId.Some? && e.firstId == previous.finalId &&
                    previous.finalId.value <= e.finalId.value
    }
  }

  ghost predicate LinksHold(linkage: Linkage, events: seq<Event>) {
    && (!linkage.Unlinked? ==> forall i :: 0 <= i < |events| ==> IdOf(linkage, events[i]).Some?)
    && (forall i :: 0 < i < |events| && !events[i].isSnapshot ==> Succeeds(linkage, events[i - 1], events[i]))
  }

  ghost predicate TimesAscend(events: seq<Event>) {
    forall i, j :: 0 <= i < j < |events| && events[i].time.Some? && events[j].time.Some? ==>
                     events[i].time.value <= events[j].time.value
  }

  ghost predicate MatchesAt(cfg: Config, events: seq<Event>, n: nat)
    requires cfg.crc.Some? && 0 < n <= |events|
  {
    Matches(cfg.crc.value, StreamScan(cfg, events[..n]).book, events[n - 1])
  }

  ghost predicate ChecksumsMatch(cfg: Config, events: seq<Event>) {
    cfg.crc.Some? ==> forall n :: 0 < n <= |events| ==> MatchesAt(cfg, events, n)
  }

  lemma {:induction false} CountsAgree(cfg: Config, events: seq<Event>)
    ensures var st := StreamScan(cfg, events);
            && st.events == |events|
            && (events != [] ==> st.firstIsSnapshot == events[0].isSnapshot)
            && (events != [] && events[0].isSnapshot ==> st.book.snapshots >= 1)
  {
    if events != [] {
      CountsAgree(cfg, events[..|events| - 1]);
    }
  }

  lemma LinksSnoc(linkage: Linkage, events: seq<Event>)
    requires events != [] && !linkage.Unlinked?
    ensures var n := |events| - 1;
            LinksHold(linkage, events) <==>
            && LinksHold(linkage, events[..n]) && IdOf(linkage, events[n]).Some?
            && (n > 0 && !events[n].isSnapshot ==> Succeeds(linkage, events[n - 1], events[n]))
  {
    var n := |events| - 1;
    var prefix := events[..n];
    assert forall i :: 0 <= i < n ==> prefix[i] == events[i];
    if LinksHold(linkage, prefix) {
      forall i | 0 <= i < n
        ensures IdOf(linkage, events[i]).Some?
        ensures i > 0 && !events[i].isSnapshot ==> Succeeds(linkage, events[i - 1], events[i])
      {
        assert IdOf(linkage, prefix[i]).Some?;
        assert i > 0 && !prefix[i].isSnapshot ==> Succeeds(linkage, prefix[i - 1], prefix[i]);
      }
    }
  }

  lemma {:induction false} LinksAgree(cfg: Config, events: seq<Event>)
    requires !LinkageOf(cfg).Unlinked?
    ensures var k := StreamScan(cfg, events).links;
            && (LinksClean(k) <==> LinksHold(LinkageOf(cfg), events))
            && (LinksClean(k) ==> k.previous == if events == [] then None else IdOf(LinkageOf(cfg), events[|events| - 1]))
  {
    if events != [] {
      LinksAgree(cfg, events[..|events| - 1]);
      LinksSnoc(LinkageOf(cfg), events);
    }
  }

  /** The clock holds the latest time seen, as long as times ascend. */
  ghost predicate HoldsLatest(c: Clock, events: seq<Event>) {
    match c.previous {
      case None => forall i :: 0 <= i < |events| ==> events[i].time.None?
      case Some(t) =>
        && (forall i :: 0 <= i < |events| && events[i].time.Some? ==> events[i].time.value <= t)
        && (exists i :: 0 <= i < |events| && events[i].time == Some(t))
    }
  }

  lemma TimedKeepsLatest(c: Clock, events: seq<Event>)
    requires events != [] && HoldsLatest(c, events[..|events| - 1])
    ensures var n := |events| - 1;
            var next := Timed(c, events[n]);
            && (next.nonMonotonic == c.nonMonotonic ==> HoldsLatest(next, events))
            && (TimesAscend(events) <==> TimesAscend(events[..n]) && next.nonMonotonic == c.nonMonotonic)
  {
    var n := |events| - 1;
    var prefix, e := events[..n], events[n];
    assert forall i :: 0 <= i < n ==> prefix[i] == events[i];
    assert events[n].time == e.time;
    if c.previous.Some? {
      var i :| 0 <= i < n && prefix[i].time == Some(c.previous.value);
      assert events[i].time == Some(c.previous.value);
    }
  }

  lemma TimesAscendPrefix(events: seq<Event>, n: nat)
    requires n <= |events|
    ensures TimesAscend(events) ==> TimesAscend(events[..n])
  {
    assert forall i :: 0 <= i < n ==> events[..n][i] == events[i];
  }

  lemma {:induction false} TimesAgree(cfg: Config, events: seq<Event>)
    ensures var c := StreamScan(cfg, events).clock;
            && (c.nonMonotonic == 0 <==> TimesAscend(events))
            && (c.nonMonotonic == 0 ==> HoldsLatest(c, events))
  {
    if events != [] {
      var n := |events| - 1;
      var c := StreamScan(cfg, events[..n]).clock;
      TimesAgree(cfg, events[..n]);
      if c.nonMonotonic == 0 {
        TimedKeepsLatest(c, events);
      }
      TimesAscendPrefix(events, n);
    }
  }

  lemma ChecksumsSnoc(cfg: Config, events: seq<Event>)
    requires cfg.crc.Some? && events != []
    ensures ChecksumsMatch(cfg, events) <==>
            ChecksumsMatch(cfg, events[..|events| - 1]) && MatchesAt(cfg, events, |events|)
  {
    var n := |events| - 1;
    forall k | 0 < k <= n ensures MatchesAt(cfg, events, k) <==> MatchesAt(cfg, events[..n], k) {
      assert events[..n][..k] == events[..k];
    }
  }

  lemma {:induction false} ChecksumsAgree(cfg: Config, events: seq<Event>)
    requires cfg.crc.Some?
    ensures var k := StreamScan(cfg, events).checks;
            && k.checked + k.missing == |events|
            && (k.missing == 0 && k.mismatches == 0 <==> ChecksumsMatch(cfg, events))
  {
    if events != [] {
      ChecksumsAgree(cfg, events[..|events| - 1]);
      ChecksumsSnoc(cfg, events);
      assert events[..|events|] == events;
    }
  }

  /** The verdict without counters. */
  lemma StreamReplayableIff(cfg: Config, events: seq<Event>)
    ensures StreamReplayable(cfg, StreamScan(cfg, events)) <==>
            && events != [] && events[0].isSnapshot && TimesAscend(events)
            && LinksHold(LinkageOf(cfg), events) && ChecksumsMatch(cfg, events)
  {
    CountsAgree(cfg, events);
    TimesAgree(cfg, events);
    if !LinkageOf(cfg).Unlinked? {
      LinksAgree(cfg, events);
    }
    if cfg.crc.Some? {
      ChecksumsAgree(cfg, events);
    }
  }

  // ---- anchored blocks ----

  /** The latest snapshot at or before an event of a run that opens on one. */
  function BlockStart(events: seq<Event>, j: nat): (a: nat)
    requires j < |events| && events[0].isSnapshot
    ensures a <= j && events[a].isSnapshot
    ensures forall i :: a < i <= j ==> !events[i].isSnapshot
  {
    if events[j].isSnapshot then j else BlockStart(events, j - 1)
  }

  /** A replayable dense run splits into blocks of consecutive ids, each counted from its own snapshot. */
  lemma {:induction false} DenseBlocksAreConsecutive(cfg: Config, events: seq<Event>, j: nat)
    requires cfg.denseKey && StreamReplayable(cfg, StreamScan(cfg, events)) && j < |events|
    ensures events[0].isSnapshot
    ensures var a := BlockStart(events, j);
            events[a].denseId.Some? && events[j].denseId == Some(events[a].denseId.value + (j - a))
  {
    StreamReplayableIff(cfg, events);
    assert IdOf(Dense, events[j]).Some?;
    if !events[j].isSnapshot {
      DenseBlocksAreConsecutive(cfg, events, j - 1);
      assert Succeeds(Dense, events[j - 1], events[j]);
    }
  }

  /** A chained run links every event but a snapshot to the one before it; a dense key, where both are asked for, wins. */
  lemma ChainIsLinked(cfg: Config, events: seq<Event>, j: nat)
    requires !cfg.denseKey && cfg.chainSequence && StreamReplayable(cfg, StreamScan(cfg, events)) && 0 < j < |events|
    ensures events[j - 1].finalId.Some? && events[j].finalId.Some?
    ensures !events[j].isSnapshot ==>
              events[j].firstId == events[j - 1].finalId && events[j - 1].finalId.value <= events[j].finalId.value
  {
    StreamReplayableIff(cfg, events);
    assert IdOf(Chain, events[j - 1]).Some? && IdOf(Chain, events[j]).Some?;
    assert !events[j].isSnapshot ==> Succeeds(Chain, events[j - 1], events[j]);
  }

  // ---- what the scorer tells about a run ----

  predicate HasId(linkage: Linkage, e: Event) {
    match linkage { case Unlinked => false case Dense => e.denseId.Some? case Chain => e.finalId.Some? }
  }

  /** Event i is the first, or the last, of the run that carries an id. */
  ghost predicate IsFirstWithId(linkage: Linkage, events: seq<Event>, i: int) {
    0 <= i < |events| && HasId(linkage, events[i]) && forall j :: 0 <= j < i ==> !HasId(linkage, events[j])
  }

  ghost predicate IsLastWithId(linkage: Linkage, events: seq<Event>, i: int) {
    0 <= i < |events| && HasId(linkage, events[i]) && forall j :: i < j < |events| ==> !HasId(linkage, events[j])
  }

  /** The first and last id told are those of the first and last event that has one, clean run or not. */
  lemma {:induction false} IdsAreTold(cfg: Config, events: seq<Event>, i: int)
    ensures var k, linkage := StreamScan(cfg, events).links, LinkageOf(cfg);
            && (IsFirstWithId(linkage, events, i) ==> k.first == IdOf(linkage, events[i]))
            && (IsLastWithId(linkage, events, i) ==> k.last == k.previous == IdOf(linkage, events[i]))
            && (k.first.None? ==> forall j :: 0 <= j < |events| ==> !HasId(linkage, events[j]))
  {
    if events != [] {
      var n := |events| - 1;
      IdsAreTold(cfg, events[..n], i);
      assert forall j :: 0 <= j < n ==> events[..n][j] == events[j];
      if IsFirstWithId(LinkageOf(cfg), events, n) && StreamScan(cfg, events[..n]).links.first.Some? {
        SomeHasId(cfg, events[..n]);
      }
    }
  }

  lemma {:induction false} SomeHasId(cfg: Config, events: seq<Event>)
    requires StreamScan(cfg, events).links.first.Some?
    ensures exists j :: 0 <= j < |events| && HasId(LinkageOf(cfg), events[j])
  {
    var n := |events| - 1;
    if !HasId(LinkageOf(cfg), events[n]) {
      SomeHasId(cfg, events[..n]);
      var j :| 0 <= j < n && HasId(LinkageOf(cfg), events[..n][j]);
      assert HasId(LinkageOf(cfg), events[j]);
    }
  }

  /** How many of the first n events satisfy a test. */
  ghost function Count(events: seq<Event>, test: Event -> bool, n: nat): nat
    requires n <= |events|
  {
    if n == 0 then 0 else Count(events, test, n - 1) + if test(events[n - 1]) then 1 else 0
  }

  /** After how many of the first n events the book was crossed. */
  ghost function Crossings(cfg: Config, events: seq<Event>, n: nat): nat
    requires n <= |events|
  {
    if n == 0 then 0
    else
      var b := StreamScan(cfg, events[..n]).book;
      Crossings(cfg, events, n - 1) + if exists p, q :: p in b.bids && q in b.asks && p >= q then 1 else 0
  }

  ghost function Updates(events: seq<Event>, bid: bool, n: nat): nat
    requires n <= |events|
  {
    if n == 0 then 0
    else
      var e := events[n - 1];
      Updates(events, bid, n - 1) + if e.isSnapshot then 0 else if bid then |e.bids| else |e.asks|
  }

  /** The counters beside the verdict count what they are named for. */
  lemma {:induction false} CountersTell(cfg: Config, events: seq<Event>, n: nat)
    requires n <= |events|
    ensures var st := StreamScan(cfg, events[..n]);
            && st.book.snapshots == Count(events, (e: Event) => e.isSnapshot, n)
            && st.book.crossed == Crossings(cfg, events, n)
            && st.book.bidUpdates == Updates(events, true, n) && st.book.askUpdates == Updates(events, false, n)
            && (cfg.crc.Some? ==> st.checks.missing == Count(events, (e: Event) => e.checksum.None?, n)
                                  && st.checks.checked == Count(events, (e: Event) => e.checksum.Some?, n))
  {
    if n > 0 {
      CountersTell(cfg, events, n - 1);
      assert events[..n][..n - 1] == events[..n - 1] && events[..n][n - 1] == events[n - 1];
    }
  }

  // ---- what the verdict guarantees about the book ----

  /** What a side of the local book should show once the venue has reached an id. */
  function View(cfg: Config, v: Venue, bid: bool, id: int): Side {
    Trim(cfg.bookDepth, VenueSide(v, bid, id), bid)
  }

  /** For a depth-bounded venue that is its highest bids and its lowest asks, as many as the depth. */
  lemma ViewIsBest(cfg: Config, v: Venue, id: int, p: Price, q: Price)
    requires cfg.bookDepth.Some? && cfg.bookDepth.value >= 1
    ensures p in View(cfg, v, true, id) && q in v.bids(id) && q !in View(cfg, v, true, id) ==> p > q
    ensures p in View(cfg, v, false, id) && q in v.asks(id) && q !in View(cfg, v, false, id) ==> p < q
    ensures forall bid :: View(cfg, v, bid, id).Items <= VenueSide(v, bid, id).Items
    ensures forall bid :: |View(cfg, v, bid, id)| ==
                          if |VenueSide(v, bid, id)| <= cfg.bookDepth.value then |VenueSide(v, bid, id)| else cfg.bookDepth.value
  {
    if p in v.bids(id) && q in v.bids(id) {
      TopIsBest(v.bids(id), cfg.bookDepth.value, p, q);
    }
    if p in v.asks(id) && q in v.asks(id) {
      TopIsBest(v.asks(id), cfg.bookDepth.value, p, q);
    }
    forall bid ensures |View(cfg, v, bid, id)| ==
                       if |VenueSide(v, bid, id)| <= cfg.bookDepth.value then |VenueSide(v, bid, id)| else cfg.bookDepth.value
    {
      TopSize(VenueSide(v, bid, id), cfg.bookDepth.value, bid);
    }
  }

  /** The snapshot lists a side of which the depth kept is the venue's: its whole side, or enough of its best levels. */
  ghost predicate SnapshotFaithful(cfg: Config, v: Venue, e: Event, id: int) {
    forall bid ::
      var msg := if bid then e.bids else e.asks;
      exists side :: Lists(msg, side) && Proper(side) && Trim(cfg.bookDepth, side, bid) == View(cfg, v, bid, id)
  }

  lemma SnapshotReachesView(cfg: Config, v: Venue, e: Event, id: int, side: Side, bid: bool)
    requires SnapshotFaithful(cfg, v, e, id) && e.isSnapshot
    ensures NextSide(cfg.bookDepth, side, e, bid) == View(cfg, v, bid, id)
  {
    var msg := if bid then e.bids else e.asks;
    var listed :| Lists(msg, listed) && Proper(listed) && Trim(cfg.bookDepth, listed, bid) == View(cfg, v, bid, id);
    SeededIffListed(msg, listed);
  }

  /** Changes between two ids: all of them, or, for a depth-bounded venue, those its best levels show. */
  ghost predicate DeltaFaithful(cfg: Config, v: Venue, e: Event, before: int, after: int) {
    forall bid ::
      var a, b, msg := VenueSide(v, bid, before), VenueSide(v, bid, after), if bid then e.bids else e.asks;
      if cfg.bookDepth.Some? && cfg.bookDepth.value >= 1 then BoundedUpdate(a, b, cfg.bookDepth.value, bid, msg)
      else forall p :: match Quoted(msg, p) {
                         case Some(s) => s == SizeAt(b, p)
                         case None => SizeAt(a, p) == SizeAt(b, p)
                       }
  }

  lemma DeltaReachesView(cfg: Config, v: Venue, e: Event, before: int, after: int, bid: bool)
    requires ProperVenue(v) && DeltaFaithful(cfg, v, e, before, after) && !e.isSnapshot
    ensures NextSide(cfg.bookDepth, View(cfg, v, bid, before), e, bid) == View(cfg, v, bid, after)
  {
    var a, b, msg := VenueSide(v, bid, before), VenueSide(v, bid, after), EventLevels(e, bid);
    if cfg.bookDepth.Some? && cfg.bookDepth.value >= 1 {
      TrimTracksTop(a, b, cfg.bookDepth.value, bid, msg);
    } else {
      AppliedStaysProper(a, msg);
      forall p ensures SizeAt(Applied(a, msg), p) == SizeAt(b, p) {
        AppliedAt(a, msg, p);
      }
      ProperSidesAgree(Applied(a, msg), b);
    }
  }

  /** Event i takes the venue's book from the id of event i - 1 to its own, or restates it at its own. */
  ghost predicate Carries(cfg: Config, v: Venue, events: seq<Event>, ids: int -> int, i: nat)
    requires i < |events|
  {
    if events[i].isSnapshot then SnapshotFaithful(cfg, v, events[i], ids(i))
    else i > 0 ==> DeltaFaithful(cfg, v, events[i], ids(i - 1), ids(i))
  }

  /** Events that carry the venue from each id to the next keep the local book equal to the venue's view. */
  lemma {:induction false} FaithfulEventsTrackVenue(cfg: Config, v: Venue, events: seq<Event>, ids: int -> int, bid: bool)
    requires ProperVenue(v) && events != [] && events[0].isSnapshot
    requires forall i :: 0 <= i < |events| ==> Carries(cfg, v, events, ids, i)
    ensures BookSideOf(StreamScan(cfg, events).book, bid) == View(cfg, v, bid, ids(|events| - 1))
  {
    var n := |events| - 1;
    var prefix, e := events[..n], events[n];
    assert Carries(cfg, v, events, ids, n);
    if !e.isSnapshot {
      forall i | 0 <= i < n ensures Carries(cfg, v, prefix, ids, i) {
        assert Carries(cfg, v, events, ids, i);
      }
      FaithfulEventsTrackVenue(cfg, v, prefix, ids, bid);
      DeltaReachesView(cfg, v, e, ids(n - 1), ids(n), bid);
    } else {
      SnapshotReachesView(cfg, v, e, ids(n), BookSideOf(StreamScan(cfg, prefix).book, bid), bid);
    }
  }

  /** What an event claims on its own: the venue at its id, or the changes since the id it says it continues. */
  ghost predicate EventFaithful(cfg: Config, v: Venue, e: Event) {
    match LinkageOf(cfg) {
      case Unlinked => false
      case Dense => e.denseId.Some? ==>
        if e.isSnapshot then SnapshotFaithful(cfg, v, e, e.denseId.value)
        else DeltaFaithful(cfg, v, e, e.denseId.value - 1, e.denseId.value)
      case Chain => e.finalId.Some? ==>
        if e.isSnapshot then SnapshotFaithful(cfg, v, e, e.finalId.value)
        else e.firstId.Some? ==> DeltaFaithful(cfg, v, e, e.firstId.value, e.finalId.value)
    }
  }

  /**
   In dense and in chain mode, a replayable run of faithful events rebuilds the venue's book (or its best
   `bookDepth` levels) after every event, across any number of re-snapshots.
   */
  lemma SequencedBookIsTheVenues(cfg: Config, v: Venue, events: seq<Event>, n: nat)
    requires (cfg.denseKey || cfg.chainSequence) && ProperVenue(v)
    requires StreamReplayable(cfg, StreamScan(cfg, events)) && 0 < n <= |events|
    requires forall i :: 0 <= i < |events| ==> EventFaithful(cfg, v, events[i])
    ensures IdOf(LinkageOf(cfg), events[n - 1]).Some?
    ensures var book, id := StreamScan(cfg, events[..n]).book, IdOf(LinkageOf(cfg), events[n - 1]).value;
            book.bids == Trim(cfg.bookDepth, v.bids(id), true) && book.asks == Trim(cfg.bookDepth, v.asks(id), false)
  {
    SequencedSideIsTheVenues(cfg, v, events, n, true);
    SequencedSideIsTheVenues(cfg, v, events, n, false);
  }

  lemma SequencedSideIsTheVenues(cfg: Config, v: Venue, events: seq<Event>, n: nat, bid: bool)
    requires !LinkageOf(cfg).Unlinked? && ProperVenue(v)
    requires StreamReplayable(cfg, StreamScan(cfg, events)) && 0 < n <= |events|
    requires forall i :: 0 <= i < |events| ==> EventFaithful(cfg, v, events[i])
    ensures IdOf(LinkageOf(cfg), events[n - 1]).Some?
    ensures BookSideOf(StreamScan(cfg, events[..n]).book, bid) ==
            View(cfg, v, bid, IdOf(LinkageOf(cfg), events[n - 1]).value)
  {
    StreamReplayableIff(cfg, events);
    var ids := EventId(LinkageOf(cfg), events);
    forall i | 0 <= i < n ensures Carries(cfg, v, events[..n], ids, i) {
      EventReaches(cfg, v, events, i);
    }
    FaithfulEventsTrackVenue(cfg, v, events[..n], ids, bid);
    EventReaches(cfg, v, events, n - 1);
  }

  function EventId(linkage: Linkage, events: seq<Event>): int -> int {
    i => if 0 <= i < |events| && IdOf(linkage, events[i]).Some? then IdOf(linkage, events[i]).value else 0
  }

  lemma EventReaches(cfg: Config, v: Venue, events: seq<Event>, i: nat)
    requires i < |events| && !LinkageOf(cfg).Unlinked? && LinksHold(LinkageOf(cfg), events)
    requires EventFaithful(cfg, v, events[i])
    ensures IdOf(LinkageOf(cfg), events[i]).Some?
    ensures forall n :: i < n <= |events| ==> Carries(cfg, v, events[..n], EventId(LinkageOf(cfg), events), i)
  {
    assert IdOf(LinkageOf(cfg), events[i]).Some?;
    if i > 0 && !events[i].isSnapshot {
      assert Succeeds(LinkageOf(cfg), events[i - 1], events[i]);
    }
  }

  ghost predicate Collides(crc: (Side, Side) -> int, asks: Side, bids: Side, otherAsks: Side, otherBids: Side) {
    (asks != otherAsks || bids != otherBids) && crc(asks, bids) == crc(otherAsks, otherBids)
  }

  /**
   A replayable checksummed run shows the venue's ten best levels after every event that carries the venue's checksum,
   unless the checksum collides.
   */
  lemma ChecksummedTopIsTheVenues(cfg: Config, v: Venue, events: seq<Event>, n: nat, id: int)
    requires cfg.crc.Some? && StreamReplayable(cfg, StreamScan(cfg, events)) && 0 < n <= |events|
    requires events[n - 1].checksum == Some(cfg.crc.value(Top(v.asks(id), 10, false), Top(v.bids(id), 10, true)))
    ensures var b := StreamScan(cfg, events[..n]).book;
            || (Top(b.asks, 10, false) == Top(v.asks(id), 10, false) && Top(b.bids, 10, true) == Top(v.bids(id), 10, true))
            || Collides(cfg.crc.value, Top(b.asks, 10, false), Top(b.bids, 10, true),
                        Top(v.asks(id), 10, false), Top(v.bids(id), 10, true))
  {
    StreamReplayableIff(cfg, events);
    assert MatchesAt(cfg, events, n);
  }

  // ---- what the verdict sees of a loss ----

  function Without(events: seq<Event>, i: nat): seq<Event>
    requires i < |events|
  {
    events[..i] + events[i + 1..]
  }

  /** The event took the feed nowhere: the one before it already stood at its id. */
  predicate AtTheSameId(linkage: Linkage, events: seq<Event>, i: nat)
    requires i < |events|
  {
    i > 0 && IdOf(linkage, events[i]) == IdOf(linkage, events[i - 1])
  }

  lemma LinksWithoutIff(linkage: Linkage, events: seq<Event>, i: nat)
    requires i < |events| && LinksHold(linkage, events)
    ensures LinksHold(linkage, Without(events, i)) <==>
            (0 < i < |events| - 1 && !events[i + 1].isSnapshot ==> Succeeds(linkage, events[i - 1], events[i + 1]))
  {
    var rest := Without(events, i);
    assert forall k :: 0 <= k < |rest| ==> rest[k] == events[if k < i then k else k + 1];
    if 0 < i < |events| - 1 && !events[i + 1].isSnapshot && LinksHold(linkage, rest) {
      assert rest[i] == events[i + 1] && rest[i - 1] == events[i - 1];
    }
  }

  /**
   Losing one event of a replayable run without checksums goes unseen exactly when the next event reseeds the book, there
   is no next event, or the ids do not tell: there are none, or the lost event left the feed at the same id. The first
   event is missed unless a snapshot follows it.
   */
  lemma LossIsUnseenIff(cfg: Config, events: seq<Event>, i: nat)
    requires cfg.crc.None? && i < |events| && StreamReplayable(cfg, StreamScan(cfg, events))
    ensures StreamReplayable(cfg, StreamScan(cfg, Without(events, i))) <==>
            && |events| > 1
            && (|| i == |events| - 1 || events[i + 1].isSnapshot
                || (i > 0 && LinkageOf(cfg).Unlinked?) || (!LinkageOf(cfg).Unlinked? && AtTheSameId(LinkageOf(cfg), events, i)))
  {
    StreamReplayableIff(cfg, events);
    StreamReplayableIff(cfg, Without(events, i));
    LinksWithoutIff(LinkageOf(cfg), events, i);
    TimesWithout(events, i);
    if 0 < i < |events| - 1 && !events[i + 1].isSnapshot {
      SkippingSucceedsIff(LinkageOf(cfg), events, i);
    }
  }

  lemma TimesWithout(events: seq<Event>, i: nat)
    requires i < |events| && TimesAscend(events)
    ensures TimesAscend(Without(events, i)) && |Without(events, i)| == |events| - 1
    ensures |events| > 1 ==> Without(events, i)[0] == events[if i == 0 then 1 else 0]
  {
    var rest := Without(events, i);
    assert forall k :: 0 <= k < |rest| ==> rest[k] == events[if k < i then k else k + 1];
  }

  lemma SkippingSucceedsIff(linkage: Linkage, events: seq<Event>, i: nat)
    requires 0 < i < |events| - 1 && !events[i + 1].isSnapshot && LinksHold(linkage, events)
    ensures Succeeds(linkage, events[i - 1], events[i + 1]) <==> linkage.Unlinked? || AtTheSameId(linkage, events, i)
  {
    assert Succeeds(linkage, events[i], events[i + 1]);
    assert !linkage.Unlinked? ==> IdOf(linkage, events[i - 1]).Some? && IdOf(linkage, events[i]).Some?;
  }

  // ---- which configurations earn trust in the book ----

  /** The venue ids an event stands between; a snapshot has only the second. */
  datatype Span = Span(before: int, after: int)

  /** The event carries the venue over its span, and its ids, where the mode has any, are the span's. */
  ghost predicate Delivered(cfg: Config, v: Venue, e: Event, span: Span) {
    && (if e.isSnapshot then SnapshotFaithful(cfg, v, e, span.after) else DeltaFaithful(cfg, v, e, span.before, span.after))
    && match LinkageOf(cfg) {
         case Unlinked => true
         case Dense => e.denseId == Some(span.after) && (!e.isSnapshot ==> span.before == span.after - 1)
         case Chain => e.finalId == Some(span.after) && (!e.isSnapshot ==> e.firstId == Some(span.before))
       }
  }

  /** If the run of these events is replayable, the book is the venue's after each of them. */
  ghost predicate SoundFor(cfg: Config, v: Venue, events: seq<Event>, spans: seq<Span>) {
    && |spans| == |events| && ProperVenue(v) && StreamReplayable(cfg, StreamScan(cfg, events))
    && (forall i :: 0 <= i < |events| ==> Delivered(cfg, v, events[i], spans[i]))
    ==> forall n, bid :: 0 < n <= |events| ==>
          BookSideOf(StreamScan(cfg, events[..n]).book, bid) == View(cfg, v, bid, spans[n - 1].after)
  }

  lemma SequencedIsSound(cfg: Config, v: Venue, events: seq<Event>, spans: seq<Span>)
    requires !LinkageOf(cfg).Unlinked?
    ensures SoundFor(cfg, v, events, spans)
  {
    if |spans| == |events| && ProperVenue(v) && StreamReplayable(cfg, StreamScan(cfg, events))
       && forall i :: 0 <= i < |events| ==> Delivered(cfg, v, events[i], spans[i]) {
      forall i | 0 <= i < |events| ensures EventFaithful(cfg, v, events[i]) {
        assert Delivered(cfg, v, events[i], spans[i]);
      }
      forall n, bid | 0 < n <= |events|
        ensures BookSideOf(StreamScan(cfg, events[..n]).book, bid) == View(cfg, v, bid, spans[n - 1].after) {
        SequencedSideIsTheVenues(cfg, v, events, n, bid);
        assert Delivered(cfg, v, events[n - 1], spans[n - 1]);
      }
    }
  }

  /** One bid appears at id 1; the delta that brought it is lost, the one from 1 to 2 changes nothing. */
  lemma UnlinkedIsUnsound(cfg: Config) returns (v: Venue, events: seq<Event>, spans: seq<Span>)
    requires LinkageOf(cfg).Unlinked? && cfg.crc.None?
    ensures !SoundFor(cfg, v, events, spans)
  {
    var bid: Side := map[7 := 1];
    v := Venue(id => if id < 1 then map[] else bid, id => map[]);
    var a := Event(true, None, None, None, None, None, [], []);
    var c := Event(false, None, None, None, None, None, [], []);
    events, spans := [a, c], [Span(0, 0), Span(1, 2)];
    StreamReplayableIff(cfg, events);
    EmptyFeedHasNoBook(cfg, a, c);
    assert events[..2] == events;
    assert Top(bid, if cfg.bookDepth.Some? && cfg.bookDepth.value >= 1 then cfg.bookDepth.value else 1, true) == bid by {
      TopOfShort(bid, if cfg.bookDepth.Some? && cfg.bookDepth.value >= 1 then cfg.bookDepth.value else 1, true);
    }
    assert View(cfg, v, true, 2) == bid;
    SeededIffListed([], map[]);
    assert SnapshotFaithful(cfg, v, a, 0);
    NothingChangesFaithfully(cfg, v, c, 1, 2);
    assert StreamReplayable(cfg, StreamScan(cfg, events));
    assert ProperVenue(v);
    assert BookSideOf(StreamScan(cfg, events[..2]).book, true) != View(cfg, v, true, spans[1].after);
    assert forall i :: 0 <= i < |events| ==> Delivered(cfg, v, events[i], spans[i]);
  }

  lemma NothingChangesFaithfully(cfg: Config, v: Venue, c: Event, before: int, after: int)
    requires c.bids == [] && c.asks == [] && forall bid :: VenueSide(v, bid, before) == VenueSide(v, bid, after)
    ensures DeltaFaithful(cfg, v, c, before, after)
  {
    forall bid ensures EventLevels(c, bid) == [] {
    }
  }

  lemma EmptyFeedHasNoBook(cfg: Config, a: Event, c: Event)
    requires a.isSnapshot && !c.isSnapshot && a.bids == [] && c.bids == []
    ensures StreamScan(cfg, [a, c]).book.bids == map[]
  {
    assert [a, c][..1] == [a] && [a][..0] == [];
    assert StreamScan(cfg, [a]).book.bids == map[];
  }

  /**
   Without checksums a replayable verdict vouches for the book, for every venue and every feed of truthful events,
   exactly when the ids form a dense or a linked sequence.
   */
  lemma VerdictIsSoundIff(cfg: Config)
    requires cfg.crc.None?
    ensures (forall v: Venue, events: seq<Event>, spans: seq<Span> :: SoundFor(cfg, v, events, spans))
            <==> cfg.denseKey || cfg.chainSequence
  {
    if LinkageOf(cfg).Unlinked? {
      var v, events, spans := UnlinkedIsUnsound(cfg);
    } else {
      forall v: Venue, events: seq<Event>, spans: seq<Span> ensures SoundFor(cfg, v, events, spans) {
        SequencedIsSound(cfg, v, events, spans);
      }
    }
  }
}
