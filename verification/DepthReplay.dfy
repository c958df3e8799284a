/**
 The scorer for Binance depth runs: a REST snapshot sidecar followed by rows that each cover a window [U, u]
 of update ids. `Scan` is the scorer's fold, `ReplayDepthRun` the loop itself. The results below say what the
 `replayable` verdict is worth: exactly which row sequences get it, that the rebuilt book is then the venue's,
 and that no scorer could do with less than full id coverage.
 */
module DepthReplay {
  import opened Options
  import opened Books

  datatype Row = Row(firstId: Option<int>, finalId: Option<int>, bids: seq<Level>, asks: seq<Level>)
  datatype Sidecar = Sidecar(lastUpdateId: Option<int>, bids: seq<Level>, asks: seq<Level>)

  datatype State = State(
    bids: Side, asks: Side,
    anchored: bool, previous: Option<int>, first: Option<int>, last: Option<int>,
    events: nat, bidUpdates: nat, askUpdates: nat,
    gaps: nat, anchorGaps: nat, reorders: nat, invalid: nat, crossed: nat)

  predicate Covers(row: Row, id: int) {
    Valid(row) && row.firstId.value <= id <= row.finalId.value
  }

  predicate Valid(row: Row) {
    row.firstId.Some? && row.finalId.Some? && row.firstId.value <= row.finalId.value
  }

  function Anchor(sidecar: Option<Sidecar>): Option<int> {
    match sidecar { case None => None case Some(s) => s.lastUpdateId }
  }

  function SnapshotLevels(sidecar: Option<Sidecar>, bid: bool): seq<Level> {
    match sidecar { case None => [] case Some(s) => if bid then s.bids else s.asks }
  }

  function Seed(sidecar: Option<Sidecar>, bid: bool): Side {
    FromSnapshot(SnapshotLevels(sidecar, bid))
  }

  function Start(sidecar: Option<Sidecar>): State {
    State(Seed(sidecar, true), Seed(sidecar, false), Anchor(sidecar).None?, None, None, None,
          0, 0, 0, 0, 0, 0, 0, 0)
  }

  /** A row that arrives before the anchor and only covers ids the snapshot already contains. */
  predicate Predates(anchor: Option<int>, st: State, row: Row) {
    Valid(row) && anchor.Some? && !st.anchored && row.finalId.value <= anchor.value
  }

  function Sequenced(anchor: Option<int>, st: State, row: Row): State {
    if !Valid(row) then
      st.(invalid := st.invalid + 1)
    else
      var u0, u1 := row.firstId.value, row.finalId.value;
      var seen := st.(first := if st.first.None? then Some(u0) else st.first, last := Some(u1));
      if anchor.Some? && !st.anchored then
        seen.(anchorGaps := st.anchorGaps + (if u0 > anchor.value + 1 then 1 else 0),
              anchored := true, previous := Some(u1))
      else if st.previous.None? then
        seen.(previous := Some(u1))
      else if u1 <= st.previous.value then
        seen.(reorders := st.reorders + 1)
      else
        seen.(gaps := st.gaps + (if u0 > st.previous.value + 1 then 1 else 0), previous := Some(u1))
  }

  function WithLevels(st: State, row: Row): State {
    var bids, asks := Applied(st.bids, row.bids), Applied(st.asks, row.asks);
    st.(bids := bids, asks := asks,
        bidUpdates := st.bidUpdates + |row.bids|, askUpdates := st.askUpdates + |row.asks|,
        crossed := st.crossed + if Crossed(bids, asks) then 1 else 0)
  }

  function Step(anchor: Option<int>, st: State, row: Row): State {
    var counted := st.(events := st.events + 1);
    if Predates(anchor, st, row) then counted else WithLevels(Sequenced(anchor, counted, row), row)
  }

  function Scan(sidecar: Option<Sidecar>, rows: seq<Row>): State {
    if rows == [] then Start(sidecar)
    else Step(Anchor(sidecar), Scan(sidecar, rows[..|rows| - 1]), rows[|rows| - 1])
  }

  predicate Clean(st: State) {
    st.gaps == 0 && st.anchorGaps == 0 && st.reorders == 0 && st.invalid == 0
  }

  predicate Replayable(st: State) {
    st.events > 0 && Clean(st)
  }

  method IsCrossed(bids: Side, asks: Side) returns (crossed: bool)
    ensures crossed <==> Crossed(bids, asks)
  {
    crossed := false;
    if |bids| > 0 && |asks| > 0 {
      var bestBid := BestPrice(bids.Keys, true);
      var bestAsk := BestPrice(asks.Keys, false);
      crossed := bestBid >= bestAsk;
    }
  }

  /** The bookkeeping of one row before its levels are applied; `skip` is the early `continue`. */
  method CountRow(anchor: Option<int>, before: State, row: Row) returns (st: State, skip: bool)
    ensures skip <==> Predates(anchor, before, row)
    ensures st == if skip then before.(events := before.events + 1)
                  else Sequenced(anchor, before.(events := before.events + 1), row)
    ensures st.bids == before.bids && st.asks == before.asks
  {
    st, skip := before.(events := before.events + 1), false;
    if row.firstId.None? || row.finalId.None? || row.finalId.value < row.firstId.value {
      st := st.(invalid := st.invalid + 1);
      return;
    }
    var u0, u1 := row.firstId.value, row.finalId.value;
    if anchor.Some? && !st.anchored {
      if u1 <= anchor.value {
        skip := true;
        return;
      }
      if u0 > anchor.value + 1 {
        st := st.(anchorGaps := st.anchorGaps + 1);
      }
      st := st.(anchored := true, previous := Some(u1), last := Some(u1));
      if st.first.None? {
        st := st.(first := Some(u0));
      }
    } else {
      if st.first.None? {
        st := st.(first := Some(u0));
      }
      st := st.(last := Some(u1));
      if st.previous.Some? {
        if u1 <= st.previous.value {
          st := st.(reorders := st.reorders + 1);
        } else if u0 > st.previous.value + 1 {
          st := st.(gaps := st.gaps + 1);
        }
      }
      if st.previous.None? || u1 > st.previous.value {
        st := st.(previous := Some(u1));
      }
    }
  }

  method ApplyRow(bids: BookSide, asks: BookSide, before: State, row: Row) returns (st: State)
    requires bids != asks && bids.levels == before.bids && asks.levels == before.asks
    modifies bids, asks
    ensures st == WithLevels(before, row)
    ensures bids.levels == st.bids && asks.levels == st.asks
  {
    bids.ApplyLevels(row.bids);
    asks.ApplyLevels(row.asks);
    var isCrossed := IsCrossed(bids.levels, asks.levels);
    st := before.(bids := bids.levels, asks := asks.levels,
                  bidUpdates := before.bidUpdates + |row.bids|, askUpdates := before.askUpdates + |row.asks|,
                  crossed := before.crossed + if isCrossed then 1 else 0);
  }

  method ScanRow(anchor: Option<int>, bids: BookSide, asks: BookSide, before: State, row: Row) returns (st: State)
    requires bids != asks && bids.levels == before.bids && asks.levels == before.asks
    modifies bids, asks
    ensures st == Step(anchor, before, row)
    ensures bids.levels == st.bids && asks.levels == st.asks
  {
    var skip;
    st, skip := CountRow(anchor, before, row);
    if !skip {
      st := ApplyRow(bids, asks, st, row);
    }
  }

  method ReplayDepthRun(sidecar: Option<Sidecar>, rows: seq<Row>) returns (st: State, replayable: bool)
    ensures st == Scan(sidecar, rows)
    ensures replayable <==> Replayable(st)
  {
    var anchor := Anchor(sidecar);
    var bidSide := BookFromSnapshot(SnapshotLevels(sidecar, true));
    var askSide := BookFromSnapshot(SnapshotLevels(sidecar, false));
    var bids := new BookSide(bidSide);
    var asks := new BookSide(askSide);
    st := State(bidSide, askSide, anchor.None?, None, None, None, 0, 0, 0, 0, 0, 0, 0, 0);
    for i := 0 to |rows|
      invariant fresh(bids) && fresh(asks) && bids != asks
      invariant bids.levels == st.bids && asks.levels == st.asks
      invariant st == Scan(sidecar, rows[..i])
    {
      assert rows[..i + 1][..i] == rows[..i];
      assert Scan(sidecar, rows[..i + 1]) == Step(anchor, st, rows[i]);
      st := ScanRow(anchor, bids, asks, st, rows[i]);
    }
    assert rows[..|rows|] == rows;
    replayable := st.events > 0 && st.gaps == 0 && st.anchorGaps == 0 && st.reorders == 0 && st.invalid == 0;
  }

  // ---- which runs are replayable ----

  /** How many leading rows the snapshot supersedes. */
  function Lead(anchor: Option<int>, rows: seq<Row>): (k: nat)
    ensures k <= |rows|
  {
    if rows == [] then 0
    else
      var n := |rows| - 1;
      var k := Lead(anchor, rows[..n]);
      if k == n && anchor.Some? && Valid(rows[n]) && rows[n].finalId.value <= anchor.value then k + 1 else k
  }

  /** The id the next row has to continue from: the previous window's end, or the snapshot's id. */
  function Reached(anchor: Option<int>, rows: seq<Row>, i: nat): Option<int>
    requires i <= |rows|
  {
    if i > Lead(anchor, rows) then rows[i - 1].finalId else anchor
  }

  /** Rows after the lead-in overlap or abut their predecessor and always reach further. */
  predicate Continues(reached: Option<int>, row: Row) {
    Valid(row) && (reached.Some? ==> row.firstId.value <= reached.value + 1 && reached.value < row.finalId.value)
  }

  ghost predicate Contiguous(anchor: Option<int>, rows: seq<Row>) {
    forall i :: Lead(anchor, rows) <= i < |rows| ==> Continues(Reached(anchor, rows, i), rows[i])
  }

  lemma LeadOfPrefix(anchor: Option<int>, rows: seq<Row>, i: nat)
    requires i <= |rows|
    ensures Lead(anchor, rows[..i]) == if Lead(anchor, rows) <= i then Lead(anchor, rows) else i
    decreases |rows|
  {
    if i < |rows| {
      var n := |rows| - 1;
      assert rows[..n][..i] == rows[..i];
      LeadOfPrefix(anchor, rows[..n], i);
    } else {
      assert rows[..i] == rows;
    }
  }

  lemma ContiguousPrefix(anchor: Option<int>, rows: seq<Row>, i: nat)
    requires i <= |rows| && Contiguous(anchor, rows)
    ensures Contiguous(anchor, rows[..i])
  {
    LeadOfPrefix(anchor, rows, i);
    forall j | Lead(anchor, rows[..i]) <= j < i
      ensures Continues(Reached(anchor, rows[..i], j), rows[..i][j])
    {
      assert Continues(Reached(anchor, rows, j), rows[j]);
    }
  }

  /** What the scorer remembers of a clean run is what the rows themselves say. */
  ghost predicate CursorMatches(anchor: Option<int>, rows: seq<Row>, st: State) {
    var k := Lead(anchor, rows);
    && (st.anchored <==> anchor.None? || k < |rows|)
    && st.previous == (if k < |rows| then rows[|rows| - 1].finalId else None)
    && st.last == st.previous
    && (k < |rows| ==> st.previous.Some? && st.first.Some?)
    && st.first == (if k < |rows| then rows[k].firstId else None)
  }

  lemma ContiguousSnoc(anchor: Option<int>, rows: seq<Row>)
    requires rows != []
    ensures var n := |rows| - 1;
            Contiguous(anchor, rows) <==>
            Contiguous(anchor, rows[..n]) && (n < Lead(anchor, rows) || Continues(Reached(anchor, rows, n), rows[n]))
  {
    var n := |rows| - 1;
    var prefix := rows[..n];
    LeadOfPrefix(anchor, rows, n);
    if Contiguous(anchor, rows) {
      ContiguousPrefix(anchor, rows, n);
    }
    if Contiguous(anchor, prefix) && (n < Lead(anchor, rows) || Continues(Reached(anchor, rows, n), rows[n])) {
      forall i | Lead(anchor, rows) <= i < |rows|
        ensures Continues(Reached(anchor, rows, i), rows[i])
      {
        assert i < n ==> Reached(anchor, rows, i) == Reached(anchor, prefix, i) && rows[i] == prefix[i];
      }
    }
  }

  lemma StepKeepsCursor(anchor: Option<int>, rows: seq<Row>, st: State)
    requires rows != [] && Clean(st)
    requires CursorMatches(anchor, rows[..|rows| - 1], st)
    ensures var n := |rows| - 1;
            var next := Step(anchor, st, rows[n]);
            && (Clean(next) <==> n < Lead(anchor, rows) || Continues(Reached(anchor, rows, n), rows[n]))
            && (Clean(next) ==> CursorMatches(anchor, rows, next))
  {
    var n := |rows| - 1;
    LeadOfPrefix(anchor, rows, n);
    assert n < Lead(anchor, rows) <==> Predates(anchor, st, rows[n]);
    assert forall i :: 0 <= i < n ==> rows[..n][i] == rows[i];
  }

  lemma StepNeverClears(anchor: Option<int>, st: State, row: Row)
    ensures Step(anchor, st, row).events == st.events + 1
    ensures Clean(Step(anchor, st, row)) ==> Clean(st)
  {
  }

  lemma {:induction false} CursorAgrees(sidecar: Option<Sidecar>, rows: seq<Row>)
    ensures Scan(sidecar, rows).events == |rows|
    ensures Clean(Scan(sidecar, rows)) <==> Contiguous(Anchor(sidecar), rows)
    ensures Clean(Scan(sidecar, rows)) ==> CursorMatches(Anchor(sidecar), rows, Scan(sidecar, rows))
  {
    if rows != [] {
      var prefix := rows[..|rows| - 1];
      CursorAgrees(sidecar, prefix);
      ContiguousSnoc(Anchor(sidecar), rows);
      var st := Scan(sidecar, prefix);
      StepNeverClears(Anchor(sidecar), st, rows[|rows| - 1]);
      if Clean(st) {
        StepKeepsCursor(Anchor(sidecar), rows, st);
      }
    }
  }

  /** The verdict, stated without counters: a run is replayable exactly when it has rows and they are contiguous. */
  lemma ReplayableIffContiguous(sidecar: Option<Sidecar>, rows: seq<Row>)
    ensures Replayable(Scan(sidecar, rows)) <==> rows != [] && Contiguous(Anchor(sidecar), rows)
  {
    CursorAgrees(sidecar, rows);
  }

  /** A replayable run leaves no update id between the snapshot and its last id uncovered. */
  lemma {:induction false} EveryIdCovered(sidecar: Option<Sidecar>, rows: seq<Row>, id: int)
    requires Replayable(Scan(sidecar, rows))
    requires Anchor(sidecar).Some? && Scan(sidecar, rows).last.Some?
    requires Anchor(sidecar).value < id <= Scan(sidecar, rows).last.value
    ensures exists i :: Lead(Anchor(sidecar), rows) <= i < |rows| && Covers(rows[i], id)
  {
    var anchor := Anchor(sidecar);
    CursorAgrees(sidecar, rows);
    var n := |rows| - 1;
    assert Continues(Reached(anchor, rows, n), rows[n]);
    if id < rows[n].firstId.value {
      var prefix := rows[..n];
      LeadOfPrefix(anchor, rows, n);
      ContiguousPrefix(anchor, rows, n);
      CursorAgrees(sidecar, prefix);
      assert Lead(anchor, rows) < n;
      EveryIdCovered(sidecar, prefix, id);
      var i :| Lead(anchor, prefix) <= i < |prefix| && Covers(prefix[i], id);
      assert rows[i] == prefix[i];
    }
  }

  // ---- what the verdict guarantees about the book ----

  /** The venue's book, both sides, after each update id. */
  datatype Venue = Venue(bids: int -> Side, asks: int -> Side)

  function VenueSide(v: Venue, bid: bool, id: int): Side {
    if bid then v.bids(id) else v.asks(id)
  }

  function Levels(row: Row, bid: bool): seq<Level> {
    if bid then row.bids else row.asks
  }

  function LocalSide(st: State, bid: bool): Side {
    if bid then st.bids else st.asks
  }

  ghost predicate ProperVenue(v: Venue) {
    forall bid, id :: Proper(VenueSide(v, bid, id))
  }

  /** The row carries the size at u of every price that changed at an id in [U, u], and nothing false. */
  ghost predicate Faithful(v: Venue, row: Row)
    requires Valid(row)
  {
    var u0, u1 := row.firstId.value, row.finalId.value;
    forall bid, p ::
      match Quoted(Levels(row, bid), p) {
        case Some(s) => s == SizeAt(VenueSide(v, bid, u1), p)
        case None => forall id :: u0 <= id <= u1 ==>
                       SizeAt(VenueSide(v, bid, id), p) == SizeAt(VenueSide(v, bid, id - 1), p)
      }
  }

  lemma {:induction false} UntouchedPriceKeepsSize(v: Venue, bid: bool, p: Price, lo: int, hi: int)
    requires lo <= hi
    requires forall id :: lo < id <= hi ==> SizeAt(VenueSide(v, bid, id), p) == SizeAt(VenueSide(v, bid, id - 1), p)
    ensures SizeAt(VenueSide(v, bid, hi), p) == SizeAt(VenueSide(v, bid, lo), p)
    decreases hi - lo
  {
    if lo < hi {
      UntouchedPriceKeepsSize(v, bid, p, lo, hi - 1);
    }
  }

  ghost predicate AppliedRowsFaithful(v: Venue, anchor: Option<int>, rows: seq<Row>) {
    forall i :: Lead(anchor, rows) <= i < |rows| ==> Valid(rows[i]) && Faithful(v, rows[i])
  }

  /** A price the run has grounds to know: right in the snapshot, or quoted by a row applied so far. */
  ghost predicate Known(sidecar: Option<Sidecar>, v: Venue, rows: seq<Row>, bid: bool, p: Price) {
    || (Anchor(sidecar).Some? &&
        Gives(SnapshotLevels(sidecar, bid), p, SizeAt(VenueSide(v, bid, Anchor(sidecar).value), p)))
    || (exists i :: Lead(Anchor(sidecar), rows) <= i < |rows| && Quoted(Levels(rows[i], bid), p).Some?)
  }

  lemma FaithfulPrefix(v: Venue, anchor: Option<int>, rows: seq<Row>)
    requires rows != [] && AppliedRowsFaithful(v, anchor, rows)
    ensures AppliedRowsFaithful(v, anchor, rows[..|rows| - 1])
  {
    var n := |rows| - 1;
    LeadOfPrefix(anchor, rows, n);
    forall i | Lead(anchor, rows[..n]) <= i < n ensures Valid(rows[..n][i]) && Faithful(v, rows[..n][i]) {
      assert Valid(rows[i]) && Faithful(v, rows[i]);
    }
  }

  /**
   After every row of a replayable run, the local book shows the venue's size at every known price, even when the
   snapshot itself is partial or missing: overlapping windows are harmless and no update has been lost.
   */
  lemma {:induction false} KnownPricesAreExact(sidecar: Option<Sidecar>, v: Venue, rows: seq<Row>, bid: bool, p: Price)
    requires Contiguous(Anchor(sidecar), rows) && AppliedRowsFaithful(v, Anchor(sidecar), rows)
    requires Known(sidecar, v, rows, bid, p)
    ensures Reached(Anchor(sidecar), rows, |rows|).Some?
    ensures SizeAt(LocalSide(Scan(sidecar, rows), bid), p) ==
            SizeAt(VenueSide(v, bid, Reached(Anchor(sidecar), rows, |rows|).value), p)
  {
    var anchor := Anchor(sidecar);
    if rows != [] {
      var n := |rows| - 1;
      LeadOfPrefix(anchor, rows, n);
      ContiguousPrefix(anchor, rows, n);
      FaithfulPrefix(v, anchor, rows);
      if n < Lead(anchor, rows) {
        KnownInLead(sidecar, v, rows, bid, p);
        KnownPricesAreExact(sidecar, v, rows[..n], bid, p);
      } else {
        if Quoted(Levels(rows[n], bid), p).None? {
          KnownBefore(sidecar, v, rows, bid, p);
          KnownPricesAreExact(sidecar, v, rows[..n], bid, p);
        }
        AppliedRowIsExact(sidecar, v, rows, bid, p);
      }
    } else {
      SnapshotIsExact(sidecar, v, bid, p);
    }
  }

  /** A superseded row changes neither what is known nor what is shown. */
  lemma KnownInLead(sidecar: Option<Sidecar>, v: Venue, rows: seq<Row>, bid: bool, p: Price)
    requires rows != [] && |rows| - 1 < Lead(Anchor(sidecar), rows) && Contiguous(Anchor(sidecar), rows)
    requires Known(sidecar, v, rows, bid, p)
    ensures var prefix := rows[..|rows| - 1];
            && Known(sidecar, v, prefix, bid, p)
            && LocalSide(Scan(sidecar, rows), bid) == LocalSide(Scan(sidecar, prefix), bid)
            && Reached(Anchor(sidecar), rows, |rows|) == Reached(Anchor(sidecar), prefix, |prefix|) == Anchor(sidecar)
  {
    var anchor, n := Anchor(sidecar), |rows| - 1;
    LeadOfPrefix(anchor, rows, n);
    ContiguousPrefix(anchor, rows, n);
    LeadRow(anchor, rows, n);
    CursorAgrees(sidecar, rows[..n]);
  }

  lemma SnapshotIsExact(sidecar: Option<Sidecar>, v: Venue, bid: bool, p: Price)
    requires Known(sidecar, v, [], bid, p)
    ensures Anchor(sidecar).Some?
    ensures SizeAt(LocalSide(Start(sidecar), bid), p) == SizeAt(VenueSide(v, bid, Anchor(sidecar).value), p)
  {
    SnapshotAt(SnapshotLevels(sidecar, bid), p);
  }

  /** A quoted price takes the venue's size; an unquoted one that was right stays right. */
  lemma AppliedRowIsExact(sidecar: Option<Sidecar>, v: Venue, rows: seq<Row>, bid: bool, p: Price)
    requires rows != [] && Lead(Anchor(sidecar), rows) <= |rows| - 1
    requires Contiguous(Anchor(sidecar), rows) && AppliedRowsFaithful(v, Anchor(sidecar), rows)
    requires var n := |rows| - 1;
             var before := Reached(Anchor(sidecar), rows[..n], n);
             Quoted(Levels(rows[n], bid), p).None? ==>
               before.Some? && SizeAt(LocalSide(Scan(sidecar, rows[..n]), bid), p) == SizeAt(VenueSide(v, bid, before.value), p)
    ensures Reached(Anchor(sidecar), rows, |rows|) == rows[|rows| - 1].finalId && rows[|rows| - 1].finalId.Some?
    ensures SizeAt(LocalSide(Scan(sidecar, rows), bid), p) == SizeAt(VenueSide(v, bid, rows[|rows| - 1].finalId.value), p)
  {
    var n := |rows| - 1;
    var anchor, row := Anchor(sidecar), rows[n];
    LeadOfPrefix(anchor, rows, n);
    ContiguousPrefix(anchor, rows, n);
    CursorAgrees(sidecar, rows[..n]);
    assert Continues(Reached(anchor, rows, n), row) && Faithful(v, row);
    assert Reached(anchor, rows, n) == Reached(anchor, rows[..n], n);
    AppliedAt(LocalSide(Scan(sidecar, rows[..n]), bid), Levels(row, bid), p);
    if Quoted(Levels(row, bid), p).None? {
      UntouchedPriceKeepsSize(v, bid, p, Reached(anchor, rows[..n], n).value, row.finalId.value);
    }
  }

  lemma KnownBefore(sidecar: Option<Sidecar>, v: Venue, rows: seq<Row>, bid: bool, p: Price)
    requires rows != [] && Known(sidecar, v, rows, bid, p)
    requires Quoted(Levels(rows[|rows| - 1], bid), p).None?
    ensures Known(sidecar, v, rows[..|rows| - 1], bid, p)
  {
    var n := |rows| - 1;
    LeadOfPrefix(Anchor(sidecar), rows, n);
    if i :| Lead(Anchor(sidecar), rows) <= i < |rows| && Quoted(Levels(rows[i], bid), p).Some? {
      assert rows[i] == rows[..n][i];
    }
  }

  lemma LeadRow(anchor: Option<int>, rows: seq<Row>, i: nat)
    requires i < Lead(anchor, rows)
    ensures anchor.Some? && Valid(rows[i]) && rows[i].finalId.value <= anchor.value
  {
    LeadOfPrefix(anchor, rows, i + 1);
    LeadOfPrefix(anchor, rows, i);
    assert rows[..i + 1][..i] == rows[..i];
  }

  lemma {:induction false} ScanIsProper(sidecar: Option<Sidecar>, rows: seq<Row>, bid: bool)
    ensures Proper(LocalSide(Scan(sidecar, rows), bid))
  {
    if rows == [] {
      SnapshotIsProper(SnapshotLevels(sidecar, bid));
    } else {
      var n := |rows| - 1;
      var st := Scan(sidecar, rows[..n]);
      ScanIsProper(sidecar, rows[..n], bid);
      AppliedStaysProper(LocalSide(st, bid), Levels(rows[n], bid));
      StepMovesSide(Anchor(sidecar), st, rows[n], bid);
    }
  }

  lemma StepMovesSide(anchor: Option<int>, st: State, row: Row, bid: bool)
    ensures LocalSide(Step(anchor, st, row), bid) ==
            if Predates(anchor, st, row) then LocalSide(st, bid) else Applied(LocalSide(st, bid), Levels(row, bid))
  {
  }

  /** The snapshot's levels list both of the venue's sides at the id it names. */
  ghost predicate SnapshotIsTheVenues(s: Sidecar, v: Venue) {
    s.lastUpdateId.Some? && Lists(s.bids, v.bids(s.lastUpdateId.value)) && Lists(s.asks, v.asks(s.lastUpdateId.value))
  }

  /** Full-book soundness: from a snapshot that lists the venue, every prefix of a replayable run rebuilds its book. */
  lemma ReplayedBookIsTheVenues(sidecar: Option<Sidecar>, v: Venue, rows: seq<Row>, n: nat)
    requires n <= |rows| && Replayable(Scan(sidecar, rows))
    requires ProperVenue(v) && AppliedRowsFaithful(v, Anchor(sidecar), rows)
    requires sidecar.Some? && SnapshotIsTheVenues(sidecar.value, v)
    ensures Reached(Anchor(sidecar), rows, n).Some?
    ensures var st, id := Scan(sidecar, rows[..n]), Reached(Anchor(sidecar), rows, n).value;
            st.bids == v.bids(id) && st.asks == v.asks(id)
  {
    ReplayedSideIsTheVenues(sidecar, v, rows, n, true);
    ReplayedSideIsTheVenues(sidecar, v, rows, n, false);
  }

  lemma ReplayedSideIsTheVenues(sidecar: Option<Sidecar>, v: Venue, rows: seq<Row>, n: nat, bid: bool)
    requires n <= |rows| && Replayable(Scan(sidecar, rows))
    requires ProperVenue(v) && AppliedRowsFaithful(v, Anchor(sidecar), rows)
    requires sidecar.Some? && SnapshotIsTheVenues(sidecar.value, v)
    ensures Reached(Anchor(sidecar), rows, n).Some?
    ensures LocalSide(Scan(sidecar, rows[..n]), bid) ==
            VenueSide(v, bid, Reached(Anchor(sidecar), rows, n).value)
  {
    var anchor, prefix := Anchor(sidecar), rows[..n];
    ReplayableIffContiguous(sidecar, rows);
    ContiguousPrefix(anchor, rows, n);
    LeadOfPrefix(anchor, rows, n);
    assert AppliedRowsFaithful(v, anchor, prefix) by {
      forall i | Lead(anchor, prefix) <= i < n ensures Valid(prefix[i]) && Faithful(v, prefix[i]) {
        assert Valid(rows[i]) && Faithful(v, rows[i]);
      }
    }
    assert Reached(anchor, rows, n) == Reached(anchor, prefix, n);
    forall p
      ensures Reached(anchor, prefix, n).Some?
      ensures SizeAt(LocalSide(Scan(sidecar, prefix), bid), p) ==
              SizeAt(VenueSide(v, bid, Reached(anchor, prefix, n).value), p)
    {
      KnownPricesAreExact(sidecar, v, prefix, bid, p);
    }
    assert Reached(anchor, prefix, n).Some? by {
      KnownPricesAreExact(sidecar, v, prefix, bid, 0);
    }
    ScanIsProper(sidecar, prefix, bid);
    ProperSidesAgree(LocalSide(Scan(sidecar, prefix), bid), VenueSide(v, bid, Reached(anchor, prefix, n).value));
  }

  // ---- why the verdict may not demand less ----

  function Ceiling(levels: seq<Level>): (p: Price)
    ensures forall q :: q >= p ==> Quoted(levels, q).None?
  {
    if levels == [] then 0
    else
      var p := Ceiling(levels[..|levels| - 1]);
      if levels[|levels| - 1].price >= p then levels[|levels| - 1].price + 1 else p
  }

  function RowsCeiling(rows: seq<Row>): (p: Price)
    ensures forall q, i :: q >= p && 0 <= i < |rows| ==> Quoted(rows[i].bids, q).None?
  {
    if rows == [] then 0
    else
      var n := |rows| - 1;
      var p, r := RowsCeiling(rows[..n]), Ceiling(rows[n].bids);
      assert forall i :: 0 <= i < n ==> rows[..n][i] == rows[i];
      if r >= p then r else p
  }

  /** A size that may stand in a book and differs from the given one. */
  function OtherSize(size: int): int {
    if size == 1 then 2 else 1
  }

  /**
   If some id after the snapshot is covered by no row, the same faithful rows and the same snapshot also fit a second
   venue whose book differs from the first at that id and at every later one: the run cannot be replayed by anyone.
   */
  lemma UncoveredIdHidesAnUpdate(v: Venue, rows: seq<Row>, anchor: int, hole: int) returns (other: Venue)
    requires ProperVenue(v) && anchor < hole
    requires forall i :: 0 <= i < |rows| ==> Valid(rows[i]) && Faithful(v, rows[i]) && !Covers(rows[i], hole)
    ensures ProperVenue(other) && forall bid :: VenueSide(other, bid, anchor) == VenueSide(v, bid, anchor)
    ensures forall i :: 0 <= i < |rows| ==> Faithful(other, rows[i])
    ensures forall id :: id >= hole ==> VenueSide(other, true, id) != VenueSide(v, true, id)
  {
    var p0 := RowsCeiling(rows);
    other := Venue(id => if id >= hole then v.bids(id)[p0 := OtherSize(SizeAt(v.bids(id), p0))] else v.bids(id), v.asks);
    forall bid, id ensures Proper(VenueSide(other, bid, id)) {
      assert Proper(VenueSide(v, bid, id));
    }
    forall i | 0 <= i < |rows| ensures Faithful(other, rows[i]) {
      var row := rows[i];
      assert Faithful(v, row);
      forall bid, p
        ensures match Quoted(Levels(row, bid), p) {
                  case Some(s) => s == SizeAt(VenueSide(other, bid, row.finalId.value), p)
                  case None => forall id :: row.firstId.value <= id <= row.finalId.value ==>
                    SizeAt(VenueSide(other, bid, id), p) == SizeAt(VenueSide(other, bid, id - 1), p)
                }
      {
        if Quoted(Levels(row, bid), p).None? {
          forall id | row.firstId.value <= id <= row.finalId.value
            ensures SizeAt(VenueSide(other, bid, id), p) == SizeAt(VenueSide(other, bid, id - 1), p)
          {
            assert SizeAt(VenueSide(v, bid, id), p) == SizeAt(VenueSide(v, bid, id - 1), p);
          }
        }
      }
    }
    forall id | id >= hole ensures VenueSide(other, true, id) != VenueSide(v, true, id) {
      assert SizeAt(other.bids(id), p0) == OtherSize(SizeAt(v.bids(id), p0));
    }
  }
}
