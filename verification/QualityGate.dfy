/**
 The live gate in front of the clean file, with its per-stream sequence cursor and the rule for prints a venue replays
 at subscribe time, composed with the trade scorer that later judges the clean file.
 */
module QualityGate {
  import opened Options
  import opened TradesReplay

  datatype StreamKey = StreamKey(source: string, product: string, channel: string, session: Option<string>)

  datatype Event = Event(
    source: string, product: string, channel: string, eventType: string, side: Option<string>,
    price: Option<Number>, size: Option<Number>, delayMs: Option<int>,
    parseErrors: seq<string>, subscribeReplay: bool, sequence: Option<int>, tradeId: Option<int>)

  datatype Settings = Settings(maxDelayMs: int, maxFutureSkewMs: int, monotonic: bool, session: Option<string>)

  const TRADES := "trades"

  function KeyOf(g: Settings, e: Event): StreamKey {
    StreamKey(e.source, e.product, e.channel, g.session)
  }

  predicate AtMostZero(x: Number) {
    (x.Finite? && x.value <= 0.0) || (x.Infinite? && !x.positive)
  }

  predicate BelowZero(x: Number) {
    (x.Finite? && x.value < 0.0) || (x.Infinite? && !x.positive)
  }

  function ValueReasons(e: Event): seq<string> {
    if e.channel == TRADES then
      (if FinitePositive(e.price) then [] else ["invalid_trade_price"]) +
      (if FinitePositive(e.size) then [] else ["invalid_trade_size"])
    else
      (if e.price.Some? && AtMostZero(e.price.value) then ["non_positive_price"] else []) +
      (if e.size.Some? && BelowZero(e.size.value) then ["negative_size"] else [])
  }

  /** Everything the gate checks before it looks at the sequence. */
  function OwnReasons(g: Settings, e: Event): seq<string> {
    e.parseErrors +
    (if e.side.Some? && e.side.value != "buy" && e.side.value != "sell" then ["invalid_side"] else []) +
    ValueReasons(e) +
    (if e.delayMs.Some? && (e.delayMs.value > g.maxDelayMs || e.delayMs.value < -g.maxFutureSkewMs)
     then ["stale_or_clock_skew"] else [])
  }

  /** A replayed print passes only when the cursor proves it new; a live one only has to not fall behind. */
  function SequenceReasons(g: Settings, cursor: Option<int>, e: Event): seq<string> {
    if g.monotonic && e.sequence.Some? then
      if e.subscribeReplay && !(cursor.Some? && e.sequence.value > cursor.value) then ["subscribe_replay"]
      else if cursor.Some? && e.sequence.value < cursor.value then ["non_monotonic_sequence"]
      else []
    else if e.subscribeReplay then ["subscribe_replay"]
    else []
  }

  /** The cursor moves on the sequence alone, even when the event is rejected for another reason. */
  function NextCursor(g: Settings, cursor: Option<int>, e: Event): Option<int> {
    if g.monotonic && e.sequence.Some? && SequenceReasons(g, cursor, e) == [] then e.sequence else cursor
  }

  function Reasons(g: Settings, cursor: Option<int>, e: Event): seq<string> {
    OwnReasons(g, e) + SequenceReasons(g, cursor, e) + (if e.eventType == "unknown" then ["unknown_event_type"] else [])
  }

  function CursorAt(cursors: map<StreamKey, int>, key: StreamKey): Option<int> {
    if key in cursors then Some(cursors[key]) else None
  }

  function Counted(counts: map<string, nat>, reasons: seq<string>): map<string, nat> {
    if reasons == [] then counts
    else
      var n := |reasons| - 1;
      var rest := Counted(counts, reasons[..n]);
      rest[reasons[n] := 1 + if reasons[n] in rest then rest[reasons[n]] else 0]
  }

  class Gate {
    const settings: Settings
    var cursors: map<StreamKey, int>
    var rejectCounts: map<string, nat>

    constructor (g: Settings)
      ensures settings == g && cursors == map[] && rejectCounts == map[]
    {
      settings, cursors, rejectCounts := g, map[], map[];
    }

    method CheckValues(e: Event) returns (reasons: seq<string>)
      ensures reasons == ValueReasons(e)
    {
      reasons := [];
      if e.channel == TRADES {
        if !FinitePositive(e.price) {
          reasons := reasons + ["invalid_trade_price"];
        }
        if !FinitePositive(e.size) {
          reasons := reasons + ["invalid_trade_size"];
        }
      } else {
        if e.price.Some? && AtMostZero(e.price.value) {
          reasons := reasons + ["non_positive_price"];
        }
        if e.size.Some? && BelowZero(e.size.value) {
          reasons := reasons + ["negative_size"];
        }
      }
    }

    method CheckOwn(e: Event) returns (reasons: seq<string>)
      ensures reasons == OwnReasons(settings, e)
    {
      reasons := e.parseErrors;
      if e.side.Some? && e.side.value != "buy" && e.side.value != "sell" {
        reasons := reasons + ["invalid_side"];
      }
      var values := CheckValues(e);
      reasons := reasons + values;
      if e.delayMs.Some? && (e.delayMs.value > settings.maxDelayMs || e.delayMs.value < -settings.maxFutureSkewMs) {
        reasons := reasons + ["stale_or_clock_skew"];
      }
    }

    method CheckSequence(e: Event) returns (reasons: seq<string>)
      modifies `cursors
      ensures var key := KeyOf(settings, e);
              && reasons == SequenceReasons(settings, old(CursorAt(cursors, key)), e)
              && CursorAt(cursors, key) == NextCursor(settings, old(CursorAt(cursors, key)), e)
              && cursors - {key} == old(cursors) - {key}
    {
      reasons := [];
      var key := KeyOf(settings, e);
      if settings.monotonic && e.sequence.Some? {
        var last := CursorAt(cursors, key);
        if e.subscribeReplay && !(last.Some? && e.sequence.value > last.value) {
          reasons := ["subscribe_replay"];
        } else if last.Some? && e.sequence.value < last.value {
          reasons := ["non_monotonic_sequence"];
        } else if last.None? || e.sequence.value > last.value {
          cursors := cursors[key := e.sequence.value];
        }
      } else if e.subscribeReplay {
        reasons := ["subscribe_replay"];
      }
    }

    method Validate(e: Event) returns (accepted: bool, reasons: seq<string>)
      modifies this
      ensures var key := KeyOf(settings, e);
              var cursor := old(CursorAt(cursors, key));
              && reasons == Reasons(settings, cursor, e)
              && (accepted <==> reasons == [])
              && CursorAt(cursors, key) == NextCursor(settings, cursor, e)
              && cursors - {key} == old(cursors) - {key}
      ensures rejectCounts == Counted(old(rejectCounts), reasons)
    {
      reasons := CheckOwn(e);
      var more := CheckSequence(e);
      reasons := reasons + more;
      if e.eventType == "unknown" {
        reasons := reasons + ["unknown_event_type"];
      }
      Count(reasons);
      accepted := reasons == [];
    }

    method Count(reasons: seq<string>)
      modifies `rejectCounts
      ensures rejectCounts == Counted(old(rejectCounts), reasons)
    {
      for i := 0 to |reasons|
        invariant rejectCounts == Counted(old(rejectCounts), reasons[..i])
      {
        assert reasons[..i + 1][..i] == reasons[..i];
        var seen := if reasons[i] in rejectCounts then rejectCounts[reasons[i]] else 0;
        rejectCounts := rejectCounts[reasons[i] := seen + 1];
      }
      assert reasons[..|reasons|] == reasons;
    }
  }

  // ---- a run of one stream ----

  function CursorAfter(g: Settings, events: seq<Event>): Option<int> {
    if events == [] then None
    else NextCursor(g, CursorAfter(g, events[..|events| - 1]), events[|events| - 1])
  }

  function RowOf(e: Event): Trade {
    Trade(e.sequence, e.tradeId, e.price, e.size,
          if e.delayMs.None? then None else Some(if e.delayMs.value < 0 then -e.delayMs.value else e.delayMs.value))
  }

  /** The clean file the gate leaves behind. */
  function CleanRows(g: Settings, events: seq<Event>): seq<Trade> {
    if events == [] then []
    else
      var n := |events| - 1;
      CleanRows(g, events[..n]) +
      if Reasons(g, CursorAfter(g, events[..n]), events[n]) == [] then [RowOf(events[n])] else []
  }

  /** Cursor and clean file are what the gate object computes over a single-product stream. */
  method RunGate(g: Settings, events: seq<Event>) returns (clean: seq<Trade>)
    requires forall i, j :: 0 <= i < j < |events| ==> KeyOf(g, events[i]) == KeyOf(g, events[j])
    ensures clean == CleanRows(g, events)
  {
    var gate := new Gate(g);
    clean := [];
    for i := 0 to |events|
      invariant fresh(gate) && gate.settings == g
      invariant clean == CleanRows(g, events[..i])
      invariant i < |events| ==> CursorAt(gate.cursors, KeyOf(g, events[i])) == CursorAfter(g, events[..i])
    {
      assert events[..i + 1][..i] == events[..i];
      var accepted, _ := gate.Validate(events[i]);
      if accepted {
        clean := clean + [RowOf(events[i])];
      }
    }
    assert events[..|events|] == events;
  }

  /** The event's id in the scorer's eyes is its sequence, or it has none. */
  predicate OneId(e: Event) {
    e.sequence.Some? || e.tradeId.None?
  }

  ghost predicate AllTrades(events: seq<Event>) {
    forall i :: 0 <= i < |events| ==> events[i].channel == TRADES
  }

  ghost predicate AllOneId(events: seq<Event>) {
    forall i :: 0 <= i < |events| ==> OneId(events[i])
  }

  /**
   Of a trades stream the scorer finds no bad price or size in the clean file; no skew, if the gate is no more tolerant
   than the scorer; and no falling id, if the gate is monotonic and no print hides an id from it.
   */
  lemma {:induction false} GateFeedsScorer(g: Settings, maxSkewMs: int, events: seq<Event>)
    requires AllTrades(events)
    ensures var st := TradeScan(maxSkewMs, CleanRows(g, events));
            && st.badPrices == 0 && st.badSizes == 0
            && (g.maxDelayMs <= maxSkewMs && g.maxFutureSkewMs <= maxSkewMs ==> st.skewed == 0)
            && (g.monotonic && AllOneId(events) ==> IdsBelow(st.ids, CursorAfter(g, events)))
  {
    if events != [] {
      var n := |events| - 1;
      GateFeedsScorer(g, maxSkewMs, events[..n]);
      assert AllOneId(events) ==> AllOneId(events[..n]) && OneId(events[n]);
      var rows, cursor := CleanRows(g, events[..n]), CursorAfter(g, events[..n]);
      if Reasons(g, cursor, events[n]) == [] {
        assert CleanRows(g, events) == rows + [RowOf(events[n])];
        AcceptedRowScores(g, maxSkewMs, rows, cursor, events[n]);
      } else {
        assert CleanRows(g, events) == rows;
      }
    }
  }

  lemma AcceptedRowScores(g: Settings, maxSkewMs: int, rows: seq<Trade>, cursor: Option<int>, e: Event)
    requires e.channel == TRADES && Reasons(g, cursor, e) == []
    ensures var st, next := TradeScan(maxSkewMs, rows), TradeScan(maxSkewMs, rows + [RowOf(e)]);
            && next.badPrices == st.badPrices && next.badSizes == st.badSizes
            && (g.maxDelayMs <= maxSkewMs && g.maxFutureSkewMs <= maxSkewMs ==> next.skewed == st.skewed)
            && (g.monotonic && OneId(e) && IdsBelow(st.ids, cursor) ==> IdsBelow(next.ids, NextCursor(g, cursor, e)))
  {
    ScanOfAppend(maxSkewMs, rows, RowOf(e));
    AcceptedIsSound(g, cursor, e);
    if g.monotonic && OneId(e) && IdsBelow(TradeScan(maxSkewMs, rows).ids, cursor) {
      AcceptedIdRises(g, TradeScan(maxSkewMs, rows).ids, cursor, e);
    }
  }

  /** No id fell so far, and the last one is no later than the gate's cursor. */
  predicate IdsBelow(k: Ids, cursor: Option<int>) {
    k.falls == 0 && (k.last.Some? ==> cursor.Some? && k.last.value <= cursor.value)
  }

  lemma AcceptedIdRises(g: Settings, k: Ids, cursor: Option<int>, e: Event)
    requires g.monotonic && OneId(e) && IdsBelow(k, cursor) && SequenceReasons(g, cursor, e) == []
    ensures IdsBelow(Identified(k, RowOf(e)), NextCursor(g, cursor, e))
  {
  }

  lemma ScanOfAppend(maxSkewMs: int, trades: seq<Trade>, t: Trade)
    ensures TradeScan(maxSkewMs, trades + [t]) == TradeStep(maxSkewMs, TradeScan(maxSkewMs, trades), t)
  {
    assert (trades + [t])[..|trades|] == trades;
  }

  lemma AcceptedIsSound(g: Settings, cursor: Option<int>, e: Event)
    requires Reasons(g, cursor, e) == []
    ensures e.channel == TRADES ==> FinitePositive(e.price) && FinitePositive(e.size)
    ensures e.delayMs.Some? ==> -g.maxFutureSkewMs <= e.delayMs.value <= g.maxDelayMs
    ensures SequenceReasons(g, cursor, e) == []
  {
    assert OwnReasons(g, e) == [];
    assert ValueReasons(e) == [];
  }

  /** Accepted events further from the plant's clock than the scorer bears. */
  function AcceptedSkewed(g: Settings, maxSkewMs: int, events: seq<Event>): nat {
    if events == [] then 0
    else
      var n := |events| - 1;
      AcceptedSkewed(g, maxSkewMs, events[..n]) +
      if Reasons(g, CursorAfter(g, events[..n]), events[n]) == [] && events[n].delayMs.Some?
         && !(-maxSkewMs <= events[n].delayMs.value <= maxSkewMs) then 1 else 0
  }

  /** Those are the ones it counts, early or late. */
  lemma {:induction false} SkewIsCounted(g: Settings, maxSkewMs: int, events: seq<Event>)
    requires 0 <= maxSkewMs
    ensures TradeScan(maxSkewMs, CleanRows(g, events)).skewed == AcceptedSkewed(g, maxSkewMs, events)
  {
    if events != [] {
      var n := |events| - 1;
      var rows := CleanRows(g, events[..n]);
      SkewIsCounted(g, maxSkewMs, events[..n]);
      if Reasons(g, CursorAfter(g, events[..n]), events[n]) == [] {
        assert CleanRows(g, events) == rows + [RowOf(events[n])];
        RowSkew(maxSkewMs, rows, events[n]);
      } else {
        assert CleanRows(g, events) == rows;
      }
    }
  }

  lemma RowSkew(maxSkewMs: int, rows: seq<Trade>, e: Event)
    requires 0 <= maxSkewMs
    ensures TradeScan(maxSkewMs, rows + [RowOf(e)]).skewed ==
            TradeScan(maxSkewMs, rows).skewed + if e.delayMs.Some? && !(-maxSkewMs <= e.delayMs.value <= maxSkewMs) then 1 else 0
  {
    ScanOfAppend(maxSkewMs, rows, RowOf(e));
  }

  // ---- what the gate refuses ----

  predicate PositiveNumber(x: Option<Number>) {
    x.Some? && x.value.Finite? && x.value.value > 0.0
  }

  /** Below zero, or at it where `orZero`; a NaN is neither. */
  predicate Low(x: Option<Number>, orZero: bool) {
    x.Some? && match x.value {
      case Finite(v) => v < 0.0 || (orZero && v == 0.0)
      case Infinite(positive) => !positive
      case Nan => false
    }
  }

  predicate Late(g: Settings, e: Event) {
    e.delayMs.Some? && !(-g.maxFutureSkewMs <= e.delayMs.value <= g.maxDelayMs)
  }

  /** Each token is given exactly for its own fault; a print's price and size are held to the scorer's bar. */
  lemma TokensTell(g: Settings, cursor: Option<int>, e: Event)
    requires e.parseErrors == []
    ensures var tokens := Reasons(g, cursor, e);
            && ("invalid_side" in tokens <==> e.side.Some? && e.side.value !in {"buy", "sell"})
            && ("invalid_trade_price" in tokens <==> e.channel == "trades" && !PositiveNumber(e.price))
            && ("invalid_trade_size" in tokens <==> e.channel == "trades" && !PositiveNumber(e.size))
            && ("non_positive_price" in tokens <==> e.channel != "trades" && Low(e.price, true))
            && ("negative_size" in tokens <==> e.channel != "trades" && Low(e.size, false))
            && ("stale_or_clock_skew" in tokens <==> Late(g, e))
            && ("unknown_event_type" in tokens <==> e.eventType == "unknown")
  {
    OwnTokens(g, e);
    SequenceTokens(g, cursor, e);
    var unknown := if e.eventType == "unknown" then ["unknown_event_type"] else [];
    assert Reasons(g, cursor, e) == OwnReasons(g, e) + SequenceReasons(g, cursor, e) + unknown;
    forall t ensures t in Reasons(g, cursor, e) <==> t in OwnReasons(g, e) || t in SequenceReasons(g, cursor, e) || t in unknown {
    }
  }

  lemma OwnTokens(g: Settings, e: Event)
    requires e.parseErrors == []
    ensures var tokens := OwnReasons(g, e);
            && ("invalid_side" in tokens <==> e.side.Some? && e.side.value !in {"buy", "sell"})
            && ("invalid_trade_price" in tokens <==> e.channel == "trades" && !PositiveNumber(e.price))
            && ("invalid_trade_size" in tokens <==> e.channel == "trades" && !PositiveNumber(e.size))
            && ("non_positive_price" in tokens <==> e.channel != "trades" && Low(e.price, true))
            && ("negative_size" in tokens <==> e.channel != "trades" && Low(e.size, false))
            && ("stale_or_clock_skew" in tokens <==> Late(g, e))
            && "unknown_event_type" !in tokens
  {
    ValueTokens(e);
    OwnParts(g, e, "invalid_side");
    OwnParts(g, e, "invalid_trade_price");
    OwnParts(g, e, "invalid_trade_size");
    OwnParts(g, e, "non_positive_price");
    OwnParts(g, e, "negative_size");
    OwnParts(g, e, "stale_or_clock_skew");
    OwnParts(g, e, "unknown_event_type");
  }

  lemma OwnParts(g: Settings, e: Event, t: string)
    requires e.parseErrors == []
    ensures t in OwnReasons(g, e) <==>
            || (t == "invalid_side" && e.side.Some? && e.side.value !in {"buy", "sell"})
            || t in ValueReasons(e) || (t == "stale_or_clock_skew" && Late(g, e))
  {
    var side := if e.side.Some? && e.side.value != "buy" && e.side.value != "sell" then ["invalid_side"] else [];
    var late := if Late(g, e) then ["stale_or_clock_skew"] else [];
    assert OwnReasons(g, e) == side + ValueReasons(e) + late;
  }

  lemma ValueTokens(e: Event)
    ensures forall t :: t in ValueReasons(e) ==>
              t == "invalid_trade_price" || t == "invalid_trade_size" || t == "non_positive_price" || t == "negative_size"
    ensures "invalid_trade_price" in ValueReasons(e) <==> e.channel == "trades" && !PositiveNumber(e.price)
    ensures "invalid_trade_size" in ValueReasons(e) <==> e.channel == "trades" && !PositiveNumber(e.size)
    ensures "non_positive_price" in ValueReasons(e) <==> e.channel != "trades" && Low(e.price, true)
    ensures "negative_size" in ValueReasons(e) <==> e.channel != "trades" && Low(e.size, false)
  {
  }

  lemma SequenceTokens(g: Settings, cursor: Option<int>, e: Event)
    ensures forall t :: t in SequenceReasons(g, cursor, e) ==> t == "subscribe_replay" || t == "non_monotonic_sequence"
    ensures "subscribe_replay" in SequenceReasons(g, cursor, e) <==>
            e.subscribeReplay && !(g.monotonic && e.sequence.Some? && cursor.Some? && e.sequence.value > cursor.value)
    ensures "non_monotonic_sequence" in SequenceReasons(g, cursor, e) <==>
            !e.subscribeReplay && g.monotonic && e.sequence.Some? && cursor.Some? && e.sequence.value < cursor.value
  {
  }

  /** An event passes exactly when it parsed, has none of those faults, is not an old replay and does not fall behind. */
  lemma AcceptedIff(g: Settings, cursor: Option<int>, e: Event)
    ensures Reasons(g, cursor, e) == [] <==>
            && e.parseErrors == [] && (e.side.None? || e.side.value in {"buy", "sell"})
            && (if e.channel == "trades" then PositiveNumber(e.price) && PositiveNumber(e.size)
                else !Low(e.price, true) && !Low(e.size, false))
            && !Late(g, e) && e.eventType != "unknown"
            && (if g.monotonic && e.sequence.Some?
                then if e.subscribeReplay then cursor.Some? && e.sequence.value > cursor.value
                     else cursor.Some? ==> e.sequence.value >= cursor.value
                else !e.subscribeReplay)
  {
  }

  /** The histogram gains one for every time a token was given. */
  lemma {:induction false} CountedAt(counts: map<string, nat>, reasons: seq<string>, token: string)
    ensures (if token in Counted(counts, reasons) then Counted(counts, reasons)[token] else 0) ==
            (if token in counts then counts[token] else 0) + multiset(reasons)[token]
  {
    if reasons != [] {
      var n := |reasons| - 1;
      CountedAt(counts, reasons[..n], token);
      assert reasons == reasons[..n] + [reasons[n]];
    }
  }

  predicate LiveId(e: Event) {
    e.sequence.Some? && !e.subscribeReplay
  }

  /** `first` is the first live sequence of the stream. */
  ghost predicate IsFirstLive(events: seq<Event>, first: int) {
    0 <= first < |events| && LiveId(events[first]) && forall i :: 0 <= i < first ==> !LiveId(events[i])
  }

  /**
   The cursor of a monotonic gate is the highest sequence since the first live one, also of events refused for other
   faults; until a live one comes there is none.
   */
  lemma {:induction false} CursorIsHighest(g: Settings, events: seq<Event>, first: int)
    requires g.monotonic
    ensures (forall i :: 0 <= i < |events| ==> !LiveId(events[i])) ==> CursorAfter(g, events).None?
    ensures IsFirstLive(events, first) ==>
              && CursorAfter(g, events).Some?
              && (forall i :: first <= i < |events| && events[i].sequence.Some? ==>
                    events[i].sequence.value <= CursorAfter(g, events).value)
              && (exists i :: first <= i < |events| && events[i].sequence == CursorAfter(g, events))
  {
    if events != [] {
      var n := |events| - 1;
      CursorIsHighest(g, events[..n], first);
      assert forall i :: 0 <= i < n ==> events[..n][i] == events[i];
      if IsFirstLive(events, first) && first < n {
        assert IsFirstLive(events[..n], first);
        var i :| first <= i < n && events[..n][i].sequence == CursorAfter(g, events[..n]);
        assert events[i].sequence == CursorAfter(g, events[..n]);
        assert events[n].sequence == events[n].sequence;
      } else if IsFirstLive(events, first) {
        assert events[first].sequence == events[n].sequence;
      }
    }
  }

  /** Alone on its stream the event would pass. */
  predicate Passable(g: Settings, e: Event) {
    OwnReasons(g, e) == [] && e.eventType != "unknown" && !e.subscribeReplay
  }

  ghost predicate SequencedTrades(events: seq<Event>) {
    forall i :: 0 <= i < |events| ==> events[i].channel == TRADES && events[i].sequence.Some?
  }

  /**
   The scorer falls back to `trade_id`, which the gate never looks at: a print without a sequence can make a gated run
   non-monotonic exactly when it carries an integer trade id.
   */
  lemma FallbackIdIsTheOnlyHole(g: Settings, maxSkewMs: int, e: Event)
    requires g.monotonic && e.channel == TRADES && Passable(g, e)
    ensures (forall before :: SequencedTrades(before) ==>
               TradeScan(maxSkewMs, CleanRows(g, before + [e])).ids.falls == 0) <==> OneId(e)
  {
    if OneId(e) {
      forall before | SequencedTrades(before)
        ensures TradeScan(maxSkewMs, CleanRows(g, before + [e])).ids.falls == 0
      {
        assert AllTrades(before + [e]) && AllOneId(before + [e]);
        GateFeedsScorer(g, maxSkewMs, before + [e]);
      }
    } else {
      FallbackFalls(g, maxSkewMs, e);
    }
  }

  lemma FallbackFalls(g: Settings, maxSkewMs: int, e: Event)
    requires e.channel == TRADES && Passable(g, e) && !OneId(e)
    ensures var before := [e.(sequence := Some(e.tradeId.value + 1))];
            SequencedTrades(before) && TradeScan(maxSkewMs, CleanRows(g, before + [e])).ids.falls == 1
  {
    var higher := e.(sequence := Some(e.tradeId.value + 1));
    assert OwnReasons(g, higher) == OwnReasons(g, e);
    assert [higher][..0] == [] && [higher] + [e] == [higher, e] && [higher, e][..1] == [higher];
    assert CleanRows(g, [higher]) == [RowOf(higher)];
    assert CleanRows(g, [higher, e]) == [RowOf(higher), RowOf(e)];
    TwoTrades(maxSkewMs, RowOf(higher), RowOf(e));
  }

  lemma TwoTrades(maxSkewMs: int, a: Trade, b: Trade)
    requires TradeIdOf(a).Some? && TradeIdOf(b).Some? && TradeIdOf(b).value < TradeIdOf(a).value
    ensures TradeScan(maxSkewMs, [a, b]).ids.falls == 1
  {
    assert [a, b][..1] == [a] && [a][..0] == [];
    assert TradeScan(maxSkewMs, [a]).ids == Identified(Ids(None, None, 0, 0, 0, 0, 0), a);
  }

  // ---- a reconnect that re-delivers recent prints ----

  datatype Print = Print(id: int, tagged: bool)

  predicate Admits(cursor: Option<int>, p: Print) {
    if p.tagged then cursor.Some? && p.id > cursor.value else cursor.None? || p.id >= cursor.value
  }

  function PrintCursor(cursor: Option<int>, prints: seq<Print>): Option<int> {
    if prints == [] then cursor
    else
      var c := PrintCursor(cursor, prints[..|prints| - 1]);
      if Admits(c, prints[|prints| - 1]) then Some(prints[|prints| - 1].id) else c
  }

  function AdmittedIds(cursor: Option<int>, prints: seq<Print>): seq<int> {
    if prints == [] then []
    else
      var n := |prints| - 1;
      AdmittedIds(cursor, prints[..n]) + if Admits(PrintCursor(cursor, prints[..n]), prints[n]) then [prints[n].id] else []
  }

  function PrintOf(e: Event): Print
    requires e.sequence.Some?
  {
    Print(e.sequence.value, e.subscribeReplay)
  }

  /** The events are otherwise valid prints with these ids and tags. */
  ghost predicate Carry(g: Settings, events: seq<Event>, prints: seq<Print>) {
    |prints| == |events| &&
    forall i :: 0 <= i < |events| ==>
      events[i].sequence.Some? && PrintOf(events[i]) == prints[i] &&
      OwnReasons(g, events[i]) == [] && events[i].eventType != "unknown"
  }

  /** For otherwise valid prints the whole gate comes down to ids, tags and the cursor. */
  lemma {:induction false} GateIsAboutIds(g: Settings, events: seq<Event>, prints: seq<Print>)
    requires g.monotonic && Carry(g, events, prints)
    ensures CursorAfter(g, events) == PrintCursor(None, prints)
    ensures |CleanRows(g, events)| == |AdmittedIds(None, prints)|
    ensures forall i :: 0 <= i < |CleanRows(g, events)| ==>
              TradeIdOf(CleanRows(g, events)[i]) == Some(AdmittedIds(None, prints)[i])
  {
    if events != [] {
      var n := |events| - 1;
      assert Carry(g, events[..n], prints[..n]);
      GateIsAboutIds(g, events[..n], prints[..n]);
      assert PrintOf(events[n]) == prints[n];
    }
  }

  function Span(lo: int, hi: int): seq<int>
    ensures |Span(lo, hi)| == if lo <= hi then hi - lo + 1 else 0
    ensures forall i :: 0 <= i < |Span(lo, hi)| ==> Span(lo, hi)[i] == lo + i
    decreases hi - lo
  {
    if lo > hi then [] else Span(lo, hi - 1) + [hi]
  }

  lemma SpansJoin(lo: int, mid: int, hi: int)
    requires lo - 1 <= mid <= hi
    ensures Span(lo, mid) + Span(mid + 1, hi) == Span(lo, hi)
  {
  }

  function Prints(lo: int, hi: int, tagged: bool): seq<Print>
    decreases hi - lo
  {
    if lo > hi then [] else Prints(lo, hi - 1, tagged) + [Print(hi, tagged)]
  }

  function Max(a: int, b: int): int {
    if a >= b then a else b
  }

  lemma {:induction false} AdmittedOfConcat(cursor: Option<int>, a: seq<Print>, b: seq<Print>)
    ensures PrintCursor(cursor, a + b) == PrintCursor(PrintCursor(cursor, a), b)
    ensures AdmittedIds(cursor, a + b) == AdmittedIds(cursor, a) + AdmittedIds(PrintCursor(cursor, a), b)
    decreases |b|
  {
    if b == [] {
      assert a + b == a;
    } else {
      var n := |b| - 1;
      assert (a + b)[..|a + b| - 1] == a + b[..n];
      AdmittedOfConcat(cursor, a, b[..n]);
    }
  }

  /** Of an ascending stretch of ids the gate admits what the cursor has not passed: tagged ids must beat it. */
  lemma {:induction false} AdmittedSpan(cursor: int, lo: int, hi: int, tagged: bool)
    ensures AdmittedIds(Some(cursor), Prints(lo, hi, tagged)) == Span(Max(lo, if tagged then cursor + 1 else cursor), hi)
    ensures PrintCursor(Some(cursor), Prints(lo, hi, tagged)) == Some(if lo <= hi then Max(cursor, hi) else cursor)
    decreases hi - lo
  {
    if lo <= hi {
      AdmittedSpan(cursor, lo, hi - 1, tagged);
      assert Prints(lo, hi, tagged)[..|Prints(lo, hi, tagged)| - 1] == Prints(lo, hi - 1, tagged);
    }
  }

  lemma {:induction false} FreshSpan(lo: int, hi: int)
    requires lo <= hi
    ensures AdmittedIds(None, Prints(lo, hi, false)) == Span(lo, hi)
    ensures PrintCursor(None, Prints(lo, hi, false)) == Some(hi)
    decreases hi - lo
  {
    var all := Prints(lo, hi, false);
    assert all[..|all| - 1] == Prints(lo, hi - 1, false);
    if lo < hi {
      FreshSpan(lo, hi - 1);
    }
  }

  /** Live ids a..b, then a reconnect re-delivers c..d tagged, then live resumes at d + 1 and runs to e. */
  function Reconnected(a: int, b: int, c: int, d: int, e: int): seq<Print> {
    Prints(a, b, false) + Prints(c, d, true) + Prints(d + 1, e, false)
  }

  /** The clean ids are exactly a..e, each once, if and only if the re-delivery reaches back to b + 1 and up to b. */
  lemma ReconnectIsSeamlessIff(a: int, b: int, c: int, d: int, e: int)
    requires a <= b && c <= d < e
    ensures AdmittedIds(None, Reconnected(a, b, c, d, e)) == Span(a, e) <==> c <= b + 1 && b <= d
  {
    var live, replay, resumed := Prints(a, b, false), Prints(c, d, true), Prints(d + 1, e, false);
    AdmittedOfConcat(None, live + replay, resumed);
    AdmittedOfConcat(None, live, replay);
    FreshSpan(a, b);
    AdmittedSpan(b, c, d, true);
    AdmittedSpan(Max(b, d), d + 1, e, false);
    var ids := Span(a, b) + Span(Max(c, b + 1), d) + Span(Max(d + 1, Max(b, d)), e);
    assert AdmittedIds(None, Reconnected(a, b, c, d, e)) == ids;
    if c <= b + 1 && b <= d {
      SpansJoin(a, b, d);
      SpansJoin(a, d, e);
    } else if c > b + 1 {
      assert ids[b - a + 1] == c;
    } else if e >= b {
      assert ids[b - a + 1] == b;
    } else {
      assert |ids| == b - a + 1;
    }
  }

  lemma SpanScoresClean(maxSkewMs: int, ids: seq<int>, lo: int, hi: int, trades: seq<Trade>)
    requires lo <= hi && ids == Span(lo, hi) && |trades| == |ids|
    requires forall i :: 0 <= i < |trades| ==> TradeIdOf(trades[i]) == Some(ids[i])
    ensures TradeScan(maxSkewMs, trades).ids == Ids(Some(lo), Some(hi), 0, 0, 0, 0, 0)
  {
    assert TradeIdOf(trades[0]) == Some(lo);
    IdsAgree(maxSkewMs, trades);
    IdsAreConserved(maxSkewMs, trades);
  }

  /** Gate and scorer together: when the admitted ids are a span, the scorer finds each of its ids once. */
  lemma SpanPassesBoth(g: Settings, maxSkewMs: int, events: seq<Event>, prints: seq<Print>, lo: int, hi: int)
    requires g.monotonic && Carry(g, events, prints) && lo <= hi
    requires AdmittedIds(None, prints) == Span(lo, hi)
    ensures TradeScan(maxSkewMs, CleanRows(g, events)).ids == Ids(Some(lo), Some(hi), 0, 0, 0, 0, 0)
  {
    GateIsAboutIds(g, events, prints);
    SpanScoresClean(maxSkewMs, AdmittedIds(None, prints), lo, hi, CleanRows(g, events));
  }

  /** A seamless reconnect leaves a clean file in which the scorer finds each id a..e once. */
  lemma SeamlessReconnectScoresClean(g: Settings, maxSkewMs: int, events: seq<Event>, a: int, b: int, c: int, d: int, e: int)
    requires a <= b && c <= d < e && c <= b + 1 && b <= d && g.monotonic
    requires Carry(g, events, Reconnected(a, b, c, d, e))
    ensures TradeScan(maxSkewMs, CleanRows(g, events)).ids == Ids(Some(a), Some(e), 0, 0, 0, 0, 0)
  {
    var prints := Reconnected(a, b, c, d, e);
    assert AdmittedIds(None, prints) == Span(a, e) by {
      ReconnectIsSeamlessIff(a, b, c, d, e);
    }
    SpanPassesBoth(g, maxSkewMs, events, prints, a, e);
  }
}
