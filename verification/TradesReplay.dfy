/**
 The scorer for trade runs: ids must be dense and never fall, every print needs a positive finite price and size, and
 clocks must agree. A row's id is its `sequence`, or its `trade_id` when it has no sequence.
 */
module TradesReplay {
  import opened Options

  datatype Number = Finite(value: real) | Nan | Infinite(positive: bool)

  datatype Trade = Trade(sequence: Option<int>, tradeId: Option<int>, price: Option<Number>, size: Option<Number>,
                         skewMs: Option<int>)

  datatype Ids = Ids(first: Option<int>, last: Option<int>, falls: nat, gaps: nat, missingBetween: nat, duplicates: nat,
                     absent: nat)

  datatype TradeState = TradeState(events: nat, ids: Ids, badPrices: nat, badSizes: nat, skewed: nat)

  predicate FinitePositive(x: Option<Number>) {
    x.Some? && x.value.Finite? && x.value.value > 0.0
  }

  function TradeIdOf(t: Trade): Option<int> {
    if t.sequence.Some? then t.sequence else t.tradeId
  }

  function Identified(k: Ids, t: Trade): Ids {
    var id := TradeIdOf(t);
    if id.None? then k.(absent := k.absent + 1)
    else
      var seen := k.(first := if k.first.None? then id else k.first, last := id);
      if k.last.None? then seen
      else if id.value < k.last.value then seen.(falls := k.falls + 1)
      else if id.value == k.last.value then seen.(duplicates := k.duplicates + 1)
      else if id.value - k.last.value > 1 then
        seen.(gaps := k.gaps + 1, missingBetween := k.missingBetween + (id.value - k.last.value - 1))
      else seen
  }

  function TradeStep(maxSkewMs: int, st: TradeState, t: Trade): TradeState {
    TradeState(st.events + 1, Identified(st.ids, t),
               st.badPrices + (if FinitePositive(t.price) then 0 else 1),
               st.badSizes + (if FinitePositive(t.size) then 0 else 1),
               st.skewed + if t.skewMs.Some? && t.skewMs.value > maxSkewMs then 1 else 0)
  }

  function TradeScan(maxSkewMs: int, trades: seq<Trade>): TradeState {
    if trades == [] then TradeState(0, Ids(None, None, 0, 0, 0, 0, 0), 0, 0, 0)
    else TradeStep(maxSkewMs, TradeScan(maxSkewMs, trades[..|trades| - 1]), trades[|trades| - 1])
  }

  predicate TradesReplayable(st: TradeState) {
    st.events > 0 && st.ids.falls == 0 && st.ids.gaps == 0 && st.ids.absent == 0 &&
    st.badPrices == 0 && st.badSizes == 0 && st.skewed == 0
  }

  method IdentifyTrade(before: Ids, t: Trade) returns (k: Ids)
    ensures k == Identified(before, t)
  {
    k := before;
    var id := t.sequence;
    if id.None? {
      id := t.tradeId;
    }
    if id.None? {
      k := k.(absent := k.absent + 1);
      return;
    }
    if k.last.Some? {
      if id.value < k.last.value {
        k := k.(falls := k.falls + 1);
      } else if id.value == k.last.value {
        k := k.(duplicates := k.duplicates + 1);
      } else {
        var delta := id.value - k.last.value;
        if delta > 1 {
          k := k.(gaps := k.gaps + 1, missingBetween := k.missingBetween + (delta - 1));
        }
      }
    }
    k := k.(first := if k.first.None? then id else k.first, last := id);
  }

  method ReplayTradesRun(maxSkewMs: int, trades: seq<Trade>) returns (st: TradeState, replayable: bool)
    ensures st == TradeScan(maxSkewMs, trades)
    ensures replayable <==> TradesReplayable(st)
  {
    var k := Ids(None, None, 0, 0, 0, 0, 0);
    var badPrices, badSizes, skewed := 0, 0, 0;
    for i := 0 to |trades|
      invariant 0 <= badPrices && 0 <= badSizes && 0 <= skewed
      invariant TradeScan(maxSkewMs, trades[..i]) == TradeState(i, k, badPrices, badSizes, skewed)
    {
      assert trades[..i + 1][..i] == trades[..i];
      var t := trades[i];
      k := IdentifyTrade(k, t);
      if !FinitePositive(t.price) {
        badPrices := badPrices + 1;
      }
      if !FinitePositive(t.size) {
        badSizes := badSizes + 1;
      }
      if t.skewMs.Some? && t.skewMs.value > maxSkewMs {
        skewed := skewed + 1;
      }
    }
    assert trades[..|trades|] == trades;
    st := TradeState(|trades|, k, badPrices, badSizes, skewed);
    replayable := |trades| > 0 && k.falls == 0 && k.gaps == 0 && badPrices == 0 && badSizes == 0 && skewed == 0 &&
                  k.absent == 0;
  }

  // ---- conservation ----

  /** Every id between the first and the last is accounted for once: seen, or counted as missing. */
  lemma {:induction false} IdsAreConserved(maxSkewMs: int, trades: seq<Trade>)
    requires trades != []
    requires var k := TradeScan(maxSkewMs, trades).ids; k.absent == 0 && k.falls == 0
    ensures var st := TradeScan(maxSkewMs, trades);
            && st.ids.first.Some? && st.ids.last.Some?
            && st.events - st.ids.duplicates + st.ids.missingBetween == st.ids.last.value - st.ids.first.value + 1
            && (st.ids.missingBetween == 0 <==> st.ids.gaps == 0)
  {
    var prefix := trades[..|trades| - 1];
    if prefix == [] {
      assert TradeScan(maxSkewMs, prefix).ids.last.None?;
    } else {
      IdsAreConserved(maxSkewMs, prefix);
    }
  }

  /** Ids stay or advance by one. */
  ghost predicate Dense(trades: seq<Trade>) {
    && (forall i :: 0 <= i < |trades| ==> TradeIdOf(trades[i]).Some?)
    && (forall i :: 0 < i < |trades| ==>
          TradeIdOf(trades[i - 1]).value <= TradeIdOf(trades[i]).value <= TradeIdOf(trades[i - 1]).value + 1)
  }

  ghost predicate Sound(maxSkewMs: int, t: Trade) {
    FinitePositive(t.price) && FinitePositive(t.size) && (t.skewMs.Some? ==> t.skewMs.value <= maxSkewMs)
  }

  lemma DenseSnoc(trades: seq<Trade>)
    requires trades != []
    ensures var n := |trades| - 1;
            Dense(trades) <==>
            && Dense(trades[..n]) && TradeIdOf(trades[n]).Some?
            && (n > 0 ==> TradeIdOf(trades[n - 1]).Some? &&
                          TradeIdOf(trades[n - 1]).value <= TradeIdOf(trades[n]).value <= TradeIdOf(trades[n - 1]).value + 1)
  {
    var n := |trades| - 1;
    assert forall i :: 0 <= i < n ==> trades[..n][i] == trades[i];
    if Dense(trades[..n]) {
      forall i | 0 <= i < n
        ensures TradeIdOf(trades[i]).Some?
        ensures i > 0 ==> TradeIdOf(trades[i - 1]).Some? &&
                          TradeIdOf(trades[i - 1]).value <= TradeIdOf(trades[i]).value <= TradeIdOf(trades[i - 1]).value + 1
      {
        assert TradeIdOf(trades[..n][i]).Some?;
        assert i > 0 ==> TradeIdOf(trades[..n][i - 1]).value <= TradeIdOf(trades[..n][i]).value <=
                         TradeIdOf(trades[..n][i - 1]).value + 1;
      }
    }
  }

  lemma {:induction false} IdsAgree(maxSkewMs: int, trades: seq<Trade>)
    ensures var st := TradeScan(maxSkewMs, trades);
            && st.events == |trades|
            && (st.ids.falls == 0 && st.ids.gaps == 0 && st.ids.absent == 0 <==> Dense(trades))
            && (Dense(trades) ==> st.ids.last == if trades == [] then None else TradeIdOf(trades[|trades| - 1]))
            && (Dense(trades) ==> st.ids.first == if trades == [] then None else TradeIdOf(trades[0]))
  {
    if trades != [] {
      IdsAgree(maxSkewMs, trades[..|trades| - 1]);
      DenseSnoc(trades);
    }
  }

  lemma {:induction false} SoundAgree(maxSkewMs: int, trades: seq<Trade>)
    ensures var st := TradeScan(maxSkewMs, trades);
            st.badPrices == 0 && st.badSizes == 0 && st.skewed == 0 <==>
            forall i :: 0 <= i < |trades| ==> Sound(maxSkewMs, trades[i])
  {
    if trades != [] {
      var n := |trades| - 1;
      SoundAgree(maxSkewMs, trades[..n]);
      assert forall i :: 0 <= i < n ==> trades[..n][i] == trades[i];
    }
  }

  /** The verdict without counters. */
  lemma TradesReplayableIff(maxSkewMs: int, trades: seq<Trade>)
    ensures TradesReplayable(TradeScan(maxSkewMs, trades)) <==>
            trades != [] && Dense(trades) && forall i :: 0 <= i < |trades| ==> Sound(maxSkewMs, trades[i])
  {
    IdsAgree(maxSkewMs, trades);
    SoundAgree(maxSkewMs, trades);
  }

  /** A replayable run holds exactly the ids from its first to its last: nothing was dropped in between. */
  lemma {:induction false} ReplayableIdsFormAnInterval(maxSkewMs: int, trades: seq<Trade>, id: int)
    requires TradesReplayable(TradeScan(maxSkewMs, trades))
    ensures var k := TradeScan(maxSkewMs, trades).ids;
            && k.first.Some? && k.last.Some?
            && (k.first.value <= id <= k.last.value <==> exists i :: 0 <= i < |trades| && TradeIdOf(trades[i]) == Some(id))
  {
    TradesReplayableIff(maxSkewMs, trades);
    IdsAgree(maxSkewMs, trades);
    DenseIdsFormAnInterval(trades, id);
  }

  lemma {:induction false} DenseIdsFormAnInterval(trades: seq<Trade>, id: int)
    requires trades != [] && Dense(trades)
    ensures TradeIdOf(trades[0]).Some? && TradeIdOf(trades[|trades| - 1]).Some?
    ensures TradeIdOf(trades[0]).value <= id <= TradeIdOf(trades[|trades| - 1]).value <==>
            exists i :: 0 <= i < |trades| && TradeIdOf(trades[i]) == Some(id)
  {
    var n := |trades| - 1;
    var prefix := trades[..n];
    assert TradeIdOf(trades[0]).Some? && TradeIdOf(trades[n]).Some?;
    DenseSnoc(trades);
    if n > 0 {
      DenseIdsFormAnInterval(prefix, id);
      DenseIdsFormAnInterval(prefix, TradeIdOf(prefix[0]).value);
      assert forall i :: 0 <= i < n ==> prefix[i] == trades[i];
      if i :| 0 <= i < |prefix| && TradeIdOf(prefix[i]) == Some(id) {
        assert TradeIdOf(trades[i]) == Some(id);
      }
      if i :| 0 <= i < |trades| && TradeIdOf(trades[i]) == Some(id) {
        assert i < n ==> TradeIdOf(prefix[i]) == Some(id);
        assert TradeIdOf(prefix[0]) == Some(TradeIdOf(prefix[0]).value);
      }
    }
  }
}
