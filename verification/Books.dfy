/**
 One side of an order book as a price -> size map, and the three ways the scorers change it: applying a
 list of absolute levels, seeding from a snapshot, and trimming to the best `depth` prices.
 Prices and sizes are whole ticks and lots; only their order and the test against zero matter.
 */
module Books {
  import opened Options

  type Price = nat
  type Size = int
  datatype Level = Level(price: Price, size: Size)
  type Side = map<Price, Size>

  /** The size a side shows at a price; an absent level shows 0. */
  function SizeAt(side: Side, p: Price): Size {
    if p in side then side[p] else 0
  }

  /** No level of size 0 is stored. */
  ghost predicate Proper(side: Side) {
    forall p :: p in side ==> side[p] != 0
  }

  /** The size a message states for a price: its last entry for that price, if it has one. */
  function Quoted(levels: seq<Level>, p: Price): Option<Size> {
    if levels == [] then None
    else if levels[|levels| - 1].price == p then Some(levels[|levels| - 1].size)
    else Quoted(levels[..|levels| - 1], p)
  }

  /** What a message states for a price is its last entry for it. */
  lemma {:induction false} QuotedIsLast(levels: seq<Level>, p: Price)
    ensures match Quoted(levels, p) {
              case None => forall i :: 0 <= i < |levels| ==> levels[i].price != p
              case Some(s) => exists i :: 0 <= i < |levels| && levels[i] == Level(p, s) &&
                                          forall j :: i < j < |levels| ==> levels[j].price != p
            }
  {
    if levels != [] {
      var n := |levels| - 1;
      QuotedIsLast(levels[..n], p);
      if levels[n].price != p && Quoted(levels, p).Some? {
        var i :| 0 <= i < n && levels[..n][i] == Level(p, Quoted(levels, p).value) &&
                 forall j :: i < j < n ==> levels[..n][j].price != p;
        assert levels[i] == levels[..n][i];
        forall j | i < j < |levels| ensures levels[j].price != p {
          assert j < n ==> levels[j] == levels[..n][j];
        }
      } else if levels[n].price != p {
        assert forall i :: 0 <= i < n ==> levels[i] == levels[..n][i];
      }
    }
  }

  // ---- applying absolute levels ----

  function AppliedOne(side: Side, level: Level): Side {
    if level.size == 0 then side - {level.price} else side[level.price := level.size]
  }

  function Applied(side: Side, levels: seq<Level>): Side {
    if levels == [] then side
    else AppliedOne(Applied(side, levels[..|levels| - 1]), levels[|levels| - 1])
  }

  /** A message overwrites exactly the prices it quotes, each with its last quoted size. */
  lemma {:induction false} AppliedAt(side: Side, levels: seq<Level>, p: Price)
    ensures SizeAt(Applied(side, levels), p) ==
            match Quoted(levels, p) { case Some(s) => s case None => SizeAt(side, p) }
  {
    if levels != [] {
      AppliedAt(side, levels[..|levels| - 1], p);
    }
  }

  lemma {:induction false} AppliedStaysProper(side: Side, levels: seq<Level>)
    requires Proper(side)
    ensures Proper(Applied(side, levels))
  {
    if levels != [] {
      AppliedStaysProper(side, levels[..|levels| - 1]);
    }
  }

  lemma ProperSidesAgree(a: Side, b: Side)
    requires Proper(a) && Proper(b)
    requires forall p :: SizeAt(a, p) == SizeAt(b, p)
    ensures a == b
  {
    assert forall p :: p in a <==> SizeAt(a, p) != 0;
    assert forall p :: p in b <==> SizeAt(b, p) != 0;
    assert forall p | p in a :: a[p] == SizeAt(b, p);
  }

  // ---- seeding from a snapshot ----

  /** Snapshot levels of size <= 0 are dropped (not treated as deletions). */
  function FromSnapshot(levels: seq<Level>): Side {
    if levels == [] then map[]
    else
      var rest := FromSnapshot(levels[..|levels| - 1]);
      var last := levels[|levels| - 1];
      if last.size > 0 then rest[last.price := last.size] else rest
  }

  lemma {:induction false} SnapshotIsProper(levels: seq<Level>)
    ensures Proper(FromSnapshot(levels))
  {
    if levels != [] {
      SnapshotIsProper(levels[..|levels| - 1]);
    }
  }

  /** A positive entry that no later positive entry for its price replaces. */
  ghost predicate Stands(levels: seq<Level>, i: int) {
    && 0 <= i < |levels| && levels[i].size > 0
    && forall j :: i < j < |levels| && levels[j].price == levels[i].price ==> levels[j].size <= 0
  }

  /** The levels give the price this size: the one that stands for it, or 0 when no entry for it is positive. */
  ghost predicate Gives(levels: seq<Level>, p: Price, s: Size) {
    || (exists i :: Stands(levels, i) && levels[i] == Level(p, s))
    || (s == 0 && forall i :: 0 <= i < |levels| && levels[i].price == p ==> levels[i].size <= 0)
  }

  /** A snapshot's levels list a side: they give every price the size it has there. */
  ghost predicate Lists(levels: seq<Level>, side: Side) {
    forall p :: Gives(levels, p, SizeAt(side, p))
  }

  lemma {:induction false} SnapshotAt(levels: seq<Level>, p: Price)
    ensures forall i :: Stands(levels, i) && levels[i].price == p ==> SizeAt(FromSnapshot(levels), p) == levels[i].size
    ensures (forall i :: 0 <= i < |levels| && levels[i].price == p ==> levels[i].size <= 0) ==> p !in FromSnapshot(levels)
    ensures Gives(levels, p, SizeAt(FromSnapshot(levels), p))
  {
    if levels != [] {
      var n := |levels| - 1;
      SnapshotAt(levels[..n], p);
      if levels[n].price == p && levels[n].size > 0 {
        assert Stands(levels, n);
      } else {
        forall i | 0 <= i < n && levels[i].price == p ensures Stands(levels, i) <==> Stands(levels[..n], i) {
          StandsInPrefix(levels, i);
        }
        GivesInPrefix(levels, p, SizeAt(FromSnapshot(levels), p));
      }
    }
  }

  lemma StandsInPrefix(levels: seq<Level>, i: int)
    requires 0 <= i < |levels| - 1
    requires var last := levels[|levels| - 1]; last.price != levels[i].price || last.size <= 0
    ensures Stands(levels, i) <==> Stands(levels[..|levels| - 1], i)
  {
    var n := |levels| - 1;
    assert forall j :: 0 <= j < n ==> levels[..n][j] == levels[j];
    if Stands(levels[..n], i) {
      forall j | i < j < |levels| && levels[j].price == levels[i].price ensures levels[j].size <= 0 {
        assert j < n ==> levels[..n][j] == levels[j];
      }
    }
  }

  lemma GivesInPrefix(levels: seq<Level>, p: Price, s: Size)
    requires levels != []
    requires var last := levels[|levels| - 1]; last.price != p || last.size <= 0
    requires Gives(levels[..|levels| - 1], p, s)
    ensures Gives(levels, p, s)
  {
    var n := |levels| - 1;
    if i :| Stands(levels[..n], i) && levels[..n][i] == Level(p, s) {
      StandsInPrefix(levels, i);
      assert levels[i] == Level(p, s);
    } else {
      forall i | 0 <= i < |levels| && levels[i].price == p ensures levels[i].size <= 0 {
        assert i < n ==> levels[..n][i] == levels[i];
      }
    }
  }

  /** The seeded side is the one the levels list, and no other. */
  lemma SeededIffListed(levels: seq<Level>, side: Side)
    requires Proper(side)
    ensures FromSnapshot(levels) == side <==> Lists(levels, side)
  {
    forall p ensures Gives(levels, p, SizeAt(FromSnapshot(levels), p)) {
      SnapshotAt(levels, p);
    }
    if Lists(levels, side) {
      forall p ensures SizeAt(FromSnapshot(levels), p) == SizeAt(side, p) {
        SnapshotAt(levels, p);
        assert Gives(levels, p, SizeAt(side, p));
      }
      SnapshotIsProper(levels);
      ProperSidesAgree(FromSnapshot(levels), side);
    }
  }

  method BookFromSnapshot(levels: seq<Level>) returns (side: Side)
    ensures side == FromSnapshot(levels) && Lists(levels, side)
  {
    side := map[];
    for i := 0 to |levels|
      invariant side == FromSnapshot(levels[..i])
    {
      assert levels[..i + 1][..i] == levels[..i];
      if levels[i].size > 0 {
        side := side[levels[i].price := levels[i].size];
      }
    }
    assert levels[..|levels|] == levels;
    SnapshotIsProper(levels);
    SeededIffListed(levels, side);
  }

  // ---- the best n prices ----

  /** Bids prefer the highest price, asks the lowest. */
  predicate Better(q: Price, p: Price, highest: bool) {
    if highest then q > p else q < p
  }

  function Ahead(prices: set<Price>, p: Price, highest: bool): set<Price> {
    set q | q in prices && Better(q, p, highest)
  }

  function TopPrices(prices: set<Price>, n: nat, highest: bool): set<Price> {
    set p | p in prices && |Ahead(prices, p, highest)| < n
  }

  /** The n best levels: those with fewer than n better prices. */
  function Top(side: Side, n: nat, highest: bool): Side {
    map p | p in side && |Ahead(side.Keys, p, highest)| < n :: side[p]
  }

  function Trimmed(side: Side, depth: int, highest: bool): Side {
    if depth <= 0 then side else Top(side, depth, highest)
  }

  predicate Crossed(bids: Side, asks: Side) {
    exists b, a :: b in bids && a in asks && b >= a
  }

  lemma SubsetSize<T>(a: set<T>, b: set<T>)
    requires a <= b
    ensures |a| <= |b|
    ensures |a| == |b| ==> a == b
  {
    assert b == a + (b - a);
    assert |b| == |a| + |b - a|;
  }

  lemma RankGrows(prices: set<Price>, q: Price, p: Price, highest: bool)
    requires q in prices && Better(q, p, highest)
    ensures |Ahead(prices, q, highest)| < |Ahead(prices, p, highest)|
  {
    var a, b := Ahead(prices, q, highest), Ahead(prices, p, highest);
    SubsetSize(a + {q}, b);
    assert |a + {q}| == |a| + 1;
  }

  /** What is kept is better than what is not: bids keep the highest prices, asks the lowest. */
  lemma TopIsBest(side: Side, n: nat, p: Price, q: Price)
    requires p in side && q in side
    ensures p in Top(side, n, true) && q !in Top(side, n, true) ==> p > q
    ensures p in Top(side, n, false) && q !in Top(side, n, false) ==> p < q
    ensures forall highest :: p in Top(side, n, highest) ==> Top(side, n, highest)[p] == side[p]
  {
    if p < q {
      RankGrows(side.Keys, q, p, true);
    }
    if q < p {
      RankGrows(side.Keys, q, p, false);
    }
  }

  lemma WorstPrice(prices: set<Price>, highest: bool) returns (w: Price)
    requires prices != {}
    ensures w in prices
    ensures Ahead(prices, w, highest) == prices - {w}
    decreases prices
  {
    w :| w in prices;
    var rest := prices - {w};
    if rest != {} {
      var u := w;
      var v := WorstPrice(rest, highest);
      if Better(w, v, highest) {
        w := v;
      }
      forall q | q in prices && q != w ensures Better(q, w, highest) {
        if q != u && q != v {
          assert q in Ahead(rest, v, highest);
        }
      }
    }
  }

  /** There are exactly n best prices whenever there are at least n prices. */
  lemma {:induction false} TopHasN(prices: set<Price>, n: nat, highest: bool)
    requires n <= |prices|
    ensures |TopPrices(prices, n, highest)| == n
    decreases prices
  {
    if |prices| == n {
      forall p | p in prices ensures p in TopPrices(prices, n, highest) {
        SubsetSize(Ahead(prices, p, highest) + {p}, prices);
        assert |Ahead(prices, p, highest) + {p}| == |Ahead(prices, p, highest)| + 1;
      }
      assert TopPrices(prices, n, highest) == prices;
    } else {
      var w := WorstPrice(prices, highest);
      var rest := prices - {w};
      TopHasN(rest, n, highest);
      forall p | p in rest ensures Ahead(rest, p, highest) == Ahead(prices, p, highest) {
        assert p in Ahead(prices, w, highest);
      }
      assert TopPrices(prices, n, highest) == TopPrices(rest, n, highest);
    }
  }

  /** A side no longer than n is its own best n. */
  lemma TopOfShort(side: Side, n: nat, highest: bool)
    requires |side| <= n
    ensures Top(side, n, highest) == side
  {
    assert |side| == |side.Keys|;
    forall p | p in side ensures |Ahead(side.Keys, p, highest)| < n {
      SubsetSize(Ahead(side.Keys, p, highest) + {p}, side.Keys);
      assert |Ahead(side.Keys, p, highest) + {p}| == |Ahead(side.Keys, p, highest)| + 1;
    }
  }

  lemma TopSize(side: Side, n: nat, highest: bool)
    ensures |Top(side, n, highest)| == if |side| <= n then |side| else n
  {
    if |side| <= n {
      TopOfShort(side, n, highest);
    } else {
      assert |side| == |side.Keys| && Top(side, n, highest).Keys == TopPrices(side.Keys, n, highest);
      TopHasN(side.Keys, n, highest);
      assert |Top(side, n, highest)| == |Top(side, n, highest).Keys|;
    }
  }

  /** Dropping prices outside the best n never changes which prices are the best n. */
  lemma TopOfSuperset(all: set<Price>, kept: set<Price>, n: nat, highest: bool)
    requires TopPrices(all, n, highest) <= kept <= all
    ensures TopPrices(kept, n, highest) == TopPrices(all, n, highest)
  {
    var top := TopPrices(all, n, highest);
    forall p | p in kept
      ensures p in TopPrices(kept, n, highest) <==> p in top
    {
      if p in top {
        SubsetSize(Ahead(kept, p, highest), Ahead(all, p, highest));
      } else {
        forall t | t in top ensures t in Ahead(kept, p, highest) {
          if !Better(t, p, highest) && t != p {
            RankGrows(all, p, t, highest);
          }
        }
        SubsetSize(Ahead(all, p, highest), all);
        TopHasN(all, n, highest);
        SubsetSize(top, Ahead(kept, p, highest));
      }
    }
  }

  // ---- a venue that publishes only its best n levels ----

  /**
   What a depth-bounded venue sends when its full side goes from `before` to `after`: the size of every level
   that is new or changed among its best n, a deletion for every published level that has left the book, and
   nothing for a level that merely fell out of the best n.
   */
  ghost predicate BoundedUpdate(before: Side, after: Side, n: nat, highest: bool, msg: seq<Level>) {
    && (forall p :: match Quoted(msg, p) {
          case None => true
          case Some(s) => if s == 0 then p !in after else p in Top(after, n, highest) && after[p] == s
        })
    && (forall p :: p in Top(after, n, highest) && (p !in Top(before, n, highest) || before[p] != after[p])
          ==> Quoted(msg, p).Some?)
    && (forall p :: p in Top(before, n, highest) && p !in after ==> Quoted(msg, p).Some?)
  }

  lemma BoundedUpdateAt(before: Side, after: Side, n: nat, highest: bool, msg: seq<Level>, p: Price)
    requires Proper(before) && Proper(after) && BoundedUpdate(before, after, n, highest, msg)
    ensures var local := Applied(Top(before, n, highest), msg);
            && (p in local ==> p in after)
            && (p in Top(after, n, highest) ==> p in local && local[p] == after[p])
  {
    var local := Applied(Top(before, n, highest), msg);
    AppliedStaysProper(Top(before, n, highest), msg);
    AppliedAt(Top(before, n, highest), msg, p);
    assert p in local <==> SizeAt(local, p) != 0;
  }

  /** Apply-then-trim keeps the local side equal to the venue's best n, evictions included. */
  lemma TrimTracksTop(before: Side, after: Side, n: nat, highest: bool, msg: seq<Level>)
    requires n >= 1 && Proper(before) && Proper(after)
    requires BoundedUpdate(before, after, n, highest, msg)
    ensures Trimmed(Applied(Top(before, n, highest), msg), n, highest) == Top(after, n, highest)
  {
    var local := Applied(Top(before, n, highest), msg);
    forall p
      ensures p in local ==> p in after
      ensures p in Top(after, n, highest) ==> p in local && local[p] == after[p]
    {
      BoundedUpdateAt(before, after, n, highest, msg, p);
    }
    TopSurvives(local, after, n, highest);
  }

  /** A side with the best n of another, and nothing the other has not, has the same best n. */
  lemma TopSurvives(local: Side, after: Side, n: nat, highest: bool)
    requires forall p :: p in local ==> p in after
    requires forall p :: p in Top(after, n, highest) ==> p in local && local[p] == after[p]
    ensures Top(local, n, highest) == Top(after, n, highest)
  {
    assert TopPrices(after.Keys, n, highest) == Top(after, n, highest).Keys;
    TopOfSuperset(after.Keys, local.Keys, n, highest);
    assert Top(local, n, highest).Keys == TopPrices(local.Keys, n, highest);
  }

  lemma TopIsIdempotent(side: Side, n: nat, highest: bool)
    ensures Top(Top(side, n, highest), n, highest) == Top(side, n, highest)
  {
    var top := Top(side, n, highest);
    assert top.Keys == TopPrices(side.Keys, n, highest);
    TopOfSuperset(side.Keys, top.Keys, n, highest);
    assert Top(top, n, highest).Keys == TopPrices(top.Keys, n, highest);
  }

  // ---- the mutable side ----

  method BestPrice(prices: set<Price>, highest: bool) returns (best: Price)
    requires prices != {}
    ensures best in prices && forall q :: q in prices && q != best ==> Better(best, q, highest)
  {
    best :| best in prices;
    var rest := prices - {best};
    while rest != {}
      invariant best in prices && rest <= prices
      invariant forall q :: q in prices - rest && q != best ==> Better(best, q, highest)
      decreases rest
    {
      var q :| q in rest;
      rest := rest - {q};
      ghost var previous := best;
      if Better(q, best, highest) {
        best := q;
      }
      assert forall r :: r in prices - rest ==> r == q || r in prices - (rest + {q});
      assert forall r :: r in prices - rest && r != q && r != previous ==> Better(previous, r, highest);
    }
  }

  function Elements(s: seq<Price>): set<Price> {
    set p | p in s
  }

  lemma ElementsOfAppend(s: seq<Price>, p: Price)
    ensures Elements(s + [p]) == Elements(s) + {p}
  {
    forall q ensures q in Elements(s + [p]) <==> q in Elements(s) + {p} {
      assert (s + [p])[|s|] == p;
      if q in s {
        var i :| 0 <= i < |s| && s[i] == q;
        assert (s + [p])[i] == q;
      }
    }
  }

  method SortedPrices(prices: set<Price>, highest: bool) returns (s: seq<Price>)
    ensures Elements(s) == prices
    ensures forall i, j :: 0 <= i < j < |s| ==> Better(s[i], s[j], highest)
  {
    s := [];
    var rest := prices;
    while rest != {}
      invariant rest <= prices && Elements(s) == prices - rest
      invariant forall i, j :: 0 <= i < j < |s| ==> Better(s[i], s[j], highest)
      invariant forall i, q :: 0 <= i < |s| && q in rest ==> Better(s[i], q, highest)
      decreases rest
    {
      var best := BestPrice(rest, highest);
      ElementsOfAppend(s, best);
      s := s + [best];
      rest := rest - {best};
    }
  }

  /** In a sorted listing the rank of a price is its index. */
  lemma {:induction false} Distinct(s: seq<Price>, highest: bool)
    requires forall i, j :: 0 <= i < j < |s| ==> Better(s[i], s[j], highest)
    ensures |Elements(s)| == |s|
  {
    if s != [] {
      var n := |s| - 1;
      Distinct(s[..n], highest);
      assert s == s[..n] + [s[n]];
      ElementsOfAppend(s[..n], s[n]);
      assert s[n] !in Elements(s[..n]) by {
        assert forall i :: 0 <= i < n ==> Better(s[i], s[n], highest) && s[..n][i] == s[i];
      }
    }
  }

  /** Ahead of a price in a best-first listing is what is listed before it. */
  lemma AheadIsPrefix(s: seq<Price>, i: nat, highest: bool)
    requires i < |s|
    requires forall i, j :: 0 <= i < j < |s| ==> Better(s[i], s[j], highest)
    ensures Ahead(Elements(s), s[i], highest) == Elements(s[..i])
  {
    var a := Ahead(Elements(s), s[i], highest);
    forall q | q in a ensures q in s[..i] {
      var j :| 0 <= j < |s| && s[j] == q;
      assert j < i && s[..i][j] == q;
    }
    forall q | q in s[..i] ensures q in a {
      var j :| 0 <= j < i && s[j] == q;
      assert Better(s[j], s[i], highest);
    }
  }

  lemma RankIsIndex(s: seq<Price>, i: nat, highest: bool)
    requires i < |s|
    requires forall i, j :: 0 <= i < j < |s| ==> Better(s[i], s[j], highest)
    ensures |Ahead(Elements(s), s[i], highest)| == i
  {
    AheadIsPrefix(s, i, highest);
    Distinct(s[..i], highest);
  }

  /** The first n of a sorted listing are the n best. */
  lemma KeepIsTop(s: seq<Price>, n: nat, highest: bool)
    requires n <= |s|
    requires forall i, j :: 0 <= i < j < |s| ==> Better(s[i], s[j], highest)
    ensures TopPrices(Elements(s), n, highest) == Elements(s[..n])
  {
    forall i | 0 <= i < |s| ensures |Ahead(Elements(s), s[i], highest)| == i {
      RankIsIndex(s, i, highest);
    }
    forall p ensures p in TopPrices(Elements(s), n, highest) <==> p in s[..n] {
      if p in TopPrices(Elements(s), n, highest) {
        var i :| 0 <= i < |s| && s[i] == p;
        assert s[..n][i] == p;
      }
      if p in s[..n] {
        var i :| 0 <= i < n && s[..n][i] == p;
        assert s[i] == p;
      }
    }
  }

  lemma TopByDeletion(side: Side, n: nat, highest: bool)
    ensures side - (side.Keys - TopPrices(side.Keys, n, highest)) == Top(side, n, highest)
  {
  }

  class BookSide {
    var levels: Side

    constructor (initial: Side)
      ensures levels == initial
    {
      levels := initial;
    }

    method ApplyLevels(updates: seq<Level>)
      modifies this
      ensures levels == Applied(old(levels), updates)
    {
      for i := 0 to |updates|
        invariant levels == Applied(old(levels), updates[..i])
      {
        assert updates[..i + 1][..i] == updates[..i];
        if updates[i].size == 0 {
          levels := levels - {updates[i].price};
        } else {
          levels := levels[updates[i].price := updates[i].size];
        }
      }
      assert updates[..|updates|] == updates;
    }

    method Delete(prices: set<Price>)
      requires prices <= levels.Keys
      modifies this
      ensures levels == old(levels) - prices
    {
      var rest := prices;
      while rest != {}
        invariant rest <= levels.Keys && rest <= prices
        invariant levels == old(levels) - (prices - rest)
        decreases rest
      {
        var p :| p in rest;
        levels := levels - {p};
        rest := rest - {p};
      }
    }

    /** Deletes every price outside the `depth` best. */
    method Trim(depth: int, highest: bool)
      modifies this
      ensures levels == Trimmed(old(levels), depth, highest)
    {
      if depth <= 0 {
        return;
      }
      if |levels| <= depth {
        TopOfShort(levels, depth, highest);
        return;
      }
      var sorted := SortedPrices(levels.Keys, highest);
      Distinct(sorted, highest);
      assert |levels.Keys| == |levels|;
      KeepIsTop(sorted, depth, highest);
      TopByDeletion(levels, depth, highest);
      Delete(levels.Keys - Elements(sorted[..depth]));
    }
  }
}
