/**
 Promoting replayable runs into the curated dataset: write a run's rows, flush, then append its index row, and discard
 the buffer when anything fails. A failed flush may still have left any part of its rows behind, an index append may
 land and raise all the same, and the process may die anywhere.
 */
module Promotion {
  datatype Row = Row(key: string, k: nat)

  /** One try at promoting a run: the rows it made durable, and whether its index row landed. */
  datatype Attempt = Attempt(key: string, landed: seq<Row>, indexed: bool)

  /** How many clean rows a run has; a finished run's event file never changes. */
  type Sizes = string -> nat

  function RowsOf(key: string, lo: nat, hi: nat): seq<Row>
    requires lo <= hi
  {
    seq(hi - lo, (i: nat) => Row(key, lo + i))
  }

  function AllLanded(attempts: seq<Attempt>): seq<Row> {
    if attempts == [] then [] else AllLanded(attempts[..|attempts| - 1]) + attempts[|attempts| - 1].landed
  }

  function Indexed(attempts: seq<Attempt>): seq<string> {
    if attempts == [] then []
    else Indexed(attempts[..|attempts| - 1]) + if attempts[|attempts| - 1].indexed then [attempts[|attempts| - 1].key] else []
  }

  predicate Distinct(rows: seq<Row>) {
    forall i, j :: 0 <= i < j < |rows| ==> rows[i] != rows[j]
  }

  /** An attempt lands rows of its own run, each at most once, and indexes only after all of them. */
  ghost predicate AttemptOk(sizes: Sizes, a: Attempt) {
    && Distinct(a.landed) && (forall i :: 0 <= i < |a.landed| ==> a.landed[i].key == a.key && a.landed[i].k < sizes(a.key))
    && (a.indexed ==> a.landed == RowsOf(a.key, 0, sizes(a.key)))
  }

  /** No run is tried again once it is indexed. */
  ghost predicate WellFormed(sizes: Sizes, attempts: seq<Attempt>) {
    && (forall n :: 0 <= n < |attempts| ==> AttemptOk(sizes, attempts[n]))
    && (forall m, n :: 0 <= m < n < |attempts| && attempts[m].indexed ==> attempts[n].key != attempts[m].key)
  }

  // ---- counting copies ----

  function Count(rows: seq<Row>, row: Row): nat {
    if rows == [] then 0 else Count(rows[..|rows| - 1], row) + if rows[|rows| - 1] == row then 1 else 0
  }

  lemma {:induction false} CountOfAppend(a: seq<Row>, b: seq<Row>, row: Row)
    ensures Count(a + b, row) == Count(a, row) + Count(b, row)
  {
    if b == [] {
      assert a + b == a;
    } else {
      assert (a + b)[..|a + b| - 1] == a + b[..|b| - 1];
      CountOfAppend(a, b[..|b| - 1], row);
    }
  }

  lemma {:induction false} CountOfDistinct(rows: seq<Row>, row: Row)
    requires Distinct(rows)
    ensures Count(rows, row) == if row in rows then 1 else 0
  {
    if rows != [] {
      CountOfDistinct(rows[..|rows| - 1], row);
    }
  }

  /** The attempts that landed a row. */
  function Landings(attempts: seq<Attempt>, row: Row): nat {
    if attempts == [] then 0
    else Landings(attempts[..|attempts| - 1], row) + if row in attempts[|attempts| - 1].landed then 1 else 0
  }

  /** A curated row appears once for every attempt that landed it. */
  lemma {:induction false} CopiesAreLandings(sizes: Sizes, attempts: seq<Attempt>, row: Row)
    requires forall n :: 0 <= n < |attempts| ==> AttemptOk(sizes, attempts[n])
    ensures Count(AllLanded(attempts), row) == Landings(attempts, row)
  {
    if attempts != [] {
      var last := attempts[|attempts| - 1];
      CopiesAreLandings(sizes, attempts[..|attempts| - 1], row);
      CountOfAppend(AllLanded(attempts[..|attempts| - 1]), last.landed, row);
      CountOfDistinct(last.landed, row);
    }
  }

  lemma {:induction false} IndexedHas(attempts: seq<Attempt>, key: string)
    ensures key in Indexed(attempts) <==> exists n :: 0 <= n < |attempts| && attempts[n].indexed && attempts[n].key == key
  {
    if attempts != [] {
      var m := |attempts| - 1;
      IndexedHas(attempts[..m], key);
      if n :| 0 <= n < |attempts| && attempts[n].indexed && attempts[n].key == key {
        assert n < m ==> attempts[..m][n] == attempts[n];
      }
      if n :| 0 <= n < m && attempts[..m][n].indexed && attempts[..m][n].key == key {
        assert attempts[n].indexed && attempts[n].key == key;
      }
    }
  }

  lemma {:induction false} LandingsOf(attempts: seq<Attempt>, row: Row, n: nat)
    requires n < |attempts| && row in attempts[n].landed
    ensures 1 <= Landings(attempts, row)
    ensures Landings(attempts, row) == 1 <==> forall m :: 0 <= m < |attempts| && m != n ==> row !in attempts[m].landed
  {
    var last := |attempts| - 1;
    if n < last {
      LandingsOf(attempts[..last], row, n);
      if row !in attempts[last].landed && Landings(attempts[..last], row) == 1 {
        forall m | 0 <= m < |attempts| && m != n ensures row !in attempts[m].landed {
          assert m < last ==> attempts[..last][m] == attempts[m];
        }
      }
      assert forall m :: 0 <= m < last ==> attempts[..last][m] == attempts[m];
    } else {
      NoLandings(attempts[..last], row);
      assert forall m :: 0 <= m < last ==> attempts[..last][m] == attempts[m];
    }
  }

  lemma {:induction false} NoLandings(attempts: seq<Attempt>, row: Row)
    ensures Landings(attempts, row) == 0 <==> forall m :: 0 <= m < |attempts| ==> row !in attempts[m].landed
  {
    if attempts != [] {
      var last := |attempts| - 1;
      NoLandings(attempts[..last], row);
      assert forall m :: 0 <= m < last ==> attempts[..last][m] == attempts[m];
    }
  }

  lemma IndexedRowsLanded(sizes: Sizes, attempts: seq<Attempt>, key: string, k: nat)
    requires WellFormed(sizes, attempts) && key in Indexed(attempts) && k < sizes(key)
    ensures Count(AllLanded(attempts), Row(key, k)) >= 1
  {
    IndexedHas(attempts, key);
    var n :| 0 <= n < |attempts| && attempts[n].indexed && attempts[n].key == key;
    assert attempts[n].landed[k] == Row(key, k);
    LandingsOf(attempts, Row(key, k), n);
    CopiesAreLandings(sizes, attempts, Row(key, k));
  }

  /** The failed attempts of a run. */
  ghost predicate FailuresLandedNothing(attempts: seq<Attempt>, key: string) {
    forall n :: 0 <= n < |attempts| && attempts[n].key == key && !attempts[n].indexed ==> attempts[n].landed == []
  }

  /** An indexed run has every row, and has each exactly once exactly when no failed attempt had landed any. */
  lemma PromotedOnceIff(sizes: Sizes, attempts: seq<Attempt>, key: string)
    requires WellFormed(sizes, attempts) && key in Indexed(attempts)
    ensures forall k: nat :: k < sizes(key) ==> Count(AllLanded(attempts), Row(key, k)) >= 1
    ensures (forall k: nat :: k < sizes(key) ==> Count(AllLanded(attempts), Row(key, k)) == 1)
            <==> FailuresLandedNothing(attempts, key)
  {
    forall k: nat | k < sizes(key) ensures Count(AllLanded(attempts), Row(key, k)) >= 1 {
      IndexedRowsLanded(sizes, attempts, key, k);
    }
    IndexedHas(attempts, key);
    var n :| 0 <= n < |attempts| && attempts[n].indexed && attempts[n].key == key;
    if FailuresLandedNothing(attempts, key) {
      forall k: nat | k < sizes(key) ensures Count(AllLanded(attempts), Row(key, k)) == 1 {
        LandedOnlyBy(sizes, attempts, n, k);
      }
    } else {
      var m :| 0 <= m < |attempts| && attempts[m].key == key && !attempts[m].indexed && attempts[m].landed != [];
      var row := attempts[m].landed[0];
      assert attempts[n].landed[row.k] == row;
      LandingsOf(attempts, row, n);
      CopiesAreLandings(sizes, attempts, row);
    }
  }

  lemma LandedOnlyBy(sizes: Sizes, attempts: seq<Attempt>, n: nat, k: nat)
    requires WellFormed(sizes, attempts) && n < |attempts| && attempts[n].indexed && k < sizes(attempts[n].key)
    requires FailuresLandedNothing(attempts, attempts[n].key)
    ensures Count(AllLanded(attempts), Row(attempts[n].key, k)) == 1
  {
    var row := Row(attempts[n].key, k);
    assert attempts[n].landed[k] == row;
    forall m | 0 <= m < |attempts| && m != n ensures row !in attempts[m].landed {
      assert AttemptOk(sizes, attempts[m]);
    }
    LandingsOf(attempts, row, n);
    CopiesAreLandings(sizes, attempts, row);
  }
}
