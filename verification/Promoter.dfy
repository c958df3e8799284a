/**
 The promotion pass and its sink, with buffers and files that change in place. What is durable is always what the
 attempts so far have landed.
 */
module Promoter {
  import opened Options
  import opened Promotion

  /** Where one attempt fails: reading or buffering a row, some flush (which may keep any rows), or the index append. */
  datatype Fault = Fine | WriteFails(at: nat) | FlushFails(nth: nat, kept: nat -> bool) | IndexFails(appended: bool)

  function Picked(rows: seq<Row>, kept: nat -> bool): seq<Row> {
    if rows == [] then []
    else Picked(rows[..|rows| - 1], kept) + if kept(rows[|rows| - 1].k) then [rows[|rows| - 1]] else []
  }

  lemma {:induction false} PickedIsPart(rows: seq<Row>, kept: nat -> bool)
    requires Distinct(rows)
    ensures Distinct(Picked(rows, kept)) && forall r :: r in Picked(rows, kept) <==> r in rows && kept(r.k)
  {
    if rows != [] {
      var n := |rows| - 1;
      PickedIsPart(rows[..n], kept);
      assert rows[n] !in rows[..n];
    }
  }

  /** Whole batches first, then what a failing flush kept of the next. */
  function Part(key: string, m: nat, hi: nat, kept: nat -> bool): seq<Row>
    requires m <= hi
  {
    RowsOf(key, 0, m) + Picked(RowsOf(key, m, hi), kept)
  }

  lemma PartIsOk(sizes: Sizes, key: string, m: nat, hi: nat, kept: nat -> bool)
    requires m <= hi <= sizes(key)
    ensures AttemptOk(sizes, Attempt(key, Part(key, m, hi, kept), false))
    ensures AttemptOk(sizes, Attempt(key, RowsOf(key, 0, m), m == sizes(key)))
  {
    var rest := RowsOf(key, m, hi);
    assert forall i :: 0 <= i < |rest| ==> rest[i] == Row(key, m + i);
    PickedIsPart(rest, kept);
    var picked := Picked(rest, kept);
    forall i | 0 <= i < |picked| ensures picked[i].key == key && m <= picked[i].k < sizes(key) {
      assert picked[i] in rest;
    }
  }

  class ParquetSink {
    const batch: nat
    var buffer: seq<Row>
    var durable: seq<Row>
    var flushes: nat

    constructor (batch: nat)
      ensures this.batch == batch && buffer == [] && durable == [] && flushes == 0
    {
      this.batch, buffer, durable, flushes := batch, [], [], 0;
    }

    /** A flush that raises keeps its buffer, and some of its rows may be on disk. */
    method Flush(fault: Fault) returns (ok: bool)
      modifies this
      ensures ok <==> old(buffer) == [] || !fault.FlushFails? || fault.nth != old(flushes)
      ensures ok ==> durable == old(durable + buffer) && buffer == []
      ensures !ok ==> fault.FlushFails? && fault.nth == old(flushes) && old(buffer) != [] && buffer == old(buffer)
                      && durable == old(durable) + Picked(old(buffer), fault.kept)
      ensures flushes == old(flushes) + if old(buffer) == [] then 0 else 1
    {
      if buffer == [] {
        return true;
      }
      flushes := flushes + 1;
      if fault.FlushFails? && fault.nth == flushes - 1 {
        for i := 0 to |buffer|
          invariant buffer == old(buffer) && durable == old(durable) + Picked(buffer[..i], fault.kept)
          invariant flushes == old(flushes) + 1
        {
          assert buffer[..i + 1][..i] == buffer[..i];
          if fault.kept(buffer[i].k) {
            durable := durable + [buffer[i]];
          }
        }
        assert buffer[..|buffer|] == buffer;
        return false;
      }
      durable := durable + buffer;
      buffer := [];
      return true;
    }

    method Write(row: Row, fault: Fault) returns (ok: bool)
      modifies this
      ensures ok ==> if batch <= |old(buffer)| + 1 then buffer == [] && durable == old(durable) + (old(buffer) + [row])
                     else buffer == old(buffer) + [row] && durable == old(durable)
      ensures !ok ==> fault.FlushFails? && durable == old(durable) + Picked(old(buffer) + [row], fault.kept)
                      && batch <= |old(buffer)| + 1
    {
      buffer := buffer + [row];
      ok := true;
      if |buffer| >= batch {
        ok := Flush(fault);
      }
    }

    method Discard()
      modifies this
      ensures buffer == [] && durable == old(durable)
    {
      buffer := [];
    }
  }

  /** The index only gains promotable runs. */
  ghost predicate IndexGrew(runs: seq<RunDir>, quarantined: set<string>, before: seq<string>, after: seq<string>) {
    before <= after && forall k :: k in after && k !in before ==> Promotable(runs, quarantined, k)
  }

  /** Only promotable runs that are not indexed yet are attempted. */
  ghost predicate AttemptsGrew(runs: seq<RunDir>, quarantined: set<string>, index: seq<string>, before: seq<Attempt>,
                               after: seq<Attempt>) {
    && before <= after
    && forall n :: |before| <= n < |after| ==> Promotable(runs, quarantined, after[n].key) && after[n].key !in index
  }

  /** Of the first `n` runs, each promotable one that met no fault is in the index. */
  ghost predicate Served(runs: seq<RunDir>, quarantined: set<string>, faults: seq<(Fault, bool)>, n: nat, index: seq<string>)
    requires n <= |runs| == |faults|
  {
    forall k, j :: 0 <= j < n && runs[j] == RunDir(k, false, Some(true), true) && faults[j].0.Fine? ==> k in quarantined || k in index
  }

  lemma OneMoreRun(runs: seq<RunDir>, quarantined: set<string>, i: nat, index: seq<string>, attempts: seq<Attempt>,
                   was: seq<string>, tried: seq<Attempt>, now: seq<string>, all: seq<Attempt>)
    requires i < |runs| && IndexGrew(runs, quarantined, index, was) && AttemptsGrew(runs, quarantined, index, attempts, tried)
    requires now == was || now == was + [runs[i].key]
    requires all == tried || (|all| == |tried| + 1 && tried <= all && all[|tried|].key == runs[i].key && runs[i].key !in was)
    requires all != tried ==> runs[i] == RunDir(runs[i].key, false, Some(true), true) && runs[i].key !in quarantined
    requires now != was ==> all != tried
    ensures IndexGrew(runs, quarantined, index, now) && AttemptsGrew(runs, quarantined, index, attempts, all)
  {
    if all != tried {
      assert Promotable(runs, quarantined, runs[i].key);
    }
  }

  /** The attempt at run `i` meets no fault, and the process is alive to make it. */
  ghost predicate Undisturbed(faults: seq<(Fault, bool)>, i: nat)
    requires i < |faults|
  {
    faults[i].0.Fine? && forall j :: 0 <= j < i ==> !faults[j].1
  }

  /** Some listed run under this name is recent, scored replayable, has events and is not quarantined. */
  ghost predicate Promotable(runs: seq<RunDir>, quarantined: set<string>, key: string) {
    exists i :: 0 <= i < |runs| && runs[i] == RunDir(key, false, Some(true), true) && key !in quarantined
  }

  datatype RunDir = RunDir(key: string, aged: bool, replayable: Option<bool>, hasEvents: bool)

  class Promoter {
    const sizes: Sizes
    const sink: ParquetSink
    var index: seq<string>
    ghost var attempts: seq<Attempt>

    ghost predicate Valid()
      reads this, sink
    {
      && sink.buffer == [] && sink.durable == AllLanded(attempts) && index == Indexed(attempts)
      && WellFormed(sizes, attempts)
    }

    constructor (sizes: Sizes, batch: nat)
      ensures Valid() && attempts == [] && fresh(sink) && this.sizes == sizes && sink.batch == batch
    {
      this.sizes := sizes;
      sink := new ParquetSink(batch);
      index, attempts := [], [];
    }

    /** Records how an attempt ended; its rows are durable already and the buffer is empty again. */
    ghost method Record(key: string, landed: seq<Row>, indexed: bool)
      requires sink.buffer == [] && WellFormed(sizes, attempts) && key !in Indexed(attempts)
      requires sink.durable == AllLanded(attempts) + landed && index == Indexed(attempts) + (if indexed then [key] else [])
      requires AttemptOk(sizes, Attempt(key, landed, indexed))
      modifies this`attempts
      ensures Valid() && attempts == old(attempts) + [Attempt(key, landed, indexed)]
    {
      IndexedHas(attempts, key);
      var was := attempts;
      attempts := attempts + [Attempt(key, landed, indexed)];
      assert attempts[..|was|] == was;
    }

    /** Row `i` goes into the buffer, which is flushed when it is full; `m` rows were durable before. */
    method WriteRow(key: string, fault: Fault, i: nat, ghost m: nat, ghost was: seq<Row>) returns (ok: bool, ghost landed: seq<Row>)
      requires m <= i < sizes(key)
      requires sink.durable == was + RowsOf(key, 0, m) && sink.buffer == RowsOf(key, m, i)
      modifies sink
      ensures sink.durable == was + landed
      ensures ok ==> if sink.batch <= i - m + 1 then sink.buffer == [] && landed == RowsOf(key, 0, i + 1)
                     else sink.buffer == RowsOf(key, m, i + 1) && landed == RowsOf(key, 0, m)
      ensures !ok ==> AttemptOk(sizes, Attempt(key, landed, false)) && fault.FlushFails?
    {
      RowsJoin(key, m, i, i + 1);
      RowsJoin(key, 0, m, i + 1);
      ok := sink.Write(Row(key, i), fault);
      if !ok {
        PartIsOk(sizes, key, m, i + 1, fault.kept);
        landed := Part(key, m, i + 1, fault.kept);
      } else {
        landed := if sink.batch <= i - m + 1 then RowsOf(key, 0, i + 1) else RowsOf(key, 0, m);
      }
    }

    method FlushRest(key: string, fault: Fault, ghost m: nat, ghost was: seq<Row>) returns (ok: bool, ghost landed: seq<Row>)
      requires m <= sizes(key)
      requires sink.durable == was + RowsOf(key, 0, m) && sink.buffer == RowsOf(key, m, sizes(key))
      modifies sink
      ensures sink.durable == was + landed && AttemptOk(sizes, Attempt(key, landed, ok))
      ensures if ok then sink.buffer == [] else fault.FlushFails?
    {
      ok := sink.Flush(fault);
      RowsJoin(key, 0, m, sizes(key));
      if ok {
        landed := RowsOf(key, 0, sizes(key));
        PartIsOk(sizes, key, sizes(key), sizes(key), k => false);
      } else {
        PartIsOk(sizes, key, m, sizes(key), fault.kept);
        landed := Part(key, m, sizes(key), fault.kept);
      }
    }

    /** Buffers every row of the run, flushing as batches fill up, and flushes the rest. */
    method WriteRows(key: string, fault: Fault) returns (ok: bool, ghost landed: seq<Row>)
      requires sink.buffer == []
      modifies sink
      ensures sink.durable == old(sink.durable) + landed
      ensures AttemptOk(sizes, Attempt(key, landed, ok)) && (ok ==> sink.buffer == [])
      ensures fault.Fine? || fault.IndexFails? ==> ok
      ensures fault.WriteFails? && fault.at < sink.batch && !ok ==> landed == []
      ensures fault.WriteFails? && fault.at < sizes(key) ==> !ok
    {
      ghost var m: nat := 0;
      landed := [];
      for i := 0 to sizes(key)
        invariant m <= i && landed == RowsOf(key, 0, m)
        invariant sink.durable == old(sink.durable) + landed && sink.buffer == RowsOf(key, m, i)
        invariant i < sink.batch ==> m == 0
        invariant fault.WriteFails? ==> i <= fault.at
      {
        if fault == WriteFails(i) {
          PartIsOk(sizes, key, m, i, k => false);
          return false, landed;
        }
        ok, landed := WriteRow(key, fault, i, m, old(sink.durable));
        if !ok {
          return false, landed;
        }
        if sink.buffer == [] {
          m := i + 1;
        }
      }
      ok, landed := FlushRest(key, fault, m, old(sink.durable));
    }

    /** Rows first, then the index row; anything that fails discards the buffer. */
    method PromoteRun(key: string, fault: Fault) returns (ok: bool)
      requires Valid() && key !in index
      modifies this, sink
      ensures Valid() && exists a: Attempt :: a.key == key && attempts == old(attempts) + [a]
      ensures index == old(index) || index == old(index) + [key]
      ensures (ok ==> key in index) && (fault.Fine? ==> ok)
      ensures fault.IndexFails? ==> !ok && (key in index <==> fault.appended)
      ensures !ok && !fault.IndexFails? ==> index == old(index)
      ensures fault.WriteFails? && fault.at < sizes(key) && fault.at < sink.batch ==> sink.durable == old(sink.durable)
    {
      ghost var landed: seq<Row>;
      ok, landed := WriteRows(key, fault);
      ghost var indexed := false;
      if ok {
        if fault.IndexFails? {
          ok := false;
        }
        if !fault.IndexFails? || fault.appended {
          index := index + [key];
          indexed := true;
        }
      }
      if !ok {
        sink.Discard();
      }
      Record(key, landed, indexed);
    }

    /** A run that is eligible and not known to be promoted gets one attempt. */
    method Consider(run: RunDir, quarantined: set<string>, promoted: set<string>, fault: Fault) returns (now: set<string>)
      requires Valid() && (run.key in index ==> run.key in promoted)
      modifies this, sink
      ensures Valid() && promoted <= now <= promoted + {run.key} && (run.key in now ==> run.key in promoted || run.key in index)
      ensures index == old(index) || (index == old(index) + [run.key] && run.key !in old(index))
      ensures attempts == old(attempts)
              || (|attempts| == |old(attempts)| + 1 && old(attempts) <= attempts && attempts[|old(attempts)|].key == run.key
                  && run.key !in old(index))
      ensures attempts != old(attempts) ==> run == RunDir(run.key, false, Some(true), true) && run.key !in quarantined
      ensures index != old(index) ==> attempts != old(attempts)
      ensures run == RunDir(run.key, false, Some(true), true) && run.key !in quarantined && run.key !in promoted && fault.Fine?
              ==> run.key in index && run.key in now
    {
      now := promoted;
      if Eligible(run, quarantined) && run.key !in promoted {
        var ok := PromoteRun(run.key, fault);
        if ok {
          now := promoted + {run.key};
        }
      }
    }

    /** One pass; a run that fails costs no other. The second of a fault ends the process after it, whatever the buffer held. */
    method Pass(runs: seq<RunDir>, quarantined: set<string>, faults: seq<(Fault, bool)>)
      requires Valid() && |faults| == |runs|
      requires forall i, j :: 0 <= i < j < |runs| ==> runs[i].key != runs[j].key
      modifies this, sink
      ensures Valid() && IndexGrew(runs, quarantined, old(index), index)
      ensures AttemptsGrew(runs, quarantined, old(index), old(attempts), attempts)
      ensures forall k, i :: 0 <= i < |runs| && runs[i] == RunDir(k, false, Some(true), true) && Undisturbed(faults, i) ==>
                k in quarantined || k in index
    {
      var promoted := set k | k in index;
      for i := 0 to |runs|
        invariant Valid() && IndexGrew(runs, quarantined, old(index), index)
        invariant AttemptsGrew(runs, quarantined, old(index), old(attempts), attempts)
        invariant promoted <= set k | k in index
        invariant forall k :: k in index ==> k in promoted || exists j :: 0 <= j < i && runs[j].key == k
        invariant Served(runs, quarantined, faults, i, index)
        invariant forall j :: 0 <= j < i ==> !faults[j].1
      {
        ghost var was, tried := index, attempts;
        promoted := Consider(runs[i], quarantined, promoted, faults[i].0);
        OneMoreRun(runs, quarantined, i, old(index), old(attempts), was, tried, index, attempts);
        if faults[i].1 {
          return;
        }
      }
    }
  }

  /** In order: aged runs are skipped, then missing scores, quarantined runs, unreplayable ones and missing events. */
  predicate Eligible(run: RunDir, quarantined: set<string>) {
    !run.aged && run.replayable.Some? && run.key !in quarantined && run.replayable.value && run.hasEvents
  }

  lemma RowsJoin(key: string, lo: nat, mid: nat, hi: nat)
    requires lo <= mid <= hi
    ensures RowsOf(key, lo, mid) + RowsOf(key, mid, hi) == RowsOf(key, lo, hi)
    ensures mid + 1 == hi ==> RowsOf(key, mid, hi) == [Row(key, mid)]
  {
  }
}
