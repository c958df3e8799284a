/**
 One lane of an offload pass: oldest run first, account for aged strays within a budget, report what is stuck, and hand
 accounted runs to the mover within another. The accounts are two files that grow in place.
 */
module OffloadPass {
  import Promotion
  import ColdMove
  import Lifecycle

  /** `writes` is how many of its two files a backstop quarantine would get written before something fails. */
  datatype Candidate = Candidate(key: string, offloadable: bool, aged: bool, writes: nat)

  datatype Report = Report(scanned: nat, eligible: nat, deferred: nat, stuck: nat, backstopped: nat, backstopFailed: nat)

  class Accounts {
    var diagnosed: set<string>
    var quarantined: set<string>

    constructor ()
      ensures diagnosed == {} && quarantined == {}
    {
      diagnosed, quarantined := {}, {};
    }

    ghost predicate Valid()
      reads this
    {
      quarantined <= diagnosed
    }

    /** The diagnostics bundle lands before the index row that refers to it. */
    method QuarantineAgedRun(key: string, writes: nat) returns (ok: bool)
      requires Valid()
      modifies this
      ensures Valid() && ok == (writes >= 2)
      ensures diagnosed == old(diagnosed) + (if writes >= 1 then {key} else {})
      ensures quarantined == old(quarantined) + (if ok then {key} else {})
    {
      if writes == 0 {
        return false;
      }
      diagnosed := diagnosed + {key};
      if writes == 1 {
        return false;
      }
      quarantined := quarantined + {key};
      return true;
    }
  }

  /** Runs of the lane old enough to look at. */
  function Offloadable(runs: seq<Candidate>): nat {
    if runs == [] then 0 else Offloadable(runs[..|runs| - 1]) + if runs[|runs| - 1].offloadable then 1 else 0
  }

  /** Those of them that are accounted for; a lane without an index asks no account. */
  function Ready(runs: seq<Candidate>, indexed: bool, accounted: set<string>): seq<string> {
    if runs == [] then []
    else
      var run := runs[|runs| - 1];
      Ready(runs[..|runs| - 1], indexed, accounted) + if run.offloadable && (!indexed || run.key in accounted) then [run.key] else []
  }

  /** Those of them that nobody accounts for and that are old enough for the backstop. */
  function AgedStrays(runs: seq<Candidate>, accounted: set<string>): nat {
    if runs == [] then 0
    else
      var run := runs[|runs| - 1];
      AgedStrays(runs[..|runs| - 1], accounted) + if run.offloadable && run.aged && run.key !in accounted then 1 else 0
  }

  function FirstOf(keys: seq<string>, n: nat): seq<string> {
    if |keys| <= n then keys else keys[..n]
  }

  function Min(a: nat, b: nat): nat {
    if a <= b then a else b
  }

  /** A directory listing names each run once. */
  ghost predicate Listing(runs: seq<Candidate>) {
    forall i, j :: 0 <= i < j < |runs| ==> runs[i].key != runs[j].key
  }

  lemma {:induction false} ReadyStays(runs: seq<Candidate>, indexed: bool, before: set<string>, key: string)
    requires forall i :: 0 <= i < |runs| ==> runs[i].key != key
    ensures Ready(runs, indexed, before + {key}) == Ready(runs, indexed, before)
  {
    if runs != [] {
      ReadyStays(runs[..|runs| - 1], indexed, before, key);
    }
  }

  /** The accounts are those of the world that the events so far have made. */
  ghost predicate Mirrors(sizes: Promotion.Sizes, w: Lifecycle.World, es: seq<Lifecycle.Event>, accounts: Accounts)
    reads accounts
  {
    var t := Lifecycle.Run(sizes, w, es);
    && t.diagnosed == accounts.diagnosed && t.quarantined == accounts.quarantined && t.attempts == w.attempts
    && t.runs.Keys == w.runs.Keys && Lifecycle.EveryStepEnabled(sizes, w, es)
  }

  lemma QuarantineMirrored(sizes: Promotion.Sizes, w: Lifecycle.World, es: seq<Lifecycle.Event>, key: string, writes: nat)
    returns (longer: seq<Lifecycle.Event>)
    requires Lifecycle.EveryStepEnabled(sizes, w, es)
    ensures var s, t := Lifecycle.Run(sizes, w, es), Lifecycle.Run(sizes, w, longer);
            t == s.(diagnosed := s.diagnosed + (if writes >= 1 then {key} else {}),
                    quarantined := s.quarantined + (if writes >= 2 then {key} else {}))
    ensures Lifecycle.EveryStepEnabled(sizes, w, longer) && Lifecycle.Begun(longer) == Lifecycle.Begun(es)
  {
    if writes == 0 {
      longer := es;
    } else {
      var e := Lifecycle.Quarantine(key, writes >= 2);
      Lifecycle.Extend(sizes, w, es, e);
      longer := es + [e];
    }
  }

  /** Accounts for an aged stray while the backstop budget lasts; the quarantine gets both, one or none of its files written. */
  method Backstop(run: Candidate, room: bool, accounts: Accounts, accounted: set<string>, ghost sizes: Promotion.Sizes,
                  ghost w: Lifecycle.World, ghost es: seq<Lifecycle.Event>)
    returns (now: set<string>, tried: bool, ghost longer: seq<Lifecycle.Event>)
    requires accounts.Valid() && Mirrors(sizes, w, es, accounts) && accounts.quarantined <= accounted && run.key !in accounted
    modifies accounts
    ensures accounts.Valid() && Mirrors(sizes, w, longer, accounts) && Lifecycle.Begun(longer) == Lifecycle.Begun(es)
    ensures tried == (room && run.aged)
    ensures now == accounted + (if tried && run.writes >= 2 then {run.key} else {})
    ensures accounts.quarantined == old(accounts.quarantined) + (if tried && run.writes >= 2 then {run.key} else {})
    ensures !tried ==> now == accounted && accounts.diagnosed == old(accounts.diagnosed)
  {
    now, tried, longer := accounted, room && run.aged, es;
    if tried {
      longer := QuarantineMirrored(sizes, w, es, run.key, run.writes);
      var ok := accounts.QuarantineAgedRun(run.key, run.writes);
      if ok {
        now := accounted + {run.key};
      }
    }
  }

  /** Beginning the move of an accounted run. */
  lemma BeginMirrored(sizes: Promotion.Sizes, w: Lifecycle.World, es: seq<Lifecycle.Event>, accounts: Accounts, key: string)
    requires Mirrors(sizes, w, es, accounts) && key in w.runs
    requires key in Promotion.Indexed(w.attempts) || key in accounts.quarantined
    ensures var longer := es + [Lifecycle.Move(key, ColdMove.Begin)];
            Mirrors(sizes, w, longer, accounts) && Lifecycle.Begun(longer) == Lifecycle.Begun(es) + [key]
  {
    Lifecycle.Extend(sizes, w, es, Lifecycle.Move(key, ColdMove.Begin));
  }

  method HandOut(key: string, indexed: bool, moves: seq<string>, accounts: Accounts, ghost sizes: Promotion.Sizes,
                 ghost w: Lifecycle.World, ghost es: seq<Lifecycle.Event>)
    returns (more: seq<string>, ghost longer: seq<Lifecycle.Event>)
    requires indexed ==> Mirrors(sizes, w, es, accounts) && Lifecycle.Begun(es) == moves && key in w.runs
    requires indexed ==> key in Promotion.Indexed(w.attempts) || key in accounts.quarantined
    ensures more == moves + [key] && (indexed ==> Mirrors(sizes, w, longer, accounts) && Lifecycle.Begun(longer) == more)
  {
    more, longer := moves + [key], es;
    if indexed {
      BeginMirrored(sizes, w, es, accounts, key);
      longer := es + [Lifecycle.Move(key, ColdMove.Begin)];
    }
  }

  /** Nobody accounts for the run, and the pass cannot either. */
  predicate Stuck(run: Candidate, indexed: bool, before: set<string>, tried: bool) {
    indexed && run.key !in before && !(tried && run.writes >= 2)
  }

  /** Some budget is left for an aged stray. */
  predicate Tries(run: Candidate, indexed: bool, before: set<string>, r: Report, backstopLimit: nat, apply: bool) {
    indexed && run.key !in before && run.aged && apply && r.backstopped + r.backstopFailed < backstopLimit
  }

  /** The report after one more run of the scan. */
  function Reported(r: Report, tried: bool, ok: bool, stuck: bool, limit: nat): Report {
    Report(r.scanned + 1,
           r.eligible + (if !stuck && r.eligible < limit then 1 else 0),
           r.deferred + (if !stuck && r.eligible >= limit then 1 else 0),
           r.stuck + (if stuck then 1 else 0),
           r.backstopped + (if tried && ok then 1 else 0),
           r.backstopFailed + (if tried && !ok then 1 else 0))
  }

  /** One run of the scan that is old enough: account for it if need be, then move it, defer it or report it stuck. */
  method Consider(run: Candidate, indexed: bool, promoted: set<string>, accounts: Accounts, before: set<string>, limit: nat,
                  backstopLimit: nat, apply: bool, was: Report, handed: seq<string>, ghost sizes: Promotion.Sizes, ghost w: Lifecycle.World,
                  ghost sofar: seq<Lifecycle.Event>)
    returns (accounted: set<string>, r: Report, moves: seq<string>, ghost es: seq<Lifecycle.Event>)
    requires accounts.Valid() && before == promoted + accounts.quarantined
    requires indexed ==> Mirrors(sizes, w, sofar, accounts) && Lifecycle.Begun(sofar) == handed && run.key in w.runs
    requires indexed ==> forall k :: k in promoted ==> k in Promotion.Indexed(w.attempts)
    modifies accounts
    ensures accounts.Valid() && (indexed ==> Mirrors(sizes, w, es, accounts) && Lifecycle.Begun(es) == moves)
    ensures accounted == promoted + accounts.quarantined && old(accounts.quarantined) <= accounts.quarantined
    ensures var tried := Tries(run, indexed, before, was, backstopLimit, apply);
            var stuck := Stuck(run, indexed, before, tried);
            && accounted == before + (if tried && run.writes >= 2 then {run.key} else {})
            && r == Reported(was, tried, run.writes >= 2, stuck, limit)
            && moves == handed + (if apply && !stuck && was.eligible < limit then [run.key] else [])
    ensures !apply ==> accounts.quarantined == old(accounts.quarantined) && accounts.diagnosed == old(accounts.diagnosed)
  {
    accounted, r, moves, es := before, was.(scanned := was.scanned + 1), handed, sofar;
    if indexed && run.key !in accounted {
      var room := apply && r.backstopped + r.backstopFailed < backstopLimit;
      var tried;
      accounted, tried, es := Backstop(run, room, accounts, accounted, sizes, w, es);
      if run.key !in accounted {
        r := r.(backstopFailed := r.backstopFailed + (if tried then 1 else 0), stuck := r.stuck + 1);
        return;
      }
      r := r.(backstopped := r.backstopped + 1);
    }
    var moved := apply && r.eligible < limit;
    r := if r.eligible >= limit then r.(deferred := r.deferred + 1) else r.(eligible := r.eligible + 1);
    if moved {
      moves, es := HandOut(run.key, indexed, moves, accounts, sizes, w, es);
    }
  }

  /** What the first `n` runs of the scan add up to, with the accounts as they are by then. */
  ghost predicate Tallied(runs: seq<Candidate>, n: nat, indexed: bool, at: set<string>, accounted: set<string>, r: Report,
                          moves: seq<string>, limit: nat, backstopLimit: nat, apply: bool)
    requires n <= |runs|
  {
    var ready := Ready(runs[..n], indexed, accounted);
    && moves == (if apply then FirstOf(ready, limit) else [])
    && r.scanned == Offloadable(runs[..n]) && r.eligible == Min(|ready|, limit) && r.deferred == |ready| - r.eligible
    && r.stuck == r.scanned - |ready|
    && r.backstopped + r.backstopFailed == (if indexed && apply then Min(AgedStrays(runs[..n], at), backstopLimit) else 0)
  }

  /** Only aged strays of the scan are newly accounted for. */
  ghost predicate FromStrays(runs: seq<Candidate>, n: nat, at: set<string>, accounted: set<string>)
    requires n <= |runs|
  {
    && at <= accounted
    && forall k :: k in accounted && k !in at ==>
         exists j :: 0 <= j < n && runs[j].key == k && runs[j].offloadable && runs[j].aged && runs[j].writes >= 2
  }

  lemma PrefixGrows(runs: seq<Candidate>, n: nat, indexed: bool, at: set<string>, before: set<string>, accounted: set<string>)
    requires n < |runs| && Listing(runs) && (accounted == before || accounted == before + {runs[n].key})
    ensures runs[..n + 1][..n] == runs[..n] && runs[..n + 1][n] == runs[n]
    ensures Offloadable(runs[..n + 1]) == Offloadable(runs[..n]) + if runs[n].offloadable then 1 else 0
    ensures Ready(runs[..n + 1], indexed, accounted) ==
            Ready(runs[..n], indexed, before) + if runs[n].offloadable && (!indexed || runs[n].key in accounted) then [runs[n].key] else []
    ensures AgedStrays(runs[..n + 1], at) ==
            AgedStrays(runs[..n], at) + if runs[n].offloadable && runs[n].aged && runs[n].key !in at then 1 else 0
  {
    assert runs[..n + 1][..n] == runs[..n];
    if accounted != before {
      ReadyStays(runs[..n], indexed, before, runs[n].key);
    }
  }

  lemma SkippedIsTallied(runs: seq<Candidate>, n: nat, indexed: bool, at: set<string>, accounted: set<string>, r: Report,
                         moves: seq<string>, limit: nat, backstopLimit: nat, apply: bool)
    requires n < |runs| && Listing(runs) && !runs[n].offloadable
    requires Tallied(runs, n, indexed, at, accounted, r, moves, limit, backstopLimit, apply)
    ensures Tallied(runs, n + 1, indexed, at, accounted, r, moves, limit, backstopLimit, apply)
  {
    PrefixGrows(runs, n, indexed, at, accounted, accounted);
  }

  lemma ConsideredIsTallied(runs: seq<Candidate>, n: nat, indexed: bool, at: set<string>, before: set<string>, accounted: set<string>,
                            was: Report, r: Report, handed: seq<string>, moves: seq<string>, limit: nat, backstopLimit: nat, apply: bool)
    requires n < |runs| && Listing(runs) && runs[n].offloadable && FromStrays(runs, n, at, before)
    requires Tallied(runs, n, indexed, at, before, was, handed, limit, backstopLimit, apply)
    requires var tried := Tries(runs[n], indexed, before, was, backstopLimit, apply);
             var stuck := Stuck(runs[n], indexed, before, tried);
             && accounted == before + (if tried && runs[n].writes >= 2 then {runs[n].key} else {})
             && r == Reported(was, tried, runs[n].writes >= 2, stuck, limit)
             && moves == handed + (if apply && !stuck && was.eligible < limit then [runs[n].key] else [])
    ensures Tallied(runs, n + 1, indexed, at, accounted, r, moves, limit, backstopLimit, apply)
    ensures FromStrays(runs, n + 1, at, accounted)
  {
    var ready := Ready(runs[..n], indexed, before);
    PrefixGrows(runs, n, indexed, at, before, accounted);
    assert runs[n].key in before <==> runs[n].key in at;
    assert |ready| < limit ==> FirstOf(ready + [runs[n].key], limit) == FirstOf(ready, limit) + [runs[n].key];
    assert |ready| >= limit ==> FirstOf(ready + [runs[n].key], limit) == FirstOf(ready, limit);
  }

  /**
   The runs handed to the mover are, in scan order, the first `limit` of those accounted for; the rest of them are
   deferred to a later pass, and what nobody accounts for is reported stuck. Aged strays are accounted for while that
   budget lasts; a dry run touches nothing. On an indexed lane the pass is a run of the lifecycle: its quarantines and the
   moves it begins, those handed out and in that order, are all events the world `w` it starts from allows.
   */
  method OffloadLane(runs: seq<Candidate>, indexed: bool, promoted: set<string>, accounts: Accounts, limit: nat,
                     backstopLimit: nat, apply: bool, ghost sizes: Promotion.Sizes, ghost w: Lifecycle.World)
    returns (moves: seq<string>, r: Report, ghost es: seq<Lifecycle.Event>)
    requires accounts.Valid() && Listing(runs)
    requires indexed ==> Mirrors(sizes, w, [], accounts) && forall i :: 0 <= i < |runs| ==> runs[i].key in w.runs
    requires indexed ==> forall k :: k in promoted ==> k in Promotion.Indexed(w.attempts)
    modifies accounts
    ensures accounts.Valid() && old(accounts.quarantined) <= accounts.quarantined
    ensures indexed ==> Mirrors(sizes, w, es, accounts) && Lifecycle.Begun(es) == moves
    ensures Tallied(runs, |runs|, indexed, promoted + old(accounts.quarantined), promoted + accounts.quarantined, r, moves, limit,
                    backstopLimit, apply)
    ensures FromStrays(runs, |runs|, promoted + old(accounts.quarantined), promoted + accounts.quarantined)
    ensures !apply ==> accounts.quarantined == old(accounts.quarantined) && accounts.diagnosed == old(accounts.diagnosed)
  {
    moves, r, es := [], Report(0, 0, 0, 0, 0, 0), [];
    var accounted := promoted + accounts.quarantined;
    ghost var at := accounted;
    assert runs[..0] == [];
    for i := 0 to |runs|
      invariant accounts.Valid() && old(accounts.quarantined) <= accounts.quarantined
      invariant accounted == promoted + accounts.quarantined
      invariant indexed ==> Mirrors(sizes, w, es, accounts) && Lifecycle.Begun(es) == moves
      invariant Tallied(runs, i, indexed, at, accounted, r, moves, limit, backstopLimit, apply)
      invariant FromStrays(runs, i, at, accounted)
      invariant !apply ==> accounts.quarantined == old(accounts.quarantined) && accounts.diagnosed == old(accounts.diagnosed)
    {
      ghost var before, was, handed := accounted, r, moves;
      if runs[i].offloadable {
        accounted, r, moves, es :=
          Consider(runs[i], indexed, promoted, accounts, accounted, limit, backstopLimit, apply, r, moves, sizes, w, es);
        ConsideredIsTallied(runs, i, indexed, at, before, accounted, was, r, handed, moves, limit, backstopLimit, apply);
      } else {
        SkippedIsTallied(runs, i, indexed, at, accounted, r, moves, limit, backstopLimit, apply);
      }
    }
    assert runs[..|runs|] == runs;
  }

  /** What is ready is what it says: each run of the scan that is old enough and accounted for, once and in order. */
  lemma {:induction false} ReadyAre(runs: seq<Candidate>, indexed: bool, accounted: set<string>, key: string)
    ensures key in Ready(runs, indexed, accounted) <==>
            exists i :: 0 <= i < |runs| && runs[i].key == key && runs[i].offloadable && (!indexed || key in accounted)
    ensures |Ready(runs, indexed, accounted)| <= Offloadable(runs)
    ensures |Ready(runs, indexed, accounted)| == Offloadable(runs) <==>
            forall i :: 0 <= i < |runs| && runs[i].offloadable ==> !indexed || runs[i].key in accounted
  {
    if runs != [] {
      var n := |runs| - 1;
      ReadyAre(runs[..n], indexed, accounted, key);
      assert forall i :: 0 <= i < n ==> runs[..n][i] == runs[i];
      if i :| 0 <= i < n && runs[..n][i].key == key && runs[..n][i].offloadable && (!indexed || key in accounted) {
        assert runs[i].key == key;
      }
    }
  }
}
