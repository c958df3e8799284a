/**
 A run of an indexed lane from its first file to its cold copy, across promotion, quarantine and offload. The
 offloader starts to move a run only when an index accounts for it; whatever crashes in between, a run missing a hot
 file is accounted for, and what the account promises is true.
 */
module Lifecycle {
  import opened Options
  import Promotion
  import ColdMove

  /** Per run: its files and their move. Shared: promotion attempts, diagnostics written, quarantine rows. */
  datatype World = World(runs: map<string, ColdMove.Archive>, attempts: seq<Promotion.Attempt>, diagnosed: set<string>,
                         quarantined: set<string>)

  /** `Quarantine` writes its diagnostics first; `whole` is false when it dies before its index row. */
  datatype Event =
    | Promote(attempt: Promotion.Attempt)
    | Quarantine(key: string, whole: bool)
    | Move(key: string, step: ColdMove.Event)

  predicate Accounted(w: World, key: string) {
    key in Promotion.Indexed(w.attempts) || key in w.quarantined
  }

  /** A move begins only on an accounted run; a promotion only when the run is in no promotion index yet. */
  ghost predicate Enabled(sizes: Promotion.Sizes, w: World, e: Event) {
    match e {
      case Promote(a) => Promotion.AttemptOk(sizes, a) && a.key !in Promotion.Indexed(w.attempts)
      case Quarantine(_, _) => true
      case Move(key, step) => key in w.runs && (step.Begin? ==> Accounted(w, key))
    }
  }

  ghost function Step(sizes: Promotion.Sizes, w: World, e: Event): World {
    if !Enabled(sizes, w, e) then w
    else
      match e {
        case Promote(a) => w.(attempts := w.attempts + [a])
        case Quarantine(key, whole) =>
          w.(diagnosed := w.diagnosed + {key}, quarantined := if whole then w.quarantined + {key} else w.quarantined)
        case Move(key, step) => w.(runs := w.runs[key := ColdMove.Step(w.runs[key], step)])
      }
  }

  ghost function Run(sizes: Promotion.Sizes, w: World, es: seq<Event>): World {
    if es == [] then w else Step(sizes, Run(sizes, w, es[..|es| - 1]), es[|es| - 1])
  }

  /** No event of the run is one the world had to ignore. */
  ghost predicate EveryStepEnabled(sizes: Promotion.Sizes, w: World, es: seq<Event>) {
    es == []
    || (EveryStepEnabled(sizes, w, es[..|es| - 1]) && Enabled(sizes, Run(sizes, w, es[..|es| - 1]), es[|es| - 1]))
  }

  /** The runs whose moves are begun, in order. */
  function Begun(es: seq<Event>): seq<string> {
    if es == [] then []
    else
      var e := es[|es| - 1];
      Begun(es[..|es| - 1]) + if e.Move? && e.step.Begin? then [e.key] else []
  }

  lemma Extend(sizes: Promotion.Sizes, w: World, es: seq<Event>, e: Event)
    ensures Run(sizes, w, es + [e]) == Step(sizes, Run(sizes, w, es), e)
    ensures EveryStepEnabled(sizes, w, es + [e]) <==> EveryStepEnabled(sizes, w, es) && Enabled(sizes, Run(sizes, w, es), e)
    ensures Begun(es + [e]) == Begun(es) + if e.Move? && e.step.Begin? then [e.key] else []
  {
    assert (es + [e])[..|es|] == es;
  }

  ghost predicate Fresh(w: World) {
    && w.attempts == [] && w.diagnosed == {} && w.quarantined == {}
    && forall key :: key in w.runs ==> w.runs[key] == ColdMove.Fresh(w.runs[key].recorded)
  }

  ghost predicate Inv(sizes: Promotion.Sizes, w: World) {
    && Promotion.WellFormed(sizes, w.attempts) && w.quarantined <= w.diagnosed
    && (forall key :: key in w.runs ==> ColdMove.Inv(w.runs[key]))
    && (forall key :: key in w.runs && (!w.runs[key].phase.Idle? || w.runs[key].rows != []) ==> Accounted(w, key))
  }

  lemma PromotionKeeps(sizes: Promotion.Sizes, w: World, a: Promotion.Attempt)
    requires Inv(sizes, w) && Enabled(sizes, w, Promote(a))
    ensures Inv(sizes, Step(sizes, w, Promote(a)))
  {
    var next := Step(sizes, w, Promote(a));
    Promotion.IndexedHas(w.attempts, a.key);
    assert next.attempts[..|w.attempts|] == w.attempts;
    forall key | Accounted(w, key) ensures Accounted(next, key) {
    }
  }

  lemma StepKeeps(sizes: Promotion.Sizes, w: World, e: Event)
    requires Inv(sizes, w)
    ensures Inv(sizes, Step(sizes, w, e))
  {
    if Enabled(sizes, w, e) {
      match e {
        case Promote(a) => PromotionKeeps(sizes, w, a);
        case Quarantine(key, whole) =>
          forall k | Accounted(w, k) ensures Accounted(Step(sizes, w, e), k) {
          }
        case Move(key, step) => MoveKeeps(sizes, w, key, step);
      }
    }
  }

  lemma MoveKeeps(sizes: Promotion.Sizes, w: World, key: string, step: ColdMove.Event)
    requires Inv(sizes, w) && Enabled(sizes, w, Move(key, step))
    ensures Inv(sizes, Step(sizes, w, Move(key, step)))
  {
    ColdMove.StepKeepsInv(w.runs[key], step);
    if w.runs[key].phase.Idle? && !step.Begin? {
      RowsComeFromMoves(w.runs[key], step);
    }
    var next := Step(sizes, w, Move(key, step));
    forall k | k in next.runs && (!next.runs[k].phase.Idle? || next.runs[k].rows != []) ensures Accounted(next, k) {
      assert Accounted(next, k) == Accounted(w, k);
    }
  }

  lemma RowsComeFromMoves(a: ColdMove.Archive, step: ColdMove.Event)
    requires a.phase.Idle? && !step.Begin?
    ensures ColdMove.Step(a, step).phase.Idle? && ColdMove.Step(a, step).rows == a.rows
  {
  }

  lemma {:induction false} RunKeeps(sizes: Promotion.Sizes, w: World, es: seq<Event>)
    requires Inv(sizes, w)
    ensures Inv(sizes, Run(sizes, w, es))
  {
    if es != [] {
      RunKeeps(sizes, w, es[..|es| - 1]);
      StepKeeps(sizes, Run(sizes, w, es[..|es| - 1]), es[|es| - 1]);
    }
  }

  ghost predicate MissesAFile(a: ColdMove.Archive) {
    a.hot.None? || exists p :: p in a.recorded && p !in a.hot.value
  }

  /**
   In every reachable state a run missing any hot file has an offload row, a verified cold copy of all that is missing,
   and a promotion or quarantine row: the one with all its clean rows in the curated dataset, the other with its
   diagnostics written.
   */
  lemma MissingMeansAccounted(sizes: Promotion.Sizes, w: World, es: seq<Event>, key: string)
    requires Fresh(w) && key in Run(sizes, w, es).runs
    requires MissesAFile(Run(sizes, w, es).runs[key])
    ensures var t := Run(sizes, w, es);
            var a := t.runs[key];
            && a.rows != [] && a.cold.Some?
            && (forall p :: p in a.recorded && p !in ColdMove.FilesOf(a.hot) ==>
                  p in a.cold.value && a.cold.value[p] == a.recorded[p])
            && (key in Promotion.Indexed(t.attempts) || (key in t.quarantined && key in t.diagnosed))
            && (key in Promotion.Indexed(t.attempts) ==>
                  forall k: nat :: k < sizes(key) ==>
                    Promotion.Count(Promotion.AllLanded(t.attempts), Promotion.Row(key, k)) >= 1)
  {
    forall k | k in w.runs ensures ColdMove.Inv(w.runs[k]) {
    }
    RunKeeps(sizes, w, es);
    var t := Run(sizes, w, es);
    if key in Promotion.Indexed(t.attempts) {
      Promotion.PromotedOnceIff(sizes, t.attempts, key);
    }
  }
}
