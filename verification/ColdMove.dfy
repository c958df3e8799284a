/**
 Moving one run directory to the cold archive: copy, verify, rename, re-verify, index, delete. The move is a machine
 whose steps are single file operations, so that it can stop between any two of them, also in the middle of a recursive
 delete, while a late writer keeps appending to the source. Recorded is what the writer ever wrote.
 */
module ColdMove {
  import opened Options

  /** The regular files below a directory, by relative path. */
  type Tree = map<string, seq<nat>>
  type Manifest = map<string, nat>

  datatype Row = Row(files: Manifest, resumed: bool)
  datatype Action = Moved | ResumedDelete | ColdTargetMismatch | CopyVerifyFailed | SourceChangedDuringMove

  /** What the move does next; `m` is the source manifest it took first. */
  datatype Phase =
    | Idle
    | Listed(m: Manifest)
    | Clearing(m: Manifest)
    | Copying(m: Manifest, todo: set<string>)
    | Discarding
    | Verified(m: Manifest)
    | Renamed(m: Manifest)
    | Undoing
    | Indexing(files: Manifest, resumed: bool)
    | Deleting(resumed: bool)

  datatype Archive = Archive(
    hot: Option<Tree>, partial: Option<Tree>, cold: Option<Tree>, rows: seq<Row>, phase: Phase, last: Option<Action>,
    recorded: Tree)

  function ManifestOf(t: Tree): Manifest {
    map p | p in t :: |t[p]|
  }

  /** Every file left in the source still has the size of its cold copy: a delete that was cut short. */
  predicate IsPartialDelete(source: Manifest, cold: Manifest) {
    forall p :: p in source ==> p in cold && cold[p] == source[p]
  }

  function FilesOf(t: Option<Tree>): Tree {
    if t.Some? then t.value else map[]
  }

  function Min(a: nat, b: nat): nat {
    if a <= b then a else b
  }

  // ---- one file operation ----

  /** `path` is the file the operation takes next, in whatever order, and `cut` how much of it a copy gets. */
  function Work(s: Archive, path: string, cut: nat): Archive {
    match s.phase {
      case Idle => s
      case Listed(m) =>
        if s.cold.None? then s.(phase := Clearing(m))
        else
          var cold := ManifestOf(s.cold.value);
          if cold == m || IsPartialDelete(m, cold) then s.(phase := Indexing(cold, true))
          else s.(phase := Idle, last := Some(ColdTargetMismatch))
      case Clearing(m) =>
        if s.partial.None? then s.(partial := Some(map[]), phase := Copying(m, FilesOf(s.hot).Keys))
        else s.(partial := Unlinked(s.partial.value, path))
      case Copying(m, todo) =>
        if todo == {} then
          s.(phase := if ManifestOf(FilesOf(s.partial)) == m then Verified(m) else Discarding)
        else if path in todo && path in FilesOf(s.hot) then
          var data := s.hot.value[path];
          s.(partial := Some(FilesOf(s.partial)[path := data[..Min(cut, |data|)]]), phase := Copying(m, todo - {path}))
        else s
      case Discarding =>
        if s.partial.None? then s.(phase := Idle, last := Some(CopyVerifyFailed))
        else s.(partial := Unlinked(s.partial.value, path))
      case Verified(m) => s.(cold := s.partial, partial := None, phase := Renamed(m))
      case Renamed(m) => s.(phase := if ManifestOf(FilesOf(s.hot)) == m then Indexing(m, false) else Undoing)
      case Undoing =>
        if s.cold.None? then s.(phase := Idle, last := Some(SourceChangedDuringMove))
        else s.(cold := Unlinked(s.cold.value, path))
      case Indexing(files, resumed) => s.(rows := s.rows + [Row(files, resumed)], phase := Deleting(resumed))
      case Deleting(resumed) =>
        if s.hot.None? then s.(phase := Idle, last := Some(if resumed then ResumedDelete else Moved))
        else s.(hot := Unlinked(s.hot.value, path))
    }
  }

  /** A recursive delete removes one file at a time and the directory once it is empty. */
  function Unlinked(t: Tree, path: string): Option<Tree> {
    if t == map[] then None else Some(t - {path})
  }

  // ---- everything that can happen ----

  datatype Event = Begin | Op(path: string, cut: nat) | Append(path: string, data: seq<nat>) | Crash

  /** From the last look at the source until the delete is over (or cut short) nothing may be written. */
  predicate Committed(s: Archive) {
    s.phase.Indexing? || s.phase.Deleting? || (s.phase.Listed? && s.cold.Some?)
  }

  /** Files only grow, and a name that was removed is not written again. */
  predicate MayAppend(s: Archive, path: string) {
    s.hot.Some? && !Committed(s) && (path in s.hot.value || path !in s.recorded)
  }

  function Step(s: Archive, e: Event): Archive {
    match e {
      case Begin => if s.phase.Idle? && s.hot.Some? then s.(phase := Listed(ManifestOf(s.hot.value)), last := None) else s
      case Op(path, cut) => Work(s, path, cut)
      case Append(path, data) =>
        if !MayAppend(s, path) then s
        else
          var now := (if path in s.hot.value then s.hot.value[path] else []) + data;
          s.(hot := Some(s.hot.value[path := now]), recorded := s.recorded[path := now])
      case Crash => s.(phase := Idle, last := None)
    }
  }

  function Run(s: Archive, es: seq<Event>): Archive {
    if es == [] then s else Step(Run(s, es[..|es| - 1]), es[|es| - 1])
  }

  function Fresh(files: Tree): Archive {
    Archive(Some(files), None, None, [], Idle, None, files)
  }

  // ---- what holds in every reachable state ----

  predicate IsPrefix(a: seq<nat>, b: seq<nat>) {
    |a| <= |b| && a == b[..|a|]
  }

  ghost predicate Copies(t: Tree, recorded: Tree) {
    forall p :: p in t ==> p in recorded && IsPrefix(t[p], recorded[p])
  }

  /** The byte-for-byte copy of a file is in the hot tree or in the final cold directory. */
  ghost predicate Held(s: Archive, p: string)
    requires p in s.recorded
  {
    || (p in FilesOf(s.hot) && s.hot.value[p] == s.recorded[p])
    || (p in FilesOf(s.cold) && s.cold.value[p] == s.recorded[p])
  }

  /** Each phase knows how far the source can have moved on from what was listed, and what the copy holds. */
  ghost predicate PhaseOk(s: Archive) {
    match s.phase {
      case Idle => true
      case Listed(m) => s.hot.Some? && (s.cold.Some? ==> m == ManifestOf(s.hot.value))
      case Clearing(m) => s.hot.Some? && s.cold.None?
      case Copying(m, todo) => s.hot.Some? && s.cold.None? && s.partial.Some? && todo <= s.hot.value.Keys
      case Discarding => s.hot.Some? && s.cold.None?
      case Verified(m) => s.hot.Some? && s.cold.None? && s.partial.Some? && ManifestOf(s.partial.value) == m
      case Renamed(m) => s.hot.Some? && s.cold.Some? && s.rows == [] && ManifestOf(s.cold.value) == m
      case Undoing => s.hot.Some? && s.rows == [] && (s.cold.Some? ==> !Matches(s.hot.value, s.cold.value))
      case Indexing(files, _) => s.hot.Some? && s.cold.Some? && ManifestOf(s.cold.value) == files && Matches(s.hot.value, s.cold.value)
      case Deleting(resumed) =>
        s.rows != [] && s.rows[|s.rows| - 1].resumed == resumed && s.cold.Some? && Matches(FilesOf(s.hot), s.cold.value)
    }
  }

  predicate Matches(hot: Tree, cold: Tree) {
    forall p :: p in hot ==> p in cold && |cold[p]| == |hot[p]|
  }

  ghost predicate Inv(s: Archive) {
    && (forall p :: p in FilesOf(s.hot) ==> p in s.recorded && s.hot.value[p] == s.recorded[p])
    && Copies(FilesOf(s.partial), s.recorded) && Copies(FilesOf(s.cold), s.recorded)
    && (forall p :: p in s.recorded && p !in FilesOf(s.hot) ==>
          s.rows != [] && p in FilesOf(s.cold) && s.cold.value[p] == s.recorded[p])
    && (s.hot.None? ==> s.rows != [])
    && (s.rows != [] ==> s.cold.Some?)
    && (forall i :: 0 <= i < |s.rows| ==> s.cold.Some? && s.rows[i].files == ManifestOf(s.cold.value))
    && PhaseOk(s)
  }

  lemma SamePrefixSameContent(a: seq<nat>, b: seq<nat>)
    requires IsPrefix(a, b) && |a| == |b|
    ensures a == b
  {
  }

  /** While nothing is missing from the source, sizes by path agree exactly when the copy covers the source. */
  lemma SameManifestIffMatches(hot: Tree, cold: Tree, recorded: Tree)
    requires hot == recorded && Copies(cold, recorded)
    ensures ManifestOf(hot) == ManifestOf(cold) <==> Matches(hot, cold)
    ensures Matches(hot, cold) ==> hot == cold
  {
    if ManifestOf(hot) == ManifestOf(cold) {
      forall p | p in hot ensures p in cold && |cold[p]| == |hot[p]| {
        assert p in ManifestOf(hot);
      }
    }
    if Matches(hot, cold) {
      forall p | p in hot ensures hot[p] == cold[p] {
        SamePrefixSameContent(cold[p], recorded[p]);
      }
      assert hot.Keys == cold.Keys;
    }
  }

  lemma CopyingKeepsInv(s: Archive, path: string, cut: nat)
    requires Inv(s) && (s.phase.Clearing? || s.phase.Copying? || s.phase.Discarding?)
    ensures Inv(Work(s, path, cut))
  {
  }

  lemma LookingKeepsInv(s: Archive, path: string, cut: nat)
    requires Inv(s) && (s.phase.Listed? || s.phase.Renamed?)
    ensures Inv(Work(s, path, cut))
  {
    if s.phase.Renamed? {
      SameManifestIffMatches(s.hot.value, s.cold.value, s.recorded);
    } else if s.cold.Some? && Work(s, path, cut).phase.Indexing? {
      var cold := ManifestOf(s.cold.value);
      forall p | p in s.hot.value ensures p in s.cold.value && |s.cold.value[p]| == |s.hot.value[p]| {
        assert p in s.phase.m && p in cold;
      }
    }
  }

  lemma DeletingKeepsInv(s: Archive, path: string, cut: nat)
    requires Inv(s) && (s.phase.Verified? || s.phase.Undoing? || s.phase.Indexing? || s.phase.Deleting?)
    ensures Inv(Work(s, path, cut))
  {
  }

  lemma WorkKeepsInv(s: Archive, path: string, cut: nat)
    requires Inv(s)
    ensures Inv(Work(s, path, cut))
  {
    match s.phase {
      case Clearing(_) | Copying(_, _) | Discarding => CopyingKeepsInv(s, path, cut);
      case Listed(_) | Renamed(_) => LookingKeepsInv(s, path, cut);
      case Idle =>
      case _ => DeletingKeepsInv(s, path, cut);
    }
  }

  lemma AppendKeepsPhase(s: Archive, path: string, data: seq<nat>)
    requires Inv(s)
    ensures PhaseOk(Step(s, Append(path, data)))
  {
    if s.phase.Undoing? && s.cold.Some? && MayAppend(s, path) {
      var p :| p in s.hot.value && !(p in s.cold.value && |s.cold.value[p]| == |s.hot.value[p]|);
      assert p in Step(s, Append(path, data)).hot.value;
    }
  }

  lemma AppendKeepsInv(s: Archive, path: string, data: seq<nat>)
    requires Inv(s)
    ensures Inv(Step(s, Append(path, data)))
  {
    AppendKeepsPhase(s, path, data);
  }

  lemma StepKeepsInv(s: Archive, e: Event)
    requires Inv(s)
    ensures Inv(Step(s, e))
  {
    match e {
      case Op(path, cut) => WorkKeepsInv(s, path, cut);
      case Append(path, data) => AppendKeepsInv(s, path, data);
      case _ =>
    }
  }

  lemma {:induction false} RunKeepsInv(s: Archive, es: seq<Event>)
    requires Inv(s)
    ensures Inv(Run(s, es))
  {
    if es != [] {
      RunKeepsInv(s, es[..|es| - 1]);
      StepKeepsInv(Run(s, es[..|es| - 1]), es[|es| - 1]);
    }
  }

  lemma NextOfRun(start: Archive, trace: seq<Event>, s: Archive, e: Event)
    requires Inv(s) && s == Run(start, trace)
    ensures Inv(Step(s, e)) && Step(s, e) == Run(start, trace + [e])
  {
    StepKeepsInv(s, e);
    RunSnoc(start, trace, e);
  }

  /**
   Over any crashes, retries, file orders, short copies and late writes: every recorded byte is held, an index row
   exists before anything is missing from the source, and every row describes the cold copy in place.
   */
  lemma NoByteIsLost(files: Tree, es: seq<Event>)
    ensures var s := Run(Fresh(files), es);
            && (forall p :: p in s.recorded ==> Held(s, p))
            && ((s.hot.None? || exists p :: p in s.recorded && p !in s.hot.value) ==> s.rows != [])
            && (forall i :: 0 <= i < |s.rows| ==> s.cold.Some? && s.rows[i].files == ManifestOf(s.cold.value))
            && (s.hot.None? ==> s.cold == Some(s.recorded))
  {
    RunKeepsInv(Fresh(files), es);
    var s := Run(Fresh(files), es);
    if s.hot.None? {
      assert s.cold.value == s.recorded;
    }
  }

  /** Why nothing may be written after the last look: whatever the delete then reaches has lost the new bytes. */
  lemma WriteDuringDeleteIsLost(s: Archive, path: string, data: seq<nat>, cut: nat)
    requires Inv(s) && s.phase.Deleting? && s.hot.Some? && path in s.hot.value && data != []
    ensures var now := s.hot.value[path] + data;
            var written := s.(hot := Some(s.hot.value[path := now]), recorded := s.recorded[path := now]);
            Held(written, path) && !Held(Work(written, path, cut), path)
  {
  }

  // ---- what a pass reports ----

  /** A report, as long as it stands: moved is moved whole; any refusal leaves the source whole and hot. */
  ghost predicate Reported(s: Archive) {
    s.last.Some? ==>
      && s.phase.Idle?
      && match s.last.value {
           case Moved => s.hot.None? && s.cold == Some(s.recorded) && s.rows != [] && !s.rows[|s.rows| - 1].resumed
           case ResumedDelete => s.hot.None? && s.cold == Some(s.recorded) && s.rows != [] && s.rows[|s.rows| - 1].resumed
           case ColdTargetMismatch => s.hot.Some? && !Resumable(s)
           case CopyVerifyFailed => s.hot == Some(s.recorded) && s.cold.None? && s.partial.None? && s.rows == []
           case SourceChangedDuringMove => s.hot == Some(s.recorded) && s.cold.None? && s.rows == []
         }
  }

  lemma WorkReports(s: Archive, path: string, cut: nat)
    requires Inv(s) && Reported(s)
    ensures Reported(Work(s, path, cut))
  {
    var t := Work(s, path, cut);
    WorkKeepsInv(s, path, cut);
    match s.phase {
      case Discarding | Undoing => CopiesAreNoLarger(s);
      case Deleting(_) =>
        if s.hot.None? {
          assert s.cold.value == s.recorded;
        }
      case Listed(m) =>
        if t.phase.Idle? {
          MismatchIsReal(s, path, cut);
        }
      case _ =>
    }
  }

  lemma MismatchIsReal(s: Archive, path: string, cut: nat)
    requires Inv(s) && s.phase.Listed? && Work(s, path, cut).phase.Idle?
    ensures !Resumable(s)
  {
    var cold := ManifestOf(s.cold.value);
    var p :| p in s.phase.m && !(p in cold && cold[p] == s.phase.m[p]);
    assert p in s.hot.value;
  }

  /** Over every run: what the last pass reported is so, until the next pass begins. */
  lemma {:induction false} ReportsAreTrue(files: Tree, es: seq<Event>)
    ensures Reported(Run(Fresh(files), es))
  {
    if es != [] {
      var n := |es| - 1;
      var s := Run(Fresh(files), es[..n]);
      ReportsAreTrue(files, es[..n]);
      RunKeepsInv(Fresh(files), es[..n]);
      match es[n] {
        case Op(path, cut) => WorkReports(s, path, cut);
        case Append(path, data) =>
          if s.phase.Idle? {
            IdleWriteWedgesIff(s, path, data);
          }
        case _ =>
      }
    }
  }

  // ---- recovery ----

  /** What a caller can check before a pass: a cold directory, if any, has every source file at its size. */
  predicate Resumable(s: Archive) {
    s.cold.Some? ==> Matches(FilesOf(s.hot), s.cold.value)
  }

  /** A crash leaves a run that no pass can finish exactly when it hits a rename not yet re-verified, or its undoing. */
  lemma CrashWedgesIff(s: Archive)
    requires Inv(s)
    ensures !Resumable(Step(s, Crash)) <==>
            match s.phase {
              case Idle | Listed(_) => !Resumable(s)
              case Renamed(m) => ManifestOf(s.hot.value) != m
              case Undoing => s.cold.Some?
              case _ => false
            }
  {
    if s.phase.Renamed? {
      SameManifestIffMatches(s.hot.value, s.cold.value, s.recorded);
    }
  }

  /** A write into a source that waits for its next pass wedges it when a cold directory is already in place. */
  lemma IdleWriteWedgesIff(s: Archive, path: string, data: seq<nat>)
    requires Inv(s) && s.phase.Idle?
    ensures !Resumable(Step(s, Append(path, data))) <==>
            !Resumable(s) || (s.cold.Some? && MayAppend(s, path) && (path !in s.hot.value || data != []))
  {
    if MayAppend(s, path) && s.cold.Some? {
      var next := Step(s, Append(path, data));
      if !Resumable(s) {
        var p :| p in s.hot.value && !(p in s.cold.value && |s.cold.value[p]| == |s.hot.value[p]|);
        assert p in next.hot.value && !(p in s.cold.value && |s.cold.value[p]| == |next.hot.value[p]|);
      } else if path !in s.hot.value || data != [] {
        assert path in next.hot.value && !(path in s.cold.value && |s.cold.value[path]| == |next.hot.value[path]|);
      }
    }
  }

  /** Every way a run can come to be unfinishable, crash included: the source outgrows a cold directory put in place. */
  lemma StepWedgesIff(s: Archive, e: Event)
    requires Inv(s) && Resumable(Step(s, Crash))
    ensures !Resumable(Step(Step(s, e), Crash)) <==>
            match e {
              case Append(path, data) => s.cold.Some? && MayAppend(s, path) && (path !in s.hot.value || data != [])
              case Op(_, _) => s.phase.Verified? && ManifestOf(s.hot.value) != s.phase.m
              case _ => false
            }
  {
    var idle := Step(s, Crash);
    match e {
      case Append(path, data) =>
        IdleWriteWedgesIff(idle, path, data);
        if !MayAppend(s, path) {
        } else {
          assert Step(Step(s, e), Crash) == Step(idle, e);
        }
      case Op(path, cut) => WorkWedgesIff(s, path, cut);
      case _ =>
    }
  }

  lemma WorkWedgesIff(s: Archive, path: string, cut: nat)
    requires Inv(s) && Resumable(Step(s, Crash))
    ensures !Resumable(Step(Work(s, path, cut), Crash)) <==> s.phase.Verified? && ManifestOf(s.hot.value) != s.phase.m
  {
    WorkKeepsInv(s, path, cut);
    if s.phase.Verified? {
      SameManifestIffMatches(s.hot.value, s.partial.value, s.recorded);
    }
  }

  ghost predicate Wedged(s: Archive, cold: Tree) {
    && Inv(s) && (s.phase.Idle? || s.phase.Listed?) && s.hot.Some? && s.cold == Some(cold) && !Matches(s.hot.value, cold)
    && s.last != Some(Moved) && s.last != Some(ResumedDelete)
  }

  /** Some source file is not in the cold copy at its size; that file stays, and only grows. */
  predicate Unmatched(s: Archive, cold: Tree, p: string) {
    s.hot.Some? && p in s.hot.value && !(p in cold && |cold[p]| == |s.hot.value[p]|)
  }

  lemma StaysUnmatched(s: Archive, cold: Tree, p: string, e: Event)
    requires Inv(s) && (s.phase.Idle? || s.phase.Listed?) && s.cold == Some(cold) && Unmatched(s, cold, p)
    ensures Unmatched(Step(s, e), cold, p)
  {
  }

  lemma StaysWedged(s: Archive, cold: Tree, e: Event)
    requires Wedged(s, cold)
    ensures Wedged(Step(s, e), cold)
  {
    StepKeepsInv(s, e);
    var p :| p in s.hot.value && !(p in cold && |cold[p]| == |s.hot.value[p]|);
    StaysUnmatched(s, cold, p, e);
    assert s.phase.Listed? ==> p in ManifestOf(s.hot.value);
    assert p in cold ==> p in ManifestOf(cold);
  }

  /** Such a run stays hot through every later pass, crash and write. */
  lemma {:induction false} WedgedForever(s: Archive, cold: Tree, es: seq<Event>)
    requires Wedged(s, cold)
    ensures Wedged(Run(s, es), cold)
  {
    if es != [] {
      WedgedForever(s, cold, es[..|es| - 1]);
      StaysWedged(Run(s, es[..|es| - 1]), cold, es[|es| - 1]);
    }
  }

  function GrowsThenCrashes(): seq<Event> {
    [Begin, Op("a", 0), Op("a", 0), Op("a", 1), Op("a", 0), Op("a", 0), Append("a", [2]), Crash]
  }

  lemma RunSnoc(s: Archive, es: seq<Event>, e: Event)
    ensures Run(s, es + [e]) == Step(Run(s, es), e)
  {
    assert (es + [e])[..|es|] == es;
  }

  const ONE: Tree := map["a" := [1]]
  const LISTED: Manifest := map["a" := 1]

  function Stage(n: nat): Archive {
    var s0 := Fresh(ONE);
    if n == 0 then s0
    else if n == 1 then s0.(phase := Listed(LISTED))
    else if n == 2 then s0.(phase := Clearing(LISTED))
    else if n == 3 then s0.(partial := Some(map[]), phase := Copying(LISTED, {"a"}))
    else if n == 4 then s0.(partial := Some(ONE), phase := Copying(LISTED, {}))
    else if n == 5 then s0.(partial := Some(ONE), phase := Verified(LISTED))
    else if n == 6 then s0.(cold := Some(ONE), phase := Renamed(LISTED))
    else
      var grown: Tree := map["a" := [1, 2]];
      Archive(Some(grown), None, Some(ONE), [], if n == 7 then Renamed(LISTED) else Idle, None, grown)
  }

  lemma CopyStages(n: nat)
    requires n < 5
    ensures Step(Stage(n), GrowsThenCrashes()[n]) == Stage(n + 1)
  {
    var none: Tree := map[];
    assert ManifestOf(ONE) == LISTED && ONE.Keys == {"a"};
    assert [1][..1] == [1] && {"a"} - {"a"} == {} && none["a" := [1]] == ONE;
  }

  lemma LateStages(n: nat)
    requires 5 <= n < 8
    ensures Step(Stage(n), GrowsThenCrashes()[n]) == Stage(n + 1)
  {
    var grown: Tree := map["a" := [1, 2]];
    assert [1] + [2] == [1, 2] && ONE["a" := [1, 2]] == grown;
  }

  /** A late write and a crash between the rename and the re-verify: from then on the move never completes. */
  lemma CrashAfterRenameWedges(later: seq<Event>)
    ensures Wedged(Run(Fresh(ONE), GrowsThenCrashes()), ONE)
    ensures Run(Run(Fresh(ONE), GrowsThenCrashes()), later).hot.Some?
  {
    var es := GrowsThenCrashes();
    forall n: nat | n < 8 ensures Run(Fresh(ONE), es[..n + 1]) == Step(Run(Fresh(ONE), es[..n]), es[n]) {
      assert es[..n + 1] == es[..n] + [es[n]];
      RunSnoc(Fresh(ONE), es[..n], es[n]);
    }
    var n: nat := 0;
    while n < 8
      invariant n <= 8 && Run(Fresh(ONE), es[..n]) == Stage(n)
    {
      if n < 5 { CopyStages(n); } else { LateStages(n); }
      n := n + 1;
    }
    assert es[..8] == es;
    RunKeepsInv(Fresh(ONE), es);
    assert "a" in Stage(8).hot.value && |ONE["a"]| != |Stage(8).hot.value["a"]|;
    WedgedForever(Stage(8), ONE, later);
  }

  // ---- a quiet source ----

  /** With no write since the pass began, what was listed is what is there. */
  ghost predicate Quiet(s: Archive) {
    match s.phase {
      case Idle => Resumable(s)
      case Listed(m) => Resumable(s) && m == ManifestOf(FilesOf(s.hot))
      case Clearing(m) => m == ManifestOf(FilesOf(s.hot))
      case Copying(m, todo) => m == ManifestOf(FilesOf(s.hot))
      case Verified(m) => m == ManifestOf(FilesOf(s.hot))
      case Renamed(m) => m == ManifestOf(FilesOf(s.hot))
      case Undoing => false
      case _ => true
    }
  }

  lemma QuietStep(s: Archive, e: Event)
    requires Inv(s) && Quiet(s) && !e.Append?
    ensures Quiet(Step(s, e))
  {
    if s.phase.Renamed? {
      SameManifestIffMatches(s.hot.value, s.cold.value, s.recorded);
    }
    if s.phase.Listed? && s.cold.Some? {
      forall p | p in s.hot.value ensures p in ManifestOf(s.cold.value) && ManifestOf(s.cold.value)[p] == s.phase.m[p] {
      }
    }
  }

  /** Any crashes and retries over a quiet source leave a run the next pass can finish. */
  lemma {:induction false} QuietRunsStayResumable(s: Archive, es: seq<Event>)
    requires Inv(s) && Quiet(s) && forall i :: 0 <= i < |es| ==> !es[i].Append?
    ensures Quiet(Run(s, es)) && Resumable(Step(Run(s, es), Crash))
  {
    RunKeepsInv(s, es);
    if es != [] {
      var n := |es| - 1;
      QuietRunsStayResumable(s, es[..n]);
      RunKeepsInv(s, es[..n]);
      QuietStep(Run(s, es[..n]), es[n]);
    }
    CrashWedgesIff(Run(s, es));
  }

  // ---- a pass that is not interrupted ----

  /** The operation takes a file that is there, and a copy takes all of it. */
  predicate Productive(s: Archive, e: Event) {
    && e.Op?
    && match s.phase {
         case Clearing(_) => FilesOf(s.partial) == map[] || e.path in FilesOf(s.partial)
         case Copying(_, todo) => todo == {} || (e.path in todo && e.path in FilesOf(s.hot) && |s.hot.value[e.path]| <= e.cut)
         case Deleting(_) => FilesOf(s.hot) == map[] || e.path in FilesOf(s.hot)
         case _ => true
       }
  }

  function Left(t: Option<Tree>): nat {
    if t.Some? then 1 + |t.value.Keys| else 0
  }

  /** File operations still to do. */
  function Remaining(s: Archive): nat {
    match s.phase {
      case Idle => 0
      case Listed(_) => if s.cold.Some? then 3 + Left(s.hot) else 7 + Left(s.partial) + 2 * Left(s.hot)
      case Clearing(_) => 6 + Left(s.partial) + 2 * Left(s.hot)
      case Copying(_, todo) => 5 + |todo| + Left(s.hot)
      case Verified(_) => 4 + Left(s.hot)
      case Renamed(_) => 3 + Left(s.hot)
      case Indexing(_, _) => 2 + Left(s.hot)
      case Deleting(_) => 1 + Left(s.hot)
      case Discarding => 1 + Left(s.partial)
      case Undoing => 1 + Left(s.cold)
    }
  }

  /** The operation takes a file that is there, if its phase takes any; a copy may be cut short. */
  predicate Advances(s: Archive, path: string) {
    match s.phase {
      case Idle => false
      case Clearing(_) => FilesOf(s.partial) == map[] || path in FilesOf(s.partial)
      case Discarding => FilesOf(s.partial) == map[] || path in FilesOf(s.partial)
      case Copying(_, todo) => todo == {} || (path in todo && path in FilesOf(s.hot))
      case Undoing => FilesOf(s.cold) == map[] || path in FilesOf(s.cold)
      case Deleting(_) => FilesOf(s.hot) == map[] || path in FilesOf(s.hot)
      case _ => true
    }
  }

  lemma SubsetFits<T>(a: set<T>, b: set<T>)
    requires a <= b
    ensures |a| <= |b|
  {
    assert b == a + (b - a);
  }

  /** Before anything is recorded the source is whole, and no copy has more files. */
  lemma CopiesAreNoLarger(s: Archive)
    requires Inv(s) && s.rows == []
    ensures s.hot == Some(s.recorded) && Left(s.partial) <= Left(s.hot) && Left(s.cold) <= Left(s.hot)
  {
    assert s.hot.value.Keys == s.recorded.Keys;
    assert s.hot.value == s.recorded;
    SubsetFits(FilesOf(s.partial).Keys, s.recorded.Keys);
    SubsetFits(FilesOf(s.cold).Keys, s.recorded.Keys);
  }

  /** Whatever was written meanwhile, every operation leaves fewer to do, on the way to a refusal too. */
  lemma WorkLeavesLess(s: Archive, path: string, cut: nat)
    requires Inv(s) && Advances(s, path)
    ensures Remaining(Work(s, path, cut)) < Remaining(s)
  {
    if s.phase.Discarding? || s.phase.Undoing? || s.phase.Deleting? {
      RemovalLeavesLess(s, path, cut);
    } else if s.phase.Clearing? {
      UnlinkingLeavesLess(FilesOf(s.partial), path);
    } else if s.phase.Copying? || s.phase.Renamed? {
      CopiesAreNoLarger(s);
    }
  }

  lemma RemovalLeavesLess(s: Archive, path: string, cut: nat)
    requires Advances(s, path) && (s.phase.Discarding? || s.phase.Undoing? || s.phase.Deleting?)
    ensures Remaining(Work(s, path, cut)) < Remaining(s)
  {
    match s.phase {
      case Discarding => UnlinkingLeavesLess(FilesOf(s.partial), path);
      case Undoing => UnlinkingLeavesLess(FilesOf(s.cold), path);
      case _ => UnlinkingLeavesLess(FilesOf(s.hot), path);
    }
  }

  lemma SomethingRemains(s: Archive)
    requires !s.phase.Idle?
    ensures Remaining(s) > 0
  {
  }

  /** A write costs at most the copy and the removal of one more file. */
  lemma WriteCostsTwo(s: Archive, path: string, data: seq<nat>)
    ensures Remaining(Step(s, Append(path, data))) <= Remaining(s) + 2
  {
    if MayAppend(s, path) {
      OneMoreFile(s.hot.value, path, Step(s, Append(path, data)).hot.value[path]);
    }
  }

  lemma OneMoreFile(t: Tree, path: string, data: seq<nat>)
    ensures Left(Some(t[path := data])) <= Left(Some(t)) + 1
  {
    assert t[path := data].Keys == t.Keys + {path};
  }

  /** Copied so far: whole files, and the rest is still to do. */
  ghost predicate OnCourse(s: Archive) {
    && Inv(s) && Quiet(s) && !s.phase.Discarding?
    && (s.phase.Copying? ==>
          s.phase.todo + s.partial.value.Keys == s.hot.value.Keys
          && forall p :: p in s.partial.value ==> p in s.hot.value && s.partial.value[p] == s.hot.value[p])
    && (s.phase.Idle? ==> s.hot.None? && (s.last == Some(Moved) || s.last == Some(ResumedDelete)))
  }

  lemma UnlinkingLeavesLess(t: Tree, path: string)
    requires t != map[] ==> path in t
    ensures Left(Unlinked(t, path)) == |t.Keys|
  {
    if t != map[] {
      assert (t - {path}).Keys == t.Keys - {path};
    }
  }

  lemma CopyEndsOnCourse(s: Archive, path: string, cut: nat)
    requires OnCourse(s) && s.phase.Copying? && s.phase.todo == {}
    ensures OnCourse(Work(s, path, cut)) && Remaining(Work(s, path, cut)) < Remaining(s)
  {
    WorkKeepsInv(s, path, cut);
    assert s.partial.value == s.hot.value;
  }

  lemma CopyStaysOnCourse(s: Archive, path: string, cut: nat)
    requires OnCourse(s) && s.phase.Copying? && s.phase.todo != {} && Productive(s, Op(path, cut))
    ensures OnCourse(Work(s, path, cut)) && Remaining(Work(s, path, cut)) < Remaining(s)
  {
    WorkKeepsInv(s, path, cut);
    assert s.hot.value[path][..|s.hot.value[path]|] == s.hot.value[path];
  }

  lemma ListingFindsTheWayOn(s: Archive)
    requires Inv(s) && Quiet(s) && s.phase.Listed?
    ensures !Work(s, "", 0).phase.Idle?
  {
    if s.cold.Some? {
      forall p | p in s.phase.m ensures p in ManifestOf(s.cold.value) && ManifestOf(s.cold.value)[p] == s.phase.m[p] {
        assert p in s.hot.value;
      }
    }
  }

  lemma ClearLeavesLess(s: Archive, path: string, cut: nat)
    requires s.phase.Clearing? && Productive(s, Op(path, cut))
    ensures Remaining(Work(s, path, cut)) < Remaining(s)
  {
    UnlinkingLeavesLess(FilesOf(s.partial), path);
  }

  lemma ClearStaysOnCourse(s: Archive, path: string, cut: nat)
    requires OnCourse(s) && s.phase.Clearing? && Productive(s, Op(path, cut))
    ensures OnCourse(Work(s, path, cut)) && Remaining(Work(s, path, cut)) < Remaining(s)
  {
    CopyingKeepsInv(s, path, cut);
    ClearLeavesLess(s, path, cut);
  }

  lemma DeleteStaysOnCourse(s: Archive, path: string, cut: nat)
    requires OnCourse(s) && s.phase.Deleting? && Productive(s, Op(path, cut))
    ensures OnCourse(Work(s, path, cut)) && Remaining(Work(s, path, cut)) < Remaining(s)
  {
    WorkKeepsInv(s, path, cut);
    UnlinkingLeavesLess(FilesOf(s.hot), path);
  }

  lemma StaysOnCourse(s: Archive, e: Event)
    requires OnCourse(s) && Productive(s, e)
    ensures OnCourse(Step(s, e)) && (s.phase.Idle? || Remaining(Step(s, e)) < Remaining(s))
  {
    if s.phase.Copying? && s.phase.todo == {} {
      CopyEndsOnCourse(s, e.path, e.cut);
    } else if s.phase.Copying? {
      CopyStaysOnCourse(s, e.path, e.cut);
    } else if s.phase.Clearing? {
      ClearStaysOnCourse(s, e.path, e.cut);
    } else if s.phase.Deleting? {
      DeleteStaysOnCourse(s, e.path, e.cut);
    } else {
      StepKeepsInv(s, e);
      QuietStep(s, e);
      if s.phase.Listed? {
        ListingFindsTheWayOn(s);
      }
    }
  }

  ghost predicate AllProductive(s: Archive, es: seq<Event>) {
    forall i :: 0 <= i < |es| ==> Productive(Run(s, es[..i]), es[i])
  }

  lemma {:induction false} CourseRunsOut(s: Archive, es: seq<Event>)
    requires OnCourse(s) && AllProductive(s, es)
    ensures OnCourse(Run(s, es)) && (Run(s, es).phase.Idle? || Remaining(Run(s, es)) + |es| <= Remaining(s))
  {
    if es != [] {
      var n := |es| - 1;
      forall i | 0 <= i < n ensures Productive(Run(s, es[..n][..i]), es[..n][i]) {
        assert es[..n][..i] == es[..i];
      }
      CourseRunsOut(s, es[..n]);
      StaysOnCourse(Run(s, es[..n]), es[n]);
    }
  }

  lemma {:induction false} IdleStaysIdle(s: Archive, es: seq<Event>)
    requires s.phase.Idle? && forall i :: 0 <= i < |es| ==> es[i].Op?
    ensures Run(s, es) == s
  {
    if es != [] {
      IdleStaysIdle(s, es[..|es| - 1]);
    }
  }

  lemma {:induction false} RunSplit(s: Archive, es: seq<Event>, k: nat)
    requires k <= |es|
    ensures Run(s, es) == Run(Run(s, es[..k]), es[k..])
  {
    if k == |es| {
      assert es[..k] == es;
    } else {
      var n := |es| - 1;
      assert es[..n][..k] == es[..k] && es[..n][k..] == es[k..][..n - k];
      RunSplit(s, es[..n], k);
    }
  }

  lemma {:induction false} OperationsRecordNothing(s: Archive, es: seq<Event>)
    requires forall i :: 0 <= i < |es| ==> es[i].Op?
    ensures Run(s, es).recorded == s.recorded
  {
    if es != [] {
      OperationsRecordNothing(s, es[..|es| - 1]);
    }
  }

  ghost predicate Completed(s: Archive) {
    && s.phase.Idle? && s.hot.None? && s.cold == Some(s.recorded) && s.rows != []
    && (s.last == Some(Moved) || s.last == Some(ResumedDelete))
  }

  /**
   One uninterrupted pass over a quiet source, from whatever an earlier crash left: it completes exactly when the run
   is resumable, and otherwise reports the mismatch and changes nothing.
   */
  lemma PassCompletesIff(s: Archive, es: seq<Event>)
    requires Inv(s) && s.phase.Idle? && s.hot.Some?
    requires var b := Step(s, Begin); AllProductive(b, es) && Remaining(b) <= |es|
    ensures var t := Run(Step(s, Begin), es);
            && t.recorded == s.recorded && (Completed(t) <==> Resumable(s))
            && (!Resumable(s) ==> t == s.(last := Some(ColdTargetMismatch)))
  {
    var b := Step(s, Begin);
    forall i | 0 <= i < |es| ensures es[i].Op? {
      assert Productive(Run(b, es[..i]), es[i]);
    }
    OperationsRecordNothing(b, es);
    if Resumable(s) {
      ResumablePassCompletes(s, es);
    } else {
      MismatchEndsThePass(s, es);
    }
  }

  lemma ResumablePassCompletes(s: Archive, es: seq<Event>)
    requires Inv(s) && s.phase.Idle? && s.hot.Some? && Resumable(s)
    requires var b := Step(s, Begin); AllProductive(b, es) && Remaining(b) <= |es|
    ensures Completed(Run(Step(s, Begin), es))
  {
    BeginIsOnCourse(s);
    CourseRunsOut(Step(s, Begin), es);
    CourseEndsComplete(Run(Step(s, Begin), es));
  }

  lemma BeginIsOnCourse(s: Archive)
    requires Inv(s) && s.phase.Idle? && s.hot.Some? && Resumable(s)
    ensures OnCourse(Step(s, Begin))
  {
    StepKeepsInv(s, Begin);
  }

  lemma CourseEndsComplete(t: Archive)
    requires OnCourse(t) && (t.phase.Idle? || Remaining(t) <= 0)
    ensures Completed(t)
  {
    assert t.cold.value == t.recorded;
  }

  lemma MismatchFound(s: Archive, path: string, cut: nat)
    requires Inv(s) && s.phase.Idle? && s.hot.Some? && !Resumable(s)
    ensures Work(Step(s, Begin), path, cut) == s.(last := Some(ColdTargetMismatch))
  {
    var m := ManifestOf(s.hot.value);
    var p :| p in s.hot.value && !(p in s.cold.value && |s.cold.value[p]| == |s.hot.value[p]|);
    assert p in m && (p in s.cold.value ==> p in ManifestOf(s.cold.value));
    assert !IsPartialDelete(m, ManifestOf(s.cold.value));
  }

  lemma MismatchEndsThePass(s: Archive, es: seq<Event>)
    requires Inv(s) && s.phase.Idle? && s.hot.Some? && !Resumable(s)
    requires es != [] && forall i :: 0 <= i < |es| ==> es[i].Op?
    ensures Run(Step(s, Begin), es) == s.(last := Some(ColdTargetMismatch))
  {
    var b := Step(s, Begin);
    MismatchFound(s, es[0].path, es[0].cut);
    assert es[..1] == [] + [es[0]];
    RunSnoc(b, [], es[0]);
    RunSplit(b, es, 1);
    IdleStaysIdle(s.(last := Some(ColdTargetMismatch)), es[1..]);
  }

  /** Whatever interrupted earlier passes, once the source is quiet one uninterrupted pass ends the move. */
  lemma QuietMoveRecovers(s: Archive, es: seq<Event>, pass: seq<Event>)
    requires Inv(s) && s.phase.Idle? && Resumable(s) && forall i :: 0 <= i < |es| ==> !es[i].Append?
    requires var c := Step(Run(s, es), Crash);
             c.hot.Some? ==> AllProductive(Step(c, Begin), pass) && Remaining(Step(c, Begin)) <= |pass|
    ensures var c := Step(Run(s, es), Crash);
            if c.hot.Some? then Completed(Run(Step(c, Begin), pass)) else c.rows != [] && c.cold == Some(c.recorded)
  {
    QuietRunsStayResumable(s, es);
    RunKeepsInv(s, es);
    var c := Step(Run(s, es), Crash);
    StepKeepsInv(Run(s, es), Crash);
    if c.hot.Some? {
      PassCompletesIff(c, pass);
    } else {
      assert c.cold.value == c.recorded;
    }
  }
}
