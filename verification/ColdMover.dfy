/**
 The move as the offloader performs it: an object whose directory trees and index change file by file. Before every
 file operation a scripted gap lets the late writer append; when the gaps run out the process dies. Each operation is
 one step of the machine in `ColdMove`, so every state the mover can be left in is a state of a machine run.
 */
module ColdMover {
  import opened Options
  import opened ColdMove

  datatype Write = Write(path: string, data: seq<nat>)

  /** What happens before a file operation, and how much of a file a copy gets (all of it, unless told). */
  datatype Gap = Gap(writes: seq<Write>, cut: Option<nat>)

  predicate Still(gaps: seq<Gap>) {
    forall i :: 0 <= i < |gaps| ==> gaps[i] == Gap([], None)
  }

  function Writes(gaps: seq<Gap>): nat {
    if gaps == [] then 0 else |gaps[0].writes| + Writes(gaps[1..])
  }

  lemma {:induction false} StillWritesNothing(gaps: seq<Gap>)
    requires Still(gaps)
    ensures Writes(gaps) == 0
  {
    if gaps != [] {
      StillWritesNothing(gaps[1..]);
    }
  }

  /** File operations done in a trace. */
  function Ops(trace: seq<Event>): nat {
    if trace == [] then 0 else Ops(trace[..|trace| - 1]) + if trace[|trace| - 1].Op? then 1 else 0
  }

  lemma OpsSnoc(trace: seq<Event>, e: Event)
    ensures Ops(trace + [e]) == Ops(trace) + if e.Op? then 1 else 0
  {
    assert (trace + [e])[..|trace|] == trace;
  }

  class Mover {
    var hot: Option<Tree>
    var partial: Option<Tree>
    var cold: Option<Tree>
    var rows: seq<Row>
    var gaps: seq<Gap>
    ghost var phase: Phase
    ghost var last: Option<Action>
    ghost var recorded: Tree
    ghost var start: Archive
    ghost var trace: seq<Event>
    ghost var course: bool
    ghost var funded: bool
    ghost var paid: nat

    ghost function View(): Archive
      reads this
    {
      Archive(hot, partial, cold, rows, phase, last, recorded)
    }

    /** The state is that of a machine run; a pass over a still source of a resumable run is on course. */
    ghost predicate Valid()
      reads this
    {
      && Inv(View()) && View() == Run(start, trace)
      && (course ==> OnCourse(View()) && Still(gaps) && funded)
    }

    /**
     Every gap used up since the pass began, but for the one in hand, has been one file operation. A funded pass has
     gaps left for what is still to do, and for the files that may still be written.
     */
    ghost predicate Funded(credit: nat)
      reads this
    {
      && Ops(trace) + |gaps| + credit == paid
      && (funded ==> Remaining(View()) + 2 * Writes(gaps) <= |gaps| + credit)
    }

    /** The same pass of the same run. */
    twostate predicate SamePass()
      reads this
    {
      start == old(start) && course == old(course) && funded == old(funded) && paid == old(paid)
    }

    constructor (files: Tree, gaps: seq<Gap>)
      ensures Valid() && View() == start == Fresh(files) && trace == [] && this.gaps == gaps && !course
    {
      hot, partial, cold, rows := Some(files), None, None, [];
      phase, last, recorded, start, trace, course := Idle, None, files, Fresh(files), [], false;
      funded, paid := false, 0;
      this.gaps := gaps;
    }

    /** The writer appends to a file of the source, or starts a new one. */
    method LetWrite(w: Write)
      requires Valid() && !course && hot.Some? && !Committed(View()) && hot.value.Keys == recorded.Keys
      modifies this`hot, this`recorded, this`trace
      ensures Valid() && hot.Some? && hot.value.Keys == recorded.Keys && trace == old(trace) + [Append(w.path, w.data)]
      ensures Ops(trace) == Ops(old(trace)) && Remaining(View()) <= old(Remaining(View())) + 2
    {
      WriteCostsTwo(View(), w.path, w.data);
      OpsSnoc(trace, Append(w.path, w.data));
      NextOfRun(start, trace, View(), Append(w.path, w.data));
      var now := (if w.path in hot.value then hot.value[w.path] else []) + w.data;
      hot := Some(hot.value[w.path := now]);
      recorded := recorded[w.path := now];
      trace := trace + [Append(w.path, w.data)];
    }

    /** The process is dead: it had run out of gaps, and had done as many file operations as it was given. */
    ghost predicate Died()
      reads this
    {
      phase.Idle? && last.None? && !course && !funded && gaps == [] && Ops(trace) == paid
    }

    /** The pass is over; it goes unanswered only if it ran out of gaps. */
    ghost predicate Answers(action: Option<Action>)
      reads this
    {
      && phase.Idle? && last == action && (funded ==> action.Some?) && (course ==> funded)
      && (action.None? ==> gaps == [] && Ops(trace) == paid)
    }

    /** Nothing was recorded and no copy is left: the source is whole, and a later pass starts afresh. */
    ghost predicate Refused()
      reads this
    {
      hot == Some(recorded) && partial.None? && cold.None? && rows == []
    }

    ghost method Die()
      requires Valid() && !funded && gaps == [] && Ops(trace) == paid
      modifies this`trace, this`phase, this`last
      ensures Valid() && Died()
    {
      OpsSnoc(trace, Crash);
      NextOfRun(start, trace, View(), Crash);
      phase, last, trace := Idle, None, trace + [Crash];
    }

    /** Before a file operation: nothing more to run on means the process dies here; otherwise the writer has its turn. */
    method Tick(writable: bool) returns (alive: bool, cut: Option<nat>)
      requires Valid() && Funded(0) && !phase.Idle? && (writable ==> !Committed(View()) && rows == [] && hot.Some?)
      modifies this`hot, this`recorded, this`trace, this`gaps, this`phase, this`last
      ensures Valid() && SamePass() && Funded(if alive then 1 else 0) && (course ==> alive && cut.None?)
      ensures hot.Some? == old(hot.Some?) && (!writable ==> hot == old(hot))
      ensures if alive then phase == old(phase) && last == old(last) else Died()
      ensures alive <==> old(gaps) != []
      ensures alive ==> gaps == old(gaps[1..]) && cut == old(gaps[0].cut)
                        && |trace| == |old(trace)| + if writable then |old(gaps[0].writes)| else 0
    {
      if gaps == [] {
        SomethingRemains(View());
        Die();
        return false, None;
      }
      var gap := gaps[0];
      gaps := gaps[1..];
      if writable {
        HearWriter(gap.writes);
      }
      return true, gap.cut;
    }

    /** The writer's turn. */
    method HearWriter(writes: seq<Write>)
      requires Valid() && !phase.Idle? && !Committed(View()) && rows == [] && hot.Some? && (course ==> writes == [])
      requires Ops(trace) + |gaps| + 1 == paid
      requires funded ==> Remaining(View()) + 2 * (|writes| + Writes(gaps)) <= |gaps| + 1
      modifies this`hot, this`recorded, this`trace
      ensures Valid() && Funded(1) && hot.Some? && |trace| == |old(trace)| + |writes|
    {
      for i := 0 to |writes|
        invariant Valid() && hot.Some? && Ops(trace) == old(Ops(trace)) && |trace| == |old(trace)| + i
        invariant funded ==> Remaining(View()) + 2 * (|writes| - i + Writes(gaps)) <= |gaps| + 1
      {
        LetWrite(writes[i]);
      }
    }

    /** The phases of a fresh move in which the late writer may still come in. */
    ghost predicate BeforeTheLastLook()
      reads this
    {
      || phase.Clearing? || phase.Copying? || phase.Discarding? || phase.Verified? || phase.Renamed? || phase.Undoing?
      || (phase.Listed? && cold.None?)
    }

    method TickFresh() returns (alive: bool, cut: Option<nat>)
      requires Valid() && Funded(0) && BeforeTheLastLook()
      modifies this`hot, this`recorded, this`trace, this`gaps, this`phase, this`last
      ensures Valid() && SamePass() && Funded(if alive then 1 else 0) && (course ==> alive && cut.None?)
      ensures hot.Some?
      ensures if alive then phase == old(phase) && last == old(last) else Died()
    {
      alive, cut := Tick(true);
    }

    /** Keeps the record: the fields have just made one step of the machine. */
    ghost method Record(was: Archive, path: string, cut: nat)
      requires Inv(was) && was == Run(start, trace) && View() == Work(was, path, cut)
      requires course ==> OnCourse(was) && Productive(was, Op(path, cut)) && Still(gaps) && funded
      modifies this`trace
      ensures Valid() && trace == old(trace) + [Op(path, cut)] && Ops(trace) == Ops(old(trace)) + 1
    {
      NextOfRun(start, trace, was, Op(path, cut));
      OpsSnoc(trace, Op(path, cut));
      if course {
        StaysOnCourse(was, Op(path, cut));
      }
      trace := trace + [Op(path, cut)];
    }

    /** The step the gap in hand was for. */
    ghost method Note(was: Archive, path: string, cut: nat)
      requires Inv(was) && was == Run(start, trace) && View() == Work(was, path, cut)
      requires Advances(was, path) && Ops(trace) + |gaps| + 1 == paid
      requires funded ==> Remaining(was) + 2 * Writes(gaps) <= |gaps| + 1
      requires course ==> OnCourse(was) && Productive(was, Op(path, cut)) && Still(gaps) && funded
      modifies this`trace
      ensures Valid() && Funded(0) && trace == old(trace) + [Op(path, cut)]
    {
      WorkLeavesLess(was, path, cut);
      Record(was, path, cut);
    }

    // ---- recursive deletes ----

    method DropPartial()
      requires Valid() && Funded(1) && (phase.Clearing? || phase.Discarding?) && partial.Some?
      modifies this`partial, this`trace
      ensures Valid() && Funded(0) && Left(partial) < Left(old(partial))
    {
      ghost var was := View();
      var path := AnyFile(partial.value);
      UnlinkingLeavesLess(partial.value, path);
      partial := Unlinked(partial.value, path);
      Note(was, path, 0);
    }

    method UnlinkPartial() returns (alive: bool)
      requires Valid() && Funded(0) && (phase.Clearing? || phase.Discarding?) && partial.Some?
      modifies this
      ensures Valid() && Funded(0) && SamePass()
      ensures if alive then phase == old(phase) && Left(partial) < Left(old(partial)) else Died()
      ensures cold == old(cold)
    {
      var cut: Option<nat>;
      alive, cut := TickFresh();
      if alive {
        DropPartial();
      }
    }

    /** Removes the stale or failed half-copy. */
    method RemovePartial() returns (alive: bool)
      requires Valid() && Funded(0) && (phase.Clearing? || phase.Discarding?)
      modifies this
      ensures Valid() && Funded(0) && SamePass()
      ensures if alive then phase == old(phase) && partial.None? else Died()
      ensures cold == old(cold)
    {
      alive := true;
      while partial.Some?
        invariant Valid() && Funded(0) && SamePass()
        invariant alive && phase == old(phase) && cold == old(cold)
        decreases Left(partial)
      {
        alive := UnlinkPartial();
        if !alive {
          return;
        }
      }
    }

    method DropCold()
      requires Valid() && Funded(1) && phase.Undoing? && cold.Some?
      modifies this`cold, this`trace
      ensures Valid() && Funded(0) && Left(cold) < Left(old(cold))
    {
      ghost var was := View();
      var path := AnyFile(cold.value);
      UnlinkingLeavesLess(cold.value, path);
      cold := Unlinked(cold.value, path);
      Note(was, path, 0);
    }

    method UnlinkCold() returns (alive: bool)
      requires Valid() && Funded(0) && phase.Undoing? && cold.Some?
      modifies this
      ensures Valid() && Funded(0) && SamePass()
      ensures if alive then phase == old(phase) && Left(cold) < Left(old(cold)) else Died()
      ensures rows == old(rows) && partial == old(partial)
    {
      var cut: Option<nat>;
      alive, cut := TickFresh();
      if alive {
        DropCold();
      }
    }

    /** Takes back a cold copy the source has outgrown. */
    method RemoveCold() returns (alive: bool)
      requires Valid() && Funded(0) && phase.Undoing?
      modifies this
      ensures Valid() && Funded(0) && SamePass()
      ensures if alive then phase == old(phase) && cold.None? else Died()
      ensures rows == old(rows) && partial == old(partial)
    {
      alive := true;
      while cold.Some?
        invariant Valid() && Funded(0) && SamePass()
        invariant alive && phase == old(phase) && rows == old(rows) && partial == old(partial)
        decreases Left(cold)
      {
        alive := UnlinkCold();
        if !alive {
          return;
        }
      }
    }

    method DropSource()
      requires Valid() && Funded(1) && phase.Deleting? && hot.Some?
      modifies this`hot, this`trace
      ensures Valid() && Funded(0) && Left(hot) < Left(old(hot))
    {
      ghost var was := View();
      var path := AnyFile(hot.value);
      UnlinkingLeavesLess(hot.value, path);
      hot := Unlinked(hot.value, path);
      Note(was, path, 0);
    }

    method UnlinkSource() returns (alive: bool)
      requires Valid() && Funded(0) && phase.Deleting? && hot.Some?
      modifies this
      ensures Valid() && Funded(0) && SamePass()
      ensures if alive then phase == old(phase) && Left(hot) < Left(old(hot)) else Died()
      ensures cold == old(cold) && rows == old(rows)
    {
      var cut: Option<nat>;
      alive, cut := Tick(false);
      if alive {
        DropSource();
      }
    }

    /** The destructive step. */
    method RemoveSource() returns (alive: bool)
      requires Valid() && Funded(0) && phase.Deleting?
      modifies this
      ensures Valid() && Funded(0) && SamePass()
      ensures if alive then phase == old(phase) && hot.None? else Died()
      ensures cold == old(cold) && rows == old(rows)
    {
      alive := true;
      while hot.Some?
        invariant Valid() && Funded(0) && SamePass()
        invariant alive && phase == old(phase) && cold == old(cold) && rows == old(rows)
        decreases Left(hot)
      {
        alive := UnlinkSource();
        if !alive {
          return;
        }
      }
    }

    // ---- the copy ----

    /** Creates the partial directory and lists what to copy. */
    method MakePartial() returns (names: set<string>)
      requires Valid() && Funded(1) && phase.Clearing? && partial.None?
      modifies this`partial, this`phase, this`trace
      ensures Valid() && Funded(0) && phase == Copying(old(phase).m, names)
    {
      ghost var was := View();
      names := hot.value.Keys;
      partial := Some(map[]);
      phase := Copying(was.phase.m, names);
      Note(was, "", 0);
    }

    method CopyFile(path: string, ghost m: Manifest, ghost todo: set<string>) returns (alive: bool)
      requires Valid() && Funded(0) && phase == Copying(m, todo) && path in todo
      modifies this
      ensures Valid() && Funded(0) && SamePass()
      ensures if alive then phase == Copying(m, todo - {path}) else Died()
    {
      var cut: Option<nat>;
      alive, cut := TickFresh();
      if alive {
        PutFile(path, cut, m, todo);
      }
    }

    /** A copy that is cut short holds a prefix of the file. */
    method PutFile(path: string, cut: Option<nat>, ghost m: Manifest, ghost todo: set<string>)
      requires Valid() && Funded(1) && phase == Copying(m, todo) && path in todo && (course ==> cut.None?)
      modifies this`partial, this`phase, this`trace
      ensures Valid() && Funded(0)
      ensures phase == Copying(m, todo - {path})
    {
      ghost var was := View();
      var data := hot.value[path];
      var got := if cut.Some? then Min(cut.value, |data|) else |data|;
      partial := Some(partial.value[path := data[..got]]);
      phase := Copying(m, todo - {path});
      Note(was, path, got);
    }

    method CopyTree(names: set<string>) returns (alive: bool)
      requires Valid() && Funded(0) && phase.Copying? && phase.todo == names
      modifies this
      ensures Valid() && Funded(0) && SamePass()
      ensures if alive then phase == Copying(old(phase).m, {}) else Died()
    {
      var todo := names;
      alive := true;
      while todo != {}
        invariant Valid() && Funded(0) && SamePass()
        invariant alive && phase == Copying(old(phase).m, todo)
        decreases |todo|
      {
        var path :| path in todo;
        alive := CopyFile(path, old(phase).m, todo);
        if !alive {
          return;
        }
        todo := todo - {path};
      }
    }

    // ---- looking, renaming, indexing ----

    /** After the copy: the partial tree against the manifest the source had first. */
    method CheckCopy(m: Manifest) returns (same: bool)
      requires Valid() && Funded(1) && phase == Copying(m, {})
      modifies this`phase, this`trace
      ensures Valid() && Funded(0)
      ensures phase == if same then Verified(m) else Discarding
    {
      ghost var was := View();
      same := ManifestOf(partial.value) == m;
      phase := if same then Verified(m) else Discarding;
      Note(was, "", 0);
    }

    method Rename()
      requires Valid() && Funded(1) && phase.Verified?
      modifies this`cold, this`partial, this`phase, this`trace
      ensures Valid() && Funded(0) && phase == Renamed(old(phase).m) && partial.None?
    {
      ghost var was := View();
      cold, partial, phase := partial, None, Renamed(was.phase.m);
      Note(was, "", 0);
    }

    /** The last look at the source before anything is recorded or deleted. */
    method Recheck(m: Manifest) returns (same: bool)
      requires Valid() && Funded(1) && phase == Renamed(m)
      modifies this`phase, this`trace
      ensures Valid() && Funded(0)
      ensures phase == if same then Indexing(m, false) else Undoing
    {
      ghost var was := View();
      same := ManifestOf(hot.value) == m;
      phase := if same then Indexing(m, false) else Undoing;
      Note(was, "", 0);
    }

    method WriteRow(files: Manifest, resumed: bool)
      requires Valid() && Funded(1) && phase == Indexing(files, resumed)
      modifies this`rows, this`phase, this`trace
      ensures Valid() && Funded(0) && phase == Deleting(resumed)
      ensures rows == old(rows) + [Row(files, resumed)]
    {
      ghost var was := View();
      rows := rows + [Row(files, resumed)];
      phase := Deleting(resumed);
      Note(was, "", 0);
    }

    /** The pass returns what it did. */
    ghost method Return(action: Action)
      requires Valid() && Funded(0)
      requires match phase {
                 case Discarding => partial.None? && action == CopyVerifyFailed
                 case Undoing => cold.None? && action == SourceChangedDuringMove
                 case Deleting(resumed) => hot.None? && action == if resumed then ResumedDelete else Moved
                 case _ => false
               }
      modifies this`phase, this`last, this`trace
      ensures Valid() && phase.Idle? && last == Some(action)
    {
      ghost var was := View();
      phase, last := Idle, Some(action);
      Record(was, "", 0);
    }

    /** Index first, then delete the source. */
    method IndexAndDelete(files: Manifest, resumed: bool) returns (action: Option<Action>)
      requires Valid() && Funded(0) && phase == Indexing(files, resumed)
      modifies this
      ensures Valid() && SamePass()
      ensures Answers(action)
      ensures action.Some? ==> hot.None? && cold == old(cold) && rows == old(rows) + [Row(files, resumed)]
                               && action.value == if resumed then ResumedDelete else Moved
    {
      var alive, cut := Tick(false);
      if !alive {
        return None;
      }
      WriteRow(files, resumed);
      alive := RemoveSource();
      if !alive {
        return None;
      }
      Return(if resumed then ResumedDelete else Moved);
      return Some(if resumed then ResumedDelete else Moved);
    }

    /** The resume path: a cold directory is already in place. */
    method Resume(m: Manifest) returns (action: Option<Action>)
      requires Valid() && Funded(0) && phase == Listed(m) && cold.Some?
      modifies this
      ensures Valid() && SamePass()
      ensures Answers(action)
      ensures match action {
                case None => true
                case Some(ResumedDelete) =>
                  old(Resumable(View())) && hot.None? && cold == old(cold) && rows == old(rows) + [Row(ManifestOf(cold.value), true)]
                case Some(ColdTargetMismatch) =>
                  old(!Resumable(View())) && hot == old(hot) && partial == old(partial) && cold == old(cold) && rows == old(rows)
                case Some(_) => false
              }
    {
      var alive, cut := Tick(false);
      if !alive {
        return None;
      }
      ghost var looked := View();
      var fits := Compare(m);
      if !fits {
        MismatchIsReal(looked, "", 0);
      }
      if fits {
        IndexedIsResumable();
        action := IndexAndDelete(ManifestOf(cold.value), true);
      } else {
        action := Some(ColdTargetMismatch);
      }
    }

    lemma IndexedIsResumable()
      requires Inv(View()) && phase.Indexing?
      ensures Resumable(View())
    {
    }

    method Compare(m: Manifest) returns (fits: bool)
      requires Valid() && Funded(1) && phase == Listed(m) && cold.Some?
      modifies this`phase, this`last, this`trace
      ensures Valid() && Funded(0)
      ensures if fits then phase == Indexing(ManifestOf(cold.value), true)
              else phase.Idle? && last == Some(ColdTargetMismatch)
      ensures View() == Work(old(View()), "", 0)
    {
      ghost var was := View();
      var files := ManifestOf(cold.value);
      fits := files == m || IsPartialDelete(m, files);
      if fits {
        phase := Indexing(files, true);
      } else {
        phase, last := Idle, Some(ColdTargetMismatch);
      }
      Note(was, "", 0);
    }

    // ---- the pass ----

    method StartFresh(m: Manifest)
      requires Valid() && Funded(1) && phase == Listed(m) && cold.None?
      modifies this`phase, this`trace
      ensures Valid() && Funded(0) && phase == Clearing(m)
    {
      ghost var was := View();
      phase := Clearing(m);
      Note(was, "", 0);
    }

    /** Copies the source beside the final directory and checks the copy. */
    method CopyBeside(m: Manifest) returns (copied: Option<bool>)
      requires Valid() && Funded(0) && phase == Clearing(m)
      modifies this
      ensures Valid() && Funded(0) && SamePass()
      ensures match copied {
                case None => Died()
                case Some(ok) => phase == if ok then Verified(m) else Discarding
              }
    {
      var alive := true;
      if partial.Some? {
        alive := RemovePartial();
        if !alive {
          return None;
        }
      }
      alive := Copy();
      if !alive {
        return None;
      }
      copied := VerifyCopy(m);
    }

    method Copy() returns (alive: bool)
      requires Valid() && Funded(0) && phase.Clearing? && partial.None?
      modifies this
      ensures Valid() && Funded(0) && SamePass()
      ensures if alive then phase == Copying(old(phase).m, {}) else Died()
    {
      var names: set<string>;
      alive, names := BeginCopy();
      if alive {
        alive := CopyTree(names);
      }
    }

    method BeginCopy() returns (alive: bool, names: set<string>)
      requires Valid() && Funded(0) && phase.Clearing? && partial.None?
      modifies this
      ensures Valid() && Funded(0) && SamePass()
      ensures if alive then phase == Copying(old(phase).m, names) else Died()
    {
      names := {};
      var cut: Option<nat>;
      alive, cut := TickFresh();
      if alive {
        names := MakePartial();
      }
    }

    method VerifyCopy(m: Manifest) returns (same: Option<bool>)
      requires Valid() && Funded(0) && phase == Copying(m, {})
      modifies this
      ensures Valid() && Funded(0) && SamePass()
      ensures match same {
                case None => Died()
                case Some(ok) => phase == if ok then Verified(m) else Discarding
              }
    {
      var alive, cut := TickFresh();
      if !alive {
        return None;
      }
      var ok := CheckCopy(m);
      return Some(ok);
    }

    method PutInPlace(m: Manifest) returns (alive: bool)
      requires Valid() && Funded(0) && phase == Verified(m)
      modifies this
      ensures Valid() && Funded(0) && SamePass()
      ensures if alive then phase == Renamed(m) && partial.None? && rows == [] else Died()
    {
      var cut: Option<nat>;
      alive, cut := TickFresh();
      if alive {
        Rename();
      }
    }

    method LookAgain(m: Manifest) returns (same: Option<bool>)
      requires Valid() && Funded(0) && phase == Renamed(m)
      modifies this
      ensures Valid() && Funded(0) && SamePass()
      ensures match same {
                case None => Died()
                case Some(ok) => phase == if ok then Indexing(m, false) else Undoing
              }
      ensures partial == old(partial) && rows == old(rows)
    {
      var alive, cut := TickFresh();
      if !alive {
        return None;
      }
      var ok := Recheck(m);
      return Some(ok);
    }

    /** From a verified copy: a source that has not changed is indexed and deleted, an outgrown copy is taken back. */
    method Settle(m: Manifest) returns (action: Option<Action>)
      requires Valid() && Funded(0) && phase == Verified(m)
      modifies this
      ensures Valid() && SamePass() && Answers(action)
      ensures match action {
                case None => true
                case Some(Moved) => hot.None? && rows == [Row(m, false)]
                case Some(SourceChangedDuringMove) => Refused()
                case Some(_) => false
              }
    {
      var alive := PutInPlace(m);
      if !alive {
        return None;
      }
      var same := LookAgain(m);
      if same.None? {
        return None;
      }
      if same.value {
        action := IndexAndDelete(m, false);
      } else {
        action := TakeBack();
      }
    }

    /** The copy the source has outgrown is removed, and the pass refuses. */
    method TakeBack() returns (action: Option<Action>)
      requires Valid() && Funded(0) && phase.Undoing? && partial.None?
      modifies this
      ensures Valid() && SamePass() && Answers(action)
      ensures action.Some? ==> action == Some(SourceChangedDuringMove) && Refused()
    {
      var alive := RemoveCold();
      if !alive {
        return None;
      }
      CopiesAreNoLarger(View());
      Return(SourceChangedDuringMove);
      return Some(SourceChangedDuringMove);
    }

    /** The copy that does not match its source is removed, and the pass refuses. */
    method Discard() returns (action: Option<Action>)
      requires Valid() && Funded(0) && phase.Discarding?
      modifies this
      ensures Valid() && SamePass() && Answers(action)
      ensures action.Some? ==> action == Some(CopyVerifyFailed) && Refused()
    {
      var alive := RemovePartial();
      if !alive {
        return None;
      }
      CopiesAreNoLarger(View());
      Return(CopyVerifyFailed);
      return Some(CopyVerifyFailed);
    }

    method MoveFresh(m: Manifest) returns (action: Option<Action>)
      requires Valid() && Funded(0) && phase == Listed(m) && cold.None?
      modifies this
      ensures Valid() && SamePass() && Answers(action)
      ensures match action {
                case None => true
                case Some(Moved) => hot.None? && rows == [Row(m, false)]
                case Some(SourceChangedDuringMove) => Refused()
                case Some(CopyVerifyFailed) => Refused()
                case Some(_) => false
              }
    {
      var alive, cut := TickFresh();
      if !alive {
        return None;
      }
      StartFresh(m);
      var copied := CopyBeside(m);
      if copied.None? {
        return None;
      }
      if copied.value {
        action := Settle(m);
      } else {
        action := Discard();
      }
    }

    /** What the pass has to run on. */
    ghost method Fund(was: Archive)
      requires Inv(was) && was.phase.Idle? && was.hot.Some?
      requires Inv(View()) && View() == Run(start, trace) == Step(was, Event.Begin)
      modifies this`course, this`funded, this`paid
      ensures Valid() && Funded(0) && paid == Ops(trace) + |gaps|
      ensures funded == (Remaining(View()) + 2 * Writes(gaps) <= |gaps|)
      ensures course == (Still(gaps) && Resumable(was) && Remaining(View()) <= |gaps|)
    {
      paid, funded := Ops(trace) + |gaps|, Remaining(View()) + 2 * Writes(gaps) <= |gaps|;
      course := Still(gaps) && Resumable(was) && Remaining(View()) <= |gaps|;
      if course {
        StillWritesNothing(gaps);
        BeginIsOnCourse(was);
      }
    }

    /** Takes the first look at the source; the pass is on course when nothing is going to disturb it. */
    method Begin() returns (m: Manifest)
      requires Valid() && phase.Idle? && hot.Some?
      modifies this`phase, this`last, this`trace, this`course, this`funded, this`paid
      ensures Valid() && Funded(0) && trace == old(trace) + [Event.Begin] && phase == Listed(m) && m == ManifestOf(hot.value)
      ensures paid == Ops(old(trace)) + |gaps|
      ensures funded == (Remaining(old(Step(View(), Event.Begin))) + 2 * Writes(gaps) <= |gaps|)
      ensures course == (Still(gaps) && old(Resumable(View()))
                         && Remaining(old(Step(View(), Event.Begin))) <= |gaps|)
    {
      ghost var was := View();
      NextOfRun(start, trace, was, Event.Begin);
      OpsSnoc(trace, Event.Begin);
      m := ManifestOf(hot.value);
      phase, last, trace := Listed(m), None, trace + [Event.Begin];
      Fund(was);
    }

    lemma MovedIsWhole()
      requires Inv(View()) && hot.None?
      ensures cold == Some(recorded)
    {
      assert cold.value == recorded;
    }

    /** A cold directory in place is resumed from; without one the move starts afresh. */
    method GoOn(m: Manifest) returns (action: Option<Action>)
      requires Valid() && Funded(0) && phase == Listed(m)
      modifies this
      ensures Valid() && SamePass() && Answers(action)
      ensures match action {
                case None => true
                case Some(Moved) =>
                  old(cold).None? && hot.None? && cold == Some(recorded) && rows == old(rows) + [Row(ManifestOf(recorded), false)]
                case Some(ResumedDelete) =>
                  && old(cold.Some? && Resumable(View())) && hot.None? && cold == old(cold) == Some(recorded)
                  && rows == old(rows) + [Row(ManifestOf(recorded), true)]
                case Some(ColdTargetMismatch) =>
                  && old(!Resumable(View())) && hot == old(hot) && partial == old(partial) && cold == old(cold)
                  && rows == old(rows)
                case Some(_) =>
                  && old(cold).None? && hot == Some(recorded) && partial.None? && cold.None? && rows == old(rows)
                  && Resumable(View())
              }
    {
      if cold.Some? {
        action := Resume(m);
      } else {
        action := MoveFresh(m);
      }
      if hot.None? {
        MovedIsWhole();
      }
    }

    /**
     One pass over the run directory. However it ends, and wherever the process dies, the state is one the machine
     reaches; left alone long enough it completes the move exactly when the run was resumable. Whatever is written
     meanwhile, it goes unanswered only if it runs out of gaps, and a refusal leaves a whole source: untouched where a
     cold directory does not match it, with no copy left where the copy failed or was outgrown.
     */
    method MoveRunDir() returns (action: Option<Action>)
      requires Valid() && phase.Idle? && hot.Some?
      modifies this
      ensures Valid() && start == old(start) && phase.Idle? && last == action
      ensures Still(old(gaps)) && Remaining(old(Step(View(), Event.Begin))) <= |old(gaps)| ==>
                (Completed(View()) <==> old(Resumable(View())))
      ensures Remaining(old(Step(View(), Event.Begin))) + 2 * Writes(old(gaps)) <= |old(gaps)| ==> action.Some?
      ensures match action {
                case None => gaps == [] && Ops(trace) == Ops(old(trace)) + |old(gaps)|
                case Some(Moved) =>
                  old(cold).None? && hot.None? && cold == Some(recorded) && rows == old(rows) + [Row(ManifestOf(recorded), false)]
                case Some(ResumedDelete) =>
                  && old(cold.Some? && Resumable(View())) && hot.None? && cold == old(cold) == Some(recorded)
                  && rows == old(rows) + [Row(ManifestOf(recorded), true)]
                case Some(ColdTargetMismatch) =>
                  && old(!Resumable(View())) && hot == old(hot) && partial == old(partial) && cold == old(cold)
                  && rows == old(rows)
                case Some(_) =>
                  && old(cold).None? && hot == Some(recorded) && partial.None? && cold.None? && rows == old(rows)
                  && Resumable(View())
              }
    {
      var m := Begin();
      action := GoOn(m);
      if course {
        CourseEndsComplete(View());
      }
      course := false;
    }

    /** Any number of passes, each with its own interruptions: no recorded byte is ever lost. */
    method Passes(scripts: seq<seq<Gap>>)
      requires Valid() && phase.Idle?
      modifies this
      ensures Valid() && start == old(start) && phase.Idle?
      ensures forall p :: p in recorded ==> Held(View(), p)
      ensures old(hot).Some? && scripts != [] && last.None? ==> gaps == []
    {
      for i := 0 to |scripts|
        invariant Valid() && start == old(start) && phase.Idle?
        invariant if i == 0 then hot == old(hot) else old(hot).Some? && last.None? ==> gaps == []
      {
        if hot.Some? {
          course := false;
          gaps := scripts[i];
          var _ := MoveRunDir();
        }
      }
    }
  }

  method AnyFile(t: Tree) returns (path: string)
    ensures t != map[] ==> path in t
  {
    if t == map[] {
      return "";
    }
    assert t.Keys != {};
    path :| path in t.Keys;
  }
}
