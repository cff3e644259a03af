/** `rann_agent/core/rollback_engine.py`. Snapshot-based rollback: files are snapshotted before
    they change, and the recorded steps are executed, first to last, to bring them back. Paths
    are resolved absolute paths. */
module Rollback {
  import opened Prelude

  type Path = string

  /** A file whose text can be read, or one whose reading raises. */
  datatype File = Text(text: string) | Unreadable

  type Files = map<Path, File>

  function At(files: Files, p: Path): Option<File> {
    if p in files then Some(files[p]) else None
  }

  function Placed(files: Files, p: Path, f: Option<File>): Files {
    if f.Some? then files[p := f.value] else files - {p}
  }

  /** Reading in text mode turns every line ending into a single line feed. */
  function UniversalNewlines(s: string): string {
    if s == [] then []
    else if s[0] == '\r' then ['\n'] + UniversalNewlines(if |s| > 1 && s[1] == '\n' then s[2..] else s[1..])
    else [s[0]] + UniversalNewlines(s[1..])
  }

  lemma {:induction false} NoReturnsLeft(s: string)
    ensures '\r' !in UniversalNewlines(s)
    decreases |s|
  {
    if s != [] {
      NoReturnsLeft(s[1..]);
      if |s| > 1 { NoReturnsLeft(s[2..]); }
    }
  }

  lemma {:induction false} NewlinesKeptIff(s: string)
    ensures UniversalNewlines(s) == s <==> '\r' !in s
  {
    NoReturnsLeft(s);
    if s != [] && '\r' !in s {
      NewlinesKeptIff(s[1..]);
    }
  }

  /** Lines, each with the given ending. */
  function Lines(lines: seq<string>, ending: string): string {
    if lines == [] then [] else lines[0] + ending + Lines(lines[1..], ending)
  }

  lemma {:induction false} NewlinesAppend(line: string, rest: string)
    requires '\r' !in line
    ensures UniversalNewlines(line + rest) == line + UniversalNewlines(rest)
  {
    if line == [] {
      assert line + rest == rest;
    } else {
      assert (line + rest)[1..] == line[1..] + rest;
      NewlinesAppend(line[1..], rest);
    }
  }

  lemma EndingReads(ending: string, lines: seq<string>)
    requires ending in {"\n", "\r\n", "\r"} && forall line :: line in lines ==> '\n' !in line
    ensures UniversalNewlines(ending + Lines(lines, ending)) == "\n" + UniversalNewlines(Lines(lines, ending))
  {
    var rest := Lines(lines, ending);
    assert (ending + rest)[|ending|..] == rest;
    if ending == "\r" && rest != [] {
      var first := lines[0];
      assert first in lines && rest[0] == if first == [] then '\r' else first[0];
      assert first != [] ==> first[0] in first;
    }
  }

  /** A text reads the same whichever of the three line endings it was written with. */
  lemma {:induction false} EndingsReadAlike(lines: seq<string>, ending: string)
    requires ending in {"\n", "\r\n", "\r"}
    requires forall line :: line in lines ==> '\r' !in line && '\n' !in line
    ensures UniversalNewlines(Lines(lines, ending)) == Lines(lines, "\n")
  {
    if lines != [] {
      var rest := Lines(lines[1..], ending);
      assert lines == [lines[0]] + lines[1..];
      EndingsReadAlike(lines[1..], ending);
      assert Lines(lines, ending) == lines[0] + (ending + rest);
      NewlinesAppend(lines[0], ending + rest);
      EndingReads(ending, lines[1..]);
    }
  }

  // ----- snapshots and steps -----

  /** `content` is None when the file did not exist, and also when it could not be read. */
  datatype Snapshot = Snapshot(path: Path, content: Option<string>)

  datatype Status = Pending | InProgress | Completed | Failed | Skipped

  datatype Step = Step(target: Path, snapshot: Option<Snapshot>, status: Status)

  function Snapped(files: Files, p: Path): Snapshot {
    Snapshot(p, if p in files && files[p].Text? then Some(UniversalNewlines(files[p].text)) else None)
  }

  /** What restoring a snapshot puts at its path. */
  function Restored(s: Snapshot): Option<File> {
    if s.content.Some? then Some(Text(s.content.value)) else None
  }

  /** How the file operations of one step go; a failing one may leave anything at its path. */
  datatype Io = Works | Breaks(left: Option<File>)

  function Done(s: Step): bool {
    s.status.Completed? || s.status.Skipped?
  }

  function StepFiles(files: Files, s: Step, io: Io): Files {
    if s.snapshot.None? then files
    else if io.Works? then Placed(files, s.snapshot.value.path, Restored(s.snapshot.value))
    else Placed(files, s.snapshot.value.path, io.left)
  }

  function StepStatus(s: Step, io: Io): Status {
    if s.snapshot.None? then Skipped else if io.Works? then Completed else Failed
  }

  /** What one step does: without a snapshot it is skipped; else its path has what was there before the
      snapshot, or after a failure anything at all, and no other path changes. */
  lemma StepIsExact(files: Files, s: Step, io: Io, p: Path)
    ensures var files' := StepFiles(files, s, io);
            match s.snapshot
            case None => files' == files && StepStatus(s, io) == Skipped
            case Some(Snapshot(path, content)) =>
              && (p != path ==> At(files', p) == At(files, p))
              && match io
                 case Breaks(left) => At(files', path) == left && StepStatus(s, io) == Failed
                 case Works =>
                   && (path in files' <==> content.Some?) && (content.Some? ==> files'[path] == Text(content.value))
                   && StepStatus(s, io) == Completed
  {
  }

  datatype Outcome = Outcome(files: Files, steps: seq<Step>, succeeded: nat)

  /** The execution loop from the first step on. */
  function Execute(files: Files, steps: seq<Step>, io: seq<Io>, stop: bool): (o: Outcome)
    requires |io| == |steps|
    ensures |o.steps| == |steps|
    decreases |steps|
  {
    if steps == [] then Outcome(files, [], 0)
    else if Done(steps[0]) then
      var o := Execute(files, steps[1..], io[1..], stop);
      o.(steps := [steps[0]] + o.steps)
    else
      var status := StepStatus(steps[0], io[0]);
      var files' := StepFiles(files, steps[0], io[0]);
      var step' := steps[0].(status := status);
      if status.Failed? && stop then Outcome(files', [step'] + steps[1..], 0)
      else
        var o := Execute(files', steps[1..], io[1..], stop);
        o.(steps := [step'] + o.steps, succeeded := o.succeeded + if status.Failed? then 0 else 1)
  }

  function Count(steps: seq<Step>, status: Status): nat {
    if steps == [] then 0 else Count(steps[1..], status) + if steps[0].status == status then 1 else 0
  }

  /** The procedure's status after the loop. */
  function Verdict(steps: seq<Step>): Status {
    if Count(steps, Failed) > 0 || Count(steps, Pending) > 0 then Failed else Completed
  }

  // ----- what execution does to the files -----

  /** Every step restores its own target. */
  ghost predicate WellFormed(steps: seq<Step>) {
    forall i :: 0 <= i < |steps| ==> steps[i].snapshot.Some? && steps[i].snapshot.value.path == steps[i].target
  }

  ghost predicate AllPending(steps: seq<Step>) {
    forall i :: 0 <= i < |steps| ==> steps[i].status.Pending?
  }

  ghost predicate AllWork(io: seq<Io>) {
    forall i :: 0 <= i < |io| ==> io[i].Works?
  }

  /** The last snapshot recorded for a path. */
  function LastFor(steps: seq<Step>, p: Path): (s: Option<Snapshot>) {
    if steps == [] then None
    else
      var later := LastFor(steps[1..], p);
      if later.Some? then later
      else if steps[0].target == p then steps[0].snapshot else None
  }

  /** A failure-free execution leaves each recorded path at its last snapshot (absent if that was
      None) and every other path untouched, and completes every step. */
  lemma {:induction false} ExecutionIsExact(files: Files, steps: seq<Step>, io: seq<Io>, stop: bool, p: Path)
    requires |io| == |steps| && WellFormed(steps) && AllPending(steps) && AllWork(io)
    ensures var o := Execute(files, steps, io, stop);
            && At(o.files, p) == (if LastFor(steps, p).Some? then Restored(LastFor(steps, p).value) else At(files, p))
            && o.succeeded == |steps| && forall i :: 0 <= i < |steps| ==> o.steps[i] == steps[i].(status := Completed)
    decreases |steps|
  {
    if steps != [] {
      ExecutionIsExact(StepFiles(files, steps[0], io[0]), steps[1..], io[1..], stop, p);
    }
  }

  /** Executing a procedure whose steps are all done changes nothing. */
  lemma {:induction false} DoneStaysDone(files: Files, steps: seq<Step>, io: seq<Io>, stop: bool)
    requires |io| == |steps| && forall i :: 0 <= i < |steps| ==> Done(steps[i])
    ensures Execute(files, steps, io, stop) == Outcome(files, steps, 0)
  {
    if steps != [] {
      DoneStaysDone(files, steps[1..], io[1..], stop);
    }
  }

  lemma SecondExecutionIsIdle(files: Files, steps: seq<Step>, io: seq<Io>, io': seq<Io>, stop: bool, stop': bool)
    requires |io| == |steps| == |io'| && WellFormed(steps) && AllPending(steps) && AllWork(io)
    ensures var o := Execute(files, steps, io, stop);
            Execute(o.files, o.steps, io', stop') == Outcome(o.files, o.steps, 0)
  {
    var o := Execute(files, steps, io, stop);
    ExecutionIsExact(files, steps, io, stop, "");
    DoneStaysDone(o.files, o.steps, io', stop');
  }

  /** The verdict is success exactly when every step is done. */
  lemma {:induction false} VerdictIff(steps: seq<Step>)
    requires forall i :: 0 <= i < |steps| ==> !steps[i].status.InProgress?
    ensures Verdict(steps) == Completed <==> forall i :: 0 <= i < |steps| ==> Done(steps[i])
  {
    if steps != [] {
      VerdictIff(steps[1..]);
      if forall i :: 0 <= i < |steps| ==> Done(steps[i]) {
        forall i | 0 <= i < |steps[1..]| ensures Done(steps[1..][i]) {
          assert steps[1..][i] == steps[i + 1];
        }
      }
      if Done(steps[0]) && forall i :: 0 <= i < |steps[1..]| ==> Done(steps[1..][i]) {
        forall i | 0 <= i < |steps| ensures Done(steps[i]) {
          if i > 0 { assert steps[i] == steps[1..][i - 1]; }
        }
      }
    }
  }

  // ----- whole runs -----

  /** What happens between `begin_procedure` and the rollback. */
  datatype Act = Record(p: Path) | Write(p: Path, f: File) | Delete(p: Path)

  datatype World = World(files: Files, steps: seq<Step>)

  function Did(w: World, a: Act): World {
    match a
    case Record(p) => w.(steps := w.steps + [Step(p, Some(Snapped(w.files, p)), Pending)])
    case Write(p, f) => w.(files := w.files[p := f])
    case Delete(p) => w.(files := w.files - {p})
  }

  function DidAll(w: World, acts: seq<Act>): World
    decreases acts
  {
    if acts == [] then w else DidAll(Did(w, acts[0]), acts[1..])
  }

  predicate Recorded(steps: seq<Step>, p: Path) {
    exists i :: 0 <= i < |steps| && steps[i].target == p
  }

  /** Only paths already recorded are changed. */
  ghost predicate Disciplined(w: World, acts: seq<Act>)
    decreases acts
  {
    acts == [] || ((acts[0].Record? || Recorded(w.steps, acts[0].p)) && Disciplined(Did(w, acts[0]), acts[1..]))
  }

  /** No path is recorded a second time. */
  ghost predicate RecordedOnce(w: World, acts: seq<Act>)
    decreases acts
  {
    acts == [] || ((acts[0].Record? ==> !Recorded(w.steps, acts[0].p)) && RecordedOnce(Did(w, acts[0]), acts[1..]))
  }

  /** What every step of a disciplined run keeps: steps are pending and restore their targets, and
      paths not recorded are as they were at the start. */
  ghost predicate Inv(start: Files, w: World) {
    && WellFormed(w.steps) && AllPending(w.steps)
    && (forall p :: !Recorded(w.steps, p) ==> At(w.files, p) == At(start, p))
  }

  /** Each path's only snapshot shows the file as it was at the start. */
  ghost predicate OriginalSnapshots(start: Files, w: World) {
    forall p :: Recorded(w.steps, p) ==> LastFor(w.steps, p) == Some(Snapped(start, p))
  }

  lemma {:induction false} LastForAppend(steps: seq<Step>, s: Step, p: Path)
    requires s.snapshot.Some?
    ensures LastFor(steps + [s], p) == if s.target == p then s.snapshot else LastFor(steps, p)
  {
    if steps != [] {
      assert (steps + [s])[1..] == steps[1..] + [s];
      LastForAppend(steps[1..], s, p);
    }
  }

  lemma RecordedAppend(steps: seq<Step>, s: Step, p: Path)
    ensures Recorded(steps + [s], p) <==> Recorded(steps, p) || s.target == p
  {
    if Recorded(steps, p) {
      var i :| 0 <= i < |steps| && steps[i].target == p;
      assert (steps + [s])[i].target == p;
    }
    if s.target == p {
      assert (steps + [s])[|steps|].target == p;
    }
  }

  lemma {:induction false} RecordedIffLastFor(steps: seq<Step>, p: Path)
    requires WellFormed(steps)
    ensures Recorded(steps, p) <==> LastFor(steps, p).Some?
  {
    if steps != [] {
      RecordedIffLastFor(steps[1..], p);
      if Recorded(steps[1..], p) {
        var i :| 0 <= i < |steps[1..]| && steps[1..][i].target == p;
        assert steps[i + 1].target == p;
      }
      if Recorded(steps, p) && steps[0].target != p {
        var i :| 0 <= i < |steps| && steps[i].target == p;
        assert steps[1..][i - 1].target == p;
      }
    }
  }

  lemma ActKeepsInv(start: Files, w: World, a: Act)
    requires Inv(start, w) && (a.Record? || Recorded(w.steps, a.p))
    ensures Inv(start, Did(w, a))
    ensures OriginalSnapshots(start, w) && (a.Record? ==> !Recorded(w.steps, a.p)) ==>
            OriginalSnapshots(start, Did(w, a))
  {
    if a.Record? {
      var s := Step(a.p, Some(Snapped(w.files, a.p)), Pending);
      forall p ensures Recorded(w.steps + [s], p) <==> Recorded(w.steps, p) || a.p == p {
        RecordedAppend(w.steps, s, p);
      }
      forall p ensures LastFor(w.steps + [s], p) == if a.p == p then s.snapshot else LastFor(w.steps, p) {
        LastForAppend(w.steps, s, p);
      }
      if !Recorded(w.steps, a.p) {
        assert At(w.files, a.p) == At(start, a.p);
        assert Snapped(w.files, a.p) == Snapped(start, a.p);
      }
    }
  }

  lemma {:induction false} RunKeepsInv(start: Files, w: World, acts: seq<Act>)
    requires Inv(start, w) && Disciplined(w, acts)
    ensures Inv(start, DidAll(w, acts))
    ensures OriginalSnapshots(start, w) && RecordedOnce(w, acts) ==> OriginalSnapshots(start, DidAll(w, acts))
    decreases acts
  {
    if acts != [] {
      ActKeepsInv(start, w, acts[0]);
      RunKeepsInv(start, Did(w, acts[0]), acts[1..]);
    }
  }

  lemma SameFilesIff(a: Files, b: Files)
    ensures a == b <==> forall p :: At(a, p) == At(b, p)
  {
    if forall p :: At(a, p) == At(b, p) {
      forall p ensures p in a <==> p in b {
        assert At(a, p) == At(b, p);
      }
      forall p | p in a ensures a[p] == b[p] {
        assert At(a, p) == At(b, p);
      }
    }
  }

  function RolledBack(start: Files, acts: seq<Act>, io: seq<Io>, stop: bool): Files
    requires |io| == |DidAll(World(start, []), acts).steps|
  {
    var w := DidAll(World(start, []), acts);
    Execute(w.files, w.steps, io, stop).files
  }

  /** After any run that changes only recorded paths, a failure-free rollback restores the starting
      files exactly when each recorded path's last snapshot puts back what was there at the start. */
  lemma RollbackRestoresIff(start: Files, acts: seq<Act>, io: seq<Io>, stop: bool)
    requires Disciplined(World(start, []), acts)
    requires |io| == |DidAll(World(start, []), acts).steps| && AllWork(io)
    ensures RolledBack(start, acts, io, stop) == start <==>
            forall p :: LastFor(DidAll(World(start, []), acts).steps, p).Some? ==>
                          Restored(LastFor(DidAll(World(start, []), acts).steps, p).value) == At(start, p)
  {
    var w := DidAll(World(start, []), acts);
    var final := RolledBack(start, acts, io, stop);
    RunKeepsInv(start, World(start, []), acts);
    forall p
      ensures At(final, p) == if LastFor(w.steps, p).Some? then Restored(LastFor(w.steps, p).value) else At(start, p)
    {
      ExecutionIsExact(w.files, w.steps, io, stop, p);
      RecordedIffLastFor(w.steps, p);
    }
    SameFilesIff(final, start);
    if final == start {
      forall p | LastFor(w.steps, p).Some? ensures Restored(LastFor(w.steps, p).value) == At(start, p) {
        assert At(final, p) == At(start, p);
      }
    }
  }

  /** A file that survives a text-mode round trip: readable, and without carriage returns. */
  predicate Restorable(f: Option<File>) {
    f.Some? ==> f.value.Text? && '\r' !in f.value.text
  }

  /** If no path is recorded twice, the rollback restores the starting files exactly when every
      recorded path was restorable: an unreadable file is deleted instead, and carriage returns are
      lost. */
  lemma RecordedOnceRestoresIff(start: Files, acts: seq<Act>, io: seq<Io>, stop: bool)
    requires Disciplined(World(start, []), acts) && RecordedOnce(World(start, []), acts)
    requires |io| == |DidAll(World(start, []), acts).steps| && AllWork(io)
    ensures RolledBack(start, acts, io, stop) == start <==>
            forall p :: Recorded(DidAll(World(start, []), acts).steps, p) ==> Restorable(At(start, p))
  {
    var w := DidAll(World(start, []), acts);
    RunKeepsInv(start, World(start, []), acts);
    RollbackRestoresIff(start, acts, io, stop);
    forall p ensures Restored(Snapped(start, p)) == At(start, p) <==> Restorable(At(start, p)) {
      if p in start && start[p].Text? { NewlinesKeptIff(start[p].text); }
    }
    forall p ensures Recorded(w.steps, p) <==> LastFor(w.steps, p).Some? {
      RecordedIffLastFor(w.steps, p);
    }
  }

  // ----- failures and retries -----

  /** The last snapshot for a path among the steps an execution would still run. */
  function LastUndone(steps: seq<Step>, p: Path): (s: Option<Snapshot>) {
    if steps == [] then None
    else
      var later := LastUndone(steps[1..], p);
      if later.Some? then later
      else if steps[0].target == p && !Done(steps[0]) then steps[0].snapshot else None
  }

  ghost predicate DistinctTargets(steps: seq<Step>) {
    forall i, j :: 0 <= i < j < |steps| ==> steps[i].target != steps[j].target
  }

  /** A step only ever touches its own target. */
  lemma {:induction false} ExecutionTouchesTargets(files: Files, steps: seq<Step>, io: seq<Io>, stop: bool, p: Path)
    requires |io| == |steps| && WellFormed(steps) && !Recorded(steps, p)
    ensures At(Execute(files, steps, io, stop).files, p) == At(files, p)
    decreases |steps|
  {
    if steps != [] {
      assert steps[0].target != p;
      RecordedTail(steps, p);
      ExecutionTouchesTargets(files, steps[1..], io[1..], stop, p);
      ExecutionTouchesTargets(StepFiles(files, steps[0], io[0]), steps[1..], io[1..], stop, p);
    }
  }

  lemma RecordedTail(steps: seq<Step>, p: Path)
    requires steps != []
    ensures Recorded(steps[1..], p) ==> Recorded(steps, p)
  {
    if Recorded(steps[1..], p) {
      var i :| 0 <= i < |steps[1..]| && steps[1..][i].target == p;
      assert steps[i + 1].target == p;
    }
  }

  /** Execution changes statuses only, skips nothing that has a snapshot, and finishes everything
      when nothing fails. */
  lemma {:induction false} ExecutionKeepsSteps(files: Files, steps: seq<Step>, io: seq<Io>, stop: bool, i: nat)
    requires |io| == |steps| && WellFormed(steps) && i < |steps|
    ensures var s := Execute(files, steps, io, stop).steps[i];
            && s.target == steps[i].target && s.snapshot == steps[i].snapshot
            && (AllWork(io) ==> Done(s)) && (!steps[i].status.Skipped? ==> !s.status.Skipped?)
    decreases |steps|
  {
    if i > 0 {
      var files' := if Done(steps[0]) then files else StepFiles(files, steps[0], io[0]);
      ExecutionKeepsSteps(files', steps[1..], io[1..], stop, i - 1);
    }
  }

  /** Whatever was run before, a failure-free execution leaves each path at the last snapshot among
      the steps not yet done, and other paths untouched. */
  lemma {:induction false} ExecutionRunsUndone(files: Files, steps: seq<Step>, io: seq<Io>, stop: bool, p: Path)
    requires |io| == |steps| && WellFormed(steps) && AllWork(io)
    ensures var last := LastUndone(steps, p);
            At(Execute(files, steps, io, stop).files, p) ==
            if last.Some? then Restored(last.value) else At(files, p)
    decreases |steps|
  {
    if steps != [] {
      var files' := if Done(steps[0]) then files else StepFiles(files, steps[0], io[0]);
      ExecutionRunsUndone(files', steps[1..], io[1..], stop, p);
    }
  }

  lemma {:induction false} PendingIsUndone(steps: seq<Step>, p: Path)
    requires AllPending(steps)
    ensures LastUndone(steps, p) == LastFor(steps, p)
  {
    if steps != [] {
      PendingIsUndone(steps[1..], p);
    }
  }

  /** Whatever fails in a first execution, a recorded path none of whose steps is left undone is at
      its last snapshot. */
  lemma {:induction false} FirstExecutionRestores(files: Files, steps: seq<Step>, io: seq<Io>, stop: bool, p: Path)
    requires |io| == |steps| && WellFormed(steps) && AllPending(steps) && LastFor(steps, p).Some?
    ensures var o := Execute(files, steps, io, stop);
            LastUndone(o.steps, p).None? ==> At(o.files, p) == Restored(LastFor(steps, p).value)
    decreases |steps|
  {
    var files' := StepFiles(files, steps[0], io[0]);
    PendingIsUndone(steps[1..], p);
    RecordedIffLastFor(steps[1..], p);
    if LastFor(steps[1..], p).Some? {
      FirstExecutionRestores(files', steps[1..], io[1..], stop, p);
    } else {
      ExecutionTouchesTargets(files', steps[1..], io[1..], stop, p);
    }
  }

  /** After any first execution, failed or stopped, a failure-free retry leaves a recorded path at
      its last snapshot exactly when no step of the path was left undone, or the last of those puts
      back the same. The statuses tell, before the retry. */
  lemma RetryRestoresIff(files: Files, steps: seq<Step>, io: seq<Io>, stop: bool, io': seq<Io>, stop': bool, p: Path)
    requires |io| == |steps| == |io'| && WellFormed(steps) && AllPending(steps) && AllWork(io')
    requires LastFor(steps, p).Some?
    ensures var o := Execute(files, steps, io, stop);
            var last, undone := LastFor(steps, p).value, LastUndone(o.steps, p);
            At(Execute(o.files, o.steps, io', stop').files, p) == Restored(last) <==>
            undone.None? || Restored(undone.value) == Restored(last)
  {
    var o := Execute(files, steps, io, stop);
    forall i | 0 <= i < |steps|
      ensures o.steps[i].snapshot == steps[i].snapshot && o.steps[i].target == steps[i].target
    {
      ExecutionKeepsSteps(files, steps, io, stop, i);
    }
    FirstExecutionRestores(files, steps, io, stop, p);
    ExecutionRunsUndone(o.files, o.steps, io', stop', p);
  }

  /** Whatever ran before, however often, a failure-free execution leaves a recorded path at its last
      snapshot exactly when the last undone step puts the same back or, with none left undone, the
      path is there already. */
  lemma ExecutionRestoresIff(files: Files, steps: seq<Step>, io: seq<Io>, stop: bool, p: Path)
    requires |io| == |steps| && WellFormed(steps) && AllWork(io) && LastFor(steps, p).Some?
    ensures var last, undone := LastFor(steps, p).value, LastUndone(steps, p);
            At(Execute(files, steps, io, stop).files, p) == Restored(last) <==>
            (if undone.Some? then Restored(undone.value) else At(files, p)) == Restored(last)
  {
    ExecutionRunsUndone(files, steps, io, stop, p);
  }

  // ----- any number of attempts -----

  /** One execution: how its file operations go, and whether it stops at a failure. */
  datatype Attempt = Attempt(io: seq<Io>, stop: bool)

  /** Files and steps after some attempts. */
  function Attempted(files: Files, steps: seq<Step>, attempts: seq<Attempt>): (w: World)
    requires forall a :: a in attempts ==> |a.io| == |steps|
    ensures |w.steps| == |steps|
    decreases attempts
  {
    if attempts == [] then World(files, steps)
    else
      var o := Execute(files, steps, attempts[0].io, attempts[0].stop);
      Attempted(o.files, o.steps, attempts[1..])
  }

  /** Each completed step's file is as its snapshot has it, and no step with a snapshot is skipped. */
  ghost predicate InForce(files: Files, steps: seq<Step>) {
    forall i :: 0 <= i < |steps| ==> StepInForce(files, steps[i])
  }

  ghost predicate StepInForce(files: Files, s: Step) {
    && s.snapshot.Some? && s.snapshot.value.path == s.target && !s.status.Skipped?
    && (s.status.Completed? ==> At(files, s.target) == Restored(s.snapshot.value))
  }

  lemma DistinctRest(steps: seq<Step>)
    requires steps != [] && DistinctTargets(steps)
    ensures !Recorded(steps[1..], steps[0].target) && DistinctTargets(steps[1..])
  {
    forall i | 0 <= i < |steps[1..]| ensures steps[1..][i].target != steps[0].target {
      assert steps[1..][i] == steps[i + 1];
    }
  }

  lemma InForceRest(files: Files, steps: seq<Step>, io: Io)
    requires steps != [] && DistinctTargets(steps) && InForce(files, steps)
    ensures InForce(if Done(steps[0]) then files else StepFiles(files, steps[0], io), steps[1..])
    ensures WellFormed(steps[1..])
  {
    forall i | 0 <= i < |steps[1..]|
      ensures steps[1..][i] == steps[i + 1] && StepInForce(files, steps[i + 1])
      ensures steps[i + 1].target != steps[0].target
    {
    }
  }

  /** With distinct targets, whatever fails, execution keeps completed steps in force. */
  lemma {:induction false} ExecutionKeepsForce(files: Files, steps: seq<Step>, io: seq<Io>, stop: bool)
    requires |io| == |steps| && DistinctTargets(steps) && InForce(files, steps)
    ensures InForce(Execute(files, steps, io, stop).files, Execute(files, steps, io, stop).steps)
    decreases |steps|
  {
    if steps != [] {
      var first, rest := steps[0], steps[1..];
      var files' := if Done(first) then files else StepFiles(files, first, io[0]);
      assert StepInForce(files, first);
      DistinctRest(steps);
      InForceRest(files, steps, io[0]);
      if Done(first) || !StepStatus(first, io[0]).Failed? || !stop {
        ExecutionKeepsForce(files', rest, io[1..], stop);
        ExecutionTouchesTargets(files', rest, io[1..], stop, first.target);
      }
    }
  }

  /** Only statuses and files change from attempt to attempt. */
  lemma {:induction false} AttemptsKeepForce(files: Files, steps: seq<Step>, attempts: seq<Attempt>)
    requires forall a :: a in attempts ==> |a.io| == |steps|
    requires WellFormed(steps) && DistinctTargets(steps) && InForce(files, steps)
    ensures var w := Attempted(files, steps, attempts);
            && WellFormed(w.steps) && DistinctTargets(w.steps) && InForce(w.files, w.steps)
            && forall i :: 0 <= i < |steps| ==>
                 w.steps[i].target == steps[i].target && w.steps[i].snapshot == steps[i].snapshot
    decreases attempts
  {
    if attempts != [] {
      var a := attempts[0];
      var o := Execute(files, steps, a.io, a.stop);
      ExecutionKeepsForce(files, steps, a.io, a.stop);
      forall i | 0 <= i < |steps|
        ensures o.steps[i].target == steps[i].target && o.steps[i].snapshot == steps[i].snapshot
      {
        ExecutionKeepsSteps(files, steps, a.io, a.stop, i);
      }
      AttemptsKeepForce(o.files, o.steps, attempts[1..]);
    }
  }

  /** When no path is recorded twice, any number of failed or stopped executions can be followed by a
      failure-free one: it leaves every recorded path at its snapshot. */
  lemma RetriesRestore(files: Files, steps: seq<Step>, attempts: seq<Attempt>, io: seq<Io>, stop: bool, i: nat)
    requires forall a :: a in attempts ==> |a.io| == |steps|
    requires WellFormed(steps) && AllPending(steps) && DistinctTargets(steps)
    requires |io| == |steps| && AllWork(io) && i < |steps|
    ensures var w := Attempted(files, steps, attempts);
            At(Execute(w.files, w.steps, io, stop).files, steps[i].target) == Restored(steps[i].snapshot.value)
  {
    AttemptsKeepForce(files, steps, attempts);
    var w := Attempted(files, steps, attempts);
    ExecutionKeepsForce(w.files, w.steps, io, stop);
    ExecutionKeepsSteps(w.files, w.steps, io, stop, i);
    assert StepInForce(Execute(w.files, w.steps, io, stop).files, Execute(w.files, w.steps, io, stop).steps[i]);
  }

  /** In particular after one. */
  lemma RetryRestores(files: Files, steps: seq<Step>, io: seq<Io>, stop: bool, io': seq<Io>, stop': bool, i: nat)
    requires |io| == |steps| == |io'| && WellFormed(steps) && AllPending(steps) && DistinctTargets(steps)
    requires AllWork(io') && i < |steps|
    ensures var o := Execute(files, steps, io, stop);
            At(Execute(o.files, o.steps, io', stop').files, steps[i].target) == Restored(steps[i].snapshot.value)
  {
    var attempts := [Attempt(io, stop)];
    assert attempts[1..] == [];
    RetriesRestore(files, steps, attempts, io', stop', i);
  }

  /** With a path recorded twice a retry can end differently from an execution that never failed:
      the first step, retried last, puts back the older snapshot. Every step is completed then, so
      no later execution mends it. */
  lemma RetryOrderMatters(p: Path)
    ensures var steps := [Step(p, Some(Snapshot(p, Some("old"))), Pending),
                          Step(p, Some(Snapshot(p, Some("new"))), Pending)];
            var o := Execute(map[], steps, [Breaks(None), Works], false);
            var again := Execute(o.files, o.steps, [Works, Works], false);
            && At(Execute(map[], steps, [Works, Works], false).files, p) == Some(Text("new"))
            && At(again.files, p) == Some(Text("old")) && LastUndone(again.steps, p).None?
            && forall io, stop :: |io| == 2 ==> Execute(again.files, again.steps, io, stop) == again.(succeeded := 0)
  {
    var first, second := Step(p, Some(Snapshot(p, Some("old"))), Pending), Step(p, Some(Snapshot(p, Some("new"))),
        Pending);
    var steps := [first, second];
    assert steps[1..] == [second] && [second][1..] == [];
    assert [Works, Works][1..] == [Works] && [Breaks(None), Works][1..] == [Works] && [Works][1..] == [];
    assert Execute(map[p := Text("old")], [second], [Works], false).files == map[p := Text("new")];
    var first', second' := first.(status := Failed), second.(status := Completed);
    var none: Files := map[];
    var o := Execute(none, steps, [Breaks(None), Works], false);
    assert none - {p} == none;
    assert Execute(none, [second], [Works], false) == Outcome(map[p := Text("new")], [second'], 1);
    assert o.steps == [first', second'] && o.files == map[p := Text("new")];
    assert o.steps[1..] == [second'] && [second'][1..] == [];
    assert o.files[p := Text("old")] == map[p := Text("old")];
    assert Execute(map[p := Text("old")], [second'], [Works], false) == Outcome(map[p := Text("old")], [second'], 0);
    var again := Execute(o.files, o.steps, [Works, Works], false);
    assert again.steps == [first.(status := Completed), second'];
    forall io: seq<Io>, stop | |io| == 2 ensures Execute(again.files, again.steps, io, stop) == again.(succeeded := 0) {
      DoneStaysDone(again.files, again.steps, io, stop);
    }
    assert again.steps[1..] == [second'] && [second'][1..] == [] && LastUndone([second'], p).None?;
  }

  // ----- the objects -----

  class FileSystem {
    var files: Files
  }

  class RollbackStep {
    const target: Path
    const snapshot: Option<Snapshot>
    var status: Status

    constructor (target: Path, snapshot: Option<Snapshot>)
      ensures Value() == Step(target, snapshot, Pending)
    {
      this.target, this.snapshot, status := target, snapshot, Pending;
    }

    function Value(): Step
      reads this
    {
      Step(target, snapshot, status)
    }
  }

  class RollbackProcedure {
    var steps: seq<RollbackStep>
    var status: Status
    var totalSteps: nat
    var completedSteps: nat

    constructor ()
      ensures steps == [] && status == Pending && totalSteps == 0 && completedSteps == 0
    {
      steps, status, totalSteps, completedSteps := [], Pending, 0, 0;
    }

    /** No step object occurs twice. */
    ghost predicate Valid()
      reads this
    {
      totalSteps == |steps| && forall i, j :: 0 <= i < j < |steps| ==> steps[i] != steps[j]
    }

    function Values(): (vs: seq<Step>)
      reads this, steps
      ensures |vs| == |steps| && forall i :: 0 <= i < |steps| ==> vs[i] == steps[i].Value()
    {
      seq(|steps|, i requires 0 <= i < |steps| reads this, steps => steps[i].Value())
    }

    method AddStep(step: RollbackStep)
      requires Valid() && step !in steps
      modifies this
      ensures Valid() && steps == old(steps) + [step] && Values() == old(Values()) + [old(step.Value())]
    {
      steps := steps + [step];
      totalSteps := |steps|;
    }
  }

  class RollbackEngine {
    var current: RollbackProcedure?
    var snapshots: map<Path, Snapshot>

    constructor ()
      ensures current == null && snapshots == map[]
    {
      current, snapshots := null, map[];
    }

    method SnapshotFile(fs: FileSystem, p: Path) returns (s: Snapshot)
      modifies this`snapshots
      ensures s == Snapped(fs.files, p) && snapshots == old(snapshots)[p := s]
    {
      var content := None;
      if p in fs.files {
        match fs.files[p] {
          case Text(text) => content := Some(UniversalNewlines(text));
          case Unreadable => content := None;
        }
      }
      s := Snapshot(p, content);
      snapshots := snapshots[p := s];
    }

    method RecordFileModification(fs: FileSystem, p: Path) returns (step: RollbackStep)
      requires current != null ==> current.Valid()
      modifies this`snapshots, current
      ensures current == old(current) && fresh(step) && step.Value() == Step(p, Some(Snapped(fs.files, p)), Pending)
      ensures current != null ==> current.Valid() && current.steps == old(current.steps) + [step]
      ensures current != null ==>
                World(fs.files, current.Values()) == Did(World(old(fs.files), old(current.Values())), Record(p))
    {
      var s := SnapshotFile(fs, p);
      step := new RollbackStep(p, Some(s));
      if current != null {
        current.AddStep(step);
      }
    }

    method BeginProcedure()
      modifies this`current
      ensures current != null && fresh(current) && current.Valid() && current.Values() == []
    {
      current := new RollbackProcedure();
    }

    /** One step; `io` says how its file operations go. */
    method ExecuteStep(fs: FileSystem, step: RollbackStep, io: Io) returns (success: bool)
      modifies fs, step
      ensures fs.files == StepFiles(old(fs.files), old(step.Value()), io)
      ensures step.status == StepStatus(old(step.Value()), io) && success == !step.status.Failed?
    {
      step.status := InProgress;
      if step.snapshot.None? {
        step.status := Skipped;
        return true;
      }
      var s := step.snapshot.value;
      if io.Breaks? {
        fs.files := Placed(fs.files, s.path, io.left);
        step.status := Failed;
        return false;
      }
      if s.content.None? {
        if s.path in fs.files {
          fs.files := fs.files - {s.path};
        } else {
          assert fs.files - {s.path} == fs.files;
        }
      } else {
        fs.files := fs.files[s.path := Text(s.content.value)];
      }
      step.status := Completed;
      return true;
    }

    method ExecuteSteps(fs: FileSystem, proc: RollbackProcedure, stop: bool, io: seq<Io>)
      requires proc.Valid() && |io| == |proc.steps|
      modifies fs, proc`completedSteps, proc.steps
      ensures proc.Valid() && proc.steps == old(proc.steps)
      ensures var o := Execute(old(fs.files), old(proc.Values()), io, stop);
              && fs.files == o.files && proc.Values() == o.steps
              && proc.completedSteps == old(proc.completedSteps) + o.succeeded
    {
      ghost var was := proc.Values();
      ghost var o := Execute(fs.files, was, io, stop);
      o := o.(succeeded := o.succeeded + proc.completedSteps);
      assert was[0..] == was && io[0..] == io;
      for i := 0 to |proc.steps|
        invariant proc.Valid() && proc.steps == old(proc.steps)
        invariant Progress(o, i, Outcome(fs.files, proc.Values(), proc.completedSteps), was, io, stop)
      {
        ProgressStep(o, i, Outcome(fs.files, proc.Values(), proc.completedSteps), was, io, stop);
        var success := ExecuteUnlessDone(fs, proc, i, io[i]);
        if !success && stop {
          break;
        }
      }
    }

    /** Lines 560-566. */
    method ExecuteUnlessDone(fs: FileSystem, proc: RollbackProcedure, i: nat, io: Io) returns (success: bool)
      requires proc.Valid() && i < |proc.steps|
      modifies fs, proc`completedSteps, proc.steps[i]
      ensures proc.Valid() && proc.steps == old(proc.steps)
      ensures Outcome(fs.files, proc.Values(), proc.completedSteps) ==
              Advanced(Outcome(old(fs.files), old(proc.Values()), old(proc.completedSteps)), i, io)
      ensures success == (Done(old(proc.Values())[i]) || !StepStatus(old(proc.Values())[i], io).Failed?)
    {
      var step := proc.steps[i];
      success := true;
      if !(step.status.Completed? || step.status.Skipped?) {
        success := ExecuteStep(fs, step, io);
        if success {
          proc.completedSteps := proc.completedSteps + 1;
        }
      }
    }

    /** The outcome `o` is what is done so far, `now`, followed by executing the steps from `i` on. */
    static ghost predicate Progress(o: Outcome, i: nat, now: Outcome, was: seq<Step>, io: seq<Io>, stop: bool) {
      && i <= |was| == |io| == |o.steps| == |now.steps|
      && now.steps == o.steps[..i] + was[i..]
      && var r := Execute(now.files, was[i..], io[i..], stop);
         o.files == r.files && o.steps[i..] == r.steps && o.succeeded == now.succeeded + r.succeeded
    }

    /** What is done once step `i` has been executed, unless it was done already. */
    static function Advanced(now: Outcome, i: nat, io: Io): Outcome
      requires i < |now.steps|
    {
      var s := now.steps[i];
      if Done(s) then now
      else Outcome(StepFiles(now.files, s, io), now.steps[i := s.(status := StepStatus(s, io))],
                   now.succeeded + if StepStatus(s, io).Failed? then 0 else 1)
    }

    /** One more step of the loop, or the last one if it fails and failures stop the loop. */
    static lemma ProgressStep(o: Outcome, i: nat, now: Outcome, was: seq<Step>, io: seq<Io>, stop: bool)
      requires Progress(o, i, now, was, io, stop) && i < |was|
      ensures var s := now.steps[i];
              if !Done(s) && StepStatus(s, io[i]).Failed? && stop then Advanced(now, i, io[i]) == o
              else Progress(o, i + 1, Advanced(now, i, io[i]), was, io, stop)
    {
      assert now.steps[i] == was[i];
      assert was[i..][1..] == was[i + 1..] && io[i..][1..] == io[i + 1..];
      assert o.steps[i..][1..] == o.steps[i + 1..] && o.steps[i..][0] == o.steps[i];
      assert o.steps[..i + 1] == o.steps[..i] + [o.steps[i]];
      assert o.steps == o.steps[..i] + [o.steps[i]] + o.steps[i + 1..];
      var next := Advanced(now, i, io[i]);
      assert next.steps == o.steps[..i] + [o.steps[i]] + was[i + 1..];
    }

    method ExecuteRollback(fs: FileSystem, given: RollbackProcedure?, stop: bool, io: seq<Io>)
        returns (proc: RollbackProcedure)
      requires given != null ==> given.Valid() && |io| == |given.steps|
      requires given == null && current != null ==> current.Valid() && |io| == |current.steps|
      modifies fs, given, current, if given != null then given.steps else if current != null then current.steps else []
      ensures given == null && current == null ==> fresh(proc) && fs.files == old(fs.files)
      ensures (given != null ==> proc == given) && (given == null && current != null ==> proc == current)
      ensures given != null || current != null ==>
                var p := if given != null then given else current;
                var o := Execute(old(fs.files), old(p.Values()), io, stop);
                && fs.files == o.files && proc.Values() == o.steps && proc.status == Verdict(o.steps)
                && proc.completedSteps == old(p.completedSteps) + o.succeeded
    {
      if given == null && current == null {
        proc := new RollbackProcedure();
        return;
      }
      proc := if given != null then given else current;
      ExecuteSteps(fs, proc, stop, io);
      Conclude(proc);
    }

    /** Lines 571-582. */
    method Conclude(proc: RollbackProcedure)
      modifies proc`status
      ensures proc.Values() == old(proc.Values()) && proc.status == Verdict(proc.Values())
    {
      if Count(proc.Values(), Failed) > 0 {
        proc.status := Failed;
      } else if Count(proc.Values(), Pending) > 0 {
        proc.status := Failed;
      } else {
        proc.status := Completed;
      }
    }
  }
}
