/** `rann_agent/core/lifecycle.py`. The lifecycle's `run()` context manager: whatever the body
    of a run does, leaving it leaves the machine in a terminal state. */
module Lifecycles {
  import opened Prelude
  import opened StateMachines

  /** What a body can ask of the lifecycle. The flags say where code outside this model raises: the
      state-change callback, and collecting the checkpoint's data. */
  datatype Call =
    | TransitionTo(target: State, note: Note, callbackRaises: bool)
    | Checkpoint(note: Note, back: Note, dataRaises: bool)

  /** The machine afterwards, and whether the call raised. */
  datatype Result = Result(m: Machine, raised: bool)

  function Transitioned(m: Machine, target: State, note: Note): Result {
    if Allowed(m, target) then Result(Moved(m, target, note), false) else Result(m, true)
  }

  function Called(m: Machine, c: Call): Result {
    match c
    case TransitionTo(target, note, callbackRaises) =>
      var r := Transitioned(m, target, note);
      if r.raised then r else Result(r.m, callbackRaises)
    case Checkpoint(note, back, dataRaises) =>
      var r := Transitioned(m, Recovering, note);
      if r.raised then r
      else if dataRaises then Result(r.m, true)
      else if |r.m.history| >= 2 then Transitioned(r.m, r.m.history[|r.m.history| - 2].to, back)
      else r
  }

  /** A body may catch what a call raises and go on, so all its calls are made. */
  function Body(m: Machine, calls: seq<Call>): Machine
    decreases calls
  {
    if calls == [] then m else Body(Called(m, calls[0]).m, calls[1..])
  }

  /** `run()` around a body that makes these calls and then ends, raising or not. */
  function Run(m: Machine, entry: Note, calls: seq<Call>, bodyRaises: bool, exit: Note, failure: Note): Result {
    var started := Transitioned(m, Analyzing, entry);
    if started.raised then Result(Transitioned(m, Failed, failure).m, true)
    else
      var m1 := Body(started.m, calls);
      var completed := Transitioned(m1, Completed, exit);
      if bodyRaises || completed.raised then Result(Transitioned(m1, Failed, failure).m, true)
      else completed
  }

  /** The calls are made one after the other, each on what the ones before left. */
  lemma {:induction false} BodyMakesCalls(m: Machine, calls: seq<Call>, c: Call)
    ensures Body(m, calls + [c]) == Called(Body(m, calls), c).m
    decreases calls
  {
    if calls == [] {
      assert calls + [c] == [c] && [c][1..] == [];
    } else {
      assert (calls + [c])[1..] == calls[1..] + [c];
      BodyMakesCalls(Called(m, calls[0]).m, calls[1..], c);
    }
  }

  /** A checkpoint taken while EXECUTING records the way to RECOVERING and back. */
  lemma CheckpointRecords(m: Machine, note: Note, back: Note)
    requires Inv(m) && m.state == Executing
    ensures Called(m, Checkpoint(note, back, false)).m.history ==
            m.history + [Record(Executing, Recovering, note.now, note.reason, note.metadata),
                         Record(Recovering, Executing, back.now, back.reason, back.metadata)]
  {
    assert m.history != [] && m.history[|m.history| - 1].to == Executing;
  }

  /** A checkpoint whose data cannot be collected raises and leaves the machine RECOVERING. */
  lemma FailedCheckpointStrands(m: Machine, note: Note, back: Note)
    requires m.state in {Executing, Verifying}
    ensures var r := Called(m, Checkpoint(note, back, true)); r.raised && r.m.state == Recovering
  {
  }

  lemma CallAvoidsQueued(m: Machine, c: Call)
    requires m.state != Queued
    ensures Called(m, c).m.state != Queued
  {
    TableShape(m.state);
    TableShape(Recovering);
  }

  lemma {:induction false} BodyAvoidsQueued(m: Machine, calls: seq<Call>)
    requires m.state != Queued
    ensures Body(m, calls).state != Queued
    decreases calls
  {
    if calls != [] {
      CallAvoidsQueued(m, calls[0]);
      BodyAvoidsQueued(Called(m, calls[0]).m, calls[1..]);
    }
  }

  lemma {:induction false} BodyKeepsInv(m: Machine, calls: seq<Call>)
    requires Inv(m)
    ensures Inv(Body(m, calls))
    decreases calls
  {
    if calls != [] {
      CallKeepsInv(m, calls[0]);
      BodyKeepsInv(Called(m, calls[0]).m, calls[1..]);
    }
  }

  lemma TransitionedKeepsInv(m: Machine, target: State, note: Note)
    requires Inv(m)
    ensures Inv(Transitioned(m, target, note).m)
  {
    OpKeepsInv(m, Transition(target, note));
  }

  lemma CallKeepsInv(m: Machine, c: Call)
    requires Inv(m)
    ensures Inv(Called(m, c).m)
  {
    match c {
      case TransitionTo(target, note, callbackRaises) => TransitionedKeepsInv(m, target, note);
      case Checkpoint(note, back, dataRaises) =>
        TransitionedKeepsInv(m, Recovering, note);
        var m1 := Transitioned(m, Recovering, note).m;
        if |m1.history| >= 2 {
          TransitionedKeepsInv(m1, m1.history[|m1.history| - 2].to, back);
        }
    }
  }

  /** Leaving `run()` leaves the machine terminal, from QUEUED and from any other state, whatever
      the body calls, whichever calls raise and however the body ends. */
  lemma RunEndsTerminal(m: Machine, entry: Note, calls: seq<Call>, bodyRaises: bool, exit: Note, failure: Note)
    ensures IsTerminal(Run(m, entry, calls, bodyRaises, exit, failure).m.state)
  {
    TableShape(m.state);
    if Allowed(m, Analyzing) {
      var started := Moved(m, Analyzing, entry);
      BodyAvoidsQueued(started, calls);
      TableShape(Body(started, calls).state);
    } else {
      assert m.state != Queued;
    }
  }

  /** The history `run()` leaves is again a chain of valid transitions from QUEUED. */
  lemma RunKeepsInv(m: Machine, entry: Note, calls: seq<Call>, bodyRaises: bool, exit: Note, failure: Note)
    requires Inv(m)
    ensures Inv(Run(m, entry, calls, bodyRaises, exit, failure).m)
  {
    var started := Transitioned(m, Analyzing, entry);
    TransitionedKeepsInv(m, Analyzing, entry);
    TransitionedKeepsInv(m, Failed, failure);
    BodyKeepsInv(started.m, calls);
    var m1 := Body(started.m, calls);
    TransitionedKeepsInv(m1, Completed, exit);
    TransitionedKeepsInv(m1, Failed, failure);
  }

  /** From QUEUED the outcome is exact: a terminal state the body reached stays, an orderly end in
      ANALYZING, ACCEPTANCE_CHECK or LEARNING completes, anything else fails; and `run()` raises
      unless it completes. */
  lemma RunOutcome(m: Machine, entry: Note, calls: seq<Call>, bodyRaises: bool, exit: Note, failure: Note)
    requires m.state == Queued
    ensures var s := Body(Moved(m, Analyzing, entry), calls).state;
            var r := Run(m, entry, calls, bodyRaises, exit, failure);
            var completes := !bodyRaises && s in {Analyzing, AcceptanceCheck, Learning};
            && r.m.state == (if IsTerminal(s) then s else if completes then Completed else Failed)
            && r.raised == !completes
  {
    var started := Moved(m, Analyzing, entry);
    BodyAvoidsQueued(started, calls);
    var s := Body(started, calls).state;
    TableShape(s);
    assert Completed in Targets(s) <==> s in {Analyzing, AcceptanceCheck, Learning};
  }

  /** A checkpoint returns to the state it was taken in, without raising, exactly when taken while
      EXECUTING (and its data could be collected). */
  lemma CheckpointReturnsIff(m: Machine, note: Note, back: Note, dataRaises: bool)
    requires Inv(m)
    ensures var r := Called(m, Checkpoint(note, back, dataRaises));
            r == Result(r.m, false) && r.m.state == m.state <==> m.state == Executing && !dataRaises
  {
  }

  /** Taken while VERIFYING it raises and leaves the machine RECOVERING. */
  lemma CheckpointFromVerifying(m: Machine, note: Note, back: Note)
    requires Inv(m) && m.state == Verifying
    ensures var r := Called(m, Checkpoint(note, back, false)); r.raised && r.m.state == Recovering
  {
  }

  // ----- the object -----

  class AgentLifecycle {
    const stateMachine: AgentStateMachine
    /** The state recorded by the last checkpoint. */
    var checkpointState: Option<State>

    constructor (machine: AgentStateMachine)
      ensures stateMachine == machine && checkpointState == None
    {
      stateMachine := machine;
      checkpointState := None;
    }

    method Transition(target: State, note: Note, callbackRaises: bool) returns (raised: bool)
      modifies stateMachine
      ensures Result(stateMachine.Value(), raised) ==
              Called(old(stateMachine.Value()), TransitionTo(target, note, callbackRaises))
      ensures raised == (target !in Targets(old(stateMachine.state)) || callbackRaises)
    {
      var ok := stateMachine.Transition(target, note);
      if !ok {
        return true;
      }
      return callbackRaises;
    }

    method TakeCheckpoint(note: Note, back: Note, dataRaises: bool) returns (raised: bool)
      modifies this, stateMachine
      ensures Result(stateMachine.Value(), raised) ==
              Called(old(stateMachine.Value()), Checkpoint(note, back, dataRaises))
      ensures checkpointState == (if Allowed(old(stateMachine.Value()), Recovering) && !dataRaises then Some(Recovering)
                                  else old(checkpointState))
    {
      var ok := stateMachine.Transition(Recovering, note);
      if !ok || dataRaises {
        return true;
      }
      checkpointState := Some(stateMachine.state);
      var history := stateMachine.history;
      if |history| >= 2 {
        ok := stateMachine.Transition(history[|history| - 2].to, back);
        return !ok;
      }
      return false;
    }

    method Execute(calls: seq<Call>)
      modifies this, stateMachine
      ensures stateMachine.Value() == Body(old(stateMachine.Value()), calls)
    {
      for i := 0 to |calls|
        invariant Body(stateMachine.Value(), calls[i..]) == Body(old(stateMachine.Value()), calls)
      {
        assert calls[i..][1..] == calls[i + 1..];
        var raised;
        match calls[i] {
          case TransitionTo(target, note, callbackRaises) => raised := Transition(target, note, callbackRaises);
          case Checkpoint(note, back, dataRaises) => raised := TakeCheckpoint(note, back, dataRaises);
        }
      }
    }

    method RunBody(entry: Note, calls: seq<Call>, bodyRaises: bool, exit: Note, failure: Note) returns (raised: bool)
      modifies this, stateMachine
      ensures Result(stateMachine.Value(), raised) ==
              Run(old(stateMachine.Value()), entry, calls, bodyRaises, exit, failure)
      ensures IsTerminal(stateMachine.state)
    {
      RunEndsTerminal(stateMachine.Value(), entry, calls, bodyRaises, exit, failure);
      var ok := stateMachine.Transition(Analyzing, entry);
      if ok {
        Execute(calls);
        if !bodyRaises {
          ok := stateMachine.Transition(Completed, exit);
          if ok {
            return false;
          }
        }
      }
      ok := stateMachine.Transition(Failed, failure);
      return true;
    }
  }
}
