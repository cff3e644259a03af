/** `rann_agent/core/state.py`. The agent's state machine: its transition table, its history and its file on disk. */
module StateMachines {
  import opened Prelude

  datatype State =
    | Queued | Analyzing | ContextReady | Planning | WaitingPolicy | Executing | Verifying | Recovering
    | AcceptanceCheck | Learning | Completed | Failed | Cancelled | TimedOut | Blocked | RolledBack

  predicate IsTerminal(s: State) {
    s in {Completed, Failed, Cancelled, TimedOut, Blocked, RolledBack}
  }

  /** `VALID_TRANSITIONS` */
  function Targets(s: State): set<State> {
    match s
    case Queued => {Analyzing}
    case Analyzing => {ContextReady, Blocked, Failed, Completed}
    case ContextReady => {Planning, Blocked, Failed}
    case Planning => {WaitingPolicy, Executing, Failed}
    case WaitingPolicy => {Executing, Blocked, Failed}
    case Executing => {Verifying, Recovering, Failed, TimedOut}
    case Verifying => {AcceptanceCheck, Recovering, Executing, Failed}
    case Recovering => {Executing, Analyzing, Failed, RolledBack}
    case AcceptanceCheck => {Completed, Learning, Executing, Failed}
    case Learning => {Planning, Completed, Failed}
    case Completed => {}
    case Failed => {}
    case Cancelled => {}
    case TimedOut => {}
    case Blocked => {}
    case RolledBack => {}
  }

  /** Exactly the terminal states have no way out, and every other state but QUEUED can fail. */
  lemma TableShape(s: State)
    ensures IsTerminal(s) <==> Targets(s) == {}
    ensures Failed in Targets(s) <==> !IsTerminal(s) && s != Queued
    ensures Queued !in Targets(s) && Cancelled !in Targets(s)
  {
    if !IsTerminal(s) {
      assert Failed in Targets(s) || Analyzing in Targets(s);
    }
  }

  // ----- history -----

  type Time = int

  /** How writing the state file goes: done, refused with the old file left, or cut short. */
  datatype Write = Written | Refused | CutShort

  /** What a transition is given, the clock readings for its record and for the state, and how its
      write goes. */
  datatype Note = Note(reason: Option<string>, metadata: map<string, string>, now: Time, since: Time, write: Write)

  datatype Record = Record(from: State, to: State, timestamp: Time, reason: Option<string>,
                           metadata: map<string, string>)

  /** Each transition is in the table and starts where the one before it ended. */
  ghost predicate Chain(start: State, history: seq<Record>, end: State) {
    if history == [] then start == end
    else
      var last := history[|history| - 1];
      last.to == end && last.to in Targets(last.from) && Chain(start, history[..|history| - 1], last.from)
  }

  /** A chain, read at one place: a valid transition that is linked to the one before it, out of a
      state that is not terminal. */
  lemma {:induction false} ChainAt(start: State, history: seq<Record>, end: State, i: nat)
    requires Chain(start, history, end) && i < |history|
    ensures history[i].to in Targets(history[i].from) && !IsTerminal(history[i].from)
    ensures history[i].from == if i == 0 then start else history[i - 1].to
    decreases |history|
  {
    var last := |history| - 1;
    if i < last {
      ChainAt(start, history[..last], history[last].from, i);
    } else {
      TableShape(history[i].from);
      if i > 0 {
        ChainAt(start, history[..last], history[last].from, i - 1);
      }
    }
  }

  /** A run that was completed, other than straight from ANALYZING, executed, verified and was
      checked for acceptance in consecutive transitions right before, with at most LEARNING between. */
  lemma CompletionWasChecked(history: seq<Record>)
    requires Chain(Queued, history, Completed) && history[|history| - 1].from != Analyzing
    ensures exists i :: 0 <= i && (i + 2 == |history| - 1 || (i + 3 == |history| - 1 && history[i + 2].to == Learning))
              && history[i].from == Executing && history[i].to == Verifying
              && history[i + 1].from == Verifying && history[i + 1].to == AcceptanceCheck
              && history[i + 2].from == AcceptanceCheck
  {
    var last := |history| - 1;
    ChainAt(Queued, history, Completed, last);
    Sources(history[last].from, Completed);
    var a := last;
    if history[last].from == Learning {
      Predecessor(history, last, Learning);
      a := last - 1;
    }
    Predecessor(history, a, AcceptanceCheck);
    Predecessor(history, a - 1, Verifying);
    var i := a - 2;
    assert history[i].from == Executing && history[i].to == Verifying;
  }

  /** Where the states on the way to completion can be entered from. */
  lemma Sources(s: State, t: State)
    requires t in Targets(s)
    ensures t == Completed ==> s in {Analyzing, AcceptanceCheck, Learning}
    ensures t == Learning ==> s == AcceptanceCheck
    ensures t == AcceptanceCheck ==> s == Verifying
    ensures t == Verifying ==> s == Executing
  {
  }

  lemma Predecessor(history: seq<Record>, i: nat, s: State)
    requires Chain(Queued, history, Completed) && i < |history| && history[i].from == s
    requires s in {Learning, AcceptanceCheck, Verifying}
    ensures i > 0 && history[i - 1].to == s
    ensures history[i - 1].from ==
            match s case Learning => AcceptanceCheck case AcceptanceCheck => Verifying case _ => Executing
  {
    ChainAt(Queued, history, Completed, i);
    ChainAt(Queued, history, Completed, i - 1);
    Sources(history[i - 1].from, s);
  }

  ghost predicate Reachable(s: State) {
    exists history: seq<Record> :: Chain(Queued, history, s)
  }

  /** From QUEUED every state can be reached but CANCELLED: no transition leads there. */
  lemma ReachableIff(s: State)
    ensures Reachable(s) <==> s != Cancelled
  {
    if s != Cancelled {
      var history := PathTo(s, Distance(s));
    } else if Reachable(s) {
      var history: seq<Record> :| Chain(Queued, history, s);
      TableShape(history[|history| - 1].from);
      assert false;
    }
  }

  /** The table read backwards: where each state can be entered from. */
  function EnteredFrom(t: State): set<State> {
    match t
    case Queued => {}
    case Analyzing => {Queued, Recovering}
    case ContextReady => {Analyzing}
    case Planning => {ContextReady, Learning}
    case WaitingPolicy => {Planning}
    case Executing => {Planning, WaitingPolicy, Verifying, Recovering, AcceptanceCheck}
    case Verifying => {Executing}
    case Recovering => {Executing, Verifying}
    case AcceptanceCheck => {Verifying}
    case Learning => {AcceptanceCheck}
    case Completed => {Analyzing, AcceptanceCheck, Learning}
    case Failed => {Analyzing, ContextReady, Planning, WaitingPolicy, Executing, Verifying, Recovering,
                    AcceptanceCheck, Learning}
    case Cancelled => {}
    case TimedOut => {Executing}
    case Blocked => {Analyzing, ContextReady, WaitingPolicy}
    case RolledBack => {Recovering}
  }

  lemma EnteredIff(s: State, t: State)
    ensures t in Targets(s) <==> s in EnteredFrom(t)
  {
  }

  /** How many transitions completion is away. */
  function ToGo(s: State): nat {
    match s
    case Analyzing => 1
    case AcceptanceCheck => 1
    case Learning => 1
    case Queued => 2
    case Verifying => 2
    case Recovering => 2
    case Executing => 3
    case WaitingPolicy => 4
    case Planning => 4
    case ContextReady => 5
    case _ => 0
  }

  /** A transition from `s` on the shortest way to completion. */
  function Onward(s: State): State {
    match s
    case Queued => Analyzing
    case Recovering => Analyzing
    case ContextReady => Planning
    case Planning => Executing
    case WaitingPolicy => Executing
    case Executing => Verifying
    case Verifying => AcceptanceCheck
    case _ => Completed
  }

  ghost predicate Completable(s: State) {
    exists history: seq<Record> :: Chain(s, history, Completed)
  }

  /** From every state that is not terminal COMPLETED can still be reached, from a terminal one only if
      it is COMPLETED. */
  lemma CompletableIff(s: State)
    ensures Completable(s) <==> !IsTerminal(s) || s == Completed
  {
    if !IsTerminal(s) || s == Completed {
      var history := WayToCompleted(s, ToGo(s));
    } else if Completable(s) {
      var history: seq<Record> :| Chain(s, history, Completed);
      assert history != [];
      ChainAt(s, history, Completed, 0);
      assert false;
    }
  }

  lemma {:induction false} WayToCompleted(s: State, fuel: nat) returns (history: seq<Record>)
    requires (!IsTerminal(s) || s == Completed) && ToGo(s) <= fuel
    ensures Chain(s, history, Completed)
    decreases fuel
  {
    if s == Completed {
      history := [];
    } else {
      var rest := WayToCompleted(Onward(s), fuel - 1);
      var first := Record(s, Onward(s), 0, None, map[]);
      ChainBefore(first, rest, Completed);
      history := [first] + rest;
    }
  }

  lemma {:induction false} ChainBefore(first: Record, rest: seq<Record>, end: State)
    requires first.to in Targets(first.from) && Chain(first.to, rest, end)
    ensures Chain(first.from, [first] + rest, end)
    decreases |rest|
  {
    var history := [first] + rest;
    if rest == [] {
      assert history[..0] == [] && history[0] == first;
    } else {
      assert history[..|history| - 1] == [first] + rest[..|rest| - 1];
      ChainBefore(first, rest[..|rest| - 1], rest[|rest| - 1].from);
    }
  }

  /** A state one transition before `s` on a way from QUEUED. */
  function Before(s: State): State {
    match s
    case Queued => Queued
    case Analyzing => Queued
    case ContextReady => Analyzing
    case Planning => ContextReady
    case WaitingPolicy => Planning
    case Executing => Planning
    case Verifying => Executing
    case Recovering => Executing
    case AcceptanceCheck => Verifying
    case Learning => AcceptanceCheck
    case Completed => Analyzing
    case Failed => Analyzing
    case Cancelled => Queued
    case TimedOut => Executing
    case Blocked => Analyzing
    case RolledBack => Recovering
  }

  function Distance(s: State): nat {
    match s
    case Queued => 0
    case Analyzing => 1
    case ContextReady => 2
    case Completed => 2
    case Failed => 2
    case Blocked => 2
    case Planning => 3
    case WaitingPolicy => 4
    case Executing => 4
    case Verifying => 5
    case Recovering => 5
    case TimedOut => 5
    case AcceptanceCheck => 6
    case RolledBack => 6
    case Learning => 7
    case Cancelled => 0
  }

  lemma {:induction false} PathTo(s: State, fuel: nat) returns (history: seq<Record>)
    requires s != Cancelled && Distance(s) <= fuel
    ensures Chain(Queued, history, s)
    decreases fuel
  {
    if s == Queued {
      history := [];
    } else {
      var before := PathTo(Before(s), fuel - 1);
      history := before + [Record(Before(s), s, 0, None, map[])];
      assert history[..|before|] == before;
    }
  }

  // ----- the file -----

  function Name(s: State): string {
    match s
    case Queued => "queued"
    case Analyzing => "analyzing"
    case ContextReady => "context_ready"
    case Planning => "planning"
    case WaitingPolicy => "waiting_policy"
    case Executing => "executing"
    case Verifying => "verifying"
    case Recovering => "recovering"
    case AcceptanceCheck => "acceptance_check"
    case Learning => "learning"
    case Completed => "completed"
    case Failed => "failed"
    case Cancelled => "cancelled"
    case TimedOut => "timed_out"
    case Blocked => "blocked"
    case RolledBack => "rolled_back"
  }

  const STATES: seq<State> := [Queued, Analyzing, ContextReady, Planning, WaitingPolicy, Executing, Verifying,
                               Recovering, AcceptanceCheck, Learning, Completed, Failed, Cancelled, TimedOut,
                               Blocked, RolledBack]

  /** `AgentState(value)`: the state of that name, or an error. */
  function Named(name: string, among: seq<State>): Option<State> {
    if among == [] then None
    else if Name(among[0]) == name then Some(among[0])
    else Named(name, among[1..])
  }

  datatype RecordJson = RecordJson(from: string, to: string, timestamp: Time, reason: Option<string>,
                                   metadata: map<string, string>)

  datatype Json = Json(state: string, since: Time, history: seq<RecordJson>)

  /** The state file: JSON of the right shape, or something that does not parse. */
  datatype File = Parses(json: Json) | Garbled

  function Encoded(r: Record): RecordJson {
    RecordJson(Name(r.from), Name(r.to), r.timestamp, r.reason, r.metadata)
  }

  function EncodedAll(rs: seq<Record>): seq<RecordJson> {
    if rs == [] then [] else [Encoded(rs[0])] + EncodedAll(rs[1..])
  }

  function Decoded(j: RecordJson): Option<Record> {
    var from, to := Named(j.from, STATES), Named(j.to, STATES);
    if from.Some? && to.Some? then Some(Record(from.value, to.value, j.timestamp, j.reason, j.metadata)) else None
  }

  function DecodedAll(js: seq<RecordJson>): Option<seq<Record>> {
    if js == [] then Some([])
    else
      var first, rest := Decoded(js[0]), DecodedAll(js[1..]);
      if first.Some? && rest.Some? then Some([first.value] + rest.value) else None
  }

  lemma {:induction false} NamedSkips(name: string, among: seq<State>, i: nat)
    requires i < |among| && Name(among[i]) == name
    requires forall j :: 0 <= j < i ==> Name(among[j]) != name
    ensures Named(name, among) == Some(among[i])
  {
    if i > 0 {
      NamedSkips(name, among[1..], i - 1);
    }
  }

  function Index(s: State): nat {
    match s
    case Queued => 0
    case Analyzing => 1
    case ContextReady => 2
    case Planning => 3
    case WaitingPolicy => 4
    case Executing => 5
    case Verifying => 6
    case Recovering => 7
    case AcceptanceCheck => 8
    case Learning => 9
    case Completed => 10
    case Failed => 11
    case Cancelled => 12
    case TimedOut => 13
    case Blocked => 14
    case RolledBack => 15
  }

  lemma NameRoundTrip(s: State)
    ensures Named(Name(s), STATES) == Some(s)
  {
    assert STATES[Index(s)] == s;
    forall j | 0 <= j < Index(s) ensures Name(STATES[j]) != Name(s) {
      NamesDiffer(STATES[j], s);
    }
    NamedSkips(Name(s), STATES, Index(s));
  }

  lemma NamesDiffer(s: State, t: State)
    requires s != t
    ensures Name(s) != Name(t)
  {
    assert |Name(s)| != |Name(t)| || Name(s)[0] != Name(t)[0] || Name(s)[1] != Name(t)[1];
  }

  lemma RecordRoundTrip(r: Record)
    ensures Decoded(Encoded(r)) == Some(r)
  {
    NameRoundTrip(r.from);
    NameRoundTrip(r.to);
  }

  lemma {:induction false} HistoryRoundTrip(rs: seq<Record>)
    ensures DecodedAll(EncodedAll(rs)) == Some(rs)
  {
    if rs != [] {
      HistoryRoundTrip(rs[1..]);
      RecordRoundTrip(rs[0]);
      assert EncodedAll(rs)[0] == Encoded(rs[0]) && EncodedAll(rs)[1..] == EncodedAll(rs[1..]);
      assert [rs[0]] + rs[1..] == rs;
    }
  }

  // ----- the machine -----

  datatype Machine = Machine(state: State, since: Time, history: seq<Record>, file: Option<File>)

  function Fresh(now: Time, file: Option<File>): Machine {
    Machine(Queued, now, [], file)
  }

  predicate Allowed(m: Machine, target: State) {
    target in Targets(m.state)
  }

  function Saved(m: Machine): File {
    Parses(Json(Name(m.state), m.since, EncodedAll(m.history)))
  }

  /** The file after an attempt to write it; a proper part of the text does not parse. */
  function FileAfter(m: Machine, w: Write): Option<File> {
    match w
    case Written => Some(Saved(m))
    case Refused => m.file
    case CutShort => Some(Garbled)
  }

  /** `transition`, when allowed. */
  function Moved(m: Machine, target: State, n: Note): Machine {
    var record := Record(m.state, target, n.now, n.reason, n.metadata);
    var m1 := m.(state := target, since := n.since, history := m.history + [record]);
    m1.(file := FileAfter(m1, n.write))
  }

  /** `load`: the state is assigned before the history is decoded. */
  function Loaded(m: Machine): Machine {
    if m.file.None? || m.file.value.Garbled? then m
    else
      var json := m.file.value.json;
      var state := Named(json.state, STATES);
      if state.None? then m
      else
        var m1 := m.(state := state.value, since := json.since);
        var history := DecodedAll(json.history);
        if history.None? then m1 else m1.(history := history.value)
  }

  predicate LoadSucceeds(m: Machine) {
    m.file.Some? && m.file.value.Parses? && Named(m.file.value.json.state, STATES).Some?
    && DecodedAll(m.file.value.json.history).Some?
  }

  /** After any transition that was written, loading on a fresh machine restores state and history. */
  lemma LoadRestores(m: Machine, target: State, n: Note, now: Time)
    requires Allowed(m, target) && n.write.Written?
    ensures var m1 := Moved(m, target, n);
            LoadSucceeds(Fresh(now, m1.file)) && Loaded(Fresh(now, m1.file)) == m1
  {
    var m1 := Moved(m, target, n);
    NameRoundTrip(m1.state);
    HistoryRoundTrip(m1.history);
  }

  /** A load that fails changes the machine exactly when the file parses and names a known state (so a
      record did not decode) and that state or its time differ; the history stays, and no longer fits. */
  lemma FailedLoadChangesIff(m: Machine)
    requires !LoadSucceeds(m)
    ensures Loaded(m) != m <==>
            && m.file.Some? && m.file.value.Parses? && Named(m.file.value.json.state, STATES).Some?
            && (Named(m.file.value.json.state, STATES) != Some(m.state) || m.file.value.json.since != m.since)
    ensures Loaded(m).history == m.history
  {
  }

  /** A file from elsewhere that names "planning" and has one record of an unknown state: the load
      fails and leaves the machine in PLANNING with an empty history, which is no chain. Files such
      machines write are not of this kind. */
  lemma HalfLoaded(now: Time, since: Time)
    ensures var record := RecordJson("queued", "unknown", 0, None, map[]);
            var m := Fresh(now, Some(Parses(Json("planning", since, [record]))));
            && !LoadSucceeds(m) && Loaded(m) == m.(state := Planning, since := since)
            && !Chain(Queued, Loaded(m).history, Loaded(m).state) && !GoodFile(m.file)
  {
    var record := RecordJson("queued", "unknown", 0, None, map[]);
    var m := Fresh(now, Some(Parses(Json("planning", since, [record]))));
    NameRoundTrip(Planning);
    UnknownState(record);
    UndecodableIsForeign(m.file.value);
    assert !Chain(Queued, [], Planning);
  }

  lemma UnknownState(record: RecordJson)
    requires record.to == "unknown"
    ensures DecodedAll([record]).None?
  {
    forall s ensures Name(s) != "unknown" {
      assert |Name(s)| != 7 || Name(s)[0] != 'u';
    }
    UnknownName("unknown", STATES);
  }

  lemma {:induction false} UnknownName(name: string, among: seq<State>)
    requires forall s :: Name(s) != name
    ensures Named(name, among).None?
  {
    if among != [] {
      UnknownName(name, among[1..]);
    }
  }

  /** A file whose records do not decode was not written by such a machine. */
  lemma UndecodableIsForeign(file: File)
    requires file.Parses? && DecodedAll(file.json.history).None?
    ensures !GoodFile(Some(file))
  {
    if w: Machine :| file == Saved(w) {
      HistoryRoundTrip(w.history);
      assert false;
    }
  }

  // ----- whole runs -----

  datatype Op = Transition(target: State, note: Note) | Restart(now: Time)

  /** A refused transition changes nothing; a restart loads the file into a new machine. */
  function Did(m: Machine, op: Op): Machine {
    match op
    case Transition(target, note) => if Allowed(m, target) then Moved(m, target, note) else m
    case Restart(now) => Loaded(Fresh(now, m.file))
  }

  function DidAll(m: Machine, ops: seq<Op>): Machine
    decreases ops
  {
    if ops == [] then m else DidAll(Did(m, ops[0]), ops[1..])
  }

  /** The file, if there is one that parses, was written by such a machine. */
  ghost predicate GoodFile(file: Option<File>) {
    file.Some? && file.value.Parses? ==>
      exists w: Machine :: file.value == Saved(w) && Chain(Queued, w.history, w.state)
  }

  ghost predicate Inv(m: Machine) {
    Chain(Queued, m.history, m.state) && GoodFile(m.file)
  }

  lemma OpKeepsInv(m: Machine, op: Op)
    requires Inv(m)
    ensures Inv(Did(m, op))
  {
    match op {
      case Transition(target, note) =>
        if Allowed(m, target) {
          var m1 := Moved(m, target, note);
          assert m1.history[..|m.history|] == m.history;
          assert note.write.Written? ==> m1.file.value == Saved(m1);
        }
      case Restart(now) =>
        if m.file.Some? && m.file.value.Parses? {
          var w: Machine :| m.file.value == Saved(w) && Chain(Queued, w.history, w.state);
          NameRoundTrip(w.state);
          HistoryRoundTrip(w.history);
        }
    }
  }

  /** Over transitions, refused ones, writes that fail or are cut short, and restarts, the history is
      always a linked chain of valid transitions from QUEUED to the current state, with a terminal
      state only at its end, and the state is never CANCELLED. */
  lemma {:induction false} ReachableIsChain(m: Machine, ops: seq<Op>)
    requires Inv(m)
    ensures Inv(DidAll(m, ops))
    ensures forall i :: 0 <= i < |DidAll(m, ops).history| ==> !IsTerminal(DidAll(m, ops).history[i].from)
    ensures DidAll(m, ops).state != Cancelled
    decreases ops
  {
    if ops == [] {
      forall i | 0 <= i < |m.history| ensures !IsTerminal(m.history[i].from) {
        ChainAt(Queued, m.history, m.state, i);
      }
      ReachableIff(m.state);
      assert Reachable(m.state);
    } else {
      OpKeepsInv(m, ops[0]);
      ReachableIsChain(Did(m, ops[0]), ops[1..]);
    }
  }

  // ----- the object -----

  class AgentStateMachine {
    var state: State
    var since: Time
    var history: seq<Record>
    var file: Option<File>

    constructor (now: Time, file: Option<File>, initial: State := Queued)
      ensures Value() == Machine(initial, now, [], file)
    {
      state, since, history := initial, now, [];
      this.file := file;
    }

    function Value(): Machine
      reads this
    {
      Machine(state, since, history, file)
    }

    /** `ok` is false where the source raises. */
    method Transition(target: State, note: Note) returns (ok: bool)
      modifies this
      ensures ok == Allowed(old(Value()), target)
      ensures Value() == if ok then Moved(old(Value()), target, note) else old(Value())
      ensures ok ==> && state == target && since == note.since
                     && history == old(history) + [Record(old(state), target, note.now, note.reason, note.metadata)]
    {
      if target !in Targets(state) {
        return false;
      }
      var record := Record(state, target, note.now, note.reason, note.metadata);
      state := target;
      history := history + [record];
      since := note.since;
      Persist(note.write);
      return true;
    }

    method Persist(write: Write)
      modifies this`file
      ensures file == FileAfter(old(Value()), write)
      ensures write.Written? ==> file == Some(Parses(Json(Name(state), since, EncodedAll(history))))
      ensures write.Refused? ==> file == old(file)
      ensures write.CutShort? ==> file == Some(Garbled)
    {
      match write {
        case Written => file := Some(Parses(Json(Name(state), since, EncodedAll(history))));
        case Refused =>
        case CutShort => file := Some(Garbled);
      }
    }

    method Load() returns (ok: bool)
      modifies this
      ensures ok == LoadSucceeds(old(Value())) && Value() == Loaded(old(Value()))
    {
      if file.None? || file.value.Garbled? {
        return false;
      }
      var json := file.value.json;
      var persisted := Named(json.state, STATES);
      if persisted.None? {
        return false;
      }
      state := persisted.value;
      since := json.since;
      var decoded := DecodedAll(json.history);
      if decoded.None? {
        return false;
      }
      history := decoded.value;
      return true;
    }
  }
}
