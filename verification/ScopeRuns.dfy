/** The analysis scope (crates/agent/src/domain/scope.rs) and the events its tracker
    publishes (crates/agent/src/plugins/scope_tracker.rs), as a step machine. Image names
    are taken already lower-cased. */
module ScopeRuns {
  import opened Wrappers
  import Chains

  datatype ProcessRecord = ProcessRecord(pid: nat, parent: Option<nat>, name: string, startedAt: int,
        endedAt: Option<int>)

  datatype Session = Session(processes: seq<ProcessRecord>, drops: set<string>)

  datatype State = State(sessions: seq<Session>, expected: seq<string>, closed: set<string>)

  datatype Source =
    | ProcessStarted(pid: nat, parent: Option<nat>, name: string)
    | ProcessStopped(stoppedPid: nat, stoppedName: string)
    | FileWritten(writer: nat, written: Option<string>, matches: bool)   // whether the drop filter matches the path
    | FileReleased(closer: nat, released: Option<string>)                // closed or cleaned up
    | BehaviorCall(caller: nat, api: nat)
    | OtherSource

  datatype Bus =
    | TargetLaunched(launched: string)
    | ProcessEnteredScope(entered: nat, enteredName: string)
    | ProcessExitedScope(exited: nat, exitedName: string)
    | ScopeDied
    | DropObserved(path: string, writtenBy: nat)
    | DropClosed(closedPath: string)
    | BehaviorObserved(observed: nat, observedApi: nat)

  datatype Step =
    | OpenSession
    | Expect(image: string)
    | CloseAll(now: int)                       // finalization stamps every live record
    | Handle(source: Source, target: string, now: int)

  // ---- Tracker operations

  function Processes(s: State): seq<ProcessRecord> {
    if s.sessions == [] then [] else s.sessions[|s.sessions| - 1].processes
  }

  function Drops(s: State): set<string> {
    if s.sessions == [] then {} else s.sessions[|s.sessions| - 1].drops
  }

  function WithProcesses(s: State, processes: seq<ProcessRecord>): State
    requires s.sessions != []
  {
    s.(sessions := s.sessions[|s.sessions| - 1 := s.sessions[|s.sessions| - 1].(processes := processes)])
  }

  function WithDrops(s: State, drops: set<string>): State
    requires s.sessions != []
  {
    s.(sessions := s.sessions[|s.sessions| - 1 := s.sessions[|s.sessions| - 1].(drops := drops)])
  }

  predicate LiveIn(processes: seq<ProcessRecord>, pid: nat) {
    exists p <- processes :: p.pid == pid && p.endedAt.None?
  }

  predicate IsScoped(s: State, pid: nat) {
    LiveIn(Processes(s), pid)
  }

  predicate ScopeDead(s: State) {
    Processes(s) != [] && forall p <- Processes(s) :: p.endedAt.Some?
  }

  function Expected(s: State, image: string): State {
    if image == "" || image in s.expected then s else s.(expected := s.expected + [image])
  }

  /** retain: every record of another pid. */
  function Retained(processes: seq<ProcessRecord>, pid: nat): seq<ProcessRecord> {
    if processes == [] then []
    else
      var init, last := processes[..|processes| - 1], processes[|processes| - 1];
      Retained(init, pid) + if last.pid == pid then [] else [last]
  }

  predicate Joins(s: State, pid: nat, parent: Option<nat>, name: string) {
    s.sessions != [] && ((parent.Some? && IsScoped(s, parent.value)) || name in s.expected)
  }

  function Entered(s: State, pid: nat, parent: Option<nat>, name: string, now: int): State {
    if Joins(s, pid, parent, name)
    then WithProcesses(s, Retained(Processes(s), pid) + [ProcessRecord(pid, parent, name, now, None)])
    else s
  }

  /** The first live record of the pid is stamped. */
  function Stamped(processes: seq<ProcessRecord>, pid: nat, now: int): (r: seq<ProcessRecord>)
    ensures |r| == |processes|
    ensures forall i :: 0 <= i < |r| ==> r[i].pid == processes[i].pid
  {
    if processes == [] then []
    else if processes[0].pid == pid
          && processes[0].endedAt.None? then [processes[0].(endedAt := Some(now))] + processes[1..]
    else [processes[0]] + Stamped(processes[1..], pid, now)
  }

  function Exited(s: State, pid: nat, now: int): State {
    if s.sessions == [] then s else WithProcesses(s, Stamped(Processes(s), pid, now))
  }

  function AllStamped(processes: seq<ProcessRecord>, now: int): (r: seq<ProcessRecord>)
    ensures |r| == |processes|
  {
    seq(|processes|, i requires 0 <= i < |processes| =>
      if processes[i].endedAt.None? then processes[i].(endedAt := Some(now)) else processes[i])
  }

  /** The path a write makes newly observed. */
  function ObservedBy(s: State, writer: nat, path: Option<string>, matches: bool): Option<string> {
    if IsScoped(s, writer) && path.Some? && matches && path.value !in Drops(s) then path else None
  }

  /** The path whose close is reported. */
  function ClosedBy(s: State, closer: nat, path: Option<string>): Option<string> {
    if path.Some? && IsScoped(s, closer) && path.value in Drops(s) && path.value !in s.closed then path else None
  }

  // ---- Events handled

  function Handled(s: State, source: Source, target: string, now: int): (r: (State, seq<Bus>)) {
    match source
    case ProcessStarted(pid, parent, name) =>
      if Joins(s, pid, parent, name) then
        (Entered(s, pid, parent, name, now),
         (if name == target then [TargetLaunched(name)] else []) + [ProcessEnteredScope(pid, name)])
      else (s, [])
    case ProcessStopped(pid, name) =>
      var r := Exited(s, pid, now);
      if IsScoped(s, pid) then (r,
            [ProcessExitedScope(pid, name)] + if ScopeDead(r) then [ScopeDied] else []) else (r, [])
    case FileWritten(writer, path, matches) =>
      var seen := ObservedBy(s, writer, path, matches);
      if seen.Some? && s.sessions != [] then (WithDrops(s, Drops(s) + {seen.value}),
            [DropObserved(seen.value, writer)]) else (s, [])
    case FileReleased(closer, path) =>
      var shut := ClosedBy(s, closer, path);
      if shut.Some? then (s.(closed := s.closed + {shut.value}), [DropClosed(shut.value)]) else (s, [])
    case BehaviorCall(caller, api) =>
      (s, if Chains.IsScoringRelevant(api) && IsScoped(s, caller) then [BehaviorObserved(caller, api)] else [])
    case OtherSource => (s, [])
  }

  function Next(s: State, step: Step): (State, seq<Bus>) {
    match step
    case OpenSession => (s.(sessions := s.sessions + [Session([], {})], closed := {}), [])
    case Expect(image) => (Expected(s, image), [])
    case CloseAll(now) => (if s.sessions == [] then s else WithProcesses(s, AllStamped(Processes(s), now)), [])
    case Handle(source, target, now) => Handled(s, source, target, now)
  }

  // ---- Refinement of a plain scope without records

  function LivePids(processes: seq<ProcessRecord>): set<nat> {
    set p <- processes | p.endedAt.None? :: p.pid
  }

  function Live(s: State): set<nat> {
    LivePids(Processes(s))
  }

  predicate DistinctPids(processes: seq<ProcessRecord>) {
    forall i, j :: 0 <= i < j < |processes| ==> processes[i].pid != processes[j].pid
  }

  predicate Good(s: State) {
    DistinctPids(Processes(s)) && s.closed <= Drops(s)
  }

  lemma LiveIsScoped(s: State, pid: nat)
    ensures IsScoped(s, pid) <==> pid in Live(s)
  {
  }

  lemma {:induction false} RetainedIs(processes: seq<ProcessRecord>, pid: nat)
    ensures forall p :: p in Retained(processes, pid) <==> p in processes && p.pid != pid
    ensures DistinctPids(processes) ==> DistinctPids(Retained(processes, pid))
  {
    if processes != [] {
      var init, last := processes[..|processes| - 1], processes[|processes| - 1];
      RetainedIs(init, pid);
      assert processes == init + [last];
      if DistinctPids(processes) {
        DistinctAdded(Retained(init, pid), init, last);
      }
    }
  }

  lemma DistinctAdded(kept: seq<ProcessRecord>, init: seq<ProcessRecord>, last: ProcessRecord)
    requires DistinctPids(init + [last]) && DistinctPids(kept) && forall p <- kept :: p in init
    ensures DistinctPids(init) && DistinctPids(kept + [last])
  {
    forall p | p in init
      ensures p.pid != last.pid
    {
      var i :| 0 <= i < |init| && init[i] == p;
      assert (init + [last])[i] == p && (init + [last])[|init|] == last;
    }
    assert forall i :: 0 <= i < |kept| ==> kept[i] in init;
    assert forall i :: 0 <= i < |init| ==> (init + [last])[i] == init[i];
  }

  lemma JoinIsAdd(s: State, pid: nat, parent: Option<nat>, name: string, now: int)
    requires DistinctPids(Processes(s)) && Joins(s, pid, parent, name)
    ensures var r := Entered(s, pid, parent, name, now);
            DistinctPids(Processes(r)) && Live(r) == Live(s) + {pid} && Processes(r) != []
  {
    var r := Entered(s, pid, parent, name, now);
    var kept := Retained(Processes(s), pid);
    RetainedIs(Processes(s), pid);
    assert Processes(r) == kept + [ProcessRecord(pid, parent, name, now, None)];
    assert forall i :: 0 <= i < |kept| ==> kept[i] in kept;
    forall p
      ensures p in Live(r) <==> p in Live(s) + {pid}
    {
      if p in Live(s) && p != pid {
        var rec :| rec in Processes(s) && rec.endedAt.None? && rec.pid == p;
        assert rec in kept && rec in Processes(r);
      }
    }
  }

  lemma {:induction false} StampIsRemove(processes: seq<ProcessRecord>, pid: nat, now: int)
    requires DistinctPids(processes)
    ensures DistinctPids(Stamped(processes, pid, now))
    ensures LivePids(Stamped(processes, pid, now)) == LivePids(processes) - {pid}
  {
    if processes != [] {
      var head, rest := processes[0], processes[1..];
      assert processes == [head] + rest;
      DistinctTail(head, rest);
      LiveSplit(head, rest);
      if head.pid == pid && head.endedAt.None? {
        LiveSplit(head.(endedAt := Some(now)), rest);
      } else {
        StampIsRemove(rest, pid, now);
        LiveSplit(head, Stamped(rest, pid, now));
      }
    }
  }

  lemma DistinctTail(head: ProcessRecord, rest: seq<ProcessRecord>)
    requires DistinctPids([head] + rest)
    ensures DistinctPids(rest) && head.pid !in LivePids(rest)
  {
    var all := [head] + rest;
    assert forall i :: 0 <= i < |rest| ==> rest[i] == all[i + 1];
    assert forall p <- rest :: p.pid != all[0].pid;
  }

  lemma LiveSplit(head: ProcessRecord, rest: seq<ProcessRecord>)
    ensures LivePids([head] + rest) == (if head.endedAt.None? then {head.pid} else {}) + LivePids(rest)
  {
    var all := [head] + rest;
    forall p
      ensures p in LivePids(all) <==> p in (if head.endedAt.None? then {head.pid} else {}) + LivePids(rest)
    {
      if p in LivePids(rest) {
        var rec :| rec in rest && rec.endedAt.None? && rec.pid == p;
        assert rec in all;
      }
    }
  }

  lemma AllStampedIsEmpty(processes: seq<ProcessRecord>, now: int)
    ensures LivePids(AllStamped(processes, now)) == {}
    ensures DistinctPids(processes) ==> DistinctPids(AllStamped(processes, now))
  {
  }

  // The scope with no records at all: whether a session is open, which names are expected,
  // and which pids are live. It is told nothing of the tracker's state.

  datatype Scope = Scope(open: bool, expected: set<string>, live: set<nat>)

  function ScopeNext(a: Scope, step: Step): Scope {
    match step
    case OpenSession => a.(open := true, live := {})
    case CloseAll(_) => a.(live := {})
    case Expect(image) => if image == "" then a else a.(expected := a.expected + {image})
    case Handle(ProcessStarted(pid, parent, name), _, _) =>
      if a.open && (name in a.expected || (parent.Some? && parent.value in a.live))
      then a.(live := a.live + {pid})
      else a
    case Handle(ProcessStopped(pid, _), _, _) => a.(live := a.live - {pid})
    case _ => a
  }

  function Names(images: seq<string>): set<string> {
    set name <- images :: name
  }

  /** What the tracker's records say of the scope. */
  function Abstract(s: State): Scope {
    Scope(s.sessions != [], Names(s.expected), Live(s))
  }

  lemma ExpectRefines(s: State, image: string)
    requires image != ""
    ensures Names(Expected(s, image).expected) == Names(s.expected) + {image}
  {
    assert forall name :: name in Expected(s, image).expected <==> name in s.expected || name == image;
  }

  lemma StartRefines(s: State, pid: nat, parent: Option<nat>, name: string, target: string, now: int)
    requires Good(s)
    ensures var step := Handle(ProcessStarted(pid, parent, name), target, now);
            Good(Next(s, step).0) && Abstract(Next(s, step).0) == ScopeNext(Abstract(s), step)
  {
    if parent.Some? {
      LiveIsScoped(s, parent.value);
    }
    if Joins(s, pid, parent, name) {
      JoinIsAdd(s, pid, parent, name, now);
    }
  }

  lemma StopRefines(s: State, pid: nat, name: string, target: string, now: int)
    requires Good(s)
    ensures var step := Handle(ProcessStopped(pid, name), target, now);
            Good(Next(s, step).0) && Abstract(Next(s, step).0) == ScopeNext(Abstract(s), step)
  {
    if s.sessions != [] {
      StampIsRemove(Processes(s), pid, now);
    }
  }

  /** Every step changes the scope by the plain rule: an expected name or a live parent
      joins, a stop leaves, a new session and finalization empty it, nothing else matters. */
  lemma StepRefines(s: State, step: Step)
    requires Good(s)
    ensures Good(Next(s, step).0) && Abstract(Next(s, step).0) == ScopeNext(Abstract(s), step)
  {
    match step
    case OpenSession =>
    case CloseAll(now) => AllStampedIsEmpty(Processes(s), now);
    case Expect(image) =>
      if image != "" {
        ExpectRefines(s, image);
      }
    case Handle(ProcessStarted(pid, parent, name), target, now) => StartRefines(s, pid, parent, name, target, now);
    case Handle(ProcessStopped(pid, name), target, now) => StopRefines(s, pid, name, target, now);
    case Handle(_, _, _) =>
  }

  const START := State([], [], {})

  function After(steps: seq<Step>): State {
    if steps == [] then START else Next(After(steps[..|steps| - 1]), steps[|steps| - 1]).0
  }

  function ScopeAfter(steps: seq<Step>): Scope {
    if steps == [] then Scope(false, {}, {}) else ScopeNext(ScopeAfter(steps[..|steps| - 1]), steps[|steps| - 1])
  }

  lemma {:induction false} AlwaysGood(steps: seq<Step>)
    ensures Good(After(steps))
  {
    if steps != [] {
      AlwaysGood(steps[..|steps| - 1]);
      StepRefines(After(steps[..|steps| - 1]), steps[|steps| - 1]);
    }
  }

  /** Over any run the records keep exactly the plain scope: the live pids, the expected
      names and whether a session is open are what the record-free machine says. */
  lemma {:induction false} ScopeRefined(steps: seq<Step>)
    ensures Abstract(After(steps)) == ScopeAfter(steps)
  {
    if steps != [] {
      ScopeRefined(steps[..|steps| - 1]);
      AlwaysGood(steps[..|steps| - 1]);
      StepRefines(After(steps[..|steps| - 1]), steps[|steps| - 1]);
    }
  }

  lemma StampedNotEmpty(s: State, pid: nat, now: int)
    ensures |Processes(Exited(s, pid, now))| == |Processes(s)|
  {
  }

  lemma DeadIsEmpty(s: State)
    requires Processes(s) != []
    ensures ScopeDead(s) <==> Live(s) == {}
  {
    if Live(s) == {} {
      forall p <- Processes(s)
        ensures p.endedAt.Some?
      {
        assert p.endedAt.None? ==> p.pid in Live(s);
      }
    }
  }

  lemma StopReportsDeath(s: State, pid: nat, name: string, target: string, now: int)
    requires Good(s)
    ensures var (r, events) := Handled(s, ProcessStopped(pid, name), target, now);
            && (ScopeDied in events <==> Live(s) != {} && Live(r) == {})
            && multiset(events)[ScopeDied] <= 1
  {
    StopRefines(s, pid, name, target, now);
    LiveIsScoped(s, pid);
    if IsScoped(s, pid) {
      StampedNotEmpty(s, pid, now);
      DeadIsEmpty(Exited(s, pid, now));
    } else {
      assert Live(s) - {pid} == Live(s);
    }
  }

  lemma OthersReportNoDeath(s: State, source: Source, target: string, now: int)
    requires !source.ProcessStopped?
    ensures ScopeDied !in Handled(s, source, target, now).1
  {
  }

  lemma OthersEndNothing(s: State, source: Source, target: string, now: int)
    requires Good(s) && !source.ProcessStopped?
    ensures Live(s) <= Live(Handled(s, source, target, now).0)
  {
    if source.ProcessStarted? {
      StartRefines(s, source.pid, source.parent, source.name, target, now);
    } else {
      StepRefines(s, Handle(source, target, now));
    }
  }

  /** ScopeDied is published exactly when an event takes the live set from non-empty to
      empty, and then exactly once. */
  lemma DeathIsReported(steps: seq<Step>, source: Source, target: string, now: int)
    ensures var s := After(steps);
            var (r, events) := Handled(s, source, target, now);
            && (ScopeDied in events <==> Live(s) != {} && Live(r) == {})
            && multiset(events)[ScopeDied] <= 1
  {
    AlwaysGood(steps);
    if source.ProcessStopped? {
      StopReportsDeath(After(steps), source.stoppedPid, source.stoppedName, target, now);
    } else {
      OthersReportNoDeath(After(steps), source, target, now);
      OthersEndNothing(After(steps), source, target, now);
    }
  }

  /** A start that does not join changes nothing: a live record its pid already had stays,
      so a child of the new holder still inherits the scope. */
  lemma StaleRecordStays(s: State, pid: nat, parent: Option<nat>, name: string, target: string, now: int)
    requires !Joins(s, pid, parent, name)
    ensures Handled(s, ProcessStarted(pid, parent, name), target, now) == (s, [])
    ensures pid in Live(s) ==> forall child, image :: s.sessions != [] ==> Joins(s, child, Some(pid), image)
  {
    LiveIsScoped(s, pid);
  }

  // ---- Histories: who joined through whom, and what was published, in this session

  datatype Join = Join(pid: nat, parent: Option<nat>, name: string, via: Option<nat>)

  datatype History = History(state: State, joins: seq<Join>, published: seq<Bus>)

  function LastJoin(joins: seq<Join>, pid: nat): (at: Option<nat>)
    ensures at.Some? ==> at.value < |joins| && joins[at.value].pid == pid
    ensures at.None? ==> forall j <- joins :: j.pid != pid
  {
    if joins == [] then None
    else if joins[|joins| - 1].pid == pid then Some(|joins| - 1)
    else LastJoin(joins[..|joins| - 1], pid)
  }

  /** A join through a live parent points to the join that parent's record stands for. */
  function JoinFor(h: History, pid: nat, parent: Option<nat>, name: string): Join {
    Join(pid, parent, name,
         if parent.Some? && IsScoped(h.state, parent.value) then LastJoin(h.joins, parent.value) else None)
  }

  function Record(h: History, step: Step): History {
    var (next, events) := Next(h.state, step);
    match step
    case OpenSession => History(next, [], [])
    case Handle(ProcessStarted(pid, parent, name), _, _) =>
      History(next, if Joins(h.state, pid, parent, name) then h.joins + [JoinFor(h, pid, parent, name)] else h.joins,
              h.published + events)
    case _ => History(next, h.joins, h.published + events)
  }

  function HistoryOf(steps: seq<Step>): History {
    if steps == [] then History(START, [], []) else Record(HistoryOf(steps[..|steps| - 1]), steps[|steps| - 1])
  }

  lemma {:induction false} HistoryState(steps: seq<Step>)
    ensures HistoryOf(steps).state == After(steps)
  {
    if steps != [] {
      HistoryState(steps[..|steps| - 1]);
    }
  }

  lemma RecordKeepsJoined(h: History, step: Step)
    requires h.joins != [] <==> Processes(h.state) != []
    ensures var r := Record(h, step); r.joins != [] <==> Processes(r.state) != []
  {
    match step
    case Handle(ProcessStarted(pid, parent, name), _, now) =>
    case Handle(ProcessStopped(pid, _), _, now) => StampedNotEmpty(h.state, pid, now);
    case Handle(_, _, _) =>
    case _ =>
  }

  /** The session has records exactly when somebody joined in it. */
  lemma {:induction false} RecordedIffJoined(steps: seq<Step>)
    ensures HistoryOf(steps).joins != [] <==> Processes(After(steps)) != []
  {
    HistoryState(steps);
    if steps != [] {
      RecordedIffJoined(steps[..|steps| - 1]);
      HistoryState(steps[..|steps| - 1]);
      RecordKeepsJoined(HistoryOf(steps[..|steps| - 1]), steps[|steps| - 1]);
    }
  }

  /** Dead means that somebody joined in this session and nobody is left. */
  lemma DeadIffEmptied(steps: seq<Step>)
    ensures ScopeDead(After(steps)) <==> HistoryOf(steps).joins != [] && ScopeAfter(steps).live == {}
  {
    RecordedIffJoined(steps);
    ScopeRefined(steps);
    if Processes(After(steps)) != [] {
      DeadIsEmpty(After(steps));
    }
  }

  // ---- Provenance

  /** A join rests on an expected name, or on an earlier join of its parent. */
  predicate Founded(joins: seq<Join>, expected: seq<string>, j: nat)
    requires j < |joins|
  {
    match joins[j].via
    case None => joins[j].name in expected
    case Some(i) => i < j && joins[j].parent == Some(joins[i].pid)
  }

  predicate Standing(p: ProcessRecord, joins: seq<Join>) {
    var at := LastJoin(joins, p.pid);
    at.Some? && joins[at.value].name == p.name && joins[at.value].parent == p.parent
  }

  predicate Provenance(h: History) {
    && (forall j: nat :: j < |h.joins| ==> Founded(h.joins, h.state.expected, j))
    && (forall p <- Processes(h.state) :: Standing(p, h.joins))
  }

  lemma FoundedGrows(h: History, joins: seq<Join>, expected: seq<string>)
    requires Provenance(h) && h.joins <= joins && forall name <- h.state.expected :: name in expected
    ensures forall j: nat :: j < |h.joins| ==> Founded(joins, expected, j)
  {
    forall j: nat | j < |h.joins|
      ensures Founded(joins, expected, j)
    {
      assert joins[j] == h.joins[j];
      assert Founded(h.joins, h.state.expected, j);
    }
  }

  lemma JoinKeepsProvenance(h: History, pid: nat, parent: Option<nat>, name: string, now: int)
    requires Provenance(h) && Joins(h.state, pid, parent, name)
    ensures Provenance(History(Entered(h.state, pid, parent, name, now), h.joins + [JoinFor(h, pid, parent, name)],
          h.published))
  {
    var join := JoinFor(h, pid, parent, name);
    var joins := h.joins + [join];
    var r := Entered(h.state, pid, parent, name, now);
    FoundedGrows(h, joins, h.state.expected);
    if parent.Some? && IsScoped(h.state, parent.value) {
      var p :| p in Processes(h.state) && p.pid == parent.value && p.endedAt.None?;
      assert Standing(p, h.joins);
      assert joins[join.via.value] == h.joins[join.via.value];
    }
    assert joins[..|joins| - 1] == h.joins;
    RetainedIs(Processes(h.state), pid);
    forall p <- Processes(r)
      ensures Standing(p, joins)
    {
      if p.pid != pid {
        assert p in Retained(Processes(h.state), pid);
        assert Standing(p, h.joins);
      }
    }
  }

  lemma {:induction false} StampedComesFrom(processes: seq<ProcessRecord>, pid: nat, now: int, q: ProcessRecord)
    requires q in Stamped(processes, pid, now)
    ensures exists p :: p in processes && p.pid == q.pid && p.name == q.name && p.parent == q.parent
  {
    assert processes[0] in processes;
    if q != Stamped(processes, pid, now)[0] {
      if processes[0].pid == pid && processes[0].endedAt.None? {
        assert q in processes;
      } else {
        StampedComesFrom(processes[1..], pid, now, q);
      }
    }
  }

  lemma StandingKept(h: History, r: State)
    requires Provenance(h) && r.expected == h.state.expected
    requires forall q <- Processes(r) :: exists p ::
        p in Processes(h.state) && p.pid == q.pid && p.name == q.name && p.parent == q.parent
    ensures Provenance(h.(state := r))
  {
    forall q <- Processes(r)
      ensures Standing(q, h.joins)
    {
      var p :| p in Processes(h.state) && p.pid == q.pid && p.name == q.name && p.parent == q.parent;
      assert Standing(p, h.joins);
    }
  }

  lemma RecordKeepsProvenance(h: History, step: Step)
    requires Provenance(h)
    ensures Provenance(Record(h, step))
  {
    var r := Next(h.state, step).0;
    match step
    case OpenSession =>
    case Expect(image) => FoundedGrows(h, h.joins, r.expected);
    case CloseAll(now) => StandingKept(h, r);
    case Handle(ProcessStarted(pid, parent, name), _, now) =>
      if Joins(h.state, pid, parent, name) {
        JoinKeepsProvenance(h, pid, parent, name, now);
      }
    case Handle(ProcessStopped(pid, _), _, now) =>
      if h.state.sessions != [] {
        forall q <- Processes(r)
          ensures exists p :: p in Processes(h.state) && p.pid == q.pid && p.name == q.name && p.parent == q.parent
        {
          StampedComesFrom(Processes(h.state), pid, now, q);
        }
        StandingKept(h, r);
      }
    case Handle(_, _, _) => StandingKept(h, r);
  }

  lemma {:induction false} AlwaysFounded(steps: seq<Step>)
    ensures Provenance(HistoryOf(steps))
  {
    if steps != [] {
      AlwaysFounded(steps[..|steps| - 1]);
      RecordKeepsProvenance(HistoryOf(steps[..|steps| - 1]), steps[|steps| - 1]);
    }
  }

  predicate Backwards(joins: seq<Join>) {
    forall k: nat :: k < |joins| && joins[k].via.Some? ==> joins[k].via.value < k
  }

  /** A line of joins, each of the parent of the one before. */
  predicate IsLine(joins: seq<Join>, line: seq<nat>) {
    && |line| > 0 && (forall k :: 0 <= k < |line| ==> line[k] < |joins|)
    && (forall k :: 0 <= k < |line| - 1 ==>
        line[k + 1] < line[k] && joins[line[k]].parent == Some(joins[line[k + 1]].pid))
  }

  /** The joins a process descends through, back to the one that needed no parent. */
  function Ancestry(joins: seq<Join>, j: nat): (line: seq<nat>)
    requires j < |joins| && Backwards(joins)
    ensures |line| > 0 && line[0] == j && forall k :: 0 <= k < |line| ==> line[k] < |joins|
  {
    if joins[j].via.None? then [j] else [j] + Ancestry(joins, joins[j].via.value)
  }

  lemma ViaGoesBack(h: History)
    requires Provenance(h)
    ensures Backwards(h.joins)
  {
    forall k: nat | k < |h.joins| && h.joins[k].via.Some?
      ensures h.joins[k].via.value < k
    {
      assert Founded(h.joins, h.state.expected, k);
    }
  }

  lemma {:induction false} AncestryReachesExpected(h: History, j: nat)
    requires Provenance(h) && Backwards(h.joins) && j < |h.joins|
    ensures var line := Ancestry(h.joins, j);
            IsLine(h.joins, line) && h.joins[line[|line| - 1]].name in h.state.expected
    decreases j
  {
    assert Founded(h.joins, h.state.expected, j);
    if h.joins[j].via.Some? {
      var i := h.joins[j].via.value;
      AncestryReachesExpected(h, i);
      LineExtended(h.joins, j, Ancestry(h.joins, i));
    }
  }

  lemma LineExtended(joins: seq<Join>, j: nat, rest: seq<nat>)
    requires IsLine(joins, rest) && j < |joins| && rest[0] < j && joins[j].parent == Some(joins[rest[0]].pid)
    ensures var line := [j] + rest; IsLine(joins, line) && line[|line| - 1] == rest[|rest| - 1]
  {
    var line := [j] + rest;
    forall k | 0 <= k < |line| - 1
      ensures line[k + 1] < line[k] && joins[line[k]].parent == Some(joins[line[k + 1]].pid)
    {
      assert line[k + 1] == rest[k];
      if k > 0 {
        assert line[k] == rest[k - 1];
        assert rest[k - 1 + 1] < rest[k - 1];
      }
    }
  }

  predicate Descent(h: History, p: ProcessRecord, line: seq<nat>) {
    && IsLine(h.joins, line)
    && h.joins[line[0]].pid == p.pid && h.joins[line[0]].name == p.name
    && h.joins[line[|line| - 1]].name in h.state.expected
  }

  /** Every process in the session's scope, live or not, joined, and descends through
      finitely many earlier joins, parent by parent, from an image that was expected. */
  lemma EveryoneDescends(steps: seq<Step>)
    ensures forall p <- Processes(After(steps)) :: exists line :: Descent(HistoryOf(steps), p, line)
  {
    AlwaysFounded(steps);
    HistoryState(steps);
    var h := HistoryOf(steps);
    ViaGoesBack(h);
    forall p <- Processes(h.state)
      ensures exists line :: Descent(h, p, line)
    {
      assert Standing(p, h.joins);
      var at := LastJoin(h.joins, p.pid).value;
      AncestryReachesExpected(h, at);
      assert Descent(h, p, Ancestry(h.joins, at));
    }
  }

  // ---- Drops

  predicate ObservedAt(published: seq<Bus>, i: nat, path: string) {
    i < |published| && published[i].DropObserved? && published[i].path == path
  }

  predicate ClosedAt(published: seq<Bus>, i: nat, path: string) {
    i < |published| && published[i] == DropClosed(path)
  }

  /** What was published about drops is what the tracker remembers. */
  ghost predicate DropsTold(h: History) {
    && (forall path :: path in Drops(h.state) <==> exists i: nat :: ObservedAt(h.published, i, path))
    && (forall path :: path in h.state.closed <==> exists i: nat :: ClosedAt(h.published, i, path))
    && (forall path, i: nat, j: nat :: ObservedAt(h.published, i, path) && ObservedAt(h.published, j, path) ==> i == j)
    && (forall path, i: nat, j: nat :: ClosedAt(h.published, i, path) && ClosedAt(h.published, j, path) ==> i == j)
    && (forall path, j: nat :: ClosedAt(h.published, j, path) ==> exists i: nat ::
        i < j && ObservedAt(h.published, i, path))
  }

  /** Events that are not about drops leave it all as it was. */
  lemma OthersTellNothing(h: History, r: State, events: seq<Bus>)
    requires DropsTold(h) && Drops(r) == Drops(h.state) && r.closed == h.state.closed
    requires forall e <- events :: !e.DropObserved? && !e.DropClosed?
    ensures forall joins :: DropsTold(History(r, joins, h.published + events))
  {
    var published := h.published + events;
    forall i: nat, path
      ensures ObservedAt(published, i, path) <==> ObservedAt(h.published, i, path)
      ensures ClosedAt(published, i, path) <==> ClosedAt(h.published, i, path)
    {
      if |h.published| <= i < |published| {
        assert published[i] in events;
      }
    }
  }

  lemma ObservationTold(h: History, r: State, path: string, writer: nat)
    requires DropsTold(h) && path !in Drops(h.state) && Drops(r) == Drops(h.state) + {path}
          && r.closed == h.state.closed
    ensures DropsTold(History(r, h.joins, h.published + [DropObserved(path, writer)]))
  {
    var n := |h.published|;
    var published := h.published + [DropObserved(path, writer)];
    forall i: nat, p
      ensures ObservedAt(published, i, p) <==> ObservedAt(h.published, i, p) || (i == n && p == path)
      ensures ClosedAt(published, i, p) <==> ClosedAt(h.published, i, p)
    {
    }
    assert ObservedAt(published, n, path);
  }

  lemma CloseTold(h: History, r: State, path: string)
    requires DropsTold(h) && path !in h.state.closed && path in Drops(h.state)
    requires Drops(r) == Drops(h.state) && r.closed == h.state.closed + {path}
    ensures DropsTold(History(r, h.joins, h.published + [DropClosed(path)]))
  {
    var n := |h.published|;
    var published := h.published + [DropClosed(path)];
    forall i: nat, p
      ensures ClosedAt(published, i, p) <==> ClosedAt(h.published, i, p) || (i == n && p == path)
      ensures ObservedAt(published, i, p) <==> ObservedAt(h.published, i, p)
    {
    }
    assert ClosedAt(published, n, path);
    var i: nat :| ObservedAt(h.published, i, path);
    assert i < n && ObservedAt(published, i, path);
  }

  lemma WriteTells(h: History, writer: nat, path: Option<string>, matches: bool, target: string, now: int)
    requires DropsTold(h)
    ensures DropsTold(Record(h, Handle(FileWritten(writer, path, matches), target, now)))
  {
    var (r, events) := Handled(h.state, FileWritten(writer, path, matches), target, now);
    if events != [] {
      ObservationTold(h, r, path.value, writer);
    } else {
      OthersTellNothing(h, r, events);
    }
  }

  lemma ReleaseTells(h: History, closer: nat, path: Option<string>, target: string, now: int)
    requires DropsTold(h)
    ensures DropsTold(Record(h, Handle(FileReleased(closer, path), target, now)))
  {
    var (r, events) := Handled(h.state, FileReleased(closer, path), target, now);
    if events != [] {
      CloseTold(h, r, path.value);
    } else {
      OthersTellNothing(h, r, events);
    }
  }

  lemma RecordTells(h: History, step: Step)
    requires DropsTold(h)
    ensures DropsTold(Record(h, step))
  {
    var (r, events) := Next(h.state, step);
    match step
    case OpenSession =>
    case Handle(FileWritten(writer, path, matches), target, now) => WriteTells(h, writer, path, matches, target, now);
    case Handle(FileReleased(closer, path), target, now) => ReleaseTells(h, closer, path, target, now);
    case _ => OthersTellNothing(h, r, events);
  }

  lemma {:induction false} AlwaysTold(steps: seq<Step>)
    ensures DropsTold(HistoryOf(steps))
  {
    if steps != [] {
      AlwaysTold(steps[..|steps| - 1]);
      RecordTells(HistoryOf(steps[..|steps| - 1]), steps[|steps| - 1]);
    }
  }

  /** In one session each path is reported observed at most once and closed at most once,
      and closed only after it was observed. */
  lemma DropsReportedOnce(steps: seq<Step>, path: string, i: nat, j: nat)
    ensures var log := HistoryOf(steps).published;
            && (ObservedAt(log, i, path) && ObservedAt(log, j, path) ==> i == j)
            && (ClosedAt(log, i, path) && ClosedAt(log, j, path) ==> i == j)
            && (ClosedAt(log, j, path) ==> exists o: nat :: o < j && ObservedAt(log, o, path))
  {
    AlwaysTold(steps);
  }

  /** Drops are observed, and closed, only by a process live in the scope at that moment. */
  lemma OnlyLiveProcessesReport(s: State, source: Source, target: string, now: int, path: string, pid: nat, api: nat)
    ensures DropObserved(path, pid) in Handled(s, source, target, now).1 ==> pid in Live(s)
    ensures DropClosed(path) in Handled(s, source, target, now).1 ==> source.FileReleased? && source.closer in Live(s)
    ensures BehaviorObserved(pid, api) in Handled(s, source, target, now).1 ==>
        pid in Live(s) && Chains.IsScoringRelevant(api)
  {
    LiveIsScoped(s, pid);
    if source.FileReleased? {
      LiveIsScoped(s, source.closer);
    }
  }
}
