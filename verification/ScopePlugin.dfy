/** The scope tracker's methods and its plugin: records retained, searched and stamped in
    loops, bus messages drained before an event is handled
    (crates/agent/src/domain/scope.rs, crates/agent/src/plugins/scope_tracker.rs). Each is
    proved to be a step of `ScopeRuns`. */
module ScopePlugin {
  import opened Wrappers
  import opened ScopeRuns
  import Chains

  /** What waits on the plugin's bus subscription. */
  datatype Message = ExtendScopeExpectation(name: string) | OtherMessage

  function Drained(s: State, messages: seq<Message>): State
    decreases |messages|
  {
    if messages == [] then s
    else
      var init, last := messages[..|messages| - 1], messages[|messages| - 1];
      match last
      case ExtendScopeExpectation(name) => Expected(Drained(s, init), name)
      case OtherMessage => Drained(s, init)
  }

  lemma {:induction false} DrainedExpects(s: State, messages: seq<Message>, name: string)
    ensures Drained(s, messages).sessions == s.sessions && Drained(s, messages).closed == s.closed
    ensures name in Drained(s, messages).expected
       <==> name in s.expected || (name != "" && ExtendScopeExpectation(name) in messages)
  {
    if messages != [] {
      var init := messages[..|messages| - 1];
      assert messages == init + [messages[|messages| - 1]];
      DrainedExpects(s, init, name);
    }
  }

  lemma {:induction false} StampedFirst(processes: seq<ProcessRecord>, pid: nat, now: int, i: nat)
    requires i < |processes| && processes[i].pid == pid && processes[i].endedAt.None?
    requires forall j :: 0 <= j < i ==> !(processes[j].pid == pid && processes[j].endedAt.None?)
    ensures Stamped(processes, pid, now) == processes[i := processes[i].(endedAt := Some(now))]
  {
    if i > 0 {
      StampedFirst(processes[1..], pid, now, i - 1);
    }
  }

  lemma {:induction false} StampedNone(processes: seq<ProcessRecord>, pid: nat, now: int)
    requires !LiveIn(processes, pid)
    ensures Stamped(processes, pid, now) == processes
  {
    if processes != [] {
      assert processes[0] in processes;
      StampedNone(processes[1..], pid, now);
    }
  }

  class ScopeTrackerPlugin {
    const targetName: string
    var state: State
    var subscription: seq<Message>
    var published: seq<Bus>

    constructor (targetName: string)
      ensures state == START && subscription == [] && published == [] && this.targetName == targetName
    {
      this.targetName, state, subscription, published := targetName, START, [], [];
    }

    method OpenSession()
      modifies this`state
      ensures state == Next(old(state), ScopeRuns.OpenSession).0
    {
      state := State(state.sessions + [Session([], {})], state.expected, {});
    }

    method Expect(name: string)
      modifies this`state
      ensures state == Expected(old(state), name)
    {
      if name != "" && name !in state.expected {
        state := state.(expected := state.expected + [name]);
      }
    }

    method IsLiveMember(pid: nat) returns (scoped: bool)
      ensures scoped == IsScoped(state, pid)
    {
      if state.sessions == [] {
        return false;
      }
      var processes := state.sessions[|state.sessions| - 1].processes;
      for i := 0 to |processes|
        invariant forall j :: 0 <= j < i ==> !(processes[j].pid == pid && processes[j].endedAt.None?)
      {
        if processes[i].pid == pid && processes[i].endedAt.None? {
          return true;
        }
      }
      return false;
    }

    method IsDead() returns (dead: bool)
      ensures dead == ScopeDead(state)
    {
      if state.sessions == [] {
        return false;
      }
      var processes := state.sessions[|state.sessions| - 1].processes;
      if processes == [] {
        return false;
      }
      for i := 0 to |processes|
        invariant forall j :: 0 <= j < i ==> processes[j].endedAt.Some?
      {
        if processes[i].endedAt.None? {
          assert processes[i] in Processes(state);
          return false;
        }
      }
      return true;
    }

    method Retain(processes: seq<ProcessRecord>, pid: nat) returns (kept: seq<ProcessRecord>)
      ensures kept == Retained(processes, pid)
    {
      kept := [];
      for i := 0 to |processes|
        invariant kept == Retained(processes[..i], pid)
      {
        assert processes[..i + 1][..i] == processes[..i];
        if processes[i].pid != pid {
          kept := kept + [processes[i]];
        } else {
          assert Retained(processes[..i], pid) + [] == Retained(processes[..i], pid);
        }
      }
      assert processes[..|processes|] == processes;
    }

    method ProcessEntered(pid: nat, parent: Option<nat>, name: string, now: int) returns (entered: bool)
      modifies this`state
      ensures entered == Joins(old(state), pid, parent, name)
      ensures state == Entered(old(state), pid, parent, name, now)
    {
      var inherited := false;
      if parent.Some? {
        inherited := IsLiveMember(parent.value);
      }
      var isExpected := name in state.expected;
      if !inherited && !isExpected {
        return false;
      }
      if state.sessions == [] {
        return false;
      }
      var kept := Retain(state.sessions[|state.sessions| - 1].processes, pid);
      state := WithProcesses(state, kept + [ProcessRecord(pid, parent, name, now, None)]);
      return true;
    }

    method ProcessExited(pid: nat, now: int) returns (wasScoped: bool)
      modifies this`state
      ensures wasScoped == IsScoped(old(state), pid)
      ensures state == Exited(old(state), pid, now)
    {
      if state.sessions == [] {
        return false;
      }
      var processes := state.sessions[|state.sessions| - 1].processes;
      for i := 0 to |processes|
        invariant state == old(state)
        invariant forall j :: 0 <= j < i ==> !(processes[j].pid == pid && processes[j].endedAt.None?)
      {
        if processes[i].pid == pid && processes[i].endedAt.None? {
          StampedFirst(processes, pid, now, i);
          state := WithProcesses(state, processes[i := processes[i].(endedAt := Some(now))]);
          return true;
        }
      }
      StampedNone(processes, pid, now);
      assert state == WithProcesses(state, processes);
      return false;
    }

    method ObserveDrop(writer: nat, path: Option<string>, matches: bool) returns (observed: Option<string>)
      modifies this`state
      ensures observed == ObservedBy(old(state), writer, path, matches)
      ensures state == if observed.Some? then WithDrops(old(state),
            Drops(old(state)) + {observed.value}) else old(state)
    {
      var scoped := IsLiveMember(writer);
      if !scoped || path.None? || !matches {
        return None;
      }
      var session := state.sessions[|state.sessions| - 1];
      if path.value in session.drops {
        return None;
      }
      state := WithDrops(state, session.drops + {path.value});
      return path;
    }

    method CloseDrop(closer: nat, path: Option<string>) returns (shut: Option<string>)
      modifies this`state
      ensures shut == ClosedBy(old(state), closer, path)
      ensures state == if shut.Some? then old(state).(closed := old(state).closed + {shut.value}) else old(state)
    {
      if path.None? {
        return None;
      }
      var scoped := IsLiveMember(closer);
      if !scoped {
        return None;
      }
      var observed := path.value in state.sessions[|state.sessions| - 1].drops;
      if !observed || path.value in state.closed {
        return None;
      }
      state := state.(closed := state.closed + {path.value});
      return path;
    }

    method Publish(event: Bus)
      modifies this`published
      ensures published == old(published) + [event]
    {
      published := published + [event];
    }

    method DrainExpectations()
      modifies this`state, this`subscription
      ensures subscription == [] && state == Drained(old(state), old(subscription))
    {
      ghost var all := subscription;
      ghost var done: seq<Message> := [];
      while subscription != []
        invariant done + subscription == all && state == Drained(old(state), done)
        decreases |subscription|
      {
        var message := subscription[0];
        subscription := subscription[1..];
        if message.ExtendScopeExpectation? {
          Expect(message.name);
        }
        assert (done + [message])[..|done|] == done;
        done := done + [message];
      }
      assert done == all;
    }

    method HandleSource(source: Source, now: int)
      modifies this`state, this`published
      ensures state == Handled(old(state), source, targetName, now).0
      ensures published == old(published) + Handled(old(state), source, targetName, now).1
    {
      match source
      case ProcessStarted(pid, parent, name) =>
        var entered := ProcessEntered(pid, parent, name, now);
        if entered {
          if name == targetName {
            Publish(TargetLaunched(name));
          }
          Publish(ProcessEnteredScope(pid, name));
        }
      case ProcessStopped(pid, name) =>
        var wasScoped := ProcessExited(pid, now);
        var dead := IsDead();
        if wasScoped {
          Publish(ProcessExitedScope(pid, name));
          if dead {
            Publish(ScopeDied);
          }
        }
      case FileWritten(writer, path, matches) =>
        var observed := ObserveDrop(writer, path, matches);
        if observed.Some? {
          Publish(DropObserved(observed.value, writer));
        }
      case FileReleased(closer, path) =>
        var shut := CloseDrop(closer, path);
        if shut.Some? {
          Publish(DropClosed(shut.value));
        }
      case BehaviorCall(caller, api) =>
        if Chains.IsScoringRelevant(api) {
          var scoped := IsLiveMember(caller);
          if scoped {
            Publish(BehaviorObserved(caller, api));
          }
        }
      case OtherSource =>
    }

    /** One event through the pipeline: expectations first, then the event. */
    method Pre(source: Source, now: int)
      modifies this
      ensures subscription == []
      ensures var ready := Drained(old(state), old(subscription));
              && state == Handled(ready, source, targetName, now).0
              && published == old(published) + Handled(ready, source, targetName, now).1
    {
      DrainExpectations();
      HandleSource(source, now);
    }
  }

  /** An expectation published before a process starts is never overtaken: with a session
      open, that image's start joins and is announced. */
  lemma ExpectationPrecedesStart(s: State, waiting: seq<Message>, pid: nat, parent: Option<nat>, name: string,
        target: string, now: int)
    requires s.sessions != [] && name != "" && ExtendScopeExpectation(name) in waiting
    ensures var (r, events) := Handled(Drained(s, waiting), ProcessStarted(pid, parent, name), target, now);
            ProcessEnteredScope(pid, name) in events && IsScoped(r, pid)
  {
    DrainedExpects(s, waiting, name);
    var ready := Drained(s, waiting);
    var r := Entered(ready, pid, parent, name, now);
    var p := ProcessRecord(pid, parent, name, now, None);
    assert Processes(r) == Retained(Processes(ready), pid) + [p];
    assert p in Processes(r);
  }
}
