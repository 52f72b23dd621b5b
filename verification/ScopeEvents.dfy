/** Exactly which bus events each source event publishes, from the events before it alone
    (crates/agent/src/plugins/scope_tracker.rs). */
module ScopeEvents {
  import opened Wrappers
  import opened ScopeRuns
  import Chains

  /** The record-free scope, with the paths the session's members wrote and released. */
  datatype Plain = Plain(scope: Scope, written: set<string>, released: set<string>)

  const NOTHING := Plain(Scope(false, {}, {}), {}, {})

  /** A member's write to a path the filter wants. */
  predicate Writes(a: Plain, step: Step, path: string) {
    step.Handle? && step.source.FileWritten? && step.source.writer in a.scope.live && step.source.matches
    && step.source.written == Some(path)
  }

  /** A member's close or cleanup of a path already written. */
  predicate Releases(a: Plain, step: Step, path: string) {
    step.Handle? && step.source.FileReleased? && step.source.closer in a.scope.live
    && step.source.released == Some(path) && path in a.written
  }

  function PathOf(step: Step): set<string> {
    if step.Handle? && step.source.FileWritten? && step.source.written.Some? then {step.source.written.value}
    else if step.Handle? && step.source.FileReleased? && step.source.released.Some? then {step.source.released.value}
    else {}
  }

  function PlainNext(a: Plain, step: Step): Plain {
    if step == OpenSession then Plain(ScopeNext(a.scope, step), {}, {})
    else
      Plain(ScopeNext(a.scope, step),
            a.written + (set path <- PathOf(step) | Writes(a, step, path)),
            a.released + (set path <- PathOf(step) | Releases(a, step, path)))
  }

  function PlainAfter(steps: seq<Step>): Plain {
    if steps == [] then NOTHING else PlainNext(PlainAfter(steps[..|steps| - 1]), steps[|steps| - 1])
  }

  /** An api some chain counts, or the run key: cross-process write and thread creation,
      encryption and shadow-copy deletion, run-key write. */
  predicate CanScore(api: nat) {
    api == 9 || api == 4 || api == 12 || api == 10 || api == 7
  }

  predicate JoinsPlain(a: Plain, parent: Option<nat>, name: string) {
    a.scope.open && (name in a.scope.expected || (parent.Some? && parent.value in a.scope.live))
  }

  /** Whether a step publishes an event. */
  predicate Publishes(a: Plain, step: Step, event: Bus) {
    step.Handle? &&
    match event
    case ProcessEnteredScope(pid, name) =>
      step.source.ProcessStarted? && step.source.pid == pid && step.source.name == name
      && JoinsPlain(a, step.source.parent, name)
    case TargetLaunched(name) =>
      step.source.ProcessStarted? && step.source.name == name && name == step.target
      && JoinsPlain(a, step.source.parent, name)
    case ProcessExitedScope(pid, name) =>
      step.source == ProcessStopped(pid, name) && pid in a.scope.live
    case ScopeDied => step.source.ProcessStopped? && a.scope.live == {step.source.stoppedPid}
    case DropObserved(path, writer) =>
      Writes(a, step, path) && step.source.writer == writer && path !in a.written
    case DropClosed(path) => Releases(a, step, path) && path !in a.released
    case BehaviorObserved(pid, api) => step.source == BehaviorCall(pid, api) && pid in a.scope.live && CanScore(api)
  }

  /** The tracker's records say what the plain scope says. */
  predicate Says(s: State, a: Plain) {
    Good(s) && Abstract(s) == a.scope && Drops(s) == a.written && s.closed == a.released
    && (s.sessions == [] ==> a.scope.live == {})
  }

  lemma SaysLive(s: State, a: Plain, pid: nat)
    requires Says(s, a)
    ensures IsScoped(s, pid) <==> pid in a.scope.live
  {
    LiveIsScoped(s, pid);
  }

  lemma WriteSays(s: State, a: Plain, step: Step)
    requires Says(s, a) && step.Handle? && step.source.FileWritten?
    ensures Drops(Next(s, step).0) == PlainNext(a, step).written && Next(s, step).0.closed == PlainNext(a, step).released
  {
    SaysLive(s, a, step.source.writer);
  }

  lemma ReleaseSays(s: State, a: Plain, step: Step)
    requires Says(s, a) && step.Handle? && step.source.FileReleased?
    ensures Drops(Next(s, step).0) == PlainNext(a, step).written && Next(s, step).0.closed == PlainNext(a, step).released
  {
    SaysLive(s, a, step.source.closer);
  }

  lemma OthersSay(s: State, a: Plain, step: Step)
    requires Says(s, a) && !(step.Handle? && (step.source.FileWritten? || step.source.FileReleased?))
    ensures Drops(Next(s, step).0) == PlainNext(a, step).written && Next(s, step).0.closed == PlainNext(a, step).released
  {
    assert PathOf(step) == {};
  }

  lemma StepSays(s: State, a: Plain, step: Step)
    requires Says(s, a)
    ensures Says(Next(s, step).0, PlainNext(a, step))
  {
    StepRefines(s, step);
    if step.Handle? && step.source.FileWritten? {
      WriteSays(s, a, step);
    } else if step.Handle? && step.source.FileReleased? {
      ReleaseSays(s, a, step);
    } else {
      OthersSay(s, a, step);
    }
  }

  lemma {:induction false} AlwaysSays(steps: seq<Step>)
    ensures Says(After(steps), PlainAfter(steps))
  {
    if steps != [] {
      AlwaysSays(steps[..|steps| - 1]);
      StepSays(After(steps[..|steps| - 1]), PlainAfter(steps[..|steps| - 1]), steps[|steps| - 1]);
    }
  }

  // ---- What each event publishes

  lemma StartPublishes(s: State, a: Plain, step: Step, event: Bus)
    requires Says(s, a) && step.Handle? && step.source.ProcessStarted?
    ensures event in Next(s, step).1 <==> Publishes(a, step, event)
  {
    if step.source.parent.Some? {
      SaysLive(s, a, step.source.parent.value);
    }
    assert Names(s.expected) == a.scope.expected;
  }

  lemma LastOneLeaves(s: State, a: Plain, pid: nat, now: int)
    requires Says(s, a) && pid in a.scope.live
    ensures ScopeDead(Exited(s, pid, now)) <==> a.scope.live == {pid}
  {
    StampIsRemove(Processes(s), pid, now);
    StampedNotEmpty(s, pid, now);
    SaysLive(s, a, pid);
    DeadIsEmpty(Exited(s, pid, now));
  }

  lemma StopPublishes(s: State, a: Plain, step: Step, event: Bus)
    requires Says(s, a) && step.Handle? && step.source.ProcessStopped?
    ensures event in Next(s, step).1 <==> Publishes(a, step, event)
  {
    var pid := step.source.stoppedPid;
    SaysLive(s, a, pid);
    if pid in a.scope.live {
      LastOneLeaves(s, a, pid, step.now);
    }
  }

  lemma DropPublishes(s: State, a: Plain, step: Step, event: Bus)
    requires Says(s, a) && step.Handle? && (step.source.FileWritten? || step.source.FileReleased?)
    ensures event in Next(s, step).1 <==> Publishes(a, step, event)
  {
    SaysLive(s, a, if step.source.FileWritten? then step.source.writer else step.source.closer);
  }

  lemma CallPublishes(s: State, a: Plain, step: Step, event: Bus)
    requires Says(s, a) && step.Handle? && step.source.BehaviorCall?
    ensures event in Next(s, step).1 <==> Publishes(a, step, event)
  {
    SaysLive(s, a, step.source.caller);
  }

  lemma StepPublishes(s: State, a: Plain, step: Step, event: Bus)
    requires Says(s, a)
    ensures event in Next(s, step).1 <==> Publishes(a, step, event)
  {
    match step
    case Handle(ProcessStarted(_, _, _), _, _) => StartPublishes(s, a, step, event);
    case Handle(ProcessStopped(_, _), _, _) => StopPublishes(s, a, step, event);
    case Handle(FileWritten(_, _, _), _, _) => DropPublishes(s, a, step, event);
    case Handle(FileReleased(_, _), _, _) => DropPublishes(s, a, step, event);
    case Handle(BehaviorCall(_, _), _, _) => CallPublishes(s, a, step, event);
    case Handle(OtherSource, _, _) =>
    case _ =>
  }

  /** After any run a step publishes exactly these events: every join is announced, and as the
      target's if it is the target's image; every stop of a live member, and the scope's death
      with the last; the first wanted write of a path by a live member; the first release of a
      written path by one; every call of a live member that can score. Each at most once, the
      launch before the join and the exit before the death. */
  lemma PublishedExactly(steps: seq<Step>, step: Step, event: Bus)
    ensures var events := Next(After(steps), step).1;
            && (event in events <==> Publishes(PlainAfter(steps), step, event))
            && |events| <= 2
            && (|events| == 2 ==>
                  (events[0].TargetLaunched? && events[1].ProcessEnteredScope?)
                  || (events[0].ProcessExitedScope? && events[1].ScopeDied?))
  {
    AlwaysSays(steps);
    StepPublishes(After(steps), PlainAfter(steps), step, event);
    AtMostTwo(After(steps), step);
  }

  lemma AtMostTwo(s: State, step: Step)
    ensures var events := Next(s, step).1;
            && |events| <= 2
            && (|events| == 2 ==>
                  (events[0].TargetLaunched? && events[1].ProcessEnteredScope?)
                  || (events[0].ProcessExitedScope? && events[1].ScopeDied?))
  {
  }

  /** The bridge lets through exactly the apis that chains and the run key count. */
  lemma ScoringApis(api: nat)
    ensures CanScore(api) <==>
              api == Chains.NT_SET_VALUE_KEY_RUN_KEY
              || exists c, k :: 0 <= k < |Chains.Members(c)| && Chains.Members(c)[k].0 == api
  {
    assert Chains.Members(Chains.Injection)[0].0 == 9 && Chains.Members(Chains.Injection)[1].0 == 4;
    assert Chains.Members(Chains.Ransomware)[0].0 == 12 && Chains.Members(Chains.Ransomware)[1].0 == 10;
  }

  /** A join is recorded with its time, a live member's stop stamps its record with its own;
      records of other pids stay as they are. */
  lemma TimesAreRecorded(s: State, pid: nat, parent: Option<nat>, name: string, target: string, now: int)
    ensures var r := Next(s, Handle(ProcessStarted(pid, parent, name), target, now)).0;
            Joins(s, pid, parent, name) ==>
              && ProcessRecord(pid, parent, name, now, None) in Processes(r)
              && (forall p: ProcessRecord :: p.pid != pid ==> (p in Processes(r) <==> p in Processes(s)))
              && (forall p <- Processes(r) :: p.pid == pid ==> p == ProcessRecord(pid, parent, name, now, None))
    ensures var r := Next(s, Handle(ProcessStopped(pid, name), target, now)).0;
            DistinctPids(Processes(s)) && s.sessions != [] ==>
              && |Processes(r)| == |Processes(s)|
              && forall i :: 0 <= i < |Processes(s)| ==>
                   var was := Processes(s)[i];
                   Processes(r)[i] == if was.pid == pid && was.endedAt.None? then was.(endedAt := Some(now)) else was
  {
    if Joins(s, pid, parent, name) {
      RetainedIs(Processes(s), pid);
      var r := Entered(s, pid, parent, name, now);
      assert Processes(r) == Retained(Processes(s), pid) + [ProcessRecord(pid, parent, name, now, None)];
    }
    if DistinctPids(Processes(s)) && s.sessions != [] {
      OneIsStamped(Processes(s), pid, now);
    }
  }

  lemma {:induction false} OneIsStamped(processes: seq<ProcessRecord>, pid: nat, now: int)
    requires DistinctPids(processes)
    ensures forall i :: 0 <= i < |processes| ==>
              var was := processes[i];
              Stamped(processes, pid, now)[i]
              == if was.pid == pid && was.endedAt.None? then was.(endedAt := Some(now)) else was
  {
    if processes != [] {
      assert processes == [processes[0]] + processes[1..];
      DistinctTail(processes[0], processes[1..]);
      OneIsStamped(processes[1..], pid, now);
      var r := Stamped(processes, pid, now);
      forall i | 0 <= i < |processes|
        ensures var was := processes[i];
                r[i] == if was.pid == pid && was.endedAt.None? then was.(endedAt := Some(now)) else was
      {
        assert i > 0 ==> processes[1..][i - 1] == processes[i] && processes[i].pid == processes[i].pid;
        assert i > 0 ==> processes[0].pid != processes[i].pid;
      }
    }
  }

  /** A live member's cross-process write and thread creation both reach the bus. */
  lemma InjectionIsSeen(steps: seq<Step>, pid: nat, target: string, now: int)
    requires pid in PlainAfter(steps).scope.live
    ensures var write := Handle(BehaviorCall(pid, 9), target, now);
            var create := Handle(BehaviorCall(pid, 4), target, now);
            && Next(After(steps), write).1 == [BehaviorObserved(pid, 9)]
            && Next(Next(After(steps), write).0, create).1 == [BehaviorObserved(pid, 4)]
  {
    AlwaysSays(steps);
    SaysLive(After(steps), PlainAfter(steps), pid);
  }
}
