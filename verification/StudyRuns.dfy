/** A study over its boots (crates/agent/src/plugins/session_manager.rs): sessions opened,
    persisted and finalized, with crashes at any point and any interleaving of the persist
    tick with the finalize triggers. */
module StudyRuns {
  import opened Wrappers
  import Scope = ScopeRuns

  const MAX_U32: nat := 0xFFFF_FFFF

  datatype Session = Session(
    id: nat, scheduled: Option<nat>, startedAt: int, endedAt: Option<int>, abandoned: bool, scope: Scope.Session)

  datatype Request = Reboot | Shutdown

  /** How far this boot's finalization has come. */
  datatype Phase =
    | Running | Swapped | Stamped(count: nat) | Cloned(clonedCount: nat, clone: seq<Session>) | Saved(savedCount: nat)
    | Done

  datatype Tick = NoTick | Checked | Snapped(snapshot: seq<Session>)

  datatype State = State(
    disk: seq<Session>,        // the persisted history
    up: bool,
    memory: seq<Session>,
    finalized: bool,
    phase: Phase,
    tick: Tick,
    boots: nat,
    finalizedBoots: seq<nat>,  // the boots that stamped their session, in order
    requests: seq<Request>,
    askedBoots: seq<nat>)      // the boot that made each request

  datatype Step =
    | Boot(bootTime: int)
    | PowerLoss
    | Mutate(scope: Scope.Session)        // the scope tracker edits the open session
    | TickCheck | TickSnapshot | TickSave(tickSaved: bool)
    | Trigger                             // deadline, inbound request or dead scope
    | Stamp(now: int)
    | FinalClone | FinalSave(saved: bool) // the save is awaited: anything can fall between
    | Ask

  const START := State([], false, [], false, Running, NoTick, 0, [], [], [])

  // ---- Steps

  function IdAt(index: nat): nat {
    if index < MAX_U32 then index else MAX_U32
  }

  /** A session left open by an unclean reboot is closed as abandoned. */
  function Abandoned(sessions: seq<Session>, now: int): (r: seq<Session>)
    ensures |r| == |sessions|
  {
    if sessions != [] && sessions[|sessions| - 1].endedAt.None?
    then sessions[|sessions| - 1 := sessions[|sessions| - 1].(endedAt := Some(now), abandoned := true)]
    else sessions
  }

  function Opened(sessions: seq<Session>, uptimes: seq<nat>, now: int): (r: seq<Session>)
    ensures |r| == |sessions| + 1
  {
    var id := IdAt(|sessions|);
    Abandoned(sessions, now)
    + [Session(id, if id < |uptimes| then Some(uptimes[id]) else None, now, None, false, Scope.Session([], {}))]
  }

  function Ended(session: Session, now: int): Session {
    session.(endedAt := Some(now), scope := session.scope.(processes := Scope.AllStamped(session.scope.processes, now)))
  }

  function Decide(uptimes: seq<nat>, sessionCount: nat): Request {
    if uptimes == [] || sessionCount >= |uptimes| then Shutdown else Reboot
  }

  function Next(s: State, step: Step, uptimes: seq<nat>): State {
    match step
    case Boot(now) =>
      if s.up then s
      else
        s.(up := true, memory := Opened(s.disk, uptimes, now), finalized := false, phase := Running,
           tick := NoTick, boots := s.boots + 1)
    case PowerLoss =>
      if s.up then s.(up := false, memory := [], tick := NoTick, phase := Running, finalized := false) else s
    case Mutate(scope) =>
      if s.up && s.memory != []
      then s.(memory := s.memory[|s.memory| - 1 := s.memory[|s.memory| - 1].(scope := scope)])
      else s
    case TickCheck => if s.up && s.tick == NoTick && !s.finalized then s.(tick := Checked) else s
    case TickSnapshot => if s.up && s.tick == Checked then s.(tick := Snapped(s.memory)) else s
    case TickSave(ok) =>
      if s.up && s.tick.Snapped? then s.(tick := NoTick, disk := if ok then s.tick.snapshot else s.disk) else s
    case Trigger => if s.up && !s.finalized then s.(finalized := true, phase := Swapped) else s
    case Stamp(now) =>
      if s.up && s.phase == Swapped then
        if s.memory == [] then s.(phase := Done)
        else
          s.(memory := s.memory[|s.memory| - 1 := Ended(s.memory[|s.memory| - 1], now)],
             phase := Stamped(|s.memory|), finalizedBoots := s.finalizedBoots + [s.boots])
      else s
    case FinalClone => if s.up && s.phase.Stamped? then s.(phase := Cloned(s.phase.count, s.memory)) else s
    case FinalSave(ok) =>
      if s.up && s.phase.Cloned? then
        s.(phase := Saved(s.phase.clonedCount), disk := if ok then s.phase.clone else s.disk)
      else s
    case Ask =>
      if s.up && s.phase.Saved? then
        s.(phase := Done, requests := s.requests + [Decide(uptimes, s.phase.savedCount)],
           askedBoots := s.askedBoots + [s.boots])
      else s
  }

  function After(steps: seq<Step>, uptimes: seq<nat>): State {
    if steps == [] then START else Next(After(steps[..|steps| - 1], uptimes), steps[|steps| - 1], uptimes)
  }

  // ---- The session history

  predicate IdsAreIndices(sessions: seq<Session>) {
    forall i :: 0 <= i < |sessions| ==> sessions[i].id == IdAt(i)
  }

  predicate AllButLastEnded(sessions: seq<Session>) {
    forall i :: 0 <= i < |sessions| - 1 ==> sessions[i].endedAt.Some?
  }

  predicate WellKept(sessions: seq<Session>) {
    IdsAreIndices(sessions) && AllButLastEnded(sessions)
  }

  /** Sessions ended in the earlier history are in the later one, unchanged. */
  predicate Frozen(earlier: seq<Session>, later: seq<Session>) {
    forall i :: 0 <= i < |earlier| && earlier[i].endedAt.Some? ==> i < |later| && later[i] == earlier[i]
  }

  predicate LastIsOpen(sessions: seq<Session>) {
    sessions != [] && sessions[|sessions| - 1].endedAt.None?
  }

  /** What the disk holds as ended of earlier sessions, memory holds unchanged. */
  predicate SamePast(disk: seq<Session>, memory: seq<Session>) {
    && |disk| <= |memory|
    && forall i :: 0 <= i < |disk| && i < |memory| - 1 && disk[i].endedAt.Some? ==> memory[i] == disk[i]
  }

  /** A tick's snapshot differs from memory at most in the session of this boot. */
  predicate SnapshotOf(snapshot: seq<Session>, memory: seq<Session>) {
    |snapshot| == |memory| && forall i :: 0 <= i < |memory| - 1 ==> snapshot[i] == memory[i]
  }

  predicate Good(s: State) {
    && WellKept(s.disk)
    && (s.up ==>
          && WellKept(s.memory) && s.memory != [] && SamePast(s.disk, s.memory)
          && (s.finalized <==> !s.phase.Running?)
          && (s.phase.Running? || s.phase.Swapped? ==> LastIsOpen(s.memory))
          && (s.phase.Stamped? ==> !LastIsOpen(s.memory) && s.phase.count == |s.memory|)
          && (s.phase.Cloned? ==> WellKept(s.phase.clone) && SnapshotOf(s.phase.clone, s.memory))
          && (s.tick.Snapped? ==> WellKept(s.tick.snapshot) && SnapshotOf(s.tick.snapshot, s.memory)))
  }

  lemma OpenedIsGood(disk: seq<Session>, uptimes: seq<nat>, now: int)
    requires WellKept(disk)
    ensures var r := Opened(disk, uptimes, now); WellKept(r) && LastIsOpen(r) && SamePast(disk, r)
  {
    var r, n := Opened(disk, uptimes, now), |disk|;
    assert r[..n] == Abandoned(disk, now);
    forall i | 0 <= i < n
      ensures r[i].endedAt.Some? && r[i].id == IdAt(i)
      ensures disk[i].endedAt.Some? ==> r[i] == disk[i]
    {
      assert r[i] == Abandoned(disk, now)[i];
    }
  }

  /** What a step writes to the disk, if it does. */
  function Written(s: State, step: Step): Option<seq<Session>> {
    if !s.up then None
    else
      match step
      case TickSave(true) => if s.tick.Snapped? then Some(s.tick.snapshot) else None
      case FinalSave(true) => if s.phase.Cloned? then Some(s.phase.clone) else None
      case _ => None
  }

  /** The save that breaks finality: the disk holds this boot's session as ended, and what
      is written over it says otherwise. */
  predicate Overwrites(s: State, step: Step) {
    var written := Written(s, step);
    && written.Some? && written.value != [] && |s.disk| == |written.value| && !LastIsOpen(s.disk)
    && written.value[|s.disk| - 1] != s.disk[|s.disk| - 1]
  }

  lemma WrittenFreezes(s: State, written: seq<Session>)
    requires Good(s) && s.up && WellKept(written) && SnapshotOf(written, s.memory)
    ensures SamePast(written, s.memory)
    ensures Frozen(s.disk, written) <==>
              |s.disk| < |written| || LastIsOpen(s.disk) || written[|s.disk| - 1] == s.disk[|s.disk| - 1]
  {
    if |s.disk| < |written| || LastIsOpen(s.disk) || written[|s.disk| - 1] == s.disk[|s.disk| - 1] {
      forall i | 0 <= i < |s.disk| && s.disk[i].endedAt.Some?
        ensures i < |written| && written[i] == s.disk[i]
      {
        if i < |s.memory| - 1 {
          assert s.memory[i] == s.disk[i];
        }
      }
    }
  }

  /** A step in which a save succeeds. */
  lemma SaveStep(s: State, step: Step, uptimes: seq<nat>)
    requires Good(s) && Written(s, step).Some?
    ensures Good(Next(s, step, uptimes))
    ensures Frozen(s.disk, Next(s, step, uptimes).disk) <==> !Overwrites(s, step)
  {
    WrittenFreezes(s, Written(s, step).value);
  }

  lemma LastReplaced(s: State, last: Session)
    requires Good(s) && s.up && last.id == s.memory[|s.memory| - 1].id
    ensures var r := s.memory[|s.memory| - 1 := last];
            && WellKept(r) && SamePast(s.disk, r)
            && (s.tick.Snapped? ==> SnapshotOf(s.tick.snapshot, r))
            && (s.phase.Cloned? ==> SnapshotOf(s.phase.clone, r))
  {
  }

  lemma QuietStep(s: State, step: Step, uptimes: seq<nat>)
    requires Good(s) && Written(s, step).None?
    ensures Good(Next(s, step, uptimes)) && Next(s, step, uptimes).disk == s.disk
  {
    match step
    case Boot(now) => OpenedIsGood(s.disk, uptimes, now);
    case Mutate(scope) =>
      if s.up {
        LastReplaced(s, s.memory[|s.memory| - 1].(scope := scope));
      }
    case Stamp(now) =>
      if s.up {
        LastReplaced(s, Ended(s.memory[|s.memory| - 1], now));
      }
    case _ =>
  }

  /** Whatever a step does, the history stays well kept; and it changes a session persisted
      as ended exactly when it overwrites the end of this boot's. */
  lemma StepFreezesIff(s: State, step: Step, uptimes: seq<nat>)
    requires Good(s)
    ensures Good(Next(s, step, uptimes))
    ensures Frozen(s.disk, Next(s, step, uptimes).disk) <==> !Overwrites(s, step)
  {
    if Written(s, step).Some? {
      SaveStep(s, step, uptimes);
    } else {
      QuietStep(s, step, uptimes);
    }
  }

  lemma {:induction false} AlwaysGood(steps: seq<Step>, uptimes: seq<nat>)
    ensures Good(After(steps, uptimes))
  {
    if steps != [] {
      AlwaysGood(steps[..|steps| - 1], uptimes);
      StepFreezesIff(After(steps[..|steps| - 1], uptimes), steps[|steps| - 1], uptimes);
    }
  }

  /** Whatever crashed, was triggered or was saved when: session ids are their indices and
      every session but the last is ended, on disk, in memory and in any snapshot of it. */
  lemma HistoryIsWellKept(steps: seq<Step>, uptimes: seq<nat>)
    ensures var s := After(steps, uptimes);
            && WellKept(s.disk) && (s.up ==> WellKept(s.memory))
            && (s.up && s.tick.Snapped? ==> WellKept(s.tick.snapshot))
            && (s.up && s.phase.Cloned? ==> WellKept(s.phase.clone))
  {
    AlwaysGood(steps, uptimes);
  }

  predicate NeverOverwrites(steps: seq<Step>, uptimes: seq<nat>) {
    steps == [] ||
    (NeverOverwrites(steps[..|steps| - 1], uptimes) &&
     !Overwrites(After(steps[..|steps| - 1], uptimes), steps[|steps| - 1]))
  }

  /** A session once persisted as ended is in every later persisted history, unchanged, as
      long as no save overwrites an end. */
  lemma {:induction false} EndedIsFinal(steps: seq<Step>, n: nat, uptimes: seq<nat>)
    requires NeverOverwrites(steps, uptimes) && n <= |steps|
    ensures Frozen(After(steps[..n], uptimes).disk, After(steps, uptimes).disk)
    decreases |steps|
  {
    if n < |steps| {
      var init := steps[..|steps| - 1];
      EndedIsFinal(init, n, uptimes);
      assert init[..n] == steps[..n];
      AlwaysGood(init, uptimes);
      StepFreezesIff(After(init, uptimes), steps[|steps| - 1], uptimes);
    } else {
      assert steps[..n] == steps;
    }
  }

  /** Ends are final at every moment of the run. */
  ghost predicate AlwaysFinal(steps: seq<Step>, uptimes: seq<nat>) {
    && (steps == [] || AlwaysFinal(steps[..|steps| - 1], uptimes))
    && forall n: nat :: n <= |steps| ==> Frozen(After(steps[..n], uptimes).disk, After(steps, uptimes).disk)
  }

  /** Ends stay final throughout a run exactly when no save of it overwrites one. */
  lemma {:induction false} FinalIffNeverOverwritten(steps: seq<Step>, uptimes: seq<nat>)
    ensures AlwaysFinal(steps, uptimes) <==> NeverOverwrites(steps, uptimes)
    decreases |steps|
  {
    if NeverOverwrites(steps, uptimes) {
      forall n: nat | n <= |steps|
        ensures Frozen(After(steps[..n], uptimes).disk, After(steps, uptimes).disk)
      {
        EndedIsFinal(steps, n, uptimes);
      }
    }
    if steps != [] {
      var init := steps[..|steps| - 1];
      FinalIffNeverOverwritten(init, uptimes);
      AlwaysGood(init, uptimes);
      StepFreezesIff(After(init, uptimes), steps[|steps| - 1], uptimes);
      assert init == steps[..|init|];
    }
  }

  // ---- When no save overwrites an end

  /** A tick's save that succeeds lands before the final one and finds its session open. */
  predicate Timely(s: State, step: Step) {
    step == TickSave(true) && s.up && s.tick.Snapped? ==>
      !s.phase.Saved? && s.phase != Done && LastIsOpen(s.tick.snapshot)
  }

  predicate TimelyRun(steps: seq<Step>, uptimes: seq<nat>) {
    steps == [] ||
    (TimelyRun(steps[..|steps| - 1], uptimes) && Timely(After(steps[..|steps| - 1], uptimes), steps[|steps| - 1]))
  }

  /** Before the final save the disk has not seen this boot's session end. */
  predicate NotYetEnded(s: State) {
    s.up && !s.phase.Saved? && s.phase != Done && |s.disk| == |s.memory| ==> LastIsOpen(s.disk)
  }

  lemma TimelyStep(s: State, step: Step, uptimes: seq<nat>)
    requires Good(s) && NotYetEnded(s) && Timely(s, step)
    ensures NotYetEnded(Next(s, step, uptimes)) && !Overwrites(s, step)
  {
  }

  /** Ticks whose saves land in time overwrite nothing, however they overlap finalization. */
  lemma {:induction false} TimelySavesAreSafe(steps: seq<Step>, uptimes: seq<nat>)
    requires TimelyRun(steps, uptimes)
    ensures NotYetEnded(After(steps, uptimes)) && NeverOverwrites(steps, uptimes)
  {
    if steps != [] {
      var init := steps[..|steps| - 1];
      TimelySavesAreSafe(init, uptimes);
      AlwaysGood(init, uptimes);
      TimelyStep(After(init, uptimes), steps[|steps| - 1], uptimes);
    }
  }

  /** Saves serialized: no finalization begins while a tick is between check and save. */
  predicate Serial(s: State, step: Step) {
    step.Trigger? ==> s.tick == NoTick
  }

  predicate SerialRun(steps: seq<Step>, uptimes: seq<nat>) {
    steps == [] ||
    (SerialRun(steps[..|steps| - 1], uptimes) && Serial(After(steps[..|steps| - 1], uptimes), steps[|steps| - 1]))
  }

  /** A tick under way means this boot is still running, and saw its session open. */
  predicate TickWhileRunning(s: State) {
    s.up && s.tick != NoTick ==> s.phase.Running? && (s.tick.Snapped? ==> LastIsOpen(s.tick.snapshot))
  }

  lemma SerialStep(s: State, step: Step, uptimes: seq<nat>)
    requires Good(s) && TickWhileRunning(s) && Serial(s, step)
    ensures TickWhileRunning(Next(s, step, uptimes)) && Timely(s, step)
  {
  }

  /** Serialized saves are timely. */
  lemma {:induction false} SerialSavesAreTimely(steps: seq<Step>, uptimes: seq<nat>)
    requires SerialRun(steps, uptimes)
    ensures TickWhileRunning(After(steps, uptimes)) && TimelyRun(steps, uptimes)
  {
    if steps != [] {
      var init := steps[..|steps| - 1];
      SerialSavesAreTimely(init, uptimes);
      AlwaysGood(init, uptimes);
      SerialStep(After(init, uptimes), steps[|steps| - 1], uptimes);
    }
  }

  /** A tick's stale snapshot that lands after the final save undoes it. */
  lemma OverlappingSavesUndoTheEnd(s: State, now: int, uptimes: seq<nat>)
    requires Good(s) && s.up && s.phase.Running? && s.tick == NoTick
    ensures var snapped := Next(Next(s, TickCheck, uptimes), TickSnapshot, uptimes);
            var stamped := Next(Next(snapped, Trigger, uptimes), Stamp(now), uptimes);
            var final := Next(Next(stamped, FinalClone, uptimes), FinalSave(true), uptimes);
            && Overwrites(final, TickSave(true))
            && final.disk[|final.disk| - 1].endedAt == Some(now)
            && LastIsOpen(Next(final, TickSave(true), uptimes).disk)
  {
    var snapped := Next(Next(s, TickCheck, uptimes), TickSnapshot, uptimes);
    assert snapped.tick == Snapped(s.memory);
    var stamped := Next(Next(snapped, Trigger, uptimes), Stamp(now), uptimes);
    var final := Next(Next(stamped, FinalClone, uptimes), FinalSave(true), uptimes);
    assert final.disk == stamped.memory && |final.disk| == |s.memory|;
    assert Next(final, TickSave(true), uptimes).disk == s.memory;
  }

  /** The final save can undo an end too: a tick past its check snapshots the stamped session
      after the clone was taken and the session changed, and its save lands first. */
  lemma FinalSaveCanOverwrite(s: State, now: int, scope: Scope.Session, uptimes: seq<nat>)
    requires Good(s) && s.up && s.phase.Running? && s.tick == NoTick
    requires scope != Ended(s.memory[|s.memory| - 1], now).scope
    ensures var checked := Next(Next(s, TickCheck, uptimes), Trigger, uptimes);
            var cloned := Next(Next(checked, Stamp(now), uptimes), FinalClone, uptimes);
            var ticked := Next(Next(cloned, Mutate(scope), uptimes), TickSnapshot, uptimes);
            Overwrites(Next(ticked, TickSave(true), uptimes), FinalSave(true))
  {
    var checked := Next(Next(s, TickCheck, uptimes), Trigger, uptimes);
    var stamped := Next(checked, Stamp(now), uptimes);
    var cloned := Next(stamped, FinalClone, uptimes);
    assert cloned.phase == Cloned(|s.memory|, stamped.memory);
    var mutated := Next(cloned, Mutate(scope), uptimes);
    var ticked := Next(mutated, TickSnapshot, uptimes);
    assert ticked.tick == Snapped(mutated.memory);
    var landed := Next(ticked, TickSave(true), uptimes);
    assert landed.disk == mutated.memory && landed.phase == cloned.phase;
  }

  // ---- What a boot and a stamp write

  /** Two sessions that may differ in their end and the abandoned mark only. */
  predicate SameStart(a: Session, b: Session) {
    a.id == b.id && a.scheduled == b.scheduled && a.startedAt == b.startedAt && a.scope == b.scope
  }

  /** A boot opens one session, with the table's uptime for its place, and changes no other
      unless the last one was left open: that one is ended now and marked abandoned. */
  lemma BootOpens(s: State, now: int, uptimes: seq<nat>)
    requires !s.up
    ensures var m, n := Next(s, Boot(now), uptimes).memory, |s.disk|;
            && |m| == n + 1
            && (n < MAX_U32 ==> m[n].id == n && m[n].scheduled == if n < |uptimes| then Some(uptimes[n]) else None)
            && m[n].startedAt == now && m[n].endedAt == None && !m[n].abandoned && m[n].scope == Scope.Session([], {})
            && (forall i :: 0 <= i < n - 1 ==> m[i] == s.disk[i])
            && (n > 0 ==>
                  if s.disk[n - 1].endedAt.None? then
                    SameStart(m[n - 1], s.disk[n - 1]) && m[n - 1].endedAt == Some(now) && m[n - 1].abandoned
                  else m[n - 1] == s.disk[n - 1])
  {
  }

  /** Every session has the uptime the table gives its place. */
  predicate Scheduled(sessions: seq<Session>, uptimes: seq<nat>) {
    forall i :: 0 <= i < |sessions| && i < MAX_U32 ==>
      sessions[i].scheduled == if i < |uptimes| then Some(uptimes[i]) else None
  }

  predicate AllScheduled(s: State, uptimes: seq<nat>) {
    && Scheduled(s.disk, uptimes) && Scheduled(s.memory, uptimes)
    && (s.tick.Snapped? ==> Scheduled(s.tick.snapshot, uptimes))
    && (s.phase.Cloned? ==> Scheduled(s.phase.clone, uptimes))
  }

  lemma BootSchedules(s: State, now: int, uptimes: seq<nat>)
    requires !s.up && Scheduled(s.disk, uptimes)
    ensures Scheduled(Next(s, Boot(now), uptimes).memory, uptimes)
  {
    var m, n := Next(s, Boot(now), uptimes).memory, |s.disk|;
    BootOpens(s, now, uptimes);
    forall i | 0 <= i < |m| && i < MAX_U32
      ensures m[i].scheduled == if i < |uptimes| then Some(uptimes[i]) else None
    {
      if i < n {
        assert m[i].scheduled == s.disk[i].scheduled;
      }
    }
  }

  lemma ScheduledStep(s: State, step: Step, uptimes: seq<nat>)
    requires AllScheduled(s, uptimes)
    ensures AllScheduled(Next(s, step, uptimes), uptimes)
  {
    if step.Boot? && !s.up {
      BootSchedules(s, step.bootTime, uptimes);
    }
  }

  /** Whatever is crashed, saved or triggered when: every session, on disk, in memory and in
      any snapshot, carries the uptime the table gives its place, none beyond the table. */
  lemma {:induction false} UptimesFollowTable(steps: seq<Step>, uptimes: seq<nat>)
    ensures AllScheduled(After(steps, uptimes), uptimes)
  {
    if steps != [] {
      UptimesFollowTable(steps[..|steps| - 1], uptimes);
      ScheduledStep(After(steps[..|steps| - 1], uptimes), steps[|steps| - 1], uptimes);
    }
  }

  /** A session becomes marked abandoned exactly at a boot that finds it, the last on disk,
      still open; no other step marks or unmarks a session in memory. */
  lemma AbandonedIff(s: State, step: Step, uptimes: seq<nat>, i: nat)
    requires i < |Next(s, step, uptimes).memory|
    ensures var r := Next(s, step, uptimes);
            if step.Boot? && !s.up then
              r.memory[i].abandoned <==>
                i < |s.disk| && (s.disk[i].abandoned || (i == |s.disk| - 1 && s.disk[i].endedAt.None?))
            else i < |s.memory| && r.memory[i].abandoned == s.memory[i].abandoned
  {
    if step.Boot? && !s.up {
      BootOpens(s, step.bootTime, uptimes);
    }
  }

  /** The stamp of finalization ends this boot's session and every process of it still
      running at the one time, and changes nothing else. */
  lemma StampEnds(s: State, now: int, uptimes: seq<nat>)
    requires s.up && s.phase == Swapped && s.memory != []
    ensures var r, n := Next(s, Stamp(now), uptimes), |s.memory| - 1;
            && |r.memory| == n + 1 && r.memory[..n] == s.memory[..n] && r.disk == s.disk
            && var was, done := s.memory[n], r.memory[n];
               && done.endedAt == Some(now) && done.id == was.id && done.scheduled == was.scheduled
               && done.startedAt == was.startedAt && done.abandoned == was.abandoned
               && done.scope.drops == was.scope.drops && |done.scope.processes| == |was.scope.processes|
               && forall k :: 0 <= k < |was.scope.processes| ==>
                    done.scope.processes[k] == was.scope.processes[k].(
                      endedAt := if was.scope.processes[k].endedAt.None? then Some(now)
                                 else was.scope.processes[k].endedAt)
  {
  }

  // ---- Finalization, once per boot, in any interleaving

  predicate Increasing(boots: seq<nat>, last: nat) {
    && (forall i, j :: 0 <= i < j < |boots| ==> boots[i] < boots[j])
    && (forall b <- boots :: b <= last)
  }

  /** No boot is on either list twice, and only boots that stamped have asked. */
  predicate OncePerBoot(s: State) {
    && Increasing(s.finalizedBoots, s.boots) && Increasing(s.askedBoots, s.boots)
    && |s.requests| == |s.askedBoots|
    && (forall b <- s.askedBoots :: b in s.finalizedBoots)
    && (s.up ==> (s.finalized <==> !s.phase.Running?))
    && (s.up && (s.phase.Running? || s.phase.Swapped?) ==> s.boots !in s.finalizedBoots)
    && (s.up && (s.phase.Stamped? || s.phase.Cloned? || s.phase.Saved?) ==>
         s.boots in s.finalizedBoots && s.boots !in s.askedBoots)
  }

  lemma IncreasingSnoc(boots: seq<nat>, last: nat)
    requires Increasing(boots, last) && last !in boots
    ensures Increasing(boots + [last], last)
  {
    assert forall i :: 0 <= i < |boots| ==> boots[i] in boots;
  }

  lemma OnceStep(s: State, step: Step, uptimes: seq<nat>)
    requires OncePerBoot(s)
    ensures OncePerBoot(Next(s, step, uptimes))
  {
    if step.Boot? && !s.up {
      assert s.boots + 1 !in s.finalizedBoots;
    } else if step.Stamp? && s.up && s.phase == Swapped {
      IncreasingSnoc(s.finalizedBoots, s.boots);
    } else if step.Ask? && s.up && s.phase.Saved? {
      IncreasingSnoc(s.askedBoots, s.boots);
    }
  }

  /** Each boot stamps its session at most once and asks at most once, and only after its
      stamp, whatever triggers arrive in whatever order and wherever power is lost. */
  lemma {:induction false} FinalizedOncePerBoot(steps: seq<Step>, uptimes: seq<nat>)
    ensures OncePerBoot(After(steps, uptimes))
  {
    if steps != [] {
      FinalizedOncePerBoot(steps[..|steps| - 1], uptimes);
      OnceStep(After(steps[..|steps| - 1], uptimes), steps[|steps| - 1], uptimes);
    }
  }

  // ---- A crash-free study

  /** Power goes only after the request, and final saves succeed. */
  predicate Clean(s: State, step: Step) {
    && (step.PowerLoss? ==> s.phase == Done || !s.up)
    && (step.FinalSave? ==> step.saved)
  }

  predicate CleanRun(steps: seq<Step>, uptimes: seq<nat>) {
    steps == [] || (CleanRun(steps[..|steps| - 1], uptimes)
          && Clean(After(steps[..|steps| - 1], uptimes), steps[|steps| - 1]))
  }

  predicate Counted(s: State, uptimes: seq<nat>) {
    && (!s.up ==> |s.disk| == |s.requests|)
    && (s.up ==>
          && |s.memory| == |s.requests| + (if s.phase == Done then 0 else 1)
          && (s.phase.Stamped? ==> s.phase.count == |s.memory|)
          && (s.phase.Cloned? ==> s.phase.clonedCount == |s.memory|)
          && (s.phase.Saved? ==> s.phase.savedCount == |s.memory|)
          && (s.phase.Saved? || s.phase == Done ==> |s.disk| == |s.memory|))
    && (forall k :: 0 <= k < |s.requests| ==> s.requests[k] == Decide(uptimes, k + 1))
  }

  lemma CountedStep(s: State, step: Step, uptimes: seq<nat>)
    requires Good(s) && Counted(s, uptimes) && Clean(s, step)
    ensures Counted(Next(s, step, uptimes), uptimes)
  {
  }

  lemma {:induction false} AlwaysCounted(steps: seq<Step>, uptimes: seq<nat>)
    requires CleanRun(steps, uptimes)
    ensures Counted(After(steps, uptimes), uptimes)
  {
    if steps != [] {
      var init := steps[..|steps| - 1];
      AlwaysCounted(init, uptimes);
      AlwaysGood(init, uptimes);
      CountedStep(After(init, uptimes), steps[|steps| - 1], uptimes);
    }
  }

  /** A crash-free study of n planned sessions asks for a reboot exactly n - 1 times and
      then for shutdown; with an empty table the first session is the last. */
  lemma CleanStudyEndsOnTime(steps: seq<Step>, uptimes: seq<nat>, k: nat)
    requires CleanRun(steps, uptimes) && k < |After(steps, uptimes).requests|
    ensures After(steps, uptimes).requests[k] == (if k + 1 < |uptimes| then Reboot else Shutdown)
  {
    AlwaysCounted(steps, uptimes);
  }

  /** And every clean boot does ask: one boot, one trigger, one more request. */
  lemma CleanBootAsks(s: State, bootTime: int, now: int, uptimes: seq<nat>)
    requires Counted(s, uptimes) && !s.up
    ensures var booted := Next(s, Boot(bootTime), uptimes);
            var stamped := Next(Next(booted, Trigger, uptimes), Stamp(now), uptimes);
            var r := Next(Next(Next(stamped, FinalClone, uptimes), FinalSave(true), uptimes), Ask, uptimes);
            && r.requests == s.requests + [Decide(uptimes, |s.requests| + 1)]
            && r.disk == stamped.memory && |r.disk| == |s.disk| + 1
            && r.disk[|s.disk|].id == IdAt(|s.disk|) && r.disk[|s.disk|].endedAt == Some(now)
                  && !r.disk[|s.disk|].abandoned
  {
    var booted := Next(s, Boot(bootTime), uptimes);
    assert booted.memory == Opened(s.disk, uptimes, bootTime) && |booted.memory| == |s.requests| + 1;
    var stamped := Next(Next(booted, Trigger, uptimes), Stamp(now), uptimes);
    assert stamped.phase == Stamped(|s.requests| + 1);
  }
}
