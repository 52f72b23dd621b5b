/** The session manager's methods (crates/agent/src/plugins/session_manager.rs), each one
    step, or a run of steps, of `StudyRuns`. */
module SessionManager {
  import opened Wrappers
  import opened StudyRuns
  import Scope = ScopeRuns

  class SessionManagerPlugin {
    const uptimes: seq<nat>
    var sessions: seq<Session>
    var repository: seq<Session>
    var finalized: bool
    var finalizeDone: bool
    var published: seq<Request>
    ghost var state: State

    ghost predicate Valid()
      reads this
    {
      && state.up && sessions == state.memory && repository == state.disk
      && finalized == state.finalized && published == state.requests
      && (finalized <==> !state.phase.Running?)
    }

    /** A process of the agent starts: the history is loaded and this boot's session opened. */
    constructor (uptimes: seq<nat>, stored: seq<Session>, asked: seq<Request>, now: int, ghost before: State)
      requires !before.up && stored == before.disk && asked == before.requests
      ensures Valid() && this.uptimes == uptimes && state == Next(before, Boot(now), uptimes) && !finalizeDone
    {
      this.uptimes := uptimes;
      var all := stored;
      if |all| > 0 && all[|all| - 1].endedAt.None? {
        all := all[|all| - 1 := all[|all| - 1].(endedAt := Some(now), abandoned := true)];
      }
      var id := if |all| < MAX_U32 then |all| else MAX_U32;
      var scheduled := if id < |uptimes| then Some(uptimes[id]) else None;
      sessions := all + [Session(id, scheduled, now, None, false, Scope.Session([], {}))];
      repository, published := stored, asked;
      finalized, finalizeDone := false, false;
      state := Next(before, Boot(now), uptimes);
    }

    /** The persist tick: skipped once finalization has begun. */
    method PersistTick(saves: bool)
      requires Valid() && state.tick == NoTick
      modifies this
      ensures Valid() && finalizeDone == old(finalizeDone)
      ensures state == if old(state).finalized then old(state)
                       else Next(Next(Next(old(state), TickCheck, uptimes), TickSnapshot, uptimes), TickSave(saves),
                             uptimes)
    {
      if finalized {
        return;
      }
      var snapshot := sessions;
      state := Next(Next(state, TickCheck, uptimes), TickSnapshot, uptimes);
      if saves {
        repository := snapshot;
      }
      state := Next(state, TickSave(saves), uptimes);
    }

    /** The atomic swap that admits one finalization per boot. */
    method ClaimFinalize() returns (mine: bool)
      requires Valid()
      modifies this`finalized, this`state
      ensures Valid() && mine == !old(finalized)
      ensures state == Next(old(state), Trigger, uptimes)
    {
      mine := !finalized;
      finalized := true;
      state := Next(state, Trigger, uptimes);
    }

    /** Closing the session's records: the session, then each process still running. */
    method CloseRecords(now: int)
      requires Valid() && sessions != [] && state.phase == Swapped
      modifies this`sessions, this`state
      ensures Valid() && state == Next(old(state), Stamp(now), uptimes)
    {
      var last := sessions[|sessions| - 1];
      var was := last.scope.processes;
      var processes := was;
      for i := 0 to |processes|
        invariant |processes| == |was|
        invariant forall j :: 0 <= j < i ==> processes[j] == Scope.AllStamped(was, now)[j]
        invariant forall j :: i <= j < |was| ==> processes[j] == was[j]
      {
        if processes[i].endedAt.None? {
          processes := processes[i := processes[i].(endedAt := Some(now))];
        }
      }
      assert processes == Scope.AllStamped(was, now);
      sessions := sessions[|sessions| - 1 := last.(endedAt := Some(now), scope := last.scope.(processes := processes))];
      state := Next(state, Stamp(now), uptimes);
    }

    /** The request: shutdown when the planned sessions are exhausted, else reboot. */
    method RequestRebootOrShutdown(sessionCount: nat)
      requires Valid() && state.phase == Saved(sessionCount)
      modifies this`published, this`state
      ensures Valid() && state == Next(old(state), Ask, uptimes)
    {
      var shutdown := |uptimes| == 0 || sessionCount >= |uptimes|;
      if shutdown {
        published := published + [Shutdown];
      } else {
        published := published + [Reboot];
      }
      state := Next(state, Ask, uptimes);
    }

    /** The final save: of the history as it is now, on disk if it succeeds. */
    method SaveFinal(saves: bool)
      requires Valid() && state.phase.Stamped?
      modifies this`repository, this`state
      ensures Valid() && state == Next(Next(old(state), FinalClone, uptimes), FinalSave(saves), uptimes)
      ensures repository == if saves then sessions else old(repository)
    {
      var snapshot := sessions;
      state := Next(state, FinalClone, uptimes);
      if saves {
        repository := snapshot;
      }
      state := Next(state, FinalSave(saves), uptimes);
    }

    /** A whole finalization with nothing between its steps; a second one does nothing. */
    method FinalizeSession(now: int, saves: bool)
      requires Valid() && sessions != []
      modifies this
      ensures Valid()
      ensures old(finalized) ==> state == old(state) && finalizeDone == old(finalizeDone)
      ensures !old(finalized) ==>
        && finalizeDone
        && var stamped := Next(Next(old(state), Trigger, uptimes), Stamp(now), uptimes);
           state == Next(Next(Next(stamped, FinalClone, uptimes), FinalSave(saves), uptimes), Ask, uptimes)
      ensures !old(finalized) ==>
        && sessions == old(sessions)[|old(sessions)| - 1 := Ended(old(sessions)[|old(sessions)| - 1], now)]
        && repository == (if saves then sessions else old(repository))
        && published == old(published) + [Decide(uptimes, |sessions|)]
    {
      var mine := ClaimFinalize();
      if !mine {
        return;
      }
      CloseRecords(now);
      var sessionCount := |sessions|;
      SaveFinal(saves);
      RequestRebootOrShutdown(sessionCount);
      finalizeDone := true;
    }
  }
}
