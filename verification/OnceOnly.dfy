/** The ledger's one-shots: at most one queued APC and one registration for each entry, when
    each holds, and the runs that break it (driver/secoutfall/Injection.cpp). */
module OnceOnly {
  import opened Wrappers
  import opened LedgerRuns

  // ---- The APC

  /** An APC was queued for the entry, or an attempt that may still queue one is in flight. */
  predicate Standing(s: State, id: nat) {
    id in s.apcs || exists a <- s.attempts :: a.id == id && a.outcome.None?
  }

  predicate Claimable(e: Entry) {
    e.state in {PendingThread, PendingNtdll, Ready}
  }

  predicate OpenApart(attempts: seq<Attempt>) {
    forall i, j :: 0 <= i < j < |attempts| && attempts[i].outcome.None? && attempts[j].outcome.None? ==>
      attempts[i].id != attempts[j].id
  }

  predicate Apart(apcs: seq<nat>) {
    forall i, j :: 0 <= i < j < |apcs| ==> apcs[i] != apcs[j]
  }

  /** Each entry has one shot: an APC or an open attempt, not two, and none while it could
      still be claimed. */
  predicate Single(s: State) {
    && Apart(s.apcs) && OpenApart(s.attempts)
    && (forall a <- s.attempts :: a.outcome.None? ==> a.id !in s.apcs)
    && (forall pid <- s.entries :: Claimable(s.entries[pid]) ==> !Standing(s, s.entries[pid].id))
  }

  /** Attempts and APCs are about entries made before. */
  predicate Numbered(s: State) {
    EntriesGood(s) && (forall a <- s.attempts :: a.id < s.nextId) && (forall id <- s.apcs :: id < s.nextId)
  }

  /** A fixup that found no process puts an entry back to Ready only if that entry has no
      shot standing. */
  predicate FixupFresh(s: State, k: nat) {
    k < |s.attempts| && s.attempts[k].outcome == Some(NoProcess) && s.attempts[k].pid in s.entries ==>
      !Standing(s, s.entries[s.attempts[k].pid].id)
  }

  lemma CreateSingle(s: State, pid: nat, createTime: nat, nonce: nat)
    requires Single(s) && Numbered(s)
    ensures Single(AfterCreate(s, pid, createTime, nonce))
  {
  }

  /** An entry claimable only if it was, and nothing else changed. */
  lemma EntrySingle(s: State, pid: nat, e: Entry)
    requires Single(s) && pid in s.entries
    requires e.id == s.entries[pid].id && (Claimable(e) ==> Claimable(s.entries[pid]))
    ensures Single(s.(entries := s.entries[pid := e]))
  {
    var r := s.(entries := s.entries[pid := e]);
    forall p <- r.entries | Claimable(r.entries[p])
      ensures !Standing(r, r.entries[p].id)
    {
      assert !Standing(s, r.entries[p].id);
    }
  }

  lemma ClaimSingle(s: State, pid: nat)
    requires Single(s) && EntriesGood(s)
    ensures Single(Tried(s, pid))
  {
    if pid in s.entries && CanInject(s, s.entries[pid]) {
      var e := s.entries[pid];
      var r := Tried(s, pid);
      assert !Standing(s, e.id);
      forall p <- r.entries | Claimable(r.entries[p])
        ensures !Standing(r, r.entries[p].id)
      {
        assert !Standing(s, r.entries[p].id);
      }
    }
  }

  lemma SightingSingle(s: State, step: Step)
    requires Single(s) && EntriesGood(s) && (step.FirstThread? || step.ImageLoad?)
    ensures Single(Next(s, step))
  {
    var pid := if step.FirstThread? then step.threadPid else step.imagePid;
    if pid in s.entries {
      var e := if step.FirstThread? then SeeThread(s.entries[pid], step.thread) else SeeImage(s.entries[pid], step.base);
      EntrySingle(s, pid, e);
      SightedEntries(s, pid, e);
      ClaimSingle(s.(entries := s.entries[pid := e]), pid);
    }
  }

  lemma SightedEntries(s: State, pid: nat, e: Entry)
    requires EntriesGood(s) && pid in s.entries && e.id == s.entries[pid].id && e.pid == s.entries[pid].pid
    ensures EntriesGood(s.(entries := s.entries[pid := e]))
  {
  }

  lemma AttemptSingle(s: State, k: nat, outcome: Outcome)
    requires Single(s)
    ensures Single(AfterAttempt(s, k, outcome))
  {
    if k < |s.attempts| && s.attempts[k].outcome.None? {
      var a := s.attempts[k];
      var r := AfterAttempt(s, k, outcome);
      assert a in s.attempts;
      assert forall b <- r.attempts :: b.outcome.None? ==> b in s.attempts && b.id != a.id;
      forall p <- r.entries | Claimable(r.entries[p])
        ensures !Standing(r, r.entries[p].id)
      {
        assert !Standing(s, r.entries[p].id);
      }
    }
  }

  lemma OpenStay(attempts: seq<Attempt>, k: nat)
    requires k < |attempts| && attempts[k].outcome.Some?
    ensures forall a: Attempt :: a.outcome.None? ==> (a in attempts <==> a in Without(attempts, k))
  {
    var rest := Without(attempts, k);
    forall a | a in attempts && a.outcome.None?
      ensures a in rest
    {
      var i :| 0 <= i < |attempts| && attempts[i] == a;
      assert rest[if i < k then i else i - 1] == a;
    }
    WithoutIsPart(attempts, k);
  }

  lemma OpenStayApart(attempts: seq<Attempt>, k: nat)
    requires k < |attempts| && OpenApart(attempts)
    ensures OpenApart(Without(attempts, k))
  {
  }

  lemma DroppedStanding(s: State, k: nat)
    requires k < |s.attempts| && s.attempts[k].outcome.Some?
    ensures var r := s.(attempts := Without(s.attempts, k)); forall id :: Standing(r, id) <==> Standing(s, id)
  {
    OpenStay(s.attempts, k);
  }

  lemma DroppedSingle(s: State, k: nat)
    requires Single(s) && k < |s.attempts| && s.attempts[k].outcome.Some?
    ensures Single(s.(attempts := Without(s.attempts, k)))
  {
    DroppedStanding(s, k);
    OpenStayApart(s.attempts, k);
    WithoutIsPart(s.attempts, k);
  }

  /** The fixup of a failed attempt keeps every entry to one shot exactly when the entry it
      puts back has none standing. */
  lemma FixupSingle(s: State, k: nat)
    requires Single(s)
    ensures Single(AfterFixup(s, k)) <==> FixupFresh(s, k)
  {
    if k < |s.attempts| && s.attempts[k].outcome.Some? {
      var a := s.attempts[k];
      var dropped := s.(attempts := Without(s.attempts, k));
      DroppedStanding(s, k);
      DroppedSingle(s, k);
      if a.pid in s.entries {
        SettledSingle(dropped, a.pid, a.outcome.value);
        assert AfterFixup(s, k)
            == dropped.(entries := s.entries[a.pid := Settle(s.entries[a.pid], a.outcome.value)]);
      }
    }
  }

  lemma SettledSingle(s: State, pid: nat, outcome: Outcome)
    requires Single(s) && pid in s.entries
    ensures Single(s.(entries := s.entries[pid := Settle(s.entries[pid], outcome)])) <==>
              (outcome == NoProcess ==> !Standing(s, s.entries[pid].id))
  {
    var e := Settle(s.entries[pid], outcome);
    var r := s.(entries := s.entries[pid := e]);
    if outcome != NoProcess {
      EntrySingle(s, pid, e);
    } else {
      assert Standing(r, e.id) <==> Standing(s, e.id);
      assert pid in r.entries && r.entries[pid] == e;
      forall p <- r.entries | Claimable(r.entries[p]) && p != pid
        ensures !Standing(r, r.entries[p].id)
      {
        assert !Standing(s, r.entries[p].id);
      }
    }
  }

  lemma RegisterSingle(s: State, pid: nat, given: nat, version: nat)
    requires Single(s)
    ensures Single(AfterRegister(s, pid, given, version))
  {
    if pid in s.entries && s.entries[pid].state == Injected && s.entries[pid].nonce == given {
      EntrySingle(s, pid, s.entries[pid].(state := Registered, sensorVersion := version));
    }
  }

  /** Same shots, and entries claimable only if they were. */
  lemma SameShots(s: State, r: State)
    requires Single(s) && r.attempts == s.attempts && r.apcs == s.apcs
    requires forall pid <- r.entries ::
        pid in s.entries && r.entries[pid].id == s.entries[pid].id && r.entries[pid].state == s.entries[pid].state
    ensures Single(r)
  {
    forall p <- r.entries | Claimable(r.entries[p])
      ensures !Standing(r, r.entries[p].id)
    {
      assert !Standing(s, r.entries[p].id);
    }
  }

  lemma SingleStep(s: State, step: Step)
    requires Single(s) && Numbered(s)
    ensures Single(Next(s, step)) <==> (step.Fixup? ==> FixupFresh(s, step.fixed))
  {
    match step
    case Create(pid, createTime, nonce, _, _) => CreateSingle(s, pid, createTime, nonce);
    case FirstThread(_, _) => SightingSingle(s, step);
    case ImageLoad(_, _) => SightingSingle(s, step);
    case AttemptEnds(k, outcome) => AttemptSingle(s, k, outcome);
    case Fixup(k) => FixupSingle(s, k);
    case Register(pid, given, version) => RegisterSingle(s, pid, given, version);
    case ChallengeCommit(k, duplicates) =>
      CommitEntries(s, k, duplicates);
      SameShots(s, Next(s, step));
    case Exit(_) => SameShots(s, Next(s, step));
    case _ =>
      OnlyElsewhere(s, step);
      SameShots(s, Next(s, step));
  }

  lemma ShotsNumbered(s: State, step: Step)
    requires Numbered(s)
    ensures Numbered(Next(s, step))
  {
    EntriesStep(s, step);
    ShotsStep(s, step);
  }

  lemma {:induction false} AlwaysNumbered(steps: seq<Step>)
    ensures Numbered(After(steps))
  {
    if steps != [] {
      AlwaysNumbered(steps[..|steps| - 1]);
      ShotsNumbered(After(steps[..|steps| - 1]), steps[|steps| - 1]);
    }
  }

  /** A step's attempts and APCs are the old ones, and attempts on entries that exist. */
  lemma SightingShots(s: State, step: Step)
    requires Numbered(s) && (step.FirstThread? || step.ImageLoad?)
    ensures forall a <- Next(s, step).attempts :: a.id < s.nextId
    ensures Next(s, step).apcs == s.apcs && Next(s, step).nextId == s.nextId
  {
  }

  lemma ShotsStep(s: State, step: Step)
    requires Numbered(s)
    ensures var r := Next(s, step);
            (forall a <- r.attempts :: a.id < r.nextId) && (forall id <- r.apcs :: id < r.nextId)
  {
    if step.ChallengeCommit? {
      CommitEntries(s, step.committing, step.duplicates);
    } else if step.Fixup? {
      if step.fixed < |s.attempts| {
        WithoutIsPart(s.attempts, step.fixed);
      }
    } else if step.FirstThread? || step.ImageLoad? {
      SightingShots(s, step);
    } else if !step.AttemptEnds? && !step.Create? && !step.Exit? && !step.Register? {
      OnlyElsewhere(s, step);
    }
  }

  predicate FixupsFresh(steps: seq<Step>) {
    steps == [] ||
    (FixupsFresh(steps[..|steps| - 1]) &&
     (steps[|steps| - 1].Fixup? ==> FixupFresh(After(steps[..|steps| - 1]), steps[|steps| - 1].fixed)))
  }

  /** One shot for each entry after the run and after every prefix of it. */
  predicate AlwaysSingle(steps: seq<Step>) {
    Single(After(steps)) && (steps == [] || AlwaysSingle(steps[..|steps| - 1]))
  }

  /** Each entry has at most one shot throughout a run exactly when no fixup of it puts an
      entry back to Ready that has one standing, whatever pids are reused. */
  lemma {:induction false} SingleIffFixupsFresh(steps: seq<Step>)
    ensures AlwaysSingle(steps) <==> FixupsFresh(steps)
    decreases |steps|
  {
    if steps != [] {
      var init := steps[..|steps| - 1];
      SingleIffFixupsFresh(init);
      AlwaysNumbered(init);
      if AlwaysSingle(init) {
        SingleStep(After(init), steps[|steps| - 1]);
      }
    }
  }

  /** Whatever else the environment does, no entry then gets a second APC. */
  lemma OneApcIfFixupsFresh(steps: seq<Step>)
    requires FixupsFresh(steps)
    ensures Apart(After(steps).apcs)
  {
    SingleIffFixupsFresh(steps);
  }

  lemma GoodIsFresh(s: State, k: nat)
    requires Good(s)
    ensures FixupFresh(s, k)
  {
    if k < |s.attempts| && s.attempts[k].outcome == Some(NoProcess) && s.attempts[k].pid in s.entries {
      var a := s.attempts[k];
      assert a in s.attempts && Matches(a, s.entries[a.pid]);
      forall b | b in s.attempts && b.id == a.id
        ensures b.outcome.Some?
      {
        var i :| 0 <= i < |s.attempts| && s.attempts[i] == b;
        assert i == k;
      }
    }
  }

  lemma {:induction false} NoReuseIsFresh(steps: seq<Step>)
    requires NoReuseRun(steps)
    ensures FixupsFresh(steps)
  {
    if steps != [] {
      NoReuseIsFresh(steps[..|steps| - 1]);
      AlwaysGood(steps[..|steps| - 1]);
      if steps[|steps| - 1].Fixup? {
        GoodIsFresh(After(steps[..|steps| - 1]), steps[|steps| - 1].fixed);
      }
    }
  }

  /** In particular each entry gets at most one successful APC while no pid comes back during
      an attempt on it, whenever its sensor calls. */
  lemma OneApc(steps: seq<Step>)
    requires NoReuseRun(steps)
    ensures Apart(After(steps).apcs)
  {
    NoReuseIsFresh(steps);
    OneApcIfFixupsFresh(steps);
  }

  lemma QueuedTwice(apcs: seq<nat>, id: nat)
    requires id in apcs
    ensures !Apart(apcs + [id])
  {
    var i :| 0 <= i < |apcs| && apcs[i] == id;
    assert (apcs + [id])[i] == (apcs + [id])[|apcs|];
  }

  lemma ReadyIsClaimed(s: State, pid: nat, thread: nat)
    requires pid in s.entries && CanInject(s, s.entries[pid])
    ensures var e, r := s.entries[pid], Next(s, FirstThread(pid, thread));
            r == s.(entries := s.entries[pid := e.(state := Injected)],
                    attempts := s.attempts + [Attempt(pid, e.id, None)])
  {
    assert s.entries[pid := s.entries[pid]] == s.entries;
  }

  lemma OpenQueues(s: State, k: nat)
    requires k < |s.attempts| && s.attempts[k].outcome.None?
    ensures Next(s, AttemptEnds(k, Queued))
         == s.(attempts := s.attempts[k := s.attempts[k].(outcome := Some(Queued))], apcs := s.apcs + [s.attempts[k].id])
  {
  }

  lemma StandingQueuesTwice(s: State, pid: nat, thread: nat)
    requires pid in s.entries && CanInject(s, s.entries[pid]) && Standing(s, s.entries[pid].id)
    ensures var queued := Next(Next(s, FirstThread(pid, thread)), AttemptEnds(|s.attempts|, Queued));
            !Apart(queued.apcs) || exists j: nat :: !Apart(Next(queued, AttemptEnds(j, Queued)).apcs)
  {
    var id, n := s.entries[pid].id, |s.attempts|;
    ReadyIsClaimed(s, pid, thread);
    var claimed := Next(s, FirstThread(pid, thread));
    OpenQueues(claimed, n);
    var queued := Next(claimed, AttemptEnds(n, Queued));
    if id in s.apcs {
      QueuedTwice(s.apcs, id);
    } else {
      var a :| a in s.attempts && a.id == id && a.outcome.None?;
      var j: nat :| j < n && s.attempts[j] == a;
      OpenQueues(queued, j);
      QueuedTwice(queued.apcs, id);
    }
  }

  /** An entry put back with a shot standing gets a second APC if its next thread finds the
      policy and the address there: the standing attempt, if any, and the new one both queue. */
  lemma StaleFixupQueuesTwice(s: State, k: nat, thread: nat)
    requires !FixupFresh(s, k)
    requires var r := Next(s, Fixup(k)); CanInject(r, r.entries[s.attempts[k].pid])
    ensures var claimed := Next(Next(s, Fixup(k)), FirstThread(s.attempts[k].pid, thread));
            var queued := Next(claimed, AttemptEnds(|s.attempts| - 1, Queued));
            !Apart(queued.apcs) || exists j: nat :: !Apart(Next(queued, AttemptEnds(j, Queued)).apcs)
  {
    DroppedStanding(s, k);
    var r, pid := Next(s, Fixup(k)), s.attempts[k].pid;
    assert r.attempts == Without(s.attempts, k) && r.apcs == s.apcs && r.entries[pid].id == s.entries[pid].id;
    StandingQueuesTwice(r, pid, thread);
  }

  /** Such a fixup happens: from any state with an attempt open on a pid that exits and comes
      back, the new owner's own APC is queued, and then the old attempt, which found no
      process, puts it back. */
  lemma ReusedPidIsPutBack(s: State, k: nat, createTime: nat, nonce: nat, thread: nat, base: nat)
    requires k < |s.attempts| && s.attempts[k].outcome.None? && s.resolved && s.enabled && s.hasPath && base != 0
    ensures var pid := s.attempts[k].pid;
            var gone := Next(Next(s, Exit(pid)), AttemptEnds(k, NoProcess));
            var seen := Next(Next(gone, Create(pid, createTime, nonce, true, true)), FirstThread(pid, thread));
            var queued := Next(Next(seen, ImageLoad(pid, base)), AttemptEnds(|s.attempts|, Queued));
            && !FixupFresh(queued, k)
            && var r := Next(queued, Fixup(k)); pid in r.entries && CanInject(r, r.entries[pid])
  {
    var pid := s.attempts[k].pid;
    var gone := Next(Next(s, Exit(pid)), AttemptEnds(k, NoProcess));
    AttemptsAreClaimed(gone, pid, createTime, nonce, thread, base);
    var created := Next(gone, Create(pid, createTime, nonce, true, true));
    var claimed := Next(Next(created, FirstThread(pid, thread)), ImageLoad(pid, base));
    assert claimed.attempts[k] == Attempt(pid, s.attempts[k].id, Some(NoProcess));
    PutBackAgain(claimed, k, |s.attempts|);
  }

  lemma PutBackAgain(s: State, k: nat, n: nat)
    requires k < n < |s.attempts| && s.attempts[k].outcome == Some(NoProcess) && s.attempts[n].outcome.None?
    requires var pid := s.attempts[k].pid;
             pid in s.entries && s.entries[pid].id == s.attempts[n].id && s.entries[pid].thread.Some?
             && s.entries[pid].base != 0 && s.resolved && s.enabled && s.hasPath
    ensures var queued := Next(s, AttemptEnds(n, Queued));
            var r := Next(queued, Fixup(k));
            !FixupFresh(queued, k) && s.attempts[k].pid in r.entries && CanInject(r, r.entries[s.attempts[k].pid])
  {
    var queued := Next(s, AttemptEnds(n, Queued));
    assert queued.apcs == s.apcs + [s.attempts[n].id] && queued.attempts[k] == s.attempts[k];
    assert Standing(queued, s.attempts[n].id);
  }

  // ---- Registrations

  predicate IsRegistered(s: State, id: nat) {
    exists r <- s.registrations :: r.id == id
  }

  predicate OnceEach(registrations: seq<Registration>) {
    forall i, j :: 0 <= i < j < |registrations| ==> registrations[i].id != registrations[j].id
  }

  predicate Twice(registrations: seq<Registration>, id: nat) {
    exists i, j :: 0 <= i < j < |registrations| && registrations[i].id == registrations[j].id == id
  }

  // What a step does to the entry with an id.

  predicate Registers(s: State, step: Step, id: nat) {
    && step.Register? && step.registerPid in s.entries && s.entries[step.registerPid].id == id
    && s.entries[step.registerPid].state == Injected && s.entries[step.registerPid].nonce == step.given
  }

  /** A fixup that found no process puts it back to Ready. */
  predicate PutsBack(s: State, step: Step, id: nat) {
    && step.Fixup? && step.fixed < |s.attempts| && s.attempts[step.fixed].outcome == Some(NoProcess)
    && s.attempts[step.fixed].pid in s.entries && s.entries[s.attempts[step.fixed].pid].id == id
  }

  function Sighted(s: State, step: Step): nat
    requires step.FirstThread? || step.ImageLoad?
  {
    if step.FirstThread? then step.threadPid else step.imagePid
  }

  /** A sighting claims it for an attempt. */
  predicate Claims(s: State, step: Step, id: nat) {
    && (step.FirstThread? || step.ImageLoad?) && Sighted(s, step) in s.entries && s.entries[Sighted(s, step)].id == id
    && CanInject(s, if step.FirstThread? then SeeThread(s.entries[step.threadPid], step.thread)
                    else SeeImage(s.entries[step.imagePid], step.base))
  }

  /** How much of "registered, put back, claimed, registered again" has happened to an entry,
      in this order. */
  datatype Progress = Progress(registered: bool, putBack: bool, claimed: bool, again: bool)

  function Advance(p: Progress, s: State, step: Step, id: nat): Progress {
    Progress(
      p.registered || Registers(s, step, id),
      p.putBack || (p.registered && PutsBack(s, step, id)),
      p.claimed || (p.putBack && Claims(s, step, id)),
      p.again || (p.claimed && Registers(s, step, id)))
  }

  function ProgressOf(steps: seq<Step>, id: nat): Progress {
    if steps == [] then Progress(false, false, false, false)
    else Advance(ProgressOf(steps[..|steps| - 1], id), After(steps[..|steps| - 1]), steps[|steps| - 1], id)
  }

  /** Where a step can take one entry's state. */
  predicate Moves(s: State, step: Step, e: Entry, now: Entry) {
    && now.id == e.id
    && (now.state == Injected && e.state != Injected ==> Claims(s, step, e.id))
    && (now.state == Registered && e.state != Registered ==> Registers(s, step, e.id))
    && (e.state in {Registered, Failed} && now.state !in {Registered, Failed} ==> PutsBack(s, step, e.id))
    && (e.state == Ready && now.state !in {Ready, Failed} ==> Claims(s, step, e.id))
    && (e.state == Failed && now.state !in {Ready, Failed} ==> false)
  }

  lemma SightingMoves(s: State, step: Step, pid: nat)
    requires (step.FirstThread? || step.ImageLoad?) && pid in s.entries && pid in Next(s, step).entries
    ensures Moves(s, step, s.entries[pid], Next(s, step).entries[pid])
  {
  }

  lemma FixupMoves(s: State, k: nat, pid: nat)
    requires pid in s.entries && pid in AfterFixup(s, k).entries
    ensures Moves(s, Fixup(k), s.entries[pid], AfterFixup(s, k).entries[pid])
  {
  }

  lemma EntryMoves(s: State, step: Step, pid: nat)
    requires pid in s.entries && pid in Next(s, step).entries
    ensures Moves(s, step, s.entries[pid], Next(s, step).entries[pid])
  {
    if step.FirstThread? || step.ImageLoad? {
      SightingMoves(s, step, pid);
    } else if step.Fixup? {
      FixupMoves(s, step.fixed, pid);
    } else if step.ChallengeCommit? {
      CommitEntries(s, step.committing, step.duplicates);
    } else if !step.Create? && !step.Exit? && !step.Register? {
      QuietEntries(s, step);
    }
  }

  lemma EntryMade(s: State, step: Step, pid: nat)
    requires pid !in s.entries && pid in Next(s, step).entries
    ensures Next(s, step).entries[pid].id == s.nextId
  {
    if step.ChallengeCommit? {
      CommitEntries(s, step.committing, step.duplicates);
    } else if !step.Create? && !step.Exit? && !step.Register? && !step.Fixup? && !step.FirstThread? && !step.ImageLoad? {
      QuietEntries(s, step);
    }
  }

  lemma RegistrationsKept(s: State, step: Step)
    requires !step.Register?
    ensures Next(s, step).registrations == s.registrations
  {
    if step.ChallengeCommit? {
      CommitEntries(s, step.committing, step.duplicates);
    } else if !step.Create? && !step.Exit? && !step.Fixup? && !step.FirstThread? && !step.ImageLoad? {
      QuietEntries(s, step);
    }
  }

  /** A successful registration is the next on record, and the entry's state. */
  lemma RegistrationAdded(s: State, step: Step)
    requires step.Register?
    ensures var r, pid := Next(s, step), step.registerPid;
            if pid in s.entries && Registers(s, step, s.entries[pid].id)
            then && |r.registrations| == |s.registrations| + 1 && s.registrations <= r.registrations
                 && r.registrations[|s.registrations|].id == s.entries[pid].id
                 && pid in r.entries && r.entries[pid].state == Registered
            else r == s
  {
  }

  lemma TwiceAfter(old': seq<Registration>, now: seq<Registration>, id: nat)
    requires |now| == |old'| + 1 && old' <= now
    ensures Twice(now, id) <==>
              Twice(old', id) || (now[|old'|].id == id && exists r <- old' :: r.id == id)
    ensures (exists r <- now :: r.id == id) <==> now[|old'|].id == id || exists r <- old' :: r.id == id
  {
    assert now == old' + [now[|old'|]];
    if now[|old'|].id == id && exists r <- old' :: r.id == id {
      var i :| 0 <= i < |old'| && old'[i].id == id;
      assert now[i].id == now[|old'|].id == id;
    }
    if Twice(old', id) {
      var i, j :| 0 <= i < j < |old'| && old'[i].id == old'[j].id == id;
      assert now[i].id == now[j].id == id;
    }
    if Twice(now, id) {
      var i, j :| 0 <= i < j < |now| && now[i].id == now[j].id == id;
      assert now[i] == old'[i];
      if j < |old'| {
        assert now[j] == old'[j];
      }
    }
  }

  predicate StateFits(p: Progress, state: InjectionState) {
    && (p.registered && !p.putBack ==> state in {Registered, Failed})
    && (p.putBack && !p.claimed ==> state in {Ready, Failed})
  }

  /** What the progress of an entry says of the ledger. */
  predicate Fits(s: State, id: nat, p: Progress) {
    && (p.registered <==> IsRegistered(s, id)) && (p.again <==> Twice(s.registrations, id))
    && (p.again ==> p.claimed) && (p.claimed ==> p.putBack) && (p.putBack ==> p.registered)
    && (p.registered ==> id < s.nextId)
    && (forall pid <- s.entries :: s.entries[pid].id == id ==> StateFits(p, s.entries[pid].state))
  }

  /** An event sets the state of the one live entry it is about. */
  lemma EventSets(s: State, step: Step, pid: nat)
    requires EntriesGood(s) && pid in s.entries && pid in Next(s, step).entries
    ensures var id, now := s.entries[pid].id, Next(s, step).entries[pid];
            (PutsBack(s, step, id) ==> now.state == Ready) && (Registers(s, step, id) ==> now.state == Registered)
  {
  }

  lemma StatesFit(s: State, step: Step, id: nat, p: Progress)
    requires EntriesGood(s) && Fits(s, id, p)
    ensures var r, p' := Next(s, step), Advance(p, s, step, id);
            forall pid <- r.entries :: r.entries[pid].id == id ==> StateFits(p', r.entries[pid].state)
  {
    var r, p' := Next(s, step), Advance(p, s, step, id);
    forall pid <- r.entries | r.entries[pid].id == id
      ensures StateFits(p', r.entries[pid].state)
    {
      if pid in s.entries {
        EntryMoves(s, step, pid);
        EventSets(s, step, pid);
        assert StateFits(p, s.entries[pid].state);
      } else {
        EntryMade(s, step, pid);
      }
    }
  }

  lemma RegistrationsFit(s: State, step: Step, id: nat, p: Progress)
    requires Fits(s, id, p)
    ensures var r, p' := Next(s, step), Advance(p, s, step, id);
            (p'.registered <==> IsRegistered(r, id)) && (p'.again <==> Twice(r.registrations, id))
  {
    if step.Register? {
      RegistrationAdded(s, step);
      if Next(s, step) != s {
        TwiceAfter(s.registrations, Next(s, step).registrations, id);
      }
    } else {
      RegistrationsKept(s, step);
    }
  }

  lemma FitsStep(s: State, step: Step, id: nat, p: Progress)
    requires EntriesGood(s) && Fits(s, id, p)
    ensures Fits(Next(s, step), id, Advance(p, s, step, id))
  {
    EntriesStep(s, step);
    StatesFit(s, step, id, p);
    RegistrationsFit(s, step, id, p);
  }

  lemma {:induction false} AlwaysFits(steps: seq<Step>, id: nat)
    ensures Fits(After(steps), id, ProgressOf(steps, id))
  {
    if steps != [] {
      AlwaysFits(steps[..|steps| - 1], id);
      AlwaysNumbered(steps[..|steps| - 1]);
      FitsStep(After(steps[..|steps| - 1]), steps[|steps| - 1], id, ProgressOf(steps[..|steps| - 1], id));
    }
  }

  /** An entry has two registrations exactly when it registered, was put back by a fixup,
      was claimed again and then registered, in this order, whatever the environment does. */
  lemma RegisteredTwiceIff(steps: seq<Step>, id: nat)
    ensures Twice(After(steps).registrations, id) <==> ProgressOf(steps, id).again
  {
    AlwaysFits(steps, id);
  }

  /** So entries register at most once each in exactly the runs without that sequence. */
  lemma OneRegistrationIff(steps: seq<Step>)
    ensures OnceEach(After(steps).registrations) <==> forall id :: !ProgressOf(steps, id).again
  {
    var all := After(steps).registrations;
    if !OnceEach(all) {
      var i, j :| 0 <= i < j < |all| && all[i].id == all[j].id;
      RegisteredTwiceIff(steps, all[i].id);
      assert ProgressOf(steps, all[i].id).again;
    }
    if id: nat :| ProgressOf(steps, id).again {
      RegisteredTwiceIff(steps, id);
      var i, j :| 0 <= i < j < |all| && all[i].id == all[j].id == id;
    }
  }

  /** A fixup that finds no process and puts a registered entry back to Ready. */
  predicate Undoes(s: State, step: Step) {
    && step.Fixup? && step.fixed < |s.attempts| && s.attempts[step.fixed].outcome == Some(NoProcess)
    && s.attempts[step.fixed].pid in s.entries && IsRegistered(s, s.entries[s.attempts[step.fixed].pid].id)
  }

  predicate NeverUndone(steps: seq<Step>) {
    steps == [] || (NeverUndone(steps[..|steps| - 1]) && !Undoes(After(steps[..|steps| - 1]), steps[|steps| - 1]))
  }

  lemma {:induction false} NotPutBack(steps: seq<Step>, id: nat)
    requires NeverUndone(steps)
    ensures !ProgressOf(steps, id).putBack
  {
    if steps != [] {
      NotPutBack(steps[..|steps| - 1], id);
      AlwaysFits(steps[..|steps| - 1], id);
    }
  }

  /** Short of a fixup that puts a registered entry back, an entry registers at most once. */
  lemma OneRegistrationUnlessUndone(steps: seq<Step>)
    requires NeverUndone(steps)
    ensures OnceEach(After(steps).registrations)
  {
    forall id
      ensures !ProgressOf(steps, id).again
    {
      NotPutBack(steps, id);
      AlwaysFits(steps, id);
    }
    OneRegistrationIff(steps);
  }

  /** Every registration came from an Injected entry and gave its own nonce. */
  lemma {:induction false} RegistrationsAreOwn(steps: seq<Step>)
    ensures forall r <- After(steps).registrations :: r.given == r.own && r.was == Injected
  {
    if steps != [] {
      RegistrationsAreOwn(steps[..|steps| - 1]);
      OwnStep(After(steps[..|steps| - 1]), steps[|steps| - 1]);
    }
  }

  lemma OwnStep(s: State, step: Step)
    requires forall r <- s.registrations :: r.given == r.own && r.was == Injected
    ensures forall r <- Next(s, step).registrations :: r.given == r.own && r.was == Injected
  {
  }

  predicate QueuedFirst(s: State) {
    forall r <- s.registrations :: r.id in s.apcs
  }

  lemma QueuedFirstStep(s: State, step: Step)
    requires QueuedFirst(s) && SensorWaits(s, step)
    ensures QueuedFirst(Next(s, step))
  {
  }

  /** No pid reused during an attempt and sensors that wait: no registration is undone. */
  lemma {:induction false} WaitingSensorsAreNotUndone(steps: seq<Step>)
    requires NoReuseRun(steps) && SensorWaitsRun(steps)
    ensures QueuedFirst(After(steps)) && NeverUndone(steps)
  {
    if steps != [] {
      var init, step := steps[..|steps| - 1], steps[|steps| - 1];
      WaitingSensorsAreNotUndone(init);
      QueuedFirstStep(After(init), step);
      AlwaysGood(init);
      NotUndone(After(init), step);
    }
  }

  lemma NotUndone(s: State, step: Step)
    requires Good(s) && QueuedFirst(s)
    ensures !Undoes(s, step)
  {
    if step.Fixup? && step.fixed < |s.attempts| {
      assert s.attempts[step.fixed] in s.attempts;
    }
  }

  /** Each entry gets at most one successful APC and registers at most once, only from
      Injected, only with its own nonce, and only after its APC was queued. */
  lemma OneShots(steps: seq<Step>)
    requires NoReuseRun(steps) && SensorWaitsRun(steps)
    ensures var s := After(steps);
            && (forall i, j :: 0 <= i < j < |s.apcs| ==> s.apcs[i] != s.apcs[j])
            && OnceEach(s.registrations)
            && (forall r <- s.registrations :: r.was == Injected && r.given == r.own && r.id in s.apcs)
  {
    OneApc(steps);
    WaitingSensorsAreNotUndone(steps);
    OneRegistrationUnlessUndone(steps);
    RegistrationsAreOwn(steps);
  }

  /** From any state, a sensor that registers while an attempt is open on its pid can be put
      back to Ready, ready to be injected again, with its registration on record. */
  lemma EarlyRegistrationIsUndone(s: State, pid: nat, k: nat, version: nat)
    requires pid in s.entries && s.entries[pid].state == Injected
    requires k < |s.attempts| && s.attempts[k].pid == pid && s.attempts[k].outcome.None?
    ensures var e := s.entries[pid];
            var registered := Next(s, Register(pid, e.nonce, version));
            var ended := Next(registered, AttemptEnds(k, NoProcess));
            var r := Next(ended, Fixup(k));
            && Registers(s, Register(pid, e.nonce, version), e.id) && PutsBack(ended, Fixup(k), e.id)
            && IsRegistered(r, e.id) && r.attempts == Without(s.attempts, k)
            && pid in r.entries && r.entries[pid].id == e.id && r.entries[pid].state == Ready
            && (WellShaped(e) && s.resolved && s.enabled && s.hasPath ==> CanInject(r, r.entries[pid]))
  {
    var e := s.entries[pid];
    var registered := Next(s, Register(pid, e.nonce, version));
    RegistrationAdded(s, Register(pid, e.nonce, version));
    assert registered.registrations[|s.registrations|] in registered.registrations;
    var ended := Next(registered, AttemptEnds(k, NoProcess));
    assert ended.attempts == s.attempts[k := s.attempts[k].(outcome := Some(NoProcess))];
    assert Without(ended.attempts, k) == Without(s.attempts, k);
  }

  /** And then register again, from any state: the entry is claimed anew by its next thread,
      its APC is queued, and the same nonce is accepted a second time. */
  lemma UndoneRegistersAgain(s: State, pid: nat, thread: nat, version: nat)
    requires pid in s.entries && CanInject(s, s.entries[pid]) && IsRegistered(s, s.entries[pid].id)
    ensures var e, n := s.entries[pid], |s.attempts|;
            var claimed := Next(s, FirstThread(pid, thread));
            var settled := Next(Next(claimed, AttemptEnds(n, Queued)), Fixup(n));
            && Claims(s, FirstThread(pid, thread), e.id) && Registers(settled, Register(pid, e.nonce, version), e.id)
            && Twice(Next(settled, Register(pid, e.nonce, version)).registrations, e.id)
  {
    var e, n := s.entries[pid], |s.attempts|;
    ReadyIsClaimed(s, pid, thread);
    var claimed := Next(s, FirstThread(pid, thread));
    OpenQueues(claimed, n);
    var queued := Next(claimed, AttemptEnds(n, Queued));
    var settled := Next(queued, Fixup(n));
    assert settled.entries == claimed.entries && settled.registrations == s.registrations;
    RegistrationAdded(settled, Register(pid, e.nonce, version));
    TwiceAfter(s.registrations, Next(settled, Register(pid, e.nonce, version)).registrations, e.id);
  }
}
