/** What the injection ledger claims, records, grants and registers, from its events alone
    (driver/secoutfall/Injection.cpp). */
module LedgerFacts {
  import opened Wrappers
  import opened LedgerRuns

  // ---- Claims need the policy

  /** The pid of a first thread or an image. */
  predicate Sights(step: Step, pid: nat) {
    match step
    case FirstThread(p, _) => p == pid
    case ImageLoad(p, _) => p == pid
    case _ => false
  }

  /** A first thread or image of this pid that leaves its entry Ready with thread and base. */
  predicate MakesReady(s: State, step: Step, pid: nat) {
    pid in s.entries &&
    var e := s.entries[pid];
    match step
    case FirstThread(p, _) =>
      p == pid && e.base != 0 && (e.state == Ready || (e.thread.None? && e.state == PendingThread))
    case ImageLoad(p, base) =>
      p == pid && e.thread.Some?
      && (if e.base != 0 then e.state == Ready else base != 0 && e.state in {Ready, PendingNtdll})
    case _ => false
  }

  /** The address is known, the policy on, and a path given. */
  predicate Armed(s: State) {
    s.resolved && s.enabled && s.hasPath
  }

  lemma SightingClaims(s: State, step: Step, pid: nat)
    requires Sights(step, pid)
    ensures var r := Next(s, step);
            if MakesReady(s, step, pid) && Armed(s) then
              pid in r.entries && r.entries[pid].state == Injected
              && r.attempts == s.attempts + [Attempt(pid, s.entries[pid].id, None)]
            else
              r.attempts == s.attempts
              && (pid in s.entries <==> pid in r.entries)
              && (pid in s.entries && s.entries[pid].state != Injected ==> r.entries[pid].state != Injected)
    ensures var r := Next(s, step);
            forall p :: p in s.entries && p != pid ==> p in r.entries && r.entries[p] == s.entries[p]
    ensures forall p :: p in Next(s, step).entries ==> p in s.entries
  {
  }

  lemma NoOtherClaims(s: State, step: Step, pid: nat)
    requires !step.FirstThread? && !step.ImageLoad?
    ensures var r := Next(s, step);
            && |r.attempts| <= |s.attempts|
            && (pid in r.entries && r.entries[pid].state == Injected ==>
                  pid in s.entries && s.entries[pid].state == Injected)
  {
    match step
    case ChallengeCommit(k, duplicates) => CommitEntries(s, k, duplicates);
    case ChallengeGate(_) => OnlyElsewhere(s, step);
    case ChallengeWork(_, _) => OnlyElsewhere(s, step);
    case _ =>
  }

  /** In any state, an attempt is claimed for a pid, or its entry becomes Injected, exactly
      when a first thread or an image leaves its entry Ready with thread and base, the address
      is known, the policy is on and a path given. */
  lemma ClaimIff(s: State, step: Step, pid: nat)
    ensures var r := Next(s, step);
            && (|r.attempts| > |s.attempts| && Sights(step, pid) <==> MakesReady(s, step, pid) && Armed(s))
            && (pid in r.entries && r.entries[pid].state == Injected
                && !(pid in s.entries && s.entries[pid].state == Injected)
                <==> MakesReady(s, step, pid) && Armed(s))
            && (|r.attempts| > |s.attempts| ==> step.FirstThread? || step.ImageLoad?)
  {
    if step.FirstThread? || step.ImageLoad? {
      var seen := if step.FirstThread? then step.threadPid else step.imagePid;
      SightingClaims(s, step, seen);
    } else {
      NoOtherClaims(s, step, pid);
    }
  }

  /** What the last policy set says. */
  function PolicyOf(steps: seq<Step>): bool {
    if steps == [] then false
    else if steps[|steps| - 1].SetPolicy? then steps[|steps| - 1].armed && steps[|steps| - 1].path
    else PolicyOf(steps[..|steps| - 1])
  }

  predicate SamePolicy(s: State, r: State) {
    r.enabled == s.enabled && r.hasPath == s.hasPath && r.resolved == s.resolved
  }

  lemma SightingKeepsPolicy(s: State, step: Step)
    requires step.FirstThread? || step.ImageLoad?
    ensures SamePolicy(s, Next(s, step))
  {
  }

  lemma ChallengeKeepsPolicy(s: State, step: Step)
    requires step.ChallengeGate? || step.ChallengeWork? || step.ChallengeCommit?
    ensures SamePolicy(s, Next(s, step))
  {
  }

  lemma OthersKeepPolicy(s: State, step: Step)
    requires step.Create? || step.Exit? || step.AttemptEnds? || step.Fixup? || step.Register?
    ensures SamePolicy(s, Next(s, step))
  {
  }

  lemma PolicyStep(s: State, step: Step)
    ensures var r := Next(s, step);
            && (r.resolved <==> s.resolved || step == Resolve)
            && (if step.SetPolicy? then r.enabled == (step.armed && step.path) && r.hasPath == step.path
                else r.enabled == s.enabled && r.hasPath == s.hasPath)
  {
    if step.FirstThread? || step.ImageLoad? {
      SightingKeepsPolicy(s, step);
    } else if step.ChallengeGate? || step.ChallengeWork? || step.ChallengeCommit? {
      ChallengeKeepsPolicy(s, step);
    } else if !step.SetPolicy? && !step.Resolve? {
      OthersKeepPolicy(s, step);
    }
  }

  lemma {:induction false} PolicyIsTheLast(steps: seq<Step>)
    ensures Armed(After(steps)) <==> PolicyOf(steps) && Resolve in steps
    ensures After(steps).resolved <==> Resolve in steps
    ensures After(steps).enabled && After(steps).hasPath <==> PolicyOf(steps)
  {
    if steps != [] {
      var init, step := steps[..|steps| - 1], steps[|steps| - 1];
      PolicyIsTheLast(init);
      PolicyStep(After(init), step);
      assert steps == init + [step];
    }
  }

  /** Over any run: a step claims an attempt for a pid exactly when it makes its entry Ready
      with thread and base, the last policy set before it is on with a path, and the address
      was resolved before it. */
  lemma ClaimsFollowPolicy(steps: seq<Step>, step: Step, pid: nat)
    ensures var s, r := After(steps), After(steps + [step]);
            |r.attempts| > |s.attempts| && Sights(step, pid) <==>
              MakesReady(s, step, pid) && PolicyOf(steps) && Resolve in steps
  {
    assert (steps + [step])[..|steps|] == steps;
    ClaimIff(After(steps), step, pid);
    PolicyIsTheLast(steps);
  }

  /** A policy withdrawn between creation and the events that would claim: nothing is
      claimed, and the entry waits Ready. */
  lemma WithdrawnPolicyClaimsNothing(s: State, pid: nat, createTime: nat, nonce: nat, path: bool, thread: nat, base: nat)
    requires pid !in s.entries && base != 0
    ensures var created := Next(s, Create(pid, createTime, nonce, true, true));
            var withdrawn := Next(created, SetPolicy(false, path));
            var r := Next(Next(withdrawn, FirstThread(pid, thread)), ImageLoad(pid, base));
            r.attempts == s.attempts && pid in r.entries && r.entries[pid].state == Ready
  {
    var created := Next(s, Create(pid, createTime, nonce, true, true));
    assert created.entries[pid] == Entry(s.nextId, pid, createTime, nonce, None, 0, PendingThread, None, 0);
    var withdrawn := Next(created, SetPolicy(false, path));
    var seen := Next(withdrawn, FirstThread(pid, thread));
    assert seen.entries[pid] == created.entries[pid].(thread := Some(thread), state := PendingNtdll);
  }

  // ---- What an entry records

  /** What the events say of the process behind a pid. */
  datatype Facts = NotTracked | Tracked(createTime: nat, nonce: nat, thread: Option<nat>, base: nat)

  function FactsAfter(was: Facts, step: Step, pid: nat): Facts {
    match step
    case Create(p, createTime, nonce, wanted, allocates) =>
      if p == pid && wanted && allocates && was == NotTracked then Tracked(createTime, nonce, None, 0) else was
    case FirstThread(p, thread) =>
      if p == pid && was.Tracked? && was.thread.None? then was.(thread := Some(thread)) else was
    case ImageLoad(p, base) =>
      if p == pid && was.Tracked? && was.base == 0 then was.(base := base) else was
    case Exit(p) => if p == pid then NotTracked else was
    case _ => was
  }

  function FactsOf(steps: seq<Step>, pid: nat): Facts {
    if steps == [] then NotTracked else FactsAfter(FactsOf(steps[..|steps| - 1], pid), steps[|steps| - 1], pid)
  }

  function Recorded(s: State, pid: nat): Facts {
    if pid !in s.entries then NotTracked
    else Tracked(s.entries[pid].createTime, s.entries[pid].nonce, s.entries[pid].thread, s.entries[pid].base)
  }

  lemma SightingRecords(s: State, step: Step, pid: nat)
    requires step.FirstThread? || step.ImageLoad?
    ensures Recorded(Next(s, step), pid) == FactsAfter(Recorded(s, pid), step, pid)
  {
  }

  lemma FixupRecords(s: State, k: nat, pid: nat)
    ensures Recorded(AfterFixup(s, k), pid) == Recorded(s, pid)
  {
  }

  lemma StepRecords(s: State, step: Step, pid: nat)
    ensures Recorded(Next(s, step), pid) == FactsAfter(Recorded(s, pid), step, pid)
  {
    if step.ChallengeCommit? {
      CommitEntries(s, step.committing, step.duplicates);
    } else if step.Fixup? {
      FixupRecords(s, step.fixed, pid);
    } else if step.FirstThread? || step.ImageLoad? {
      SightingRecords(s, step, pid);
    } else if !step.Create? && !step.Exit? && !step.Register? {
      QuietEntries(s, step);
    }
  }

  /** In any run at all, a pid is tracked exactly while a wanted creation of it that got its
      memory was not followed by its exit, with that creation's time and nonce, and the first
      thread and the first base seen since. */
  lemma {:induction false} EntriesRecordEvents(steps: seq<Step>, pid: nat)
    ensures Recorded(After(steps), pid) == FactsOf(steps, pid)
  {
    if steps != [] {
      EntriesRecordEvents(steps[..|steps| - 1], pid);
      StepRecords(After(steps[..|steps| - 1]), steps[|steps| - 1], pid);
    }
  }

  // ---- Attempts

  /** In any state, an attempt that ends keeps its outcome, and its entry is on the queued
      list exactly if the APC was queued. */
  lemma EndOfAttempt(s: State, k: nat, outcome: Outcome)
    requires k < |s.attempts| && s.attempts[k].outcome.None?
    ensures var a, r := s.attempts[k], Next(s, AttemptEnds(k, outcome));
            && r == s.(attempts := r.attempts, apcs := r.apcs)
            && r.attempts == s.attempts[k := Attempt(a.pid, a.id, Some(outcome))]
            && r.apcs == if outcome == Queued then s.apcs + [a.id] else s.apcs
  {
  }

  /** And its fixup forgets it and settles whatever entry has its pid: Ready if no process was
      found, Failed if the queueing failed, and as it was if the APC was queued; no other entry
      and nothing else changes. */
  lemma FixupSettles(s: State, k: nat, pid: nat)
    requires k < |s.attempts| && s.attempts[k].outcome.Some?
    ensures var a, r := s.attempts[k], Next(s, Fixup(k));
            && r == s.(attempts := Without(s.attempts, k), entries := r.entries)
            && (pid in r.entries <==> pid in s.entries)
            && (pid in s.entries ==>
                  r.entries[pid] ==
                    if pid != a.pid then s.entries[pid]
                    else if a.outcome.value == NoProcess then s.entries[pid].(state := Ready)
                    else if a.outcome.value == QueueFailed then s.entries[pid].(state := Failed)
                    else s.entries[pid])
  {
  }

  // ---- Grants and registrations

  /** In any state, pass 1 opens a challenge exactly for a tracked pid whose entry is Injected,
      with that entry as it then is; pass 2 drops it if its work fails, and else keeps pass 1's
      ring or makes one no one was given before. */
  lemma ChallengeOpens(s: State, pid: nat)
    ensures var r := Next(s, ChallengeGate(pid));
            r == if pid in s.entries && s.entries[pid].state == Injected
                 then s.(challenges := s.challenges + [Challenge(pid, s.entries[pid], false, None)]) else s
  {
  }

  lemma ChallengeWorks(s: State, k: nat, succeeds: bool)
    requires k < |s.challenges| && !s.challenges[k].worked
    ensures var c, r := s.challenges[k], Next(s, ChallengeWork(k, succeeds));
            if !succeeds then
              |r.challenges| == |s.challenges| - 1 && r.challenges == s.challenges[..k] + s.challenges[k + 1..]
              && r.nextRing == s.nextRing
            else
              r.challenges == s.challenges[k := c.(worked := true,
                                                   made := if c.first.ring.Some? then c.made else Some(s.nextRing))]
              && r.nextRing == if c.first.ring.Some? then s.nextRing else s.nextRing + 1
  {
  }

  /** Whether pass 3 of a challenge hands out a ring. */
  predicate Grantable(s: State, c: Challenge, duplicates: bool) {
    && c.worked && c.pid in s.entries
    && var e := s.entries[c.pid];
       && e.state == Injected && e.createTime == c.first.createTime && e.nonce == c.first.nonce
       && (c.first.ring.Some? || (if e.ring.Some? then duplicates else c.made.Some?))
  }

  /** In any state, pass 3 hands out a ring exactly to an entry that is still Injected with the
      creation time and nonce of pass 1, and then the ring pass 1 saw, else the entry's own if
      it can be duplicated, else the one pass 2 made, which becomes the entry's own. */
  lemma GrantIff(s: State, k: nat, duplicates: bool)
    requires k < |s.challenges|
    ensures var c, r := s.challenges[k], Next(s, ChallengeCommit(k, duplicates));
            && (|r.grants| > |s.grants| <==> Grantable(s, c, duplicates))
            && (Grantable(s, c, duplicates) ==>
                  var e := s.entries[c.pid];
                  var ring := if c.first.ring.Some? then c.first.ring.value
                              else if e.ring.Some? then e.ring.value else c.made.value;
                  && r.grants == s.grants + [Grant(c.first, e, ring)]
                  && c.pid in r.entries
                  && r.entries[c.pid].ring == if c.first.ring.Some? then e.ring else Some(ring))
            && (!Grantable(s, c, duplicates) ==> r.grants == s.grants && r.entries == s.entries)
  {
  }

  /** In any state, a registration is accepted exactly for a tracked pid whose entry is Injected
      and whose nonce is given, and then records the sensor's version and nothing else. */
  lemma RegistrationIff(s: State, pid: nat, given: nat, version: nat)
    ensures var r := Next(s, Register(pid, given, version));
            var accepted := pid in s.entries && s.entries[pid].state == Injected && s.entries[pid].nonce == given;
            && (|r.registrations| > |s.registrations| <==> accepted)
            && (accepted ==>
                  && r.entries == s.entries[pid := s.entries[pid].(state := Registered, sensorVersion := version)]
                  && r.registrations == s.registrations + [Registration(s.entries[pid].id, given, given, Injected)])
            && (!accepted ==> r == s)
  {
  }
}
