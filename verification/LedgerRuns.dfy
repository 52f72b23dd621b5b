/** The injection ledger as a step machine (driver/secoutfall/Injection.cpp): every locked
    section is one step, and what runs without the lock (the APC attempt, the challenge's
    section work) is an operation in flight between two of them. */
module LedgerRuns {
  import opened Wrappers

  datatype InjectionState = PendingThread | PendingNtdll | Ready | Injected | Registered | Failed

  /** `id` tells entries apart that share a pid at different times. */
  datatype Entry = Entry(
    id: nat, pid: nat, createTime: nat, nonce: nat, thread: Option<nat>, base: nat,
    state: InjectionState, ring: Option<nat>, sensorVersion: nat)

  datatype Outcome = Queued | NoProcess | QueueFailed

  /** An attempt between the claim and its fixup. */
  datatype Attempt = Attempt(pid: nat, id: nat, outcome: Option<Outcome>)

  /** A challenge between its locked passes: what pass 1 saw, the ring pass 2 created. */
  datatype Challenge = Challenge(pid: nat, first: Entry, worked: bool, made: Option<nat>)

  datatype Registration = Registration(id: nat, given: nat, own: nat, was: InjectionState)

  /** A granted challenge: the entry as each locked pass saw it, and the ring handed out. */
  datatype Grant = Grant(first: Entry, second: Entry, ring: nat)

  datatype State = State(
    entries: map<nat, Entry>,
    enabled: bool, hasPath: bool, resolved: bool,
    attempts: seq<Attempt>, challenges: seq<Challenge>,
    nextId: nat, nextRing: nat,
    apcs: seq<nat>,             // entries whose APC was queued, in order
    registrations: seq<Registration>,
    rings: map<nat, nat>,       // the ring an entry was given
    grants: seq<Grant>)

  const START := State(map[], false, false, false, [], [], 0, 0, [], [], map[], [])

  datatype Step =
    | SetPolicy(armed: bool, path: bool)
    | Resolve                                       // LdrLoadDll's address becomes known
    | Create(pid: nat, createTime: nat, nonce: nat, wanted: bool, allocates: bool)
    | FirstThread(threadPid: nat, thread: nat)
    | ImageLoad(imagePid: nat, base: nat)
    | Exit(exitPid: nat)
    | AttemptEnds(attempt: nat, outcome: Outcome)   // the unlocked work of one attempt
    | Fixup(fixed: nat)
    | ChallengeGate(gatePid: nat)
    | ChallengeWork(working: nat, succeeds: bool)
    | ChallengeCommit(committing: nat, duplicates: bool)
    | Register(registerPid: nat, given: nat, version: nat)

  function Without<T>(s: seq<T>, i: nat): (r: seq<T>)
    requires i < |s|
    ensures |r| == |s| - 1
    ensures forall j :: 0 <= j < |r| ==> r[j] == if j < i then s[j] else s[j + 1]
  {
    s[..i] + s[i + 1..]
  }

  // ---- Steps

  function AfterCreate(s: State, pid: nat, createTime: nat, nonce: nat): State {
    if pid in s.entries then s
    else
      s.(entries := s.entries[pid := Entry(s.nextId, pid, createTime, nonce, None, 0, PendingThread, None, 0)],
         nextId := s.nextId + 1)
  }

  predicate CanInject(s: State, e: Entry) {
    e.thread.Some? && e.base != 0 && s.resolved && s.enabled && s.hasPath && e.state == Ready
  }

  /** TryInjectLocked up to the unlock. */
  function Tried(s: State, pid: nat): State {
    if pid in s.entries && CanInject(s, s.entries[pid]) then
      var e := s.entries[pid];
      s.(entries := s.entries[pid := e.(state := Injected)], attempts := s.attempts + [Attempt(pid, e.id, None)])
    else s
  }

  function SeeThread(e: Entry, thread: nat): Entry {
    if e.thread.Some? then e
    else
      e.(thread := Some(thread),
         state := if e.state == PendingThread then (if e.base != 0 then Ready else PendingNtdll) else e.state)
  }

  function SeeImage(e: Entry, base: nat): Entry {
    if e.base != 0 then e
    else
      var expected := if e.thread.Some? then PendingNtdll else PendingThread;
      e.(base := base, state := if e.state == expected then Ready else e.state)
  }

  function Settle(e: Entry, outcome: Outcome): Entry {
    match outcome
    case Queued => e
    case NoProcess => e.(state := Ready)
    case QueueFailed => e.(state := Failed)
  }

  function AfterAttempt(s: State, k: nat, outcome: Outcome): State {
    if k < |s.attempts| && s.attempts[k].outcome.None? then
      s.(attempts := s.attempts[k := s.attempts[k].(outcome := Some(outcome))],
         apcs := if outcome == Queued then s.apcs + [s.attempts[k].id] else s.apcs)
    else s
  }

  /** The relock: whatever entry now carries the pid is settled. */
  function AfterFixup(s: State, k: nat): State {
    if k < |s.attempts| && s.attempts[k].outcome.Some? then
      var a := s.attempts[k];
      s.(attempts := Without(s.attempts, k),
         entries := if a.pid in s.entries then s.entries[a.pid := Settle(s.entries[a.pid],
               a.outcome.value)] else s.entries)
    else s
  }

  function AfterGate(s: State, pid: nat): State {
    if pid in s.entries && s.entries[pid].state == Injected then
      s.(challenges := s.challenges + [Challenge(pid, s.entries[pid], false, None)])
    else s
  }

  function AfterWork(s: State, k: nat, succeeds: bool): State {
    if k >= |s.challenges| || s.challenges[k].worked then s
    else if !succeeds then s.(challenges := Without(s.challenges, k))
    else
      var c := s.challenges[k];
      if c.first.ring.Some? then s.(challenges := s.challenges[k := c.(worked := true)])
      else s.(challenges := s.challenges[k := c.(worked := true, made := Some(s.nextRing))], nextRing := s.nextRing + 1)
  }

  predicate StillTheSame(c: Challenge, e: Entry) {
    e.state == Injected && e.createTime == c.first.createTime && e.nonce == c.first.nonce
  }

  /** The ring pass 3 would hand out: what pass 1 saw, else the winner's if the second
      duplication works, else the one pass 2 made. */
  function RingFor(c: Challenge, e: Entry, duplicates: bool): Option<nat> {
    if c.first.ring.Some? then c.first.ring
    else if e.ring.Some? then (if duplicates then e.ring else None)
    else c.made
  }

  function Granted(s: State, c: Challenge, ring: nat): State
    requires c.pid in s.entries
  {
    var e := s.entries[c.pid];
    if c.first.ring.None? && e.ring.None? then
      s.(entries := s.entries[c.pid := e.(ring := Some(ring))], rings := s.rings[e.id := ring],
         grants := s.grants + [Grant(c.first, e, ring)])
    else s.(grants := s.grants + [Grant(c.first, e, ring)])
  }

  function AfterCommit(s: State, k: nat, duplicates: bool): State {
    if k >= |s.challenges| || !s.challenges[k].worked then s
    else
      var c := s.challenges[k];
      var r := s.(challenges := Without(s.challenges, k));
      if c.pid in s.entries && StillTheSame(c, s.entries[c.pid]) && RingFor(c, s.entries[c.pid], duplicates).Some?
      then Granted(r, c, RingFor(c, s.entries[c.pid], duplicates).value)
      else r
  }

  function AfterRegister(s: State, pid: nat, given: nat, version: nat): State {
    if pid in s.entries && s.entries[pid].state == Injected && s.entries[pid].nonce == given then
      var e := s.entries[pid];
      s.(entries := s.entries[pid := e.(state := Registered, sensorVersion := version)],
         registrations := s.registrations + [Registration(e.id, given, e.nonce, e.state)])
    else s
  }

  function Next(s: State, step: Step): State {
    match step
    case SetPolicy(armed, path) => s.(enabled := armed && path, hasPath := path)
    case Resolve => s.(resolved := true)
    case Create(pid, createTime, nonce, wanted, allocates) =>
      if wanted && allocates then AfterCreate(s, pid, createTime, nonce) else s
    case FirstThread(pid, thread) =>
      if pid in s.entries then Tried(s.(entries := s.entries[pid := SeeThread(s.entries[pid], thread)]), pid) else s
    case ImageLoad(pid, base) =>
      if pid in s.entries then Tried(s.(entries := s.entries[pid := SeeImage(s.entries[pid], base)]), pid) else s
    case Exit(pid) => s.(entries := s.entries - {pid})
    case AttemptEnds(k, outcome) => AfterAttempt(s, k, outcome)
    case Fixup(k) => AfterFixup(s, k)
    case ChallengeGate(pid) => AfterGate(s, pid)
    case ChallengeWork(k, succeeds) => AfterWork(s, k, succeeds)
    case ChallengeCommit(k, duplicates) => AfterCommit(s, k, duplicates)
    case Register(pid, given, version) => AfterRegister(s, pid, given, version)
  }

  function After(steps: seq<Step>): State {
    if steps == [] then START else Next(After(steps[..|steps| - 1]), steps[|steps| - 1])
  }

  /** What the kernel promises: images have a base, and no pid comes back while an attempt
      on it is in flight. */
  predicate NoReuse(s: State, step: Step) {
    match step
    case ImageLoad(_, base) => base != 0
    case Create(pid, _, _, _, _) => forall a <- s.attempts :: a.pid != pid
    case _ => true
  }

  predicate NoReuseRun(steps: seq<Step>) {
    steps == [] || (NoReuseRun(steps[..|steps| - 1]) && NoReuse(After(steps[..|steps| - 1]), steps[|steps| - 1]))
  }

  /** What an honest sensor promises: it registers only once its APC was queued. */
  predicate SensorWaits(s: State, step: Step) {
    step.Register? && step.registerPid in s.entries ==> s.entries[step.registerPid].id in s.apcs
  }

  predicate SensorWaitsRun(steps: seq<Step>) {
    steps == [] || (SensorWaitsRun(steps[..|steps| - 1]) && SensorWaits(After(steps[..|steps| - 1]), steps[|steps| - 1]))
  }

  // ---- The shape of an entry

  /** The state says exactly what was seen: nothing, only the thread, or at least a base;
      from the claim on, both. */
  predicate WellShaped(e: Entry) {
    && (e.state == PendingThread <==> e.thread.None? && e.base == 0)
    && (e.state == PendingNtdll <==> e.thread.Some? && e.base == 0)
    && (e.state in {Injected, Registered, Failed} ==> e.thread.Some?)
  }

  // ---- Invariants

  predicate EntriesGood(s: State) {
    && (forall pid <- s.entries :: s.entries[pid].pid == pid && s.entries[pid].id < s.nextId)
    && (forall p, q :: p in s.entries && q in s.entries && s.entries[p].id == s.entries[q].id ==> p == q)
  }

  predicate Shapes(s: State) {
    forall pid <- s.entries :: WellShaped(s.entries[pid])
  }

  /** An attempt against the live entry of its pid. */
  predicate Matches(a: Attempt, e: Entry) {
    e.id == a.id && e.state in {Injected, Registered}
  }

  predicate AttemptsGood(s: State) {
    && (forall a <- s.attempts :: a.id < s.nextId && (a.outcome == Some(Queued) <==> a.id in s.apcs))
    && (forall a <- s.attempts :: a.pid in s.entries ==> Matches(a, s.entries[a.pid]))
    && (forall a <- s.attempts :: forall pid <- s.entries :: s.entries[pid].id == a.id ==> pid == a.pid)
    && DistinctIds(s.attempts)
  }

  predicate ApcsGood(s: State) {
    && (forall i, j :: 0 <= i < j < |s.apcs| ==> s.apcs[i] != s.apcs[j])
    && (forall id <- s.apcs :: id < s.nextId)
    && (forall pid <- s.entries :: s.entries[pid].id in s.apcs ==> s.entries[pid].state in {Injected, Registered})
  }

  predicate RingsGood(s: State) {
    && (forall id <- s.rings :: id < s.nextId)
    && (forall pid <- s.entries ::
          if s.entries[pid].id in s.rings then s.entries[pid].ring
                == Some(s.rings[s.entries[pid].id]) else s.entries[pid].ring == None)
    && (forall c <- s.challenges :: c.first.id < s.nextId && c.first.state == Injected && c.first.pid == c.pid
          && (c.first.ring.Some? ==> c.first.id in s.rings && s.rings[c.first.id] == c.first.ring.value))
  }

  /** Both passes saw an injected entry with the caller's pid, nonce and creation time; if
      it was the same entry, the ring handed out is that entry's one ring. */
  predicate GrantGood(s: State, g: Grant) {
    && g.first.state == Injected && g.second.state == Injected
    && g.first.pid == g.second.pid && g.first.nonce == g.second.nonce && g.first.createTime == g.second.createTime
    && (g.first.id == g.second.id ==> g.first.id in s.rings && s.rings[g.first.id] == g.ring)
  }

  predicate GrantsGood(s: State) {
    forall g <- s.grants :: GrantGood(s, g)
  }

  predicate Good(s: State) {
    EntriesGood(s) && Shapes(s) && AttemptsGood(s) && ApcsGood(s)
  }

  // ---- Preservation

  lemma CreateKeepsEntries(s: State, pid: nat, createTime: nat, nonce: nat)
    requires Good(s) && pid !in s.entries
    ensures var r := AfterCreate(s, pid, createTime, nonce); EntriesGood(r) && Shapes(r) && ApcsGood(r)
  {
  }

  lemma CreateKeepsAttempts(s: State, pid: nat, createTime: nat, nonce: nat)
    requires Good(s) && pid !in s.entries && forall a <- s.attempts :: a.pid != pid
    ensures var r := AfterCreate(s, pid, createTime, nonce); AttemptsGood(r)
  {
  }

  lemma CreateKeeps(s: State, pid: nat, createTime: nat, nonce: nat)
    requires Good(s) && forall a <- s.attempts :: a.pid != pid
    ensures Good(AfterCreate(s, pid, createTime, nonce))
  {
    if pid !in s.entries {
      CreateKeepsEntries(s, pid, createTime, nonce);
      CreateKeepsAttempts(s, pid, createTime, nonce);
    }
  }

  lemma SeenKeeps(s: State, pid: nat, e: Entry)
    requires Good(s) && pid in s.entries
    requires var was := s.entries[pid];
             && e.id == was.id && e.pid == pid && WellShaped(e)
             && (e.state == was.state
                   || (was.state in {PendingThread, PendingNtdll} && e.state in {PendingNtdll, Ready}))
    ensures Good(s.(entries := s.entries[pid := e]))
  {
  }

  lemma TriedKeeps(s: State, pid: nat)
    requires Good(s)
    ensures Good(Tried(s, pid))
  {
    if pid in s.entries && CanInject(s, s.entries[pid]) {
      var e := s.entries[pid];
      assert e.id !in s.apcs;
      assert forall a <- s.attempts :: a.id != e.id;
    }
  }

  lemma ExitKeeps(s: State, pid: nat)
    requires Good(s)
    ensures Good(s.(entries := s.entries - {pid}))
  {
  }

  lemma AttemptKeeps(s: State, k: nat, outcome: Outcome)
    requires Good(s)
    ensures Good(AfterAttempt(s, k, outcome))
  {
    if k < |s.attempts| && s.attempts[k].outcome.None? {
      var a := s.attempts[k];
      assert a in s.attempts && a.id !in s.apcs;
      var r := AfterAttempt(s, k, outcome);
      assert forall i :: 0 <= i < |r.attempts| ==>
          r.attempts[i].id == s.attempts[i].id && r.attempts[i].pid == s.attempts[i].pid;
    }
  }

  predicate DistinctIds(attempts: seq<Attempt>) {
    forall i, j :: 0 <= i < j < |attempts| ==> attempts[i].id != attempts[j].id
  }

  lemma OthersRemain(attempts: seq<Attempt>, k: nat)
    requires DistinctIds(attempts) && k < |attempts|
    ensures DistinctIds(Without(attempts, k))
    ensures forall b <- Without(attempts, k) :: b in attempts && b.id != attempts[k].id
  {
    var rest := Without(attempts, k);
    forall b <- rest
      ensures b in attempts && b.id != attempts[k].id
    {
      var j :| 0 <= j < |rest| && rest[j] == b;
      assert attempts[if j < k then j else j + 1] == b;
    }
  }

  /** Forgetting one attempt; no other can be against the same live entry. */
  lemma DropAttempt(s: State, k: nat)
    requires Good(s) && k < |s.attempts|
    ensures Good(s.(attempts := Without(s.attempts, k)))
    ensures s.attempts[k].pid in s.entries ==>
              forall b <- Without(s.attempts, k) :: b.pid != s.attempts[k].pid && b.id != s.attempts[k].id
  {
    assert s.attempts[k] in s.attempts;
    OthersRemain(s.attempts, k);
  }

  lemma SettleKeeps(s: State, pid: nat, outcome: Outcome)
    requires Good(s) && pid in s.entries && outcome != Queued
    requires s.entries[pid].state in {Injected, Registered} && s.entries[pid].id !in s.apcs
    requires forall b <- s.attempts :: b.pid != pid
    ensures Good(s.(entries := s.entries[pid := Settle(s.entries[pid], outcome)]))
  {
  }

  lemma FixupKeeps(s: State, k: nat)
    requires Good(s)
    ensures Good(AfterFixup(s, k))
  {
    if k < |s.attempts| && s.attempts[k].outcome.Some? {
      var a := s.attempts[k];
      assert a in s.attempts;
      var dropped := s.(attempts := Without(s.attempts, k));
      DropAttempt(s, k);
      if a.pid in s.entries {
        if a.outcome == Some(Queued) {
          assert s.entries[a.pid := s.entries[a.pid]] == s.entries;
        } else {
          SettleKeeps(dropped, a.pid, a.outcome.value);
        }
      }
    }
  }

  lemma RegisterKeeps(s: State, pid: nat, given: nat, version: nat)
    requires Good(s)
    ensures Good(AfterRegister(s, pid, given, version))
  {
  }

  /** Challenges, rings, grants and the policy play no part in the invariant. */
  lemma SameWhereItCounts(s: State, r: State)
    requires Good(s) && r.entries == s.entries && r.attempts == s.attempts && r.nextId == s.nextId
    requires r.apcs == s.apcs
    ensures Good(r)
  {
  }

  lemma CommitKeeps(s: State, k: nat, duplicates: bool)
    requires Good(s)
    ensures Good(AfterCommit(s, k, duplicates))
  {
    if k < |s.challenges| {
      var c := s.challenges[k];
      var r := s.(challenges := Without(s.challenges, k));
      SameWhereItCounts(s, r);
      if c.pid in s.entries && RingFor(c, s.entries[c.pid], duplicates).Some? {
        GrantKeeps(r, c, RingFor(c, s.entries[c.pid], duplicates).value);
      }
    }
  }

  lemma GrantKeeps(s: State, c: Challenge, ring: nat)
    requires Good(s) && c.pid in s.entries
    ensures Good(Granted(s, c, ring))
  {
    var r := Granted(s, c, ring);
    var e := s.entries[c.pid].(ring := Some(ring));
    if c.first.ring.None? && s.entries[c.pid].ring.None? {
      SeenKeeps(s, c.pid, e);
      SameWhereItCounts(s.(entries := s.entries[c.pid := e]), r);
    } else {
      SameWhereItCounts(s, r);
    }
  }

  lemma SightingKeeps(s: State, pid: nat, e: Entry)
    requires Good(s) && pid in s.entries
    requires (exists t :: e == SeeThread(s.entries[pid], t)) || (exists b :: b != 0 && e == SeeImage(s.entries[pid], b))
    ensures Good(Tried(s.(entries := s.entries[pid := e]), pid))
  {
    SeenKeeps(s, pid, e);
    TriedKeeps(s.(entries := s.entries[pid := e]), pid);
  }

  lemma ProcessStepKeeps(s: State, step: Step)
    requires Good(s) && NoReuse(s, step)
    requires step.Create? || step.FirstThread? || step.ImageLoad? || step.Exit?
    ensures Good(Next(s, step))
  {
    match step
    case Create(pid, createTime, nonce, _, _) => CreateKeeps(s, pid, createTime, nonce);
    case FirstThread(pid, thread) =>
      if pid in s.entries {
        SightingKeeps(s, pid, SeeThread(s.entries[pid], thread));
      }
    case ImageLoad(pid, base) =>
      if pid in s.entries {
        SightingKeeps(s, pid, SeeImage(s.entries[pid], base));
      }
    case Exit(pid) => ExitKeeps(s, pid);
  }

  lemma QuietStepKeeps(s: State, step: Step)
    requires Good(s) && (step.SetPolicy? || step.Resolve? || step.ChallengeGate? || step.ChallengeWork?)
    ensures Good(Next(s, step))
  {
    var r := Next(s, step);
    assert r.entries == s.entries && r.attempts == s.attempts && r.nextId == s.nextId by {
      OnlyElsewhere(s, step);
    }
    assert r.apcs == s.apcs && r.registrations == s.registrations by {
      OnlyElsewhere(s, step);
    }
    SameWhereItCounts(s, r);
  }

  lemma OnlyElsewhere(s: State, step: Step)
    requires step.SetPolicy? || step.Resolve? || step.ChallengeGate? || step.ChallengeWork?
    ensures var r := Next(s, step);
            && r.entries == s.entries && r.attempts == s.attempts && r.nextId == s.nextId
            && r.apcs == s.apcs && r.registrations == s.registrations
  {
  }

  lemma StepKeeps(s: State, step: Step)
    requires Good(s) && NoReuse(s, step)
    ensures Good(Next(s, step))
  {
    if step.SetPolicy? || step.Resolve? || step.ChallengeGate? || step.ChallengeWork? {
      QuietStepKeeps(s, step);
    } else if step.AttemptEnds? {
      AttemptKeeps(s, step.attempt, step.outcome);
    } else if step.Fixup? {
      FixupKeeps(s, step.fixed);
    } else if step.ChallengeCommit? {
      CommitKeeps(s, step.committing, step.duplicates);
    } else if step.Register? {
      RegisterKeeps(s, step.registerPid, step.given, step.version);
    } else {
      ProcessStepKeeps(s, step);
    }
  }

  lemma {:induction false} AlwaysGood(steps: seq<Step>)
    requires NoReuseRun(steps)
    ensures Good(After(steps))
  {
    if steps != [] {
      AlwaysGood(steps[..|steps| - 1]);
      StepKeeps(After(steps[..|steps| - 1]), steps[|steps| - 1]);
    }
  }

  // ---- The promises

  /** In every interleaving: nothing seen, only the thread seen, or past both pending
      states with a base; both once claimed; and once both were seen, never pending. */
  lemma LedgerShape(steps: seq<Step>, pid: nat)
    requires NoReuseRun(steps) && pid in After(steps).entries
    ensures var e := After(steps).entries[pid];
            && e.pid == pid
            && (e.state == PendingThread <==> e.thread.None? && e.base == 0)
            && (e.state == PendingNtdll <==> e.thread.Some? && e.base == 0)
            && (e.state in {Ready, Injected, Registered, Failed} <==> e.base != 0)
            && (e.state in {Injected, Registered, Failed} ==> e.thread.Some?)
  {
    AlwaysGood(steps);
    assert WellShaped(After(steps).entries[pid]);
  }

  // ---- What Ready says of the thread

  /** What was seen of the process behind a pid since its entry was made. */
  datatype Sight = Untracked | Nothing | ThreadOnly | ImageOnly | Both

  /** The events alone decide it; no state of the ledger is looked at. */
  function SightAfter(was: Sight, step: Step, pid: nat): Sight {
    match step
    case Create(p, _, _, wanted, allocates) =>
      if p == pid && wanted && allocates && was == Untracked then Nothing else was
    case FirstThread(p, _) =>
      if p != pid then was else (match was case Nothing => ThreadOnly case ImageOnly => Both case _ => was)
    case ImageLoad(p, _) =>
      if p != pid then was else (match was case Nothing => ImageOnly case ThreadOnly => Both case _ => was)
    case Exit(p) => if p == pid then Untracked else was
    case _ => was
  }

  function Seen(steps: seq<Step>, pid: nat): Sight {
    if steps == [] then Untracked else SightAfter(Seen(steps[..|steps| - 1], pid), steps[|steps| - 1], pid)
  }

  function SightOf(s: State, pid: nat): Sight {
    if pid !in s.entries then Untracked
    else if s.entries[pid].thread.None? then (if s.entries[pid].base == 0 then Nothing else ImageOnly)
    else (if s.entries[pid].base == 0 then ThreadOnly else Both)
  }

  predicate HasBase(step: Step) {
    step.ImageLoad? ==> step.base != 0
  }

  lemma SightingStep(s: State, step: Step, pid: nat)
    requires HasBase(step) && (step.FirstThread? || step.ImageLoad?)
    ensures SightOf(Next(s, step), pid) == SightAfter(SightOf(s, pid), step, pid)
  {
  }

  lemma FixupSights(s: State, k: nat, pid: nat)
    ensures SightOf(AfterFixup(s, k), pid) == SightOf(s, pid)
  {
  }

  lemma SightStep(s: State, step: Step, pid: nat)
    requires HasBase(step)
    ensures SightOf(Next(s, step), pid) == SightAfter(SightOf(s, pid), step, pid)
  {
    if step.ChallengeCommit? {
      CommitEntries(s, step.committing, step.duplicates);
    } else if step.Fixup? {
      FixupSights(s, step.fixed, pid);
    } else if step.FirstThread? || step.ImageLoad? {
      SightingStep(s, step, pid);
    } else if !step.Create? && !step.Exit? && !step.Register? {
      QuietEntries(s, step);
    }
  }

  /** Entries record exactly what was seen, whatever pids are reused and attempts fail. */
  lemma {:induction false} SightIsRecorded(steps: seq<Step>, pid: nat)
    requires forall step <- steps :: HasBase(step)
    ensures SightOf(After(steps), pid) == Seen(steps, pid)
  {
    if steps != [] {
      SightIsRecorded(steps[..|steps| - 1], pid);
      SightStep(After(steps[..|steps| - 1]), steps[|steps| - 1], pid);
    }
  }

  predicate UnseenReady(s: State, pid: nat) {
    pid in s.entries && s.entries[pid].state == Ready && s.entries[pid].thread.None?
  }

  lemma {:induction false} NoReuseHasBases(steps: seq<Step>)
    requires NoReuseRun(steps)
    ensures forall step <- steps :: HasBase(step)
  {
    if steps != [] {
      NoReuseHasBases(steps[..|steps| - 1]);
      assert steps == steps[..|steps| - 1] + [steps[|steps| - 1]];
    }
  }

  /** An entry is Ready without a thread exactly while its process has mapped its image and
      started no thread. */
  lemma UnseenReadyIffImageOnly(steps: seq<Step>, pid: nat)
    requires NoReuseRun(steps)
    ensures UnseenReady(After(steps), pid) <==> Seen(steps, pid) == ImageOnly
  {
    NoReuseHasBases(steps);
    SightIsRecorded(steps, pid);
    if pid in After(steps).entries {
      LedgerShape(steps, pid);
    }
  }

  lemma UnseenReadyMoves(s: State, step: Step, pid: nat)
    requires HasBase(step) && pid in s.entries && pid in Next(s, step).entries
    requires WellShaped(s.entries[pid]) && WellShaped(Next(s, step).entries[pid])
    ensures UnseenReady(Next(s, step), pid) <==>
              || (UnseenReady(s, pid) && !(step.FirstThread? && step.threadPid == pid))
              || (s.entries[pid].state == PendingThread && step.ImageLoad? && step.imagePid == pid)
  {
    SightStep(s, step, pid);
  }

  /** The same for one step: it makes a live entry Ready without a thread exactly by an image
      that finds it PendingThread, and such an entry stays so up to its first thread. */
  lemma UnseenReadyStep(s: State, step: Step, pid: nat)
    requires Good(s) && NoReuse(s, step) && pid in s.entries && pid in Next(s, step).entries
    ensures UnseenReady(Next(s, step), pid) <==>
              || (UnseenReady(s, pid) && !(step.FirstThread? && step.threadPid == pid))
              || (s.entries[pid].state == PendingThread && step.ImageLoad? && step.imagePid == pid)
  {
    StepKeeps(s, step);
    UnseenReadyMoves(s, step, pid);
  }

  lemma NoReuseSnoc(steps: seq<Step>, step: Step)
    requires NoReuseRun(steps) && NoReuse(After(steps), step)
    ensures NoReuseRun(steps + [step]) && After(steps + [step]) == Next(After(steps), step)
  {
    assert (steps + [step])[..|steps|] == steps;
  }

  lemma ImageAlone(s: State, pid: nat, createTime: nat, nonce: nat, base: nat)
    requires pid !in s.entries && base != 0
    ensures var r := Next(Next(s, Create(pid, createTime, nonce, true, true)), ImageLoad(pid, base));
            UnseenReady(r, pid) && r.attempts == s.attempts
  {
    var created := Next(s, Create(pid, createTime, nonce, true, true));
    assert created.entries[pid] == Entry(s.nextId, pid, createTime, nonce, None, 0, PendingThread, None, 0);
  }

  /** Any run, even the empty one, goes on to such an entry: a new pid whose image comes before
      its first thread is Ready with no thread seen, and nothing is claimed. */
  lemma ImageFirstIsReady(steps: seq<Step>, pid: nat, createTime: nat, nonce: nat, base: nat)
    requires NoReuseRun(steps) && base != 0
    requires pid !in After(steps).entries && forall a <- After(steps).attempts :: a.pid != pid
    ensures var more := steps + [Create(pid, createTime, nonce, true, true)] + [ImageLoad(pid, base)];
            NoReuseRun(more) && UnseenReady(After(more), pid) && After(more).attempts == After(steps).attempts
  {
    var create := Create(pid, createTime, nonce, true, true);
    NoReuseSnoc(steps, create);
    NoReuseSnoc(steps + [create], ImageLoad(pid, base));
    ImageAlone(After(steps), pid, createTime, nonce, base);
  }

  // ---- Rings and challenges, with no assumption on the environment

  predicate RingStateGood(s: State) {
    EntriesGood(s) && RingsGood(s) && GrantsGood(s)
  }

  /** No entry changed its identity or its ring; new entries are new and have none. */
  predicate SameRings(s: State, r: State) {
    && r.nextId >= s.nextId && r.rings == s.rings && r.grants == s.grants && r.challenges == s.challenges
    && forall pid <- r.entries ::
         if pid in s.entries then r.entries[pid].id == s.entries[pid].id && r.entries[pid].ring == s.entries[pid].ring
         else r.entries[pid].id >= s.nextId && r.entries[pid].ring == None
  }

  lemma RingsUntouched(s: State, r: State)
    requires RingStateGood(s) && EntriesGood(r) && SameRings(s, r)
    ensures RingStateGood(r)
  {
    forall pid <- r.entries
      ensures if r.entries[pid].id in r.rings then r.entries[pid].ring
            == Some(r.rings[r.entries[pid].id]) else r.entries[pid].ring == None
    {
      if pid in s.entries {
        assert s.entries[pid].ring == r.entries[pid].ring;
      }
    }
  }

  lemma EntryReplaced(s: State, r: State, pid: nat)
    requires EntriesGood(s) && pid in s.entries && pid in r.entries && r.nextId == s.nextId
    requires r.entries == s.entries[pid := r.entries[pid]]
    requires var was, now := s.entries[pid], r.entries[pid];
        now.id == was.id && now.pid == was.pid && now.ring == was.ring
    requires r.rings == s.rings && r.grants == s.grants && r.challenges == s.challenges
    ensures EntriesGood(r) && SameRings(s, r)
  {
  }

  lemma SightingReplaces(s: State, pid: nat, e: Entry)
    requires EntriesGood(s) && pid in s.entries
    requires var was := s.entries[pid]; e.id == was.id && e.pid == was.pid && e.ring == was.ring
    ensures var r := Tried(s.(entries := s.entries[pid := e]), pid); EntriesGood(r) && SameRings(s, r)
  {
    var r := Tried(s.(entries := s.entries[pid := e]), pid);
    assert r.entries == s.entries[pid := r.entries[pid]];
    EntryReplaced(s, r, pid);
  }

  lemma FixupReplaces(s: State, k: nat)
    requires EntriesGood(s)
    ensures EntriesGood(AfterFixup(s, k)) && SameRings(s, AfterFixup(s, k))
  {
    if k < |s.attempts| && s.attempts[k].outcome.Some? && s.attempts[k].pid in s.entries {
      EntryReplaced(s, AfterFixup(s, k), s.attempts[k].pid);
    }
  }

  lemma CreateAdds(s: State, pid: nat, createTime: nat, nonce: nat)
    requires EntriesGood(s)
    ensures var r := AfterCreate(s, pid, createTime, nonce); EntriesGood(r) && SameRings(s, r)
  {
    if pid in s.entries {
      EntriesKept(s, s);
    } else {
      NewEntryIsNew(s, pid, createTime, nonce);
      var r := AfterCreate(s, pid, createTime, nonce);
      forall q <- r.entries
        ensures if q in s.entries then r.entries[q] == s.entries[q]
                else r.entries[q].id == s.nextId && r.entries[q].ring == None
      {
      }
    }
  }

  lemma NewEntryIsNew(s: State, pid: nat, createTime: nat, nonce: nat)
    requires EntriesGood(s) && pid !in s.entries
    ensures EntriesGood(AfterCreate(s, pid, createTime, nonce))
  {
    var r := AfterCreate(s, pid, createTime, nonce);
    forall p, q | p in r.entries && q in r.entries && r.entries[p].id == r.entries[q].id
      ensures p == q
    {
      assert p != pid ==> r.entries[p] == s.entries[p];
      assert q != pid ==> r.entries[q] == s.entries[q];
    }
  }

  lemma EntriesKept(s: State, r: State)
    requires EntriesGood(s) && r.nextId == s.nextId && r.rings == s.rings && r.grants == s.grants
          && r.challenges == s.challenges
    requires forall pid <- r.entries :: pid in s.entries && r.entries[pid] == s.entries[pid]
    ensures EntriesGood(r) && SameRings(s, r)
  {
  }

  lemma SeenStep(s: State, step: Step)
    requires EntriesGood(s) && (step.FirstThread? || step.ImageLoad?)
    ensures EntriesGood(Next(s, step)) && SameRings(s, Next(s, step))
  {
    var pid := if step.FirstThread? then step.threadPid else step.imagePid;
    if pid !in s.entries {
      EntriesKept(s, Next(s, step));
    } else if step.FirstThread? {
      SightingReplaces(s, pid, SeeThread(s.entries[pid], step.thread));
    } else {
      SightingReplaces(s, pid, SeeImage(s.entries[pid], step.base));
    }
  }

  lemma RegisterReplaces(s: State, pid: nat, given: nat, version: nat)
    requires EntriesGood(s)
    ensures var r := AfterRegister(s, pid, given, version); EntriesGood(r) && SameRings(s, r)
  {
    var r := AfterRegister(s, pid, given, version);
    if r == s {
      EntriesKept(s, r);
    } else {
      EntryReplaced(s, r, pid);
    }
  }

  lemma NonRingStep(s: State, step: Step)
    requires EntriesGood(s) && !step.ChallengeGate? && !step.ChallengeWork? && !step.ChallengeCommit?
    ensures EntriesGood(Next(s, step)) && SameRings(s, Next(s, step))
  {
    if step.FirstThread? || step.ImageLoad? {
      SeenStep(s, step);
    } else if step.Fixup? {
      FixupReplaces(s, step.fixed);
    } else if step.Register? {
      RegisterReplaces(s, step.registerPid, step.given, step.version);
    } else if step.Create? {
      CreateAdds(s, step.pid, step.createTime, step.nonce);
      EntriesKept(s, s);
    } else {
      EntriesKept(s, Next(s, step));
    }
  }

  lemma GateKeepsRings(s: State, pid: nat)
    requires RingStateGood(s)
    ensures RingStateGood(AfterGate(s, pid))
  {
  }

  lemma ChallengeKept(s: State, r: State)
    requires RingStateGood(s) && r.entries == s.entries && r.nextId == s.nextId && r.rings == s.rings
          && r.grants == s.grants
    requires forall c <- r.challenges :: exists d :: d in s.challenges && d.pid == c.pid && d.first == c.first
    ensures RingStateGood(r)
  {
  }

  lemma WithoutIsPart<T>(q: seq<T>, k: nat)
    requires k < |q|
    ensures forall x <- Without(q, k) :: x in q
  {
  }

  lemma WorkKeepsRings(s: State, k: nat, succeeds: bool)
    requires RingStateGood(s)
    ensures RingStateGood(AfterWork(s, k, succeeds))
  {
    if k < |s.challenges| {
      WithoutIsPart(s.challenges, k);
      assert s.challenges[k] in s.challenges;
      ChallengeKept(s, AfterWork(s, k, succeeds));
    }
  }

  lemma CommitKeepsRings(s: State, k: nat, duplicates: bool)
    requires RingStateGood(s)
    ensures RingStateGood(AfterCommit(s, k, duplicates))
    ensures RingsGrow(s, AfterCommit(s, k, duplicates))
  {
    if k < |s.challenges| {
      var c := s.challenges[k];
      var r := s.(challenges := Without(s.challenges, k));
      WithoutIsPart(s.challenges, k);
      ChallengeKept(s, r);
      assert c in s.challenges;
      if c.pid in s.entries && StillTheSame(c, s.entries[c.pid]) && RingFor(c, s.entries[c.pid], duplicates).Some? {
        GrantKeepsRings(r, c, RingFor(c, s.entries[c.pid], duplicates).value, duplicates);
      }
    }
  }

  /** Rings once given stay. */
  predicate RingsGrow(s: State, r: State) {
    forall id <- s.rings :: id in r.rings && r.rings[id] == s.rings[id]
  }

  lemma GrantAdded(s: State, g: Grant)
    requires RingStateGood(s) && GrantGood(s, g)
    ensures RingStateGood(s.(grants := s.grants + [g]))
  {
  }

  /** A live entry without a ring is given one. */
  lemma RingGiven(s: State, pid: nat, ring: nat)
    requires RingStateGood(s) && pid in s.entries && s.entries[pid].ring.None?
    ensures var e := s.entries[pid];
            var r := s.(entries := s.entries[pid := e.(ring := Some(ring))], rings := s.rings[e.id := ring]);
            RingStateGood(r) && RingsGrow(s, r)
  {
    var e := s.entries[pid];
    assert e.id !in s.rings;
    assert forall p <- s.entries :: p != pid ==> s.entries[p].id != e.id;
  }

  lemma GrantKeepsRings(s: State, c: Challenge, ring: nat, duplicates: bool)
    requires RingStateGood(s) && c.pid in s.entries && StillTheSame(c, s.entries[c.pid])
    requires c.first.state == Injected && c.first.pid == c.pid
    requires c.first.ring.Some? ==> c.first.id in s.rings && s.rings[c.first.id] == c.first.ring.value
    requires RingFor(c, s.entries[c.pid], duplicates) == Some(ring)
    ensures RingStateGood(Granted(s, c, ring)) && RingsGrow(s, Granted(s, c, ring))
  {
    var e := s.entries[c.pid];
    if c.first.ring.None? && e.ring.None? {
      RingGiven(s, c.pid, ring);
      var r := s.(entries := s.entries[c.pid := e.(ring := Some(ring))], rings := s.rings[e.id := ring]);
      GrantAdded(r, Grant(c.first, e, ring));
    } else {
      GrantAdded(s, Grant(c.first, e, ring));
    }
  }

  lemma RingStepKeeps(s: State, step: Step)
    requires RingStateGood(s)
    ensures RingStateGood(Next(s, step)) && RingsGrow(s, Next(s, step))
  {
    match step
    case ChallengeGate(pid) => GateKeepsRings(s, pid);
    case ChallengeWork(k, succeeds) => WorkKeepsRings(s, k, succeeds);
    case ChallengeCommit(k, duplicates) => CommitKeepsRings(s, k, duplicates);
    case _ =>
      NonRingStep(s, step);
      RingsUntouched(s, Next(s, step));
  }

  lemma {:induction false} RingsAlwaysGood(steps: seq<Step>)
    ensures RingStateGood(After(steps))
  {
    if steps != [] {
      RingsAlwaysGood(steps[..|steps| - 1]);
      RingStepKeeps(After(steps[..|steps| - 1]), steps[|steps| - 1]);
    }
  }

  /** A granted challenge saw, in both locked passes, an injected entry with one pid, nonce
      and creation time; and all challenges granted to one entry hand out one ring. */
  lemma GrantsNameOneEntry(steps: seq<Step>, g: Grant, h: Grant)
    requires g in After(steps).grants && h in After(steps).grants
    ensures g.first.state == Injected && g.second.state == Injected && g.first.pid == g.second.pid
    ensures g.first.nonce == g.second.nonce && g.first.createTime == g.second.createTime
    ensures g.first.id == g.second.id == h.first.id == h.second.id ==> g.ring == h.ring
  {
    RingsAlwaysGood(steps);
    assert GrantGood(After(steps), g) && GrantGood(After(steps), h);
  }

  /** An entry's ring is set at most once: whatever happens later, a live entry that has a
      ring keeps that one. */
  lemma RingSetOnce(steps: seq<Step>, step: Step, pid: nat)
    requires pid in After(steps).entries && pid in After(steps + [step]).entries
    requires After(steps + [step]).entries[pid].id == After(steps).entries[pid].id
    ensures After(steps).entries[pid].ring.Some? ==>
          After(steps + [step]).entries[pid].ring == After(steps).entries[pid].ring
  {
    assert (steps + [step])[..|steps|] == steps;
    RingsAlwaysGood(steps);
    RingsAlwaysGood(steps + [step]);
    RingStepKeeps(After(steps), step);
  }

  // ---- What a step leaves of the entries

  lemma GrantedEntries(s: State, c: Challenge, ring: nat)
    requires c.pid in s.entries
    ensures var r := Granted(s, c, ring);
            && r.nextId == s.nextId && r.registrations == s.registrations
            && r.attempts == s.attempts && r.apcs == s.apcs
            && r.entries.Keys == s.entries.Keys
            && forall pid <- s.entries :: r.entries[pid] == s.entries[pid].(ring := r.entries[pid].ring)
  {
  }

  lemma CommitEntries(s: State, k: nat, duplicates: bool)
    ensures var r := AfterCommit(s, k, duplicates);
            && r.nextId == s.nextId && r.registrations == s.registrations
            && r.attempts == s.attempts && r.apcs == s.apcs
            && r.entries.Keys == s.entries.Keys
            && forall pid <- s.entries :: r.entries[pid] == s.entries[pid].(ring := r.entries[pid].ring)
  {
    if k < |s.challenges| {
      var c := s.challenges[k];
      var r := s.(challenges := Without(s.challenges, k));
      if c.pid in s.entries && RingFor(c, s.entries[c.pid], duplicates).Some? {
        GrantedEntries(r, c, RingFor(c, s.entries[c.pid], duplicates).value);
      }
    }
  }

  lemma QuietEntries(s: State, step: Step)
    requires step.ChallengeGate? || step.ChallengeWork? || step.SetPolicy? || step.Resolve? || step.AttemptEnds?
    ensures var r := Next(s, step);
            r.entries == s.entries && r.nextId == s.nextId && r.registrations == s.registrations
  {
    match step
    case ChallengeWork(_, _) =>
    case AttemptEnds(_, _) =>
    case _ =>
  }

  lemma EntriesStep(s: State, step: Step)
    requires EntriesGood(s)
    ensures EntriesGood(Next(s, step)) && Next(s, step).nextId >= s.nextId
  {
    if step.ChallengeCommit? {
      CommitEntries(s, step.committing, step.duplicates);
    } else if step.ChallengeGate? || step.ChallengeWork? {
      QuietEntries(s, step);
    } else {
      NonRingStep(s, step);
    }
  }

  // ---- Why the assumption is needed

  /** The entry a fixup settles was seen as far as the state it is put in says. */
  predicate FixupSeen(s: State, k: nat) {
    k < |s.attempts| && s.attempts[k].outcome.Some? ==>
      var a := s.attempts[k];
      || a.outcome == Some(Queued) || a.pid !in s.entries
      || (s.entries[a.pid].base != 0 && (a.outcome == Some(QueueFailed) ==> s.entries[a.pid].thread.Some?))
  }

  /** The fixup settles whatever entry carries the pid by then. From well-shaped entries it
      leaves well-shaped entries exactly when the attempt succeeded, no entry has the pid,
      or that entry has been seen as far as the state it is put in says. */
  lemma FixupShape(s: State, k: nat)
    requires Shapes(s)
    ensures Shapes(AfterFixup(s, k)) <==> FixupSeen(s, k)
  {
    if k < |s.attempts| && s.attempts[k].outcome.Some? {
      var a := s.attempts[k];
      if a.pid in s.entries {
        var r := AfterFixup(s, k);
        assert a.pid in r.entries && WellShaped(s.entries[a.pid]);
        if a.outcome == Some(Queued) {
          assert r.entries == s.entries;
        }
      }
    }
  }

  lemma SightingShapes(s: State, step: Step)
    requires Shapes(s) && (step.FirstThread? || (step.ImageLoad? && step.base != 0))
    ensures Shapes(Next(s, step))
  {
  }

  lemma CommitShapes(s: State, k: nat, duplicates: bool)
    requires Shapes(s)
    ensures Shapes(AfterCommit(s, k, duplicates))
  {
    CommitEntries(s, k, duplicates);
  }

  lemma ShapesStep(s: State, step: Step)
    requires Shapes(s) && HasBase(step)
    ensures Shapes(Next(s, step)) <==> (step.Fixup? ==> FixupSeen(s, step.fixed))
  {
    if step.Fixup? {
      FixupShape(s, step.fixed);
    } else if step.FirstThread? || step.ImageLoad? {
      SightingShapes(s, step);
    } else if step.ChallengeCommit? {
      CommitShapes(s, step.committing, step.duplicates);
    } else if !step.Create? && !step.Exit? && !step.Register? {
      QuietEntries(s, step);
    }
  }

  predicate FixupsSeen(steps: seq<Step>) {
    steps == [] ||
    (FixupsSeen(steps[..|steps| - 1]) &&
     (steps[|steps| - 1].Fixup? ==> FixupSeen(After(steps[..|steps| - 1]), steps[|steps| - 1].fixed)))
  }

  ghost predicate AlwaysShaped(steps: seq<Step>) {
    forall n: nat :: n <= |steps| ==> Shapes(After(steps[..n]))
  }

  /** Entries are well shaped throughout a run exactly when every fixup settles an entry
      seen far enough, whatever pids are reused. */
  lemma {:induction false} ShapedIffFixupsSeen(steps: seq<Step>)
    requires forall step <- steps :: HasBase(step)
    ensures AlwaysShaped(steps) <==> FixupsSeen(steps)
    decreases |steps|
  {
    if steps == [] {
      assert steps[..0] == [];
    } else {
      var init, step := steps[..|steps| - 1], steps[|steps| - 1];
      assert step in steps;
      ShapedIffFixupsSeen(init);
      assert forall n: nat :: n <= |init| ==> init[..n] == steps[..n];
      assert steps[..|steps|] == steps && steps[..|init|] == init && init[..|init|] == init;
      if Shapes(After(init)) {
        ShapesStep(After(init), step);
      }
    }
  }

  /** From any state, a pid that comes back while an attempt on its former owner is in
      flight: the fresh entry, which has seen nothing, is made Ready. */
  lemma ReusedPidBreaksShape(s: State, k: nat, createTime: nat, nonce: nat)
    requires k < |s.attempts| && s.attempts[k].outcome.None?
    ensures var pid := s.attempts[k].pid;
            var gone := Next(Next(s, Exit(pid)), AttemptEnds(k, NoProcess));
            var r := Next(Next(gone, Create(pid, createTime, nonce, true, true)), Fixup(k));
            UnseenReady(r, pid) && r.entries[pid].base == 0 && r.entries[pid].id == s.nextId
  {
    var pid := s.attempts[k].pid;
    var gone := Next(Next(s, Exit(pid)), AttemptEnds(k, NoProcess));
    var reused := Next(gone, Create(pid, createTime, nonce, true, true));
    assert reused.entries[pid] == Entry(s.nextId, pid, createTime, nonce, None, 0, PendingThread, None, 0);
    assert reused.attempts == gone.attempts;
  }

  /** Such attempts exist: one is claimed as soon as thread, image, address and policy are
      there. */
  lemma AttemptsAreClaimed(s: State, pid: nat, createTime: nat, nonce: nat, thread: nat, base: nat)
    requires pid !in s.entries && s.resolved && s.enabled && s.hasPath && base != 0
    ensures var created := Next(s, Create(pid, createTime, nonce, true, true));
            var r := Next(Next(created, FirstThread(pid, thread)), ImageLoad(pid, base));
            && r.attempts == s.attempts + [Attempt(pid, s.nextId, None)] && r.apcs == s.apcs
            && r.resolved && r.enabled && r.hasPath
            && pid in r.entries && r.entries[pid].id == s.nextId && r.entries[pid].state == Injected
            && r.entries[pid].thread.Some? && r.entries[pid].base == base
  {
    var created := Next(s, Create(pid, createTime, nonce, true, true));
    assert created.entries[pid] == Entry(s.nextId, pid, createTime, nonce, None, 0, PendingThread, None, 0);
    var seen := Next(created, FirstThread(pid, thread));
    assert seen.entries[pid] == created.entries[pid].(thread := Some(thread), state := PendingNtdll);
  }
}
