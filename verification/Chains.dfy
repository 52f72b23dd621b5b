/** Behaviour chains per process (crates/agent/src/domain/score.rs). */
module Chains {
  // The detector keeps, per tracked pid, a vector of (api, count) pairs, the chains already
  // reported and a run-key flag. Its meaning is far simpler: a bounded map from pid to the
  // list of calls seen since the pid's slot was created. The class is proved to be that
  // map; the lemmas say what the map means over whole runs.

  const NT_CREATE_THREAD_EX: nat := 4
  const NT_SET_VALUE_KEY_RUN_KEY: nat := 7
  const NT_WRITE_VM_CROSS_PROCESS: nat := 9
  const NT_DELETE_FILE_SHADOW_COPY: nat := 10
  const CRYPT_ENCRYPT: nat := 12

  const MASS_ENCRYPT_MIN: nat := 8
  const MAX_TRACKED_PIDS: nat := 4096
  const U32_RANGE: nat := 0x1_0000_0000

  datatype ChainId = Injection | Ransomware

  /** Members as (api, minimum sightings). */
  function Members(c: ChainId): seq<(nat, nat)> {
    match c
    case Injection => [(NT_WRITE_VM_CROSS_PROCESS, 1), (NT_CREATE_THREAD_EX, 1)]
    case Ransomware => [(CRYPT_ENCRYPT, MASS_ENCRYPT_MIN), (NT_DELETE_FILE_SHADOW_COPY, 1)]
  }

  predicate IsScoringRelevant(api: nat) {
    api in {NT_CREATE_THREAD_EX, NT_SET_VALUE_KEY_RUN_KEY, NT_WRITE_VM_CROSS_PROCESS,
            NT_DELETE_FILE_SHADOW_COPY, CRYPT_ENCRYPT}
  }

  datatype Finding = Finding(chains: seq<ChainId>, runKeySet: bool)

  const NOTHING := Finding([], false)

  // ---- The meaning: a bounded map from pid to the calls since its slot was made

  function Sightings(calls: seq<nat>, api: nat): (n: nat)
    ensures n <= |calls|
  {
    if calls == [] then 0
    else Sightings(calls[..|calls| - 1], api) + if calls[|calls| - 1] == api then 1 else 0
  }

  /** Every member has been seen often enough. */
  predicate Complete(calls: seq<nat>, c: ChainId) {
    forall m | m in Members(c) :: Sightings(calls, m.0) >= m.1
  }

  /** The same test on the source's 32-bit counters. */
  predicate CountersComplete(calls: seq<nat>, c: ChainId) {
    forall m | m in Members(c) :: Sightings(calls, m.0) % U32_RANGE >= m.1
  }

  predicate Fired(calls: seq<nat>, c: ChainId) {
    calls != [] && (Fired(calls[..|calls| - 1], c) || CountersComplete(calls, c))
  }

  function NewlyFired(calls: seq<nat>, api: nat, c: ChainId): seq<ChainId> {
    if !Fired(calls, c) && CountersComplete(calls + [api], c) then [c] else []
  }

  function FindingFor(calls: seq<nat>, api: nat): Finding {
    Finding(NewlyFired(calls, api, Injection) + NewlyFired(calls, api, Ransomware),
            api == NT_SET_VALUE_KEY_RUN_KEY && api !in calls)
  }

  datatype Memory = Memory(slots: map<nat, seq<nat>>, dropped: nat)

  const FORGOTTEN := Memory(map[], 0)

  predicate Refused(m: Memory, pid: nat) {
    pid !in m.slots && |m.slots| >= MAX_TRACKED_PIDS
  }

  function CallsOf(m: Memory, pid: nat): seq<nat> {
    if pid in m.slots then m.slots[pid] else []
  }

  function Observed(m: Memory, pid: nat, api: nat): Memory {
    if Refused(m, pid) then m.(dropped := m.dropped + 1)
    else m.(slots := m.slots[pid := CallsOf(m, pid) + [api]])
  }

  function Reported(m: Memory, pid: nat, api: nat): Finding {
    if Refused(m, pid) then NOTHING else FindingFor(CallsOf(m, pid), api)
  }

  function Forgotten(m: Memory, pid: nat): Memory {
    m.(slots := m.slots - {pid})
  }

  // ---- The detector itself

  datatype PidBehavior = PidBehavior(counts: seq<(nat, nat)>, fired: seq<ChainId>, runKeySeen: bool)

  function CountOf(counts: seq<(nat, nat)>, api: nat): nat {
    if counts == [] then 0
    else if counts[0].0 == api then counts[0].1
    else CountOf(counts[1..], api)
  }

  function Bumped(counts: seq<(nat, nat)>, api: nat): seq<(nat, nat)> {
    if counts == [] then [(api, 1)]
    else if counts[0].0 == api then [(api, (counts[0].1 + 1) % U32_RANGE)] + counts[1..]
    else [counts[0]] + Bumped(counts[1..], api)
  }

  lemma {:induction false} BumpedCounts(counts: seq<(nat, nat)>, api: nat, other: nat)
    requires CountOf(counts, api) < U32_RANGE
    ensures CountOf(Bumped(counts, api), other)
         == if other == api then (CountOf(counts, api) + 1) % U32_RANGE else CountOf(counts, other)
    decreases |counts|
  {
    if counts != [] && counts[0].0 != api {
      BumpedCounts(counts[1..], api, other);
      assert Bumped(counts, api)[1..] == Bumped(counts[1..], api);
    } else if counts != [] {
      assert Bumped(counts, api)[1..] == counts[1..];
    }
  }

  lemma CountersFollow(counts: seq<(nat, nat)>, calls: seq<nat>, api: nat)
    requires forall other: nat :: CountOf(counts, other) == Sightings(calls, other) % U32_RANGE
    ensures forall other: nat :: CountOf(Bumped(counts, api), other) == Sightings(calls + [api], other) % U32_RANGE
  {
    assert (calls + [api])[..|calls|] == calls;
    forall other: nat ensures CountOf(Bumped(counts, api), other) == Sightings(calls + [api], other) % U32_RANGE {
      BumpedCounts(counts, api, other);
    }
  }

  /** A slot holds exactly what its calls say: counters modulo 2^32, the chains
      already reported, and whether a run key was written. */
  ghost predicate Remembers(b: PidBehavior, calls: seq<nat>) {
    && (forall api: nat :: CountOf(b.counts, api) == Sightings(calls, api) % U32_RANGE)
    && (forall c :: c in b.fired <==> Fired(calls, c))
    && (b.runKeySeen <==> NT_SET_VALUE_KEY_RUN_KEY in calls)
  }

  function Pids(perPid: seq<(nat, PidBehavior)>): set<nat> {
    set i | 0 <= i < |perPid| :: perPid[i].0
  }

  predicate DistinctPids(perPid: seq<(nat, PidBehavior)>) {
    forall i, j | 0 <= i < j < |perPid| :: perPid[i].0 != perPid[j].0
  }

  ghost predicate Tracks(perPid: seq<(nat, PidBehavior)>, slots: map<nat, seq<nat>>) {
    && DistinctPids(perPid)
    && Pids(perPid) == slots.Keys
    && forall i | 0 <= i < |perPid| :: perPid[i].0 in slots && Remembers(perPid[i].1, slots[perPid[i].0])
  }

  lemma PidsPush(perPid: seq<(nat, PidBehavior)>, e: (nat, PidBehavior))
    ensures Pids(perPid + [e]) == Pids(perPid) + {e.0}
  {
    assert (perPid + [e])[|perPid|] == e;
    forall p | p in Pids(perPid) ensures p in Pids(perPid + [e]) {
      var i :| 0 <= i < |perPid| && perPid[i].0 == p;
      assert (perPid + [e])[i].0 == p;
    }
  }

  lemma TracksPush(perPid: seq<(nat, PidBehavior)>, slots: map<nat, seq<nat>>, pid: nat)
    requires Tracks(perPid, slots) && pid !in Pids(perPid)
    ensures Tracks(perPid + [(pid, PidBehavior([], [], false))], slots[pid := []])
  {
    PidsPush(perPid, (pid, PidBehavior([], [], false)));
    assert forall i | 0 <= i < |perPid| :: perPid[i].0 in Pids(perPid);
  }

  lemma TracksUpdate(perPid: seq<(nat, PidBehavior)>, slots: map<nat, seq<nat>>, at: nat, b: PidBehavior,
        calls: seq<nat>)
    requires Tracks(perPid, slots) && at < |perPid| && Remembers(b, calls)
    ensures Tracks(perPid[at := (perPid[at].0, b)], slots[perPid[at].0 := calls])
  {
    var now := perPid[at := (perPid[at].0, b)];
    assert forall i | 0 <= i < |perPid| :: now[i].0 == perPid[i].0;
    assert perPid[at].0 in Pids(perPid);
    assert Pids(now) == Pids(perPid);
  }

  lemma {:induction false} PidsCount(perPid: seq<(nat, PidBehavior)>)
    requires DistinctPids(perPid)
    ensures |Pids(perPid)| == |perPid|
    decreases |perPid|
  {
    if perPid != [] {
      var last := |perPid| - 1;
      PidsCount(perPid[..last]);
      PidsPush(perPid[..last], perPid[last]);
      assert perPid[..last] + [perPid[last]] == perPid;
    }
  }

  function Without(perPid: seq<(nat, PidBehavior)>, pid: nat): seq<(nat, PidBehavior)> {
    if perPid == [] then []
    else
      var kept := Without(perPid[..|perPid| - 1], pid);
      if perPid[|perPid| - 1].0 == pid then kept else kept + [perPid[|perPid| - 1]]
  }

  lemma {:induction false} WithoutTracks(perPid: seq<(nat, PidBehavior)>, pid: nat)
    requires DistinctPids(perPid)
    ensures DistinctPids(Without(perPid, pid))
    ensures Pids(Without(perPid, pid)) == Pids(perPid) - {pid}
    ensures forall e | e in Without(perPid, pid) :: e in perPid
    decreases |perPid|
  {
    if perPid != [] {
      var last := perPid[|perPid| - 1];
      var init := perPid[..|perPid| - 1];
      WithoutTracks(init, pid);
      PidsPush(init, last);
      assert init + [last] == perPid;
      var kept := Without(init, pid);
      if last.0 != pid {
        PidsPush(kept, last);
        assert last.0 !in Pids(init);
        assert forall i | 0 <= i < |kept| :: kept[i].0 in Pids(kept);
      }
    }
  }

  class ChainDetector {
    var perPid: seq<(nat, PidBehavior)>
    var droppedPids: nat
    /** What the vector means. */
    ghost var memory: Memory

    ghost predicate Valid()
      reads this
    {
      Tracks(perPid, memory.slots) && droppedPids == memory.dropped
    }

    constructor ()
      ensures Valid() && memory == FORGOTTEN
    {
      perPid, droppedPids, memory := [], 0, FORGOTTEN;
    }

    method FindSlot(pid: nat) returns (at: nat)
      ensures at <= |perPid|
      ensures at < |perPid| ==> perPid[at].0 == pid
      ensures at == |perPid| ==> pid !in Pids(perPid)
    {
      at := 0;
      while at < |perPid|
        invariant at <= |perPid|
        invariant forall i | 0 <= i < at :: perPid[i].0 != pid
      {
        if perPid[at].0 == pid {
          return;
        }
        at := at + 1;
      }
    }

    /** Find the pid's slot, making one unless the cap is reached. */
    method SlotFor(pid: nat) returns (at: nat)
      requires Valid()
      modifies this`perPid, this`droppedPids
      ensures at <= |perPid|
      ensures at == |perPid| <==> Refused(memory, pid)
      ensures at == |perPid| ==> perPid == old(perPid) && droppedPids == old(droppedPids) + 1
      ensures at < |perPid| ==>
                droppedPids == old(droppedPids) && perPid[at].0 == pid
                && Tracks(perPid, memory.slots[pid := CallsOf(memory, pid)])
    {
      PidsCount(perPid);
      at := FindSlot(pid);
      if at == |perPid| {
        if |perPid| >= MAX_TRACKED_PIDS {
          droppedPids := droppedPids + 1;
          return;
        }
        TracksPush(perPid, memory.slots, pid);
        perPid := perPid + [(pid, PidBehavior([], [], false))];
      } else {
        assert perPid[at].0 in Pids(perPid);
        assert memory.slots[pid := CallsOf(memory, pid)] == memory.slots;
      }
    }

    /** Record one call. What it reports, and what is remembered afterwards, is
        what the map of calls says. */
    method Observe(pid: nat, api: nat) returns (finding: Finding)
      requires Valid()
      modifies this
      ensures Valid()
      ensures memory == Observed(old(memory), pid, api)
      ensures finding == Reported(old(memory), pid, api)
    {
      ghost var calls := CallsOf(memory, pid);
      var at := SlotFor(pid);
      finding := NOTHING;
      if at == |perPid| {
        memory := Observed(memory, pid, api);
        return;
      }
      var slot;
      slot, finding := ObserveInSlot(perPid[at].1, api, calls);
      TracksUpdate(perPid, memory.slots[pid := calls], at, slot, calls + [api]);
      assert memory.slots[pid := calls][pid := calls + [api]] == memory.slots[pid := calls + [api]];
      perPid := perPid[at := (pid, slot)];
      memory := Observed(memory, pid, api);
    }

    method ObserveInSlot(was: PidBehavior, api: nat, ghost calls: seq<nat>)
      returns (slot: PidBehavior, finding: Finding)
      requires Remembers(was, calls)
      ensures Remembers(slot, calls + [api])
      ensures finding == FindingFor(calls, api)
    {
      slot, finding := was, NOTHING;
      if api == NT_SET_VALUE_KEY_RUN_KEY && !slot.runKeySeen {
        slot := slot.(runKeySeen := true);
        finding := finding.(runKeySet := true);
      }
      var counts := Bump(slot.counts, api);
      slot := slot.(counts := counts);
      CountersFollow(was.counts, calls, api);
      assert (calls + [api])[..|calls|] == calls;
      slot, finding := FireChains(slot, finding, api, calls);
    }

    /** The loop over the chains, on counters that already count this call. */
    method FireChains(was: PidBehavior, found: Finding, api: nat, ghost calls: seq<nat>)
      returns (slot: PidBehavior, finding: Finding)
      requires forall x :: CountOf(was.counts, x) == Sightings(calls + [api], x) % U32_RANGE
      requires found.chains == [] && forall c :: c in was.fired <==> Fired(calls, c)
      ensures slot == was.(fired := slot.fired)
      ensures forall c :: c in slot.fired <==> Fired(calls + [api], c)
      ensures finding == found.(chains := NewlyFired(calls, api, Injection) + NewlyFired(calls, api, Ransomware))
    {
      ghost var now := calls + [api];
      ghost var first, second := NewlyFired(calls, api, Injection), NewlyFired(calls, api, Ransomware);
      ghost var hadInjection, hadRansomware := Fired(calls, Injection), Fired(calls, Ransomware);
      ghost var hasInjection, hasRansomware := Fired(now, Injection), Fired(now, Ransomware);
      slot, finding := was, found;
      var order := [Injection, Ransomware];
      for k := 0 to 2
        invariant slot == was.(fired := slot.fired)
        invariant Injection in slot.fired <==> if k > 0 then hasInjection else hadInjection
        invariant Ransomware in slot.fired <==> if k > 1 then hasRansomware else hadRansomware
        invariant finding == found.(chains := if k == 0 then [] else if k == 1 then first else first + second)
      {
        slot, finding := FireIfComplete(slot, finding, order[k], api, calls);
      }
      forall c ensures c in slot.fired <==> Fired(now, c) {
        match c case Injection => case Ransomware =>
      }
    }

    /** One chain of one observation: reported and remembered the first time it completes. */
    method FireIfComplete(was: PidBehavior, found: Finding, chain: ChainId, api: nat, ghost calls: seq<nat>)
      returns (slot: PidBehavior, finding: Finding)
      requires forall x :: CountOf(was.counts, x) == Sightings(calls + [api], x) % U32_RANGE
      requires chain in was.fired <==> Fired(calls, chain)
      ensures slot == was.(fired := slot.fired)
      ensures forall c :: c in slot.fired <==> c in was.fired || (c == chain && Fired(calls + [api], c))
      ensures chain in slot.fired <==> Fired(calls + [api], chain)
      ensures finding == found.(chains := found.chains + NewlyFired(calls, api, chain))
    {
      slot, finding := was, found;
      assert (calls + [api])[..|calls|] == calls;
      if chain !in slot.fired {
        var all := AllSeen(slot.counts, chain);
        assert all <==> CountersComplete(calls + [api], chain);
        if all {
          slot := slot.(fired := slot.fired + [chain]);
          finding := finding.(chains := finding.chains + [chain]);
        }
      }
    }

    method Bump(counts: seq<(nat, nat)>, api: nat) returns (r: seq<(nat, nat)>)
      ensures r == Bumped(counts, api)
    {
      r := counts;
      var i := 0;
      while i < |counts|
        invariant 0 <= i <= |counts|
        invariant Bumped(counts, api) == counts[..i] + Bumped(counts[i..], api)
      {
        if counts[i].0 == api {
          r := counts[i := (api, (counts[i].1 + 1) % U32_RANGE)];
          assert counts[i..][1..] == counts[i + 1..];
          return;
        }
        assert counts[i..][1..] == counts[i + 1..];
        i := i + 1;
      }
      r := counts + [(api, 1)];
    }

    method AllSeen(counts: seq<(nat, nat)>, chain: ChainId) returns (all: bool)
      ensures all <==> forall m | m in Members(chain) :: CountOf(counts, m.0) >= m.1
    {
      var members := Members(chain);
      all := true;
      for i := 0 to |members|
        invariant all <==> forall j | 0 <= j < i :: CountOf(counts, members[j].0) >= members[j].1
      {
        var n := Lookup(counts, members[i].0);
        all := all && n >= members[i].1;
      }
    }

    method Lookup(counts: seq<(nat, nat)>, api: nat) returns (n: nat)
      ensures n == CountOf(counts, api)
    {
      var i := 0;
      while i < |counts|
        invariant 0 <= i <= |counts|
        invariant CountOf(counts, api) == CountOf(counts[i..], api)
      {
        if counts[i].0 == api {
          return counts[i].1;
        }
        assert counts[i..][1..] == counts[i + 1..];
        i := i + 1;
      }
      return 0;
    }

    /** Drop one pid's memory. */
    method Forget(pid: nat)
      requires Valid()
      modifies this
      ensures Valid() && memory == Forgotten(old(memory), pid)
    {
      var kept := [];
      for i := 0 to |perPid|
        invariant kept == Without(perPid[..i], pid)
      {
        assert perPid[..i + 1][..i] == perPid[..i];
        if perPid[i].0 != pid {
          kept := kept + [perPid[i]];
        }
      }
      assert perPid[..|perPid|] == perPid;
      WithoutTracks(perPid, pid);
      assert forall i | 0 <= i < |kept| :: kept[i] in perPid && kept[i].0 in Pids(kept);
      perPid := kept;
      memory := Forgotten(memory, pid);
    }
  }

  // ---- What a run reports

  datatype Op = Observe(pid: nat, api: nat) | Forget(pid: nat)

  function Applied(m: Memory, op: Op): Memory {
    match op
    case Observe(pid, api) => Observed(m, pid, api)
    case Forget(pid) => Forgotten(m, pid)
  }

  function After(run: seq<Op>): Memory {
    if run == [] then FORGOTTEN
    else Applied(After(run[..|run| - 1]), run[|run| - 1])
  }

  /** What the i-th operation of a run reported. */
  function FindingAt(run: seq<Op>, i: nat): Finding
    requires i < |run|
  {
    match run[i]
    case Observe(pid, api) => Reported(After(run[..i]), pid, api)
    case Forget(_) => NOTHING
  }

  lemma {:induction false} SightingsGrow(calls: seq<nat>, more: seq<nat>, api: nat)
    ensures Sightings(calls + more, api) >= Sightings(calls, api)
    decreases |more|
  {
    if more == [] {
      assert calls + more == calls;
    } else {
      assert (calls + more)[..|calls + more| - 1] == calls + more[..|more| - 1];
      SightingsGrow(calls, more[..|more| - 1], api);
    }
  }

  /** No member's 32-bit counter has wrapped. */
  predicate NoWrap(calls: seq<nat>, c: ChainId) {
    forall m | m in Members(c) :: Sightings(calls, m.0) < U32_RANGE
  }

  lemma CountersAreExact(calls: seq<nat>, c: ChainId)
    ensures CountersComplete(calls, c) ==> Complete(calls, c)
    ensures NoWrap(calls, c) && Complete(calls, c) ==> CountersComplete(calls, c)
  {
    forall m | m in Members(c)
      ensures Sightings(calls, m.0) % U32_RANGE <= Sightings(calls, m.0)
      ensures Sightings(calls, m.0) < U32_RANGE ==> Sightings(calls, m.0) % U32_RANGE == Sightings(calls, m.0)
    {
    }
  }

  lemma CompleteGrows(calls: seq<nat>, api: nat, c: ChainId)
    requires Complete(calls, c)
    ensures Complete(calls + [api], c)
  {
    forall m | m in Members(c) ensures Sightings(calls + [api], m.0) >= m.1 {
      SightingsGrow(calls, [api], m.0);
    }
  }

  /** A chain reported earlier is complete; while no counter has wrapped the two agree. */
  lemma {:induction false} FiredIsComplete(calls: seq<nat>, c: ChainId)
    ensures Fired(calls, c) ==> Complete(calls, c)
    ensures NoWrap(calls, c) && Complete(calls, c) ==> Fired(calls, c)
    decreases |calls|
  {
    CountersAreExact(calls, c);
    if calls != [] {
      var init := calls[..|calls| - 1];
      assert init + [calls[|calls| - 1]] == calls;
      FiredIsComplete(init, c);
      if Complete(init, c) {
        CompleteGrows(init, calls[|calls| - 1], c);
      }
    } else {
      assert Members(c)[0] in Members(c);
    }
  }

  lemma {:induction false} RunBounds(run: seq<Op>)
    ensures |After(run).slots| <= MAX_TRACKED_PIDS
    ensures forall p | p in After(run).slots :: 0 < |After(run).slots[p]| <= |run|
    decreases |run|
  {
    if run != [] {
      RunBounds(run[..|run| - 1]);
      var m := After(run[..|run| - 1]);
      match run[|run| - 1] {
        case Observe(pid, api) =>
        case Forget(pid) =>
          assert (m.slots - {pid}).Keys == m.slots.Keys - {pid};
      }
    }
  }

  /** At the observation that brings every member, counted since the pid's slot was
      created, to its minimum, the chain is reported exactly when the 32-bit counters still
      show it; and while no counter has wrapped it is reported there and nowhere else. */
  lemma ReportedExactlyOnCompletion(run: seq<Op>, i: nat, c: ChainId)
    requires i < |run| && run[i].Observe?
    ensures var before := After(run[..i]);
            var calls := CallsOf(before, run[i].pid);
            var now := calls + [run[i].api];
            var completes := !Refused(before, run[i].pid) && !Complete(calls, c) && Complete(now, c);
            && (completes ==> (c in FindingAt(run, i).chains <==> CountersComplete(now, c)))
            && (NoWrap(now, c) ==> (c in FindingAt(run, i).chains <==> completes))
  {
    var calls := CallsOf(After(run[..i]), run[i].pid);
    var now := calls + [run[i].api];
    FiredIsComplete(calls, c);
    CountersAreExact(now, c);
    if NoWrap(now, c) {
      forall m | m in Members(c) ensures Sightings(calls, m.0) < U32_RANGE {
        SightingsGrow(calls, [run[i].api], m.0);
      }
    }
    match c case Injection => case Ransomware =>
  }

  /** The counters do wrap: after exactly 2^32 writes into another process's memory the
      thread creation that completes an injection is not reported. */
  lemma WrappedCounterHidesChain(calls: seq<nat>)
    requires Sightings(calls, NT_WRITE_VM_CROSS_PROCESS) == U32_RANGE && Sightings(calls, NT_CREATE_THREAD_EX) == 0
    ensures !Complete(calls, Injection) && Complete(calls + [NT_CREATE_THREAD_EX], Injection)
    ensures NewlyFired(calls, NT_CREATE_THREAD_EX, Injection) == []
  {
    var now := calls + [NT_CREATE_THREAD_EX];
    assert now[..|calls|] == calls;
    assert Members(Injection)[0] in Members(Injection) && Members(Injection)[1] in Members(Injection);
    assert Sightings(now, NT_WRITE_VM_CROSS_PROCESS) % U32_RANGE == 0;
  }

  lemma AfterPrefix(run: seq<Op>, j: nat)
    requires 0 < j <= |run|
    ensures After(run[..j]) == Applied(After(run[..j - 1]), run[j - 1])
  {
    assert run[..j][..j - 1] == run[..j - 1];
  }

  predicate HasFired(m: Memory, pid: nat, c: ChainId) {
    pid in m.slots && Fired(m.slots[pid], c)
  }

  lemma FiredStep(m: Memory, op: Op, pid: nat, c: ChainId)
    requires HasFired(m, pid, c) && op != Forget(pid)
    ensures HasFired(Applied(m, op), pid, c)
  {
    var calls := m.slots[pid];
    if op.Observe? && op.pid == pid {
      assert (calls + [op.api])[..|calls|] == calls;
    }
  }

  /** The memory after more observations and forgets. */
  function Continued(m: Memory, ops: seq<Op>): Memory {
    if ops == [] then m else Applied(Continued(m, ops[..|ops| - 1]), ops[|ops| - 1])
  }

  lemma {:induction false} FiredStays(m: Memory, ops: seq<Op>, pid: nat, c: ChainId)
    requires HasFired(m, pid, c) && Forget(pid) !in ops
    ensures HasFired(Continued(m, ops), pid, c)
    decreases |ops|
  {
    if ops != [] {
      FiredStays(m, ops[..|ops| - 1], pid, c);
      FiredStep(Continued(m, ops[..|ops| - 1]), ops[|ops| - 1], pid, c);
    }
  }

  lemma {:induction false} AfterContinues(run: seq<Op>, ops: seq<Op>)
    ensures After(run + ops) == Continued(After(run), ops)
    decreases |ops|
  {
    if ops == [] {
      assert run + ops == run;
    } else {
      var init := run + ops[..|ops| - 1];
      AfterContinues(run, ops[..|ops| - 1]);
      assert (run + ops)[..|run + ops| - 1] == init;
    }
  }

  /** Once per slot: two reports of one chain for one pid have a forget of that pid
      between them. */
  lemma ReportedOncePerSlot(run: seq<Op>, i: nat, j: nat, c: ChainId)
    requires i < j < |run|
    requires run[i].Observe? && run[j].Observe? && run[i].pid == run[j].pid
    ensures c in FindingAt(run, i).chains && c in FindingAt(run, j).chains ==>
              exists k | i < k < j :: run[k] == Forget(run[i].pid)
  {
    if c in FindingAt(run, i).chains && Forget(run[i].pid) !in run[i + 1..j] {
      ReportedHasFired(run, i, c);
      FiredOn(run[..i + 1], run[i + 1..j], run[i].pid, c);
      assert run[..i + 1] + run[i + 1..j] == run[..j];
      NotReportedAgain(run, j, c);
    }
  }

  lemma FiredOn(run: seq<Op>, ops: seq<Op>, pid: nat, c: ChainId)
    requires HasFired(After(run), pid, c) && Forget(pid) !in ops
    ensures HasFired(After(run + ops), pid, c)
  {
    FiredStays(After(run), ops, pid, c);
    AfterContinues(run, ops);
  }

  lemma NotReportedAgain(run: seq<Op>, j: nat, c: ChainId)
    requires j < |run| && run[j].Observe? && HasFired(After(run[..j]), run[j].pid, c)
    ensures c !in FindingAt(run, j).chains
  {
  }

  /** Once a chain was reported, the memory after that call has it fired. */
  lemma ReportedHasFired(run: seq<Op>, i: nat, c: ChainId)
    requires i < |run| && run[i].Observe?
    ensures c in FindingAt(run, i).chains ==> HasFired(After(run[..i + 1]), run[i].pid, c)
  {
    if c in FindingAt(run, i).chains {
      var calls := CallsOf(After(run[..i]), run[i].pid);
      AfterPrefix(run, i + 1);
      assert (calls + [run[i].api])[..|calls|] == calls;
      assert CountersComplete(calls + [run[i].api], c);
    }
  }

  function RefusedCount(run: seq<Op>): nat {
    if run == [] then 0
    else
      var last := run[|run| - 1];
      RefusedCount(run[..|run| - 1])
      + if last.Observe? && Refused(After(run[..|run| - 1]), last.pid) then 1 else 0
  }

  /** The drop counter counts the refused observations, and the cap holds. */
  lemma {:induction false} DroppedAreRefused(run: seq<Op>)
    ensures After(run).dropped == RefusedCount(run) && |After(run).slots| <= MAX_TRACKED_PIDS
    decreases |run|
  {
    RunBounds(run);
    if run != [] {
      DroppedAreRefused(run[..|run| - 1]);
    }
  }

  /** A run-key write never completes a chain, so no finding carries both. */
  lemma NoFindingCarriesBoth(m: Memory, pid: nat, api: nat)
    requires Reported(m, pid, api).runKeySet
    ensures Reported(m, pid, api).chains == []
  {
    var calls := CallsOf(m, pid);
    assert (calls + [api])[..|calls|] == calls;
    forall c ensures NewlyFired(calls, api, c) == [] {
      assert Members(c)[0] in Members(c);
      if CountersComplete(calls + [api], c) {
        forall x | x in Members(c) ensures Sightings(calls, x.0) % U32_RANGE >= x.1 {
          assert Sightings(calls + [api], x.0) == Sightings(calls, x.0);
        }
      }
    }
  }
}
