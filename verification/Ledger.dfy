/** The injection ledger itself (driver/secoutfall/Injection.cpp): the linked list of
    entries and its count, searched and edited one locked section at a time, each proved to
    be one step of `LedgerRuns`. A ghost field holds that machine's state beside the list,
    and the list is its map of entries. */
module Ledger {
  import opened Wrappers
  import opened LedgerRuns

  ghost predicate Listed(list: seq<Entry>, pid: nat) {
    exists i :: 0 <= i < |list| && list[i].pid == pid
  }

  /** The list holds one entry per pid, and exactly those of the map. */
  ghost predicate Represents(list: seq<Entry>, entries: map<nat, Entry>) {
    && (forall i :: 0 <= i < |list| ==> list[i].pid in entries && entries[list[i].pid] == list[i])
    && (forall i, j :: 0 <= i < j < |list| ==> list[i].pid != list[j].pid)
    && (forall pid {:trigger Listed(list, pid)} :: pid in entries ==> Listed(list, pid))
  }

  lemma RepresentsReplaced(list: seq<Entry>, entries: map<nat, Entry>, i: nat, e: Entry)
    requires Represents(list, entries) && i < |list| && e.pid == list[i].pid
    ensures Represents(list[i := e], entries[e.pid := e])
  {
    var after := list[i := e];
    assert forall j :: 0 <= j < |list| ==> after[j].pid == list[j].pid;
    forall pid | pid in entries[e.pid := e]
      ensures Listed(after, pid)
    {
      assert Listed(list, pid);
      var j :| 0 <= j < |list| && list[j].pid == pid;
      assert after[j].pid == pid;
    }
  }

  lemma RepresentsAdded(list: seq<Entry>, entries: map<nat, Entry>, e: Entry)
    requires Represents(list, entries) && e.pid !in entries
    ensures Represents(list + [e], entries[e.pid := e])
  {
    var after := list + [e];
    forall pid | pid in entries[e.pid := e]
      ensures Listed(after, pid)
    {
      if pid == e.pid {
        assert after[|list|].pid == pid;
      } else {
        assert Listed(list, pid);
        var j :| 0 <= j < |list| && list[j].pid == pid;
        assert after[j].pid == pid;
      }
    }
  }

  lemma RepresentsRemoved(list: seq<Entry>, entries: map<nat, Entry>, i: nat)
    requires Represents(list, entries) && i < |list|
    ensures Represents(Without(list, i), entries - {list[i].pid})
  {
    var after := Without(list, i);
    forall pid | pid in entries && pid != list[i].pid
      ensures Listed(after, pid)
    {
      assert Listed(list, pid);
      var k :| 0 <= k < |list| && list[k].pid == pid;
      var j := if k < i then k else k - 1;
      assert k != i && after[j] == list[k];
    }
  }

  /** One entry per pid: the exact count is the number of pids. */
  lemma {:induction false} CountIsExact(list: seq<Entry>, entries: map<nat, Entry>)
    requires Represents(list, entries)
    ensures |list| == |entries|
    decreases |list|
  {
    if list == [] {
      assert forall pid <- entries :: Listed(list, pid);
      assert entries.Keys == {};
    } else {
      var n := |list| - 1;
      RepresentsRemoved(list, entries, n);
      assert Without(list, n) == list[..n];
      CountIsExact(list[..n], entries - {list[n].pid});
      assert (entries - {list[n].pid}).Keys == entries.Keys - {list[n].pid};
    }
  }

  /** The policy, the address and the next entry play no part in pass 3. */
  predicate SameSettings(s: State, r: State) {
    r.nextId == s.nextId && r.enabled == s.enabled && r.hasPath == s.hasPath && r.resolved == s.resolved
  }

  /** Pass 3 that hands out no ring. */
  lemma CommitRefused(s: State, k: nat, duplicates: bool)
    requires k < |s.challenges| && s.challenges[k].worked
    requires var c := s.challenges[k];
             !(c.pid in s.entries && StillTheSame(c, s.entries[c.pid])
               && RingFor(c, s.entries[c.pid], duplicates).Some?)
    ensures var r := AfterCommit(s, k, duplicates);
            r.entries == s.entries && r.grants == s.grants && SameSettings(s, r)
  {
  }

  /** Pass 3 that hands one out: the entry is given it if neither pass saw one. */
  lemma CommitGranted(s: State, k: nat, duplicates: bool)
    requires k < |s.challenges| && s.challenges[k].worked
    requires var c := s.challenges[k];
             c.pid in s.entries && StillTheSame(c, s.entries[c.pid]) && RingFor(c, s.entries[c.pid], duplicates).Some?
    ensures var c := s.challenges[k];
            var e, ring := s.entries[c.pid], RingFor(c, s.entries[c.pid], duplicates).value;
            var r := AfterCommit(s, k, duplicates);
            && (r.entries == if c.first.ring.None? && e.ring.None? then s.entries[c.pid := e.(ring := c.made)]
                             else s.entries)
            && r.grants == s.grants + [Grant(c.first, e, ring)] && SameSettings(s, r)
  {
  }

  /** Pass 3, field by field. */
  lemma CommitEffect(s: State, k: nat, duplicates: bool)
    requires k < |s.challenges| && s.challenges[k].worked
    ensures var c := s.challenges[k];
            var r := AfterCommit(s, k, duplicates);
            var same := c.pid in s.entries && StillTheSame(c, s.entries[c.pid]);
            && (r.entries == if same && c.first.ring.None? && s.entries[c.pid].ring.None? && c.made.Some?
                             then s.entries[c.pid := s.entries[c.pid].(ring := c.made)] else s.entries)
            && (r.grants == if same && RingFor(c, s.entries[c.pid], duplicates).Some?
                            then s.grants + [Grant(c.first, s.entries[c.pid],
                                  RingFor(c, s.entries[c.pid], duplicates).value)]
                            else s.grants)
            && SameSettings(s, r)
  {
    var c := s.challenges[k];
    if c.pid in s.entries && StillTheSame(c, s.entries[c.pid]) && RingFor(c, s.entries[c.pid], duplicates).Some? {
      CommitGranted(s, k, duplicates);
    } else {
      CommitRefused(s, k, duplicates);
    }
  }

  class InjectionLedger {
    var list: seq<Entry>
    var count: nat
    var nextId: nat       // stands for the next entry's address
    var enabled: bool
    var hasPath: bool
    var resolved: bool
    ghost var state: State

    ghost predicate Valid()
      reads this
    {
      && Represents(list, state.entries) && count == |list| && nextId == state.nextId
      && enabled == state.enabled && hasPath == state.hasPath && resolved == state.resolved
    }

    constructor ()
      ensures Valid() && state == START
    {
      list, count, nextId, enabled, hasPath, resolved := [], 0, 0, false, false, false;
      state := START;
    }

    /** FindLedgerEntryLocked. */
    method Find(pid: nat) returns (at: Option<nat>)
      requires Valid()
      ensures at.Some? <==> pid in state.entries
      ensures at.Some? ==> at.value < |list| && list[at.value].pid == pid && list[at.value] == state.entries[pid]
    {
      var i := 0;
      while i < |list|
        invariant 0 <= i <= |list|
        invariant forall j :: 0 <= j < i ==> list[j].pid != pid
      {
        if list[i].pid == pid {
          return Some(i);
        }
        i := i + 1;
      }
      assert pid in state.entries ==> Listed(list, pid);
      return None;
    }

    method SetEntry(at: nat, e: Entry)
      requires Valid() && at < |list| && e.pid == list[at].pid
      modifies this
      ensures Valid() && list == old(list)[at := e]
      ensures state == old(state).(entries := old(state).entries[e.pid := e])
      ensures nextId == old(nextId)
    {
      RepresentsReplaced(list, state.entries, at, e);
      list := list[at := e];
      state := state.(entries := state.entries[e.pid := e]);
    }

    method SetInjectionPolicy(armed: bool, path: bool)
      requires Valid()
      modifies this
      ensures Valid() && state == Next(old(state), SetPolicy(armed, path))
    {
      hasPath := path;
      enabled := armed && path;
      state := Next(state, SetPolicy(armed, path));
    }

    method ResolveAddress()
      requires Valid()
      modifies this
      ensures Valid() && state == Next(old(state), Resolve)
    {
      resolved := true;
      state := Next(state, Resolve);
    }

    method OnProcessCreate(pid: nat, createTime: nat, nonce: nat, wanted: bool, allocates: bool)
      requires Valid()
      modifies this
      ensures Valid() && state == Next(old(state), Create(pid, createTime, nonce, wanted, allocates))
    {
      if !wanted || !allocates {
        return;
      }
      var found := Find(pid);
      if found.Some? {
        return;
      }
      var entry := Entry(nextId, pid, createTime, nonce, None, 0, PendingThread, None, 0);
      RepresentsAdded(list, state.entries, entry);
      state := Next(state, Create(pid, createTime, nonce, wanted, allocates));
      list := list + [entry];
      count := count + 1;
      nextId := nextId + 1;
    }

    /** TryInjectLocked up to the unlock; the claimed entry is what the attempt works from. */
    method TryInjectLocked(at: nat) returns (claimed: Option<Entry>)
      requires Valid() && at < |list|
      modifies this
      ensures Valid() && state == Tried(old(state), old(list)[at].pid)
      ensures claimed.Some? <==>
        && old(list)[at].thread.Some? && old(list)[at].base != 0 && old(list)[at].state == Ready
        && old(state).resolved && old(state).enabled && old(state).hasPath
      ensures claimed.Some? ==> claimed.value == old(list)[at]
    {
      var entry := list[at];
      if entry.thread.None? || entry.base == 0 || !resolved || !enabled || !hasPath {
        return None;
      }
      if entry.state != Ready {
        return None;
      }
      SetEntry(at, entry.(state := Injected));
      state := state.(attempts := state.attempts + [Attempt(entry.pid, entry.id, None)]);
      return Some(entry);
    }

    method OnFirstThread(pid: nat, thread: nat) returns (claimed: Option<Entry>)
      requires Valid()
      modifies this
      ensures Valid() && state == Next(old(state), FirstThread(pid, thread))
    {
      var found := Find(pid);
      if found.None? {
        return None;
      }
      var at := found.value;
      var entry := list[at];
      if entry.thread.None? {
        var target := if entry.base != 0 then Ready else PendingNtdll;
        entry := entry.(thread := Some(thread));
        if entry.state == PendingThread {
          entry := entry.(state := target);
        }
      }
      SetEntry(at, entry);
      claimed := TryInjectLocked(at);
    }

    method OnImageLoad(pid: nat, base: nat) returns (claimed: Option<Entry>)
      requires Valid()
      modifies this
      ensures Valid() && state == Next(old(state), ImageLoad(pid, base))
    {
      var found := Find(pid);
      if found.None? {
        return None;
      }
      var at := found.value;
      var entry := list[at];
      if entry.base == 0 {
        var expected := if entry.thread.Some? then PendingNtdll else PendingThread;
        entry := entry.(base := base);
        if entry.state == expected {
          entry := entry.(state := Ready);
        }
      }
      SetEntry(at, entry);
      claimed := TryInjectLocked(at);
    }

    /** UnlinkLedgerEntryLocked, once the entry is found. */
    method Unlink(at: nat)
      requires Valid() && at < |list|
      modifies this
      ensures Valid() && state == old(state).(entries := old(state).entries - {old(list)[at].pid})
    {
      RepresentsRemoved(list, state.entries, at);
      state := state.(entries := state.entries - {list[at].pid});
      list := Without(list, at);
      count := count - 1;
    }

    method OnProcessExit(pid: nat)
      requires Valid()
      modifies this
      ensures Valid() && state == Next(old(state), Exit(pid))
    {
      var found := Find(pid);
      if found.None? {
        assert state.entries - {pid} == state.entries;
        return;
      }
      var at := found.value;
      Unlink(at);
    }

    /** The relock after the unlocked attempt: whatever entry has the pid now is settled. */
    method FixupLocked(ghost k: nat, pid: nat, outcome: Outcome)
      requires Valid() && k < |state.attempts| && state.attempts[k].pid == pid
            && state.attempts[k].outcome == Some(outcome)
      modifies this
      ensures Valid() && state == Next(old(state), Fixup(k))
    {
      ghost var attempts := Without(state.attempts, k);
      SettleLocked(pid, outcome);
      state := state.(attempts := attempts);
    }

    /** The entry that has the pid, if any, takes the state the outcome gives it. */
    method SettleLocked(pid: nat, outcome: Outcome)
      requires Valid()
      modifies this
      ensures Valid()
      ensures state == if pid !in old(state).entries then old(state) else
        old(state).(entries := old(state).entries[pid := Settle(old(state).entries[pid], outcome)])
    {
      var found := Find(pid);
      if found.None? {
        return;
      }
      var entry := list[found.value];
      if outcome == NoProcess {
        entry := entry.(state := Ready);
      } else if outcome == QueueFailed {
        entry := entry.(state := Failed);
      }
      SetEntry(found.value, entry);
    }

    /** Pass 1 of a challenge: the gate and the snapshot. */
    method ChallengeGateLocked(pid: nat) returns (first: Option<Entry>)
      requires Valid()
      modifies this
      ensures Valid() && state == Next(old(state), ChallengeGate(pid))
      ensures first.Some? <==> pid in old(state).entries && old(state).entries[pid].state == Injected
      ensures first.Some? ==> first.value == old(state).entries[pid]
    {
      var found := Find(pid);
      if found.None? || list[found.value].state != Injected {
        return None;
      }
      first := Some(list[found.value]);
      state := Next(state, ChallengeGate(pid));
    }

    /** Pass 3 and, when another challenge won the ring, the second duplication. */
    method ChallengeCommitLocked(ghost k: nat, c: Challenge, duplicates: bool) returns (granted: Option<nat>)
      requires Valid() && k < |state.challenges| && state.challenges[k] == c && c.worked
      requires c.first.ring.None? ==> c.made.Some?
      modifies this
      ensures Valid() && state == Next(old(state), ChallengeCommit(k, duplicates))
      ensures granted.Some? ==>
          |state.grants| == |old(state).grants| + 1 && state.grants[|state.grants| - 1].ring == granted.value
      ensures granted.None? ==> state.grants == old(state).grants
    {
      ghost var target := Next(state, ChallengeCommit(k, duplicates));
      CommitEffect(state, k, duplicates);
      granted := None;
      var found := Find(c.pid);
      if found.Some? {
        var entry := list[found.value];
        if entry.state == Injected && entry.createTime == c.first.createTime && entry.nonce == c.first.nonce {
          var adoptExisting := false;
          if c.first.ring.Some? {
            granted := c.first.ring;
          } else if entry.ring.Some? {
            adoptExisting := true;
            granted := entry.ring;
          } else {
            SetEntry(found.value, entry.(ring := c.made));
            granted := c.made;
          }
          if adoptExisting && !duplicates {
            granted := None;
          }
        }
      }
      state := target;
    }

    method SensorRegister(pid: nat, nonce: nat, version: nat) returns (ok: bool)
      requires Valid()
      modifies this
      ensures Valid() && state == Next(old(state), Register(pid, nonce, version))
      ensures ok <==>
          pid in old(state).entries && old(state).entries[pid].state == Injected && old(state).entries[pid].nonce == nonce
    {
      var found := Find(pid);
      if found.None? || list[found.value].state != Injected || list[found.value].nonce != nonce {
        return false;
      }
      var entry := list[found.value];
      SetEntry(found.value, entry.(state := Registered, sensorVersion := version));
      state := state.(registrations := state.registrations + [Registration(entry.id, nonce, entry.nonce, entry.state)]);
      return true;
    }
  }
}
