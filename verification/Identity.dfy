/** The driver's pid-to-creation-time table (driver/secoutfall/Identity.h): hashed
    buckets with a capped total, each insert behind the cap test and the tracked test,
    proved to be a bounded map; and what a lookup tells after any run of inserts and
    erasures. */
module Identity {
  import opened Wrappers

  const BUCKET_COUNT: nat := 256
  const MAX_ENTRIES: nat := 4096
  const U32_RANGE: nat := 0x1_0000_0000

  /** A 32-bit multiplication that wraps, then the bucket. */
  function Hash(pid: nat): (b: nat)
    ensures b < BUCKET_COUNT
  {
    (pid * 2654435761) % U32_RANGE % BUCKET_COUNT
  }

  datatype Entry = Entry(pid: nat, createTime: nat)

  predicate InItsBucket(bucket: seq<Entry>, b: nat, known: map<nat, nat>) {
    && (forall k | 0 <= k < |bucket| ::
          Hash(bucket[k].pid) == b && bucket[k].pid in known && known[bucket[k].pid] == bucket[k].createTime)
    && (forall j, k | 0 <= j < k < |bucket| :: bucket[j].pid != bucket[k].pid)
  }

  predicate Listed(bucket: seq<Entry>, pid: nat) {
    exists k :: 0 <= k < |bucket| && bucket[k].pid == pid
  }

  /** The buckets hold exactly the map, every entry in its hash bucket and once. */
  ghost predicate Holds(buckets: seq<seq<Entry>>, known: map<nat, nat>) {
    && |buckets| == BUCKET_COUNT
    && (forall b | 0 <= b < BUCKET_COUNT :: InItsBucket(buckets[b], b, known))
    && (forall p | p in known :: Listed(buckets[Hash(p)], p))
  }

  // ---- The bounded map

  predicate Accepts(known: map<nat, nat>, memoryOk: bool, pid: nat) {
    |known| < MAX_ENTRIES && (pid in known || memoryOk)
  }

  function Inserted(known: map<nat, nat>, pid: nat, createTime: nat, memoryOk: bool): map<nat, nat> {
    if pid !in known && Accepts(known, memoryOk, pid) then known[pid := createTime] else known
  }

  function TimeOf(known: map<nat, nat>, pid: nat): nat {
    if pid in known then known[pid] else 0
  }

  lemma HoldsNothing(buckets: seq<seq<Entry>>)
    requires |buckets| == BUCKET_COUNT && forall j | 0 <= j < BUCKET_COUNT :: buckets[j] == []
    ensures Holds(buckets, map[])
  {
  }

  lemma HoldsAppend(buckets: seq<seq<Entry>>, known: map<nat, nat>, e: Entry)
    requires Holds(buckets, known) && e.pid !in known
    ensures Holds(buckets[Hash(e.pid) := buckets[Hash(e.pid)] + [e]], known[e.pid := e.createTime])
  {
    var h := Hash(e.pid);
    var known' := known[e.pid := e.createTime];
    var buckets' := buckets[h := buckets[h] + [e]];
    assert InItsBucket(buckets[h], h, known);
    forall b | 0 <= b < BUCKET_COUNT ensures InItsBucket(buckets'[b], b, known') {
      assert InItsBucket(buckets[b], b, known);
    }
    forall p | p in known' ensures Listed(buckets'[Hash(p)], p) {
      if p == e.pid {
        assert buckets'[h][|buckets[h]|].pid == p;
      } else {
        assert Listed(buckets[Hash(p)], p);
        var k :| 0 <= k < |buckets[Hash(p)]| && buckets[Hash(p)][k].pid == p;
        assert buckets'[Hash(p)][k].pid == p;
      }
    }
  }

  lemma BucketRemove(bucket: seq<Entry>, b: nat, known: map<nat, nat>, pid: nat, at: nat)
    requires InItsBucket(bucket, b, known) && at < |bucket| && bucket[at].pid == pid
    ensures var less := bucket[..at] + bucket[at + 1..];
            InItsBucket(less, b, known - {pid}) && forall p :: Listed(bucket, p) && p != pid ==> Listed(less, p)
  {
    var less := bucket[..at] + bucket[at + 1..];
    assert forall k | 0 <= k < |less| :: less[k] == if k < at then bucket[k] else bucket[k + 1];
    forall p | Listed(bucket, p) && p != pid
      ensures Listed(less, p)
    {
      var k :| 0 <= k < |bucket| && bucket[k].pid == p;
      assert less[if k < at then k else k - 1].pid == p;
    }
  }

  lemma HoldsRemove(buckets: seq<seq<Entry>>, known: map<nat, nat>, pid: nat, at: nat)
    requires Holds(buckets, known)
    requires at < |buckets[Hash(pid)]| && buckets[Hash(pid)][at].pid == pid
    ensures var bucket := buckets[Hash(pid)];
            Holds(buckets[Hash(pid) := bucket[..at] + bucket[at + 1..]], known - {pid})
  {
    var h := Hash(pid);
    var bucket := buckets[h];
    var less := bucket[..at] + bucket[at + 1..];
    assert InItsBucket(bucket, h, known);
    BucketRemove(bucket, h, known, pid, at);
    var buckets' := buckets[h := less];
    forall b | 0 <= b < BUCKET_COUNT ensures InItsBucket(buckets'[b], b, known - {pid}) {
      assert InItsBucket(buckets[b], b, known);
    }
    forall p | p in known - {pid} ensures Listed(buckets'[Hash(p)], p) {
      assert Listed(buckets[Hash(p)], p);
    }
  }

  class IdentityTable {
    const buckets: array<seq<Entry>>
    var count: nat
    ghost var known: map<nat, nat>

    ghost predicate Valid()
      reads this, buckets
    {
      buckets.Length == BUCKET_COUNT && Holds(buckets[..], known) && count == |known| <= MAX_ENTRIES
    }

    constructor Init()
      ensures Valid() && fresh(buckets) && known == map[]
    {
      buckets := new seq<Entry>[BUCKET_COUNT](_ => []);
      count, known := 0, map[];
    }

    /** The position of the pid in its bucket's list. */
    method LookupLocked(pid: nat) returns (at: Option<nat>)
      requires Valid()
      ensures at.Some? <==> pid in known
      ensures at.Some? ==>
                at.value < |buckets[Hash(pid)]| && buckets[Hash(pid)][at.value] == Entry(pid, known[pid])
    {
      var bucket := buckets[Hash(pid)];
      var k := 0;
      while k < |bucket|
        invariant 0 <= k <= |bucket|
        invariant forall j | 0 <= j < k :: bucket[j].pid != pid
      {
        if bucket[k].pid == pid {
          assert InItsBucket(buckets[..][Hash(pid)], Hash(pid), known);
          return Some(k);
        }
        k := k + 1;
      }
      assert !Listed(buckets[..][Hash(pid)], pid);
      return None;
    }

    /** The newest insert is the one refused when the table is full, also for a pid
        it already tracks; a tracked pid keeps its first time. */
    method Insert(pid: nat, createTime: nat, memoryOk: bool) returns (ok: bool)
      requires Valid()
      modifies this, buckets
      ensures Valid()
      ensures ok <==> |old(known)| < 4096 && (pid in old(known) || memoryOk)
      ensures known == Inserted(old(known), pid, createTime, memoryOk)
    {
      if count >= MAX_ENTRIES {
        return false;
      }
      var tracked := LookupLocked(pid);
      if tracked.Some? {
        return true;
      }
      if !memoryOk {
        return false;
      }
      HoldsAppend(buckets[..], known, Entry(pid, createTime));
      ghost var was := buckets[..];
      buckets[Hash(pid)] := buckets[Hash(pid)] + [Entry(pid, createTime)];
      assert buckets[..] == was[Hash(pid) := was[Hash(pid)] + [Entry(pid, createTime)]];
      count := count + 1;
      known := known[pid := createTime];
      return true;
    }

    method Remove(pid: nat)
      requires Valid()
      modifies this, buckets
      ensures Valid() && known == old(known) - {pid}
    {
      var at := LookupLocked(pid);
      if at.Some? {
        var bucket := buckets[Hash(pid)];
        HoldsRemove(buckets[..], known, pid, at.value);
        ghost var was := buckets[..];
        buckets[Hash(pid)] := bucket[..at.value] + bucket[at.value + 1..];
        assert buckets[..] == was[Hash(pid) := bucket[..at.value] + bucket[at.value + 1..]];
        assert (known - {pid}).Keys == known.Keys - {pid};
        count := count - 1;
        known := known - {pid};
      } else {
        assert known - {pid} == known;
      }
    }

    method Lookup(pid: nat) returns (createTime: nat)
      requires Valid()
      ensures createTime == TimeOf(known, pid)
    {
      var at := LookupLocked(pid);
      return if at.Some? then buckets[Hash(pid)][at.value].createTime else 0;
    }

    /** Unlinks every entry of one bucket's list. */
    method EmptyBucket(b: nat)
      requires buckets.Length == BUCKET_COUNT && b < BUCKET_COUNT
      modifies buckets
      ensures buckets[..] == old(buckets[..])[b := []]
    {
      while buckets[b] != []
        invariant forall j | 0 <= j < BUCKET_COUNT && j != b :: buckets[j] == old(buckets[j])
        decreases |buckets[b]|
      {
        buckets[b] := buckets[b][1..];
      }
    }

    method Clear()
      requires Valid()
      modifies this, buckets
      ensures Valid() && known == map[]
    {
      for b := 0 to BUCKET_COUNT
        invariant forall j | 0 <= j < b :: buckets[..][j] == []
      {
        EmptyBucket(b);
      }
      HoldsNothing(buckets[..]);
      count, known := 0, map[];
    }
  }

  // ---- Runs

  datatype Op = Insert(pid: nat, createTime: nat, memoryOk: bool) | Remove(pid: nat) | Clear

  function KnownAfter(run: seq<Op>): map<nat, nat> {
    if run == [] then map[]
    else
      var known := KnownAfter(run[..|run| - 1]);
      match run[|run| - 1]
      case Insert(pid, t, memoryOk) => Inserted(known, pid, t, memoryOk)
      case Remove(pid) => known - {pid}
      case Clear => map[]
  }

  predicate Erases(op: Op, pid: nat) {
    op == Remove(pid) || op == Clear
  }

  predicate AcceptedAt(run: seq<Op>, i: nat, pid: nat) {
    i < |run| && run[i].Insert? && run[i].pid == pid && Accepts(KnownAfter(run[..i]), run[i].memoryOk, pid)
  }

  predicate ErasedBetween(run: seq<Op>, i: int, j: int, pid: nat) {
    exists k :: 0 <= k < |run| && i < k < j && Erases(run[k], pid)
  }

  /** The insert that gave the pid its present time: accepted, the first one accepted
      since the pid was last erased, and not erased since. */
  predicate FirstSinceErased(run: seq<Op>, i: nat, pid: nat) {
    && AcceptedAt(run, i, pid)
    && !ErasedBetween(run, i, |run|, pid)
    && (forall j: nat | j < i && AcceptedAt(run, j, pid) :: ErasedBetween(run, j, i, pid))
  }

  lemma PrefixErased(run: seq<Op>, i: int, j: int, pid: nat)
    requires run != [] && j <= |run| - 1
    ensures ErasedBetween(run, i, j, pid) <==> ErasedBetween(run[..|run| - 1], i, j, pid)
  {
    var init := run[..|run| - 1];
    if ErasedBetween(run, i, j, pid) {
      var k :| 0 <= k < |run| && i < k < j && Erases(run[k], pid);
      assert Erases(init[k], pid);
    }
    if ErasedBetween(init, i, j, pid) {
      var k :| 0 <= k < |init| && i < k < j && Erases(init[k], pid);
      assert Erases(run[k], pid);
    }
  }

  lemma PrefixAccepts(run: seq<Op>, i: nat, pid: nat)
    requires i < |run| - 1
    ensures AcceptedAt(run, i, pid) <==> AcceptedAt(run[..|run| - 1], i, pid)
  {
    assert run[..|run| - 1][..i] == run[..i];
  }

  lemma PrefixFirst(run: seq<Op>, i: nat, pid: nat)
    requires run != [] && FirstSinceErased(run[..|run| - 1], i, pid) && !Erases(run[|run| - 1], pid)
    ensures FirstSinceErased(run, i, pid)
  {
    PrefixAccepts(run, i, pid);
    PrefixErased(run, i, |run| - 1, pid);
    forall j: nat | j < i && AcceptedAt(run, j, pid) ensures ErasedBetween(run, j, i, pid) {
      PrefixAccepts(run, j, pid);
      PrefixErased(run, j, i, pid);
    }
  }

  lemma NewlyTracked(run: seq<Op>, init: seq<Op>, pid: nat)
    requires run != [] && init == run[..|run| - 1] && pid in KnownAfter(run) && pid !in KnownAfter(init)
    requires forall i: nat | AcceptedAt(init, i, pid) :: ErasedBetween(init, i, |init|, pid)
    ensures FirstSinceErased(run, |run| - 1, pid) && run[|run| - 1].createTime == KnownAfter(run)[pid]
  {
    var n := |run| - 1;
    assert AcceptedAt(run, n, pid);
    forall j: nat | j < n && AcceptedAt(run, j, pid) ensures ErasedBetween(run, j, n, pid) {
      PrefixAccepts(run, j, pid);
      PrefixErased(run, j, n, pid);
    }
  }

  lemma StillUntracked(run: seq<Op>, init: seq<Op>, pid: nat)
    requires run != [] && init == run[..|run| - 1] && pid !in KnownAfter(run)
    requires pid !in KnownAfter(init) ==>
      forall i: nat | AcceptedAt(init, i, pid) :: ErasedBetween(init, i, |init|, pid)
    ensures forall i: nat | AcceptedAt(run, i, pid) :: ErasedBetween(run, i, |run|, pid)
  {
    var n := |run| - 1;
    forall i: nat | AcceptedAt(run, i, pid) ensures ErasedBetween(run, i, |run|, pid) {
      if pid in KnownAfter(init) {
        assert Erases(run[n], pid);
      } else {
        PrefixAccepts(run, i, pid);
        PrefixErased(run, i, n, pid);
      }
    }
  }

  /** What the table knows after any run: a pid is tracked exactly when some accepted
      insert of it has not been erased since, and its time is that of the first
      accepted insert since it was last erased. */
  lemma {:induction false} LookupIsFirstAccepted(run: seq<Op>, pid: nat)
    ensures pid in KnownAfter(run) ==>
              exists i: nat :: FirstSinceErased(run, i, pid) && run[i].createTime == KnownAfter(run)[pid]
    ensures pid !in KnownAfter(run) ==>
              forall i: nat | AcceptedAt(run, i, pid) :: ErasedBetween(run, i, |run|, pid)
    decreases |run|
  {
    if run != [] {
      var n := |run| - 1;
      var init := run[..n];
      LookupIsFirstAccepted(init, pid);
      if pid in KnownAfter(run) && pid in KnownAfter(init) {
        var i: nat :| FirstSinceErased(init, i, pid) && init[i].createTime == KnownAfter(init)[pid];
        PrefixFirst(run, i, pid);
      } else if pid in KnownAfter(run) {
        NewlyTracked(run, init, pid);
      } else {
        StillUntracked(run, init, pid);
      }
    }
  }

  function Continued(known: map<nat, nat>, more: seq<Op>): map<nat, nat> {
    if more == [] then known
    else
      var before := Continued(known, more[..|more| - 1]);
      match more[|more| - 1]
      case Insert(pid, t, memoryOk) => Inserted(before, pid, t, memoryOk)
      case Remove(pid) => before - {pid}
      case Clear => map[]
  }

  lemma {:induction false} RunContinues(run: seq<Op>, more: seq<Op>)
    ensures KnownAfter(run + more) == Continued(KnownAfter(run), more)
    decreases |more|
  {
    if more == [] {
      assert run + more == run;
    } else {
      RunContinues(run, more[..|more| - 1]);
      assert (run + more)[..|run + more| - 1] == run + more[..|more| - 1];
    }
  }

  lemma {:induction false} KeepsUntilErased(known: map<nat, nat>, pid: nat, more: seq<Op>)
    requires pid in known && forall op <- more :: op != Remove(pid) && op != Clear
    ensures pid in Continued(known, more) && Continued(known, more)[pid] == known[pid]
    decreases |more|
  {
    if more != [] {
      var init := more[..|more| - 1];
      assert more[|more| - 1] in more && forall op <- init :: op in more;
      KeepsUntilErased(known, pid, init);
    }
  }

  /** After any run, an insert of an untracked pid with memory free and fewer than 4096
      tracked is found with its time, through anything but its removal or a clear, and every
      other pid is as it was; without memory, at the cap, or for a tracked pid it changes
      nothing. */
  lemma InsertedIsFound(run: seq<Op>, pid: nat, createTime: nat, memoryOk: bool, more: seq<Op>)
    requires forall op <- more :: op != Remove(pid) && op != Clear
    ensures var known, now := KnownAfter(run), KnownAfter(run + [Insert(pid, createTime, memoryOk)]);
            if pid !in known && |known| < 4096 && memoryOk then
              now == known[pid := createTime]
              && TimeOf(KnownAfter(run + [Insert(pid, createTime, memoryOk)] + more), pid) == createTime
            else now == known
  {
    var insert := Op.Insert(pid, createTime, memoryOk);
    var inserted := run + [insert];
    assert inserted[..|inserted| - 1] == run && inserted[|inserted| - 1] == insert;
    var known := KnownAfter(run);
    assert KnownAfter(inserted) == Inserted(known, pid, createTime, memoryOk);
    if pid !in known && |known| < 4096 && memoryOk {
      RunContinues(inserted, more);
      KeepsUntilErased(KnownAfter(inserted), pid, more);
    }
  }

  lemma {:induction false} NeverOverCap(run: seq<Op>)
    ensures |KnownAfter(run)| <= MAX_ENTRIES
    decreases |run|
  {
    if run != [] {
      NeverOverCap(run[..|run| - 1]);
      var known := KnownAfter(run[..|run| - 1]);
      if run[|run| - 1].Remove? {
        assert (known - {run[|run| - 1].pid}).Keys == known.Keys - {run[|run| - 1].pid};
      }
    }
  }
}
