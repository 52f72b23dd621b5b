/** The code of one thread and of one drain over the ring's shared memory: `emit`
    (crates/injectee/src/sensor.rs) and one ring's share of `InjectionDrainRings`
    (driver/secoutfall/Injection.cpp). Every access is one step of the machine in
    `SensorRing`, kept in a ghost field beside the memory. */
module RingMemory {
  import opened SensorRing

  /** Whether a write to claim `c`'s slot overwrites a record a lap or more old. */
  predicate LapsAt(r: Ring, c: nat)
    requires Shaped(r)
  {
    SlotOf(r, c).sequence != 0 && c - (SlotOf(r, c).sequence - 1) >= SLOTS
  }

  /** One undisturbed pass over the next slot. */
  function DrainedOne(r: Ring): (r': Ring)
    requires Shaped(r) && r.drainer.Draining?
    ensures Shaped(r') && (r'.drainer.Stopping?
          || (r'.drainer.Draining? && r'.drainer.count == r.drainer.count + 1 <= BATCH))
  {
    var polled := Next(r, Poll);
    if polled.drainer.Stopping? then polled
    else
      var d := polled.drainer;
      Next(polled.(drainer := d.(read := SlotOf(r, d.drained).words)), Deliver)
  }

  lemma DrainedOneShape(r: Ring)
    requires Shaped(r) && r.drainer.Draining?
    ensures var d, r' := r.drainer, DrainedOne(r);
            && r'.drainer in {Draining(d.drained + 1, d.writeIndex, d.count + 1), Stopping(d.drained)}
            && (r'.drainer.Draining? ==> d.count < BATCH)
            && r'.producers == r.producers && r'.writeIndex == r.writeIndex && r'.cursor == r.cursor
  {
  }

  function DrainedAll(r: Ring): (r': Ring)
    requires Shaped(r) && r.drainer.Draining? && r.drainer.count <= BATCH
    ensures Shaped(r') && r'.drainer.Stopping?
    decreases BATCH - r.drainer.count
  {
    var r' := DrainedOne(r);
    if r'.drainer.Draining? then DrainedAll(r') else r'
  }

  /** A whole drain with nothing else running. */
  function Drained(r: Ring): Ring
    requires Shaped(r) && r.drainer.Resting? && r.active
  {
    Next(DrainedAll(Next(Next(r, BeginDrain), ReadIndex)), WriteBack)
  }

  /** Where a drain starts: at the cursor, or at the oldest slot not yet overwritten. */
  function StartOf(r: Ring): nat {
    if r.writeIndex - r.cursor > SLOTS then r.writeIndex - SLOTS else r.cursor
  }

  predicate CommittedAt(slots: seq<Slot>, c: nat)
    requires |slots| == SLOTS
  {
    slots[c % SLOTS].sequence == c + 1
  }

  /** How many claims in a row, from `c` on and `left` at most, are committed. */
  function Committed(slots: seq<Slot>, writeIndex: nat, c: nat, left: nat): (n: nat)
    requires |slots| == SLOTS
    ensures n <= left && (c <= writeIndex ==> c + n <= writeIndex)
    ensures forall k: nat :: c <= k < c + n ==> CommittedAt(slots, k)
    ensures n == left || c + n >= writeIndex || !CommittedAt(slots, c + n)
    decreases left, writeIndex
  {
    if left == 0 || c >= writeIndex || !CommittedAt(slots, c) then 0
    else 1 + Committed(slots, writeIndex, c + 1, left - 1)
  }

  /** The records behind `n` claims from `c` on. */
  function Records(slots: seq<Slot>, c: nat, n: nat): seq<(nat, seq<nat>)>
    requires |slots| == SLOTS
    decreases n
  {
    if n == 0 then [] else [(c, slots[c % SLOTS].words)] + Records(slots, c + 1, n - 1)
  }

  lemma DrainedOneIs(r: Ring)
    requires Shaped(r) && r.drainer.Draining? && r.drainer.count <= BATCH
    ensures var d := r.drainer;
            DrainedOne(r) ==
            if d.count < BATCH && d.drained < d.writeIndex && CommittedAt(r.slots, d.drained)
            then r.(drainer := Draining(d.drained + 1, d.writeIndex, d.count + 1),
                    delivered := r.delivered + [(d.drained, SlotOf(r, d.drained).words)])
            else r.(drainer := Stopping(d.drained))
  {
  }

  /** One record taken, and a drain over after `n` more. */
  function Taken(r: Ring): Ring
    requires Shaped(r) && r.drainer.Draining?
  {
    var d := r.drainer;
    r.(drainer := Draining(d.drained + 1, d.writeIndex, d.count + 1),
       delivered := r.delivered + [(d.drained, SlotOf(r, d.drained).words)])
  }

  function Finished(r: Ring, n: nat): Ring
    requires Shaped(r) && r.drainer.Draining?
  {
    r.(drainer := Stopping(r.drainer.drained + n), delivered := r.delivered + Records(r.slots, r.drainer.drained, n))
  }

  lemma FinishedFirst(r: Ring, n: nat)
    requires Shaped(r) && r.drainer.Draining?
    ensures Finished(Taken(r), n) == Finished(r, n + 1)
  {
    var c := r.drainer.drained;
    assert Records(r.slots, c, n + 1) == [(c, r.slots[c % SLOTS].words)] + Records(r.slots, c + 1, n);
    assert Taken(r).delivered + Records(r.slots, c + 1, n) == r.delivered + Records(r.slots, c, n + 1);
  }

  lemma FinishedNow(r: Ring)
    requires Shaped(r) && r.drainer.Draining?
    ensures Finished(r, 0) == r.(drainer := Stopping(r.drainer.drained))
  {
    assert r.delivered + Records(r.slots, r.drainer.drained, 0) == r.delivered;
  }

  /** How many records a drain at this point has still to take. */
  function Remaining(r: Ring): nat
    requires Shaped(r) && r.drainer.Draining? && r.drainer.count <= BATCH
  {
    Committed(r.slots, r.drainer.writeIndex, r.drainer.drained, BATCH - r.drainer.count)
  }

  lemma DrainedAllGoesOn(r: Ring)
    requires Shaped(r) && r.drainer.Draining? && r.drainer.count <= BATCH
    ensures var r1 := DrainedOne(r); DrainedAll(r) == if r1.drainer.Draining? then DrainedAll(r1) else r1
  {
  }

  lemma DrainedAllStops(r: Ring)
    requires Shaped(r) && r.drainer.Draining? && r.drainer.count <= BATCH && Remaining(r) == 0
    ensures DrainedAll(r) == r.(drainer := Stopping(r.drainer.drained))
  {
    DrainedOneIs(r);
    DrainedAllGoesOn(r);
  }

  lemma TakesNext(r: Ring)
    requires Shaped(r) && r.drainer.Draining? && r.drainer.count <= BATCH && Remaining(r) > 0
    ensures DrainedOne(r) == Taken(r)
  {
    DrainedOneIs(r);
  }

  lemma OneLessRemains(r: Ring)
    requires Shaped(r) && r.drainer.Draining? && r.drainer.count <= BATCH && Remaining(r) > 0
    ensures Taken(r).drainer.count <= BATCH && Remaining(Taken(r)) == Remaining(r) - 1
  {
  }

  lemma {:induction false} DrainedAllIs(r: Ring, n: nat)
    requires Shaped(r) && r.drainer.Draining? && r.drainer.count <= BATCH && n == Remaining(r)
    ensures DrainedAll(r) == Finished(r, n)
    decreases n
  {
    if n == 0 {
      DrainedAllStops(r);
      FinishedNow(r);
    } else {
      TakesNext(r);
      OneLessRemains(r);
      DrainedAllGoesOn(r);
      DrainedAllIs(Taken(r), n - 1);
      FinishedFirst(r, n - 1);
    }
  }

  lemma StartedIs(r: Ring)
    requires Shaped(r) && r.drainer.Resting? && r.active && r.cursor <= r.writeIndex
    ensures Next(Next(r, BeginDrain), ReadIndex)
         == r.(drainer := Draining(StartOf(r), r.writeIndex, 0), lost := r.lost + (StartOf(r) - r.cursor))
  {
  }

  /** A drain with nothing else running, from any state, overrun or not: it resyncs past
      what was overwritten, delivers the committed records from there on in order, up to
      256 or to the first slot that is not committed, and moves the cursor past them. */
  lemma DrainedBacklog(r: Ring)
    requires Shaped(r) && r.drainer.Resting? && r.active && r.cursor <= r.writeIndex
    ensures var c := StartOf(r);
            var n := Committed(r.slots, r.writeIndex, c, BATCH);
            Drained(r) == r.(cursor := c + n, lost := r.lost + (c - r.cursor),
                             delivered := r.delivered + Records(r.slots, c, n))
  {
    StartedIs(r);
    var started := r.(drainer := Draining(StartOf(r), r.writeIndex, 0), lost := r.lost + (StartOf(r) - r.cursor));
    DrainedAllIs(started, Committed(r.slots, r.writeIndex, StartOf(r), BATCH));
    WriteBackIs(DrainedAll(started));
  }

  lemma WriteBackIs(r: Ring)
    requires Shaped(r) && r.drainer.Stopping?
    ensures Next(r, WriteBack) == r.(cursor := r.drainer.drained, drainer := Resting)
  {
  }

  lemma ClaimCommitted(r: Ring, c: nat)
    requires Exact(r) && r.producers == map[] && Live(r) <= c < r.writeIndex
    ensures CommittedAt(r.slots, c)
  {
    assert SlotExact(r, c);
  }

  /** Without overrun and with every thread done, that is the whole backlog. */
  lemma BacklogIsCommitted(r: Ring)
    requires Exact(r) && r.producers == map[] && r.drainer.Resting?
    ensures var backlog := r.writeIndex - r.cursor;
            StartOf(r) == r.cursor
            && Committed(r.slots, r.writeIndex, r.cursor, BATCH) == if backlog > BATCH then BATCH else backlog
  {
    var next := r.cursor + Committed(r.slots, r.writeIndex, r.cursor, BATCH);
    if next < r.writeIndex {
      ClaimCommitted(r, next);
    }
  }

  class SharedRing {
    var active: bool
    var writeIndex: nat
    var dropped: nat
    const slots: array<Slot>
    /** The driver's private cursor and what it has emitted and given up. */
    var cursor: nat
    var delivered: seq<(nat, seq<nat>)>
    var lost: nat
    /** The state of the interleaving this memory is in. */
    ghost var ring: Ring

    ghost predicate Valid()
      reads this, slots
    {
      && ring.active == active && ring.writeIndex == writeIndex && ring.dropped == dropped
      && ring.slots == slots[..] && slots.Length == SLOTS
      && ring.cursor == cursor && ring.delivered == delivered && ring.lost == lost
    }

    constructor ()
      ensures Valid() && ring == Fresh() && fresh(slots)
    {
      active, writeIndex, dropped, cursor, delivered, lost, ring := false, 0, 0, 0, [], 0, Fresh();
      slots := new Slot[SLOTS](_ => Slot(0, [0, 0, 0, 0, 0, 0]));
    }

    ghost method Take(s: Step)
      requires Shaped(ring) && Enabled(ring, s)
      modifies this`ring
      ensures Shaped(ring) && ring == Next(old(ring), s)
    {
      ring := Next(ring, s);
    }

    // The producer's shared-memory accesses, one step each.

    method FetchAdd(ghost t: nat) returns (claimed: nat)
      requires Valid() && Enabled(ring, Claim(t))
      modifies this`ring, this`writeIndex
      ensures Valid() && ring == Next(old(ring), Claim(t))
      ensures claimed == old(ring).writeIndex
    {
      Take(Claim(t));
      claimed := writeIndex;
      writeIndex := writeIndex + 1;
    }

    method LoadSequence(ghost t: nat, claimed: nat) returns (previous: nat)
      requires Valid() && Enabled(ring, LoadPrevious(t)) && ring.producers[t].claim == claimed
      modifies this`ring
      ensures Valid() && ring == Next(old(ring), LoadPrevious(t))
      ensures previous == SlotOf(old(ring), claimed).sequence
    {
      Take(LoadPrevious(t));
      previous := slots[claimed % SLOTS].sequence;
    }

    method AddDropped(ghost t: nat)
      requires Valid() && Enabled(ring, CountDrop(t))
      modifies this`ring, this`dropped
      ensures Valid() && ring == Next(old(ring), CountDrop(t))
    {
      Take(CountDrop(t));
      dropped := dropped + 1;
    }

    method Store(ghost t: nat, claimed: nat, k: nat, word: nat)
      requires Valid() && Enabled(ring, StoreWord(t)) && ring.producers[t].claim == claimed
      requires ring.producers[t].written == k && ring.producers[t].payload[k] == word
      modifies this`ring, slots
      ensures Valid() && ring == Next(old(ring), StoreWord(t))
    {
      Take(StoreWord(t));
      var at := claimed % SLOTS;
      slots[at] := slots[at].(words := slots[at].words[k := word]);
    }

    method CommitSequence(ghost t: nat, claimed: nat)
      requires Valid() && Enabled(ring, Commit(t)) && ring.producers[t].claim == claimed
      modifies this`ring, slots
      ensures Valid() && ring == Next(old(ring), Commit(t))
    {
      Take(Commit(t));
      var at := claimed % SLOTS;
      slots[at] := slots[at].(sequence := claimed + 1);
    }

    /** Write the payload words of a claim the thread holds, then commit the slot. */
    method WriteAndCommit(ghost t: nat, claimed: nat, payload: Payload)
      requires Valid() && t in ring.producers
      requires ring.producers[t] == Writing(claimed, payload, 0)
      modifies this`ring, slots
      ensures Valid()
      ensures var r := old(ring);
              ring == r.(slots := r.slots[claimed % SLOTS := Slot(claimed + 1, payload)],
                    producers := r.producers - {t})
    {
      ghost var r := ring;
      ghost var at := claimed % SLOTS;
      ghost var words := r.slots[at].words;
      assert r.slots == r.slots[at := Slot(r.slots[at].sequence, words)];
      assert r.producers == r.producers[t := Writing(claimed, payload, 0)];
      for k := 0 to WORDS
        invariant Valid()
        invariant |words| == WORDS && words[..k] == payload[..k]
        invariant ring == r.(slots := r.slots[at := Slot(r.slots[at].sequence, words)],
                                   producers := r.producers[t := Writing(claimed, payload, k)])
      {
        Store(t, claimed, k, payload[k]);
        words := words[k := payload[k]];
        assert words[..k + 1] == payload[..k + 1];
      }
      assert words[..WORDS] == words && payload[..WORDS] == payload;
      CommitSequence(t, claimed);
      assert r.producers[t := Writing(claimed, payload, WORDS)] - {t} == r.producers - {t};
    }

    /** One hooked call, undisturbed: nothing while the ring is idle; otherwise exactly
        one claim, with the whole payload committed in its own slot. */
    method Emit(ghost t: nat, payload: Payload)
      requires Valid() && t !in ring.producers
      modifies this`ring, this`writeIndex, this`dropped, slots
      ensures Valid()
      ensures var r := old(ring);
              var c := r.writeIndex;
              ring ==
              if !r.active then r
              else r.(writeIndex := c + 1, claims := r.claims + [payload],
                      slots := r.slots[c % SLOTS := Slot(c + 1, payload)],
                      dropped := r.dropped + if LapsAt(r, c) then 1 else 0)
    {
      ghost var r := ring;
      Take(Enter(t, payload));
      if !active {
        return;
      }
      var claimed := FetchAdd(t);
      var previous := LoadSequence(t, claimed);
      if previous != 0 && claimed - (previous - 1) >= SLOTS {
        AddDropped(t);
      }
      assert ring.producers == r.producers[t := Writing(claimed, payload, 0)];
      WriteAndCommit(t, claimed, payload);
      assert r.producers[t := Writing(claimed, payload, 0)] - {t} == r.producers;
    }

    // The drainer's accesses.

    method ReadWriteIndex() returns (drained: nat)
      requires Valid() && ring.drainer.Started? && active && cursor <= writeIndex
      modifies this`ring, this`lost
      ensures Valid() && ring == Next(old(ring), ReadIndex)
      ensures ring.drainer == Draining(drained, writeIndex, 0)
    {
      Take(ReadIndex);
      drained := cursor;
      if writeIndex - drained > SLOTS {
        lost := lost + (writeIndex - SLOTS - drained);
        drained := writeIndex - SLOTS;
      }
    }

    method PollSlot(drained: nat, drainedNow: nat) returns (committed: bool)
      requires Valid() && ring.drainer == Draining(drained, writeIndex, drainedNow)
      modifies this`ring
      ensures Valid() && ring == Next(old(ring), Poll)
      ensures committed == ring.drainer.Copying?
    {
      Take(Poll);
      committed := drainedNow < BATCH && drained < writeIndex && slots[drained % SLOTS].sequence == drained + 1;
    }

    method CopySlot(drained: nat, ghost drainedNow: nat) returns (payload: seq<nat>)
      requires Valid() && ring.drainer == Copying(drained, writeIndex, drainedNow, [])
      modifies this`ring
      ensures Valid() && payload == SlotOf(old(ring), drained).words
      ensures ring == old(ring).(drainer := Copying(drained, writeIndex, drainedNow, payload))
    {
      var slot := slots[drained % SLOTS].words;
      payload := [];
      for k := 0 to WORDS
        invariant Valid() && payload == slot[..k]
        invariant ring == old(ring).(drainer := Copying(drained, writeIndex, drainedNow, payload))
      {
        Take(CopyWord);
        payload := payload + [slot[k]];
      }
    }

    method EmitRecord(drained: nat, ghost drainedNow: nat, payload: seq<nat>)
      requires Valid() && |payload| == WORDS
      requires ring.drainer == Copying(drained, writeIndex, drainedNow, payload)
      modifies this`ring, this`delivered
      ensures Valid() && ring == Next(old(ring), Deliver)
    {
      Take(Deliver);
      delivered := delivered + [(drained, payload)];
    }

    method DrainOne(drained: nat, drainedNow: nat) returns (more: bool)
      requires Valid() && ring.drainer == Draining(drained, writeIndex, drainedNow)
      modifies this`ring, this`delivered
      ensures Valid() && ring == DrainedOne(old(ring)) && more == ring.drainer.Draining?
    {
      more := PollSlot(drained, drainedNow);
      if more {
        var payload := CopySlot(drained, drainedNow);
        EmitRecord(drained, drainedNow, payload);
      }
    }

    method DrainLoop(start: nat) returns (drained: nat)
      requires Valid() && ring.drainer == Draining(start, writeIndex, 0)
      modifies this`ring, this`delivered
      ensures Valid() && ring == DrainedAll(old(ring)) && ring.drainer == Stopping(drained)
    {
      drained := start;
      var drainedNow, more := 0, true;
      while more
        invariant Valid() && drainedNow <= BATCH
        invariant ring.drainer == if more then Draining(drained, writeIndex, drainedNow) else Stopping(drained)
        invariant DrainedAll(old(ring)) == if more then DrainedAll(ring) else ring
        decreases BATCH - drainedNow, more
      {
        DrainedOneShape(ring);
        more := DrainOne(drained, drainedNow);
        if more {
          drained := drained + 1;
          drainedNow := drainedNow + 1;
        }
      }
    }

    /** One drain, undisturbed: the records it delivers and where it leaves the cursor. */
    method DrainRings()
      requires Valid() && ring.drainer.Resting? && cursor <= writeIndex && active
      modifies this`ring, this`cursor, this`delivered, this`lost
      ensures Valid() && ring == Drained(old(ring))
      ensures var c := old(StartOf(ring));
              var n := old(Committed(slots[..], writeIndex, c, BATCH));
              && cursor == c + n && lost == old(lost) + (c - old(cursor))
              && delivered == old(delivered) + old(Records(slots[..], c, n))
    {
      DrainedBacklog(ring);
      Take(BeginDrain);
      var start := ReadWriteIndex();
      var drained := DrainLoop(start);
      Take(WriteBack);
      cursor := drained;
    }
  }
}
