/** When drains of the sensor ring stop getting on under overrun, and what frees them
    (driver/secoutfall/Injection.cpp, lines 887 to 904). */
module StuckDrains {
  import opened Wrappers
  import opened SensorRing
  import opened RingMemory
  import opened TornReads

  /** The cursor is behind, within a lap, at a slot that does not hold its claim, and no
      thread is left to commit it there. */
  ghost predicate Stuck(r: Ring)
    requires Shaped(r)
  {
    && !r.drainer.Copying? && Live(r) < r.writeIndex <= Live(r) + SLOTS
    && !CommittedAt(r.slots, Live(r)) && !Held(r, Live(r))
  }

  predicate SameOutput(r: Ring, r': Ring) {
    Live(r') == Live(r) && r'.delivered == r.delivered && r'.lost == r.lost
  }

  lemma HeldComesFrom(r: Ring, s: Step, c: nat)
    requires Shaped(r) && Enabled(r, s) && c < r.writeIndex && Held(Next(r, s), c)
    ensures Held(r, c)
  {
    var r' := Next(r, s);
    var t :| Holding(r', t) && ClaimOf(r', t) == c;
    assert Holding(r, t) && ClaimOf(r, t) == c;
  }

  lemma CommittedComesFrom(r: Ring, s: Step, c: nat)
    requires Shaped(r) && Enabled(r, s) && CommittedAt(Next(r, s).slots, c)
    ensures CommittedAt(r.slots, c) || Held(r, c)
  {
    if s.Commit? && ClaimOf(r, s.t) % SLOTS == c % SLOTS {
      assert Holding(r, s.t) && ClaimOf(r, s.t) == c;
    }
  }

  lemma StuckDrainer(r: Ring, s: Step)
    requires Shaped(r) && Stuck(r) && Enabled(r, s) && Next(r, s).writeIndex <= Live(r) + SLOTS
    ensures SameOutput(r, Next(r, s)) && !Next(r, s).drainer.Copying? && r.writeIndex <= Next(r, s).writeIndex
  {
  }

  /** Within the lap nothing frees it. */
  lemma StuckStep(r: Ring, s: Step)
    requires Shaped(r) && Stuck(r) && Enabled(r, s) && Next(r, s).writeIndex <= Live(r) + SLOTS
    ensures Stuck(Next(r, s)) && SameOutput(r, Next(r, s))
  {
    var c, r' := Live(r), Next(r, s);
    StuckDrainer(r, s);
    if CommittedAt(r'.slots, c) {
      CommittedComesFrom(r, s, c);
    }
    if Held(r', c) {
      HeldComesFrom(r, s, c);
    }
  }

  lemma {:induction false} StuckUntilLap(run: seq<Step>, more: seq<Step>)
    requires Legal(run + more) && Legal(run) && Stuck(After(run))
    requires After(run + more).writeIndex <= Live(After(run)) + SLOTS
    ensures Stuck(After(run + more)) && SameOutput(After(run), After(run + more))
    decreases |more|
  {
    if more == [] {
      assert run + more == run;
    } else {
      var init, last := run + more[..|more| - 1], more[|more| - 1];
      assert run + more == init + [last] && (run + more)[..|run + more| - 1] == init;
      IndexGrows(After(init), last);
      StuckUntilLap(run, more[..|more| - 1]);
      StuckStep(After(init), last);
    }
  }

  // ---- A cursor that is not stuck can go on

  function StepsLeft(p: Producer): nat {
    match p
    case Entered(_) => 0
    case Claimed(_, _) => WORDS + 3
    case Lapped(_, _) => WORDS + 2
    case Writing(_, _, written) => if written <= WORDS then WORDS + 1 - written else 0
  }

  function NextOf(p: Producer, t: nat): Step {
    match p
    case Entered(_) => Claim(t)
    case Claimed(_, _) => LoadPrevious(t)
    case Lapped(_, _) => CountDrop(t)
    case Writing(_, _, written) => if written < WORDS then StoreWord(t) else Commit(t)
  }

  predicate SameDrain(r: Ring, r': Ring) {
    && r'.active == r.active && r'.writeIndex == r.writeIndex && r'.cursor == r.cursor && r'.lost == r.lost
    && r'.drainer == r.drainer && r'.delivered == r.delivered
  }

  predicate WithinWords(r: Ring, t: nat)
    requires Holding(r, t)
  {
    r.producers[t].Writing? ==> r.producers[t].written <= WORDS
  }

  lemma HolderStep(r: Ring, t: nat)
    requires Shaped(r) && Holding(r, t) && WithinWords(r, t)
    ensures var s := NextOf(r.producers[t], t);
            && Enabled(r, s) && SameDrain(r, Next(r, s))
            && if s.Commit? then CommittedAt(Next(r, s).slots, ClaimOf(r, t))
               else && Holding(Next(r, s), t) && ClaimOf(Next(r, s), t) == ClaimOf(r, t) && WithinWords(Next(r, s), t)
                    && StepsLeft(Next(r, s).producers[t]) < StepsLeft(r.producers[t])
  {
  }

  /** Any thread with a claim can finish it while everything else waits. */
  lemma {:induction false} HolderCommits(run: seq<Step>, r: Ring, t: nat) returns (r': Ring)
    requires Leads(run, r) && Holding(r, t) && WithinWords(r, t)
    ensures Leads(run, r') && SameDrain(r, r') && CommittedAt(r'.slots, ClaimOf(r, t))
    decreases StepsLeft(r.producers[t])
  {
    var s := NextOf(r.producers[t], t);
    HolderStep(r, t);
    LeadsNext(run, r, s);
    if s.Commit? {
      r' := Next(r, s);
    } else {
      r' := HolderCommits(run, Next(r, s), t);
    }
  }

  lemma MadeReady(run: seq<Step>, r: Ring) returns (r': Ring)
    requires Leads(run, r) && ClaimsRecorded(r) && (CommittedAt(r.slots, Live(r)) || Held(r, Live(r)))
    ensures Leads(run, r') && SameDrain(r, r') && CommittedAt(r'.slots, Live(r))
  {
    if CommittedAt(r.slots, Live(r)) {
      r' := r;
    } else {
      var t :| Holding(r, t) && ClaimOf(r, t) == Live(r);
      r' := HolderCommits(run, r, t);
    }
  }

  lemma NextDelivered(run: seq<Step>, r: Ring) returns (r': Ring)
    requires Leads(run, r) && r.active && r.drainer.Resting? && r.cursor < r.writeIndex <= r.cursor + SLOTS
    requires CommittedAt(r.slots, r.cursor)
    ensures Leads(run, r') && r'.writeIndex == r.writeIndex
    ensures r'.delivered == r.delivered + [(r.cursor, SlotOf(r, r.cursor).words)]
  {
    CopyBegun(run, r);
    r' := CopyDelivered(run, r.(drainer := Copying(r.cursor, r.writeIndex, 0, [])));
  }

  /** A resting drain that is behind within a lap but not stuck: its next record can be
      delivered with no further claim. */
  lemma NotStuckDelivers(run: seq<Step>) returns (r': Ring)
    requires Legal(run) && After(run).drainer.Resting? && After(run).active
    requires var r := After(run); Live(r) < r.writeIndex <= Live(r) + SLOTS && !Stuck(r)
    ensures var r := After(run);
            && Leads(run, r') && r'.writeIndex == r.writeIndex
            && |r'.delivered| == |r.delivered| + 1 && r'.delivered[|r.delivered|].0 == Live(r)
  {
    LeadsHere(run);
    AlwaysInRun(run);
    var ready := MadeReady(run, After(run));
    r' := NextDelivered(run, ready);
  }

  lemma DeliveredIsPassed(run: seq<Step>, r: Ring)
    requires Legal(run) && Leads(run, r) && |r.delivered| > 0
    ensures r.delivered[|r.delivered| - 1].0 < Live(r)
  {
    var longer := LeadsSomewhere(run, r);
    AlwaysInRun(longer);
  }

  /** Within the lap no run takes the live cursor any further. */
  ghost predicate NeverMovesInLap(run: seq<Step>)
    requires Legal(run)
  {
    forall r :: Leads(run, r) && r.writeIndex <= Live(After(run)) + SLOTS ==> Live(r) == Live(After(run))
  }

  /** A resting drain that is behind within a lap never gets on within that lap exactly when
      it is stuck: nobody holds the claim at its cursor, and the slot does not show it. */
  lemma StuckIff(run: seq<Step>)
    requires Legal(run) && After(run).drainer.Resting? && After(run).active
    requires var r := After(run); Live(r) < r.writeIndex <= Live(r) + SLOTS
    ensures Stuck(After(run)) <==> NeverMovesInLap(run)
  {
    if Stuck(After(run)) {
      forall r | Leads(run, r) && r.writeIndex <= Live(After(run)) + SLOTS
        ensures Live(r) == Live(After(run))
      {
        var more :| Legal(run + more) && After(run + more) == r;
        StuckUntilLap(run, more);
      }
    } else {
      var r := NotStuckDelivers(run);
      DeliveredIsPassed(run, r);
    }
  }

  // ---- Any late commit can stick the cursor

  /** One thread's emits, whatever the others hold. */
  predicate EmitsOnly(r: Ring, r': Ring) {
    && Shaped(r') && r'.active == r.active && r'.producers == r.producers && r'.drainer == r.drainer
    && r'.cursor == r.cursor
  }

  lemma {:induction false} EmittedTimes(run: seq<Step>, r: Ring, t: nat, payload: Payload, n: nat) returns (r': Ring)
    requires Leads(run, r) && r.active && t !in r.producers
    ensures Leads(run, r') && EmitsOnly(r, r') && r'.writeIndex == r.writeIndex + n
    decreases n
  {
    if n == 0 {
      r' := r;
    } else {
      var dropped := WholeEmit(run, r, t, payload);
      r' := EmittedTimes(run, Emitted(r, payload, dropped), t, payload, n - 1);
    }
  }

  /** The first index at or after `w` that falls on claim `k`'s slot. */
  function NextOn(w: nat, k: nat): (c: nat)
    requires k < w
    ensures w <= c < w + SLOTS && c % SLOTS == k % SLOTS && k < c
  {
    w + (k - w) % SLOTS
  }

  lemma LateCommit(r: Ring, h: nat, c: nat)
    requires Shaped(r) && h in r.producers && r.producers[h].Writing? && r.producers[h].written == WORDS
    requires r.drainer.Draining? && r.drainer.drained == c && c < r.writeIndex <= c + SLOTS
    requires r.producers[h].claim < c && r.producers[h].claim % SLOTS == c % SLOTS && !Held(r, c)
    ensures Stuck(Next(r, Commit(h)))
  {
    var r' := Next(r, Commit(h));
    if Held(r', c) {
      HeldComesFrom(r, Commit(h), c);
    }
    assert r'.slots[c % SLOTS].sequence == r.producers[h].claim + 1;
  }

  lemma DrainReachesLap(run: seq<Step>, r: Ring, c: nat)
    requires Leads(run, r) && r.active && r.drainer.Resting? && r.cursor <= c && r.writeIndex == c + SLOTS
    ensures exists r' :: Leads(run, r') && r'.drainer == Draining(c, r.writeIndex, 0) && r'.writeIndex == r.writeIndex
              && r'.producers == r.producers
  {
    LeadsNext(run, r, BeginDrain);
    LeadsNext(run, r.(drainer := Drainer.Started), ReadIndex);
    var r' := Next(r.(drainer := Drainer.Started), ReadIndex);
    assert Leads(run, r') && r'.drainer == Draining(c, r.writeIndex, 0);
  }

  lemma NotHeldYet(r: Ring, r': Ring, c: nat)
    requires ClaimsRecorded(r) && r'.producers == r.producers && c >= r.writeIndex
    ensures !Held(r', c)
  {
    forall t | Holding(r', t)
      ensures ClaimOf(r', t) != c
    {
      assert Holding(r, t);
    }
  }

  /** From any state with a resting drain and a thread about to commit: another thread emits
      through the next lap, a drain begins on the index that shares the first thread's slot,
      and the late commit leaves that drain stuck. */
  lemma AnyLateCommitSticks(run: seq<Step>, h: nat, t: nat, payload: Payload) returns (stuck: Ring)
    requires Legal(run) && After(run).drainer.Resting? && After(run).active && t !in After(run).producers
    requires var r := After(run);
             h in r.producers && r.producers[h].Writing? && r.producers[h].written == WORDS
    ensures Leads(run, stuck) && Stuck(stuck)
  {
    var r := After(run);
    LeadsHere(run);
    AlwaysInRun(run);
    assert Holding(r, h);
    var c := NextOn(r.writeIndex, r.producers[h].claim);
    var lapped := EmittedTimes(run, r, t, payload, c + SLOTS - r.writeIndex);
    DrainReachesLap(run, lapped, c);
    var begun :| Leads(run, begun) && begun.drainer == Draining(c, lapped.writeIndex, 0)
      && begun.writeIndex == lapped.writeIndex && begun.producers == lapped.producers;
    NotHeldYet(r, begun, c);
    LateCommit(begun, h, c);
    LeadsNext(run, begun, Commit(h));
    stuck := Next(begun, Commit(h));
  }

  /** Such a state is reached from the start. */
  lemma SomeDrainSticks() returns (run: seq<Step>)
    ensures Legal(run) && Stuck(After(run))
  {
    var first: seq<Step> := [];
    var held := OneHolder(first);
    var stuck := AnyLateCommitSticks(held, 0, 1, [1, 1, 1, 1, 1, 1]);
    run := LeadsSomewhere(held, stuck);
  }

  lemma OneHolder(run: seq<Step>) returns (held: seq<Step>)
    requires Legal(run) && After(run) == Fresh()
    ensures Legal(held)
    ensures var r := After(held);
            && r.drainer.Resting? && r.active && 1 !in r.producers
            && 0 in r.producers && r.producers[0].Writing? && r.producers[0].written == WORDS
  {
    LeadsHere(run);
    LeadsNext(run, Fresh(), Activate);
    var active := Fresh().(active := true);
    var payload: Payload := [2, 2, 2, 2, 2, 2];
    var dropped := EmitStarted(run, active, 0, payload);
    var underway := Underway(active, 0, payload, dropped);
    WordsStored(run, underway, 0, 0, payload, WORDS);
    held := LeadsSomewhere(run, Stored(underway, 0, 0, payload, WORDS));
  }
}
