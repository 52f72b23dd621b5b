/** The ring of hooked-call payloads the threads of an injected process share with the
    driver, which drains it without a lock, as one step machine. */
module SensorRing {
  // The producers are crates/injectee/src/sensor.rs (`emit`), the drainer is
  // driver/secoutfall/Injection.cpp (`InjectionDrainRings`). Every shared-memory access is
  // one step, so a run is any interleaving of any number of producers with one drainer
  // over sequentially consistent memory.

  const SLOTS: nat := 4096
  const BATCH: nat := 256
  const WORDS: nat := 6

  /** Api, thread id and four arguments, each written on its own. */
  type Payload = p: seq<nat> | |p| == WORDS witness [0, 0, 0, 0, 0, 0]

  datatype Slot = Slot(sequence: nat, words: Payload)

  /** Where a thread inside `emit` has got to. A thread that is not emitting is absent
      from the ring's producers. */
  datatype Producer =
    | Entered(payload: Payload)
    | Claimed(claim: nat, payload: Payload)
    | Lapped(claim: nat, payload: Payload)
    | Writing(claim: nat, payload: Payload, written: nat)

  datatype Drainer =
    | Resting
    | Started
    | Draining(drained: nat, writeIndex: nat, count: nat)
    | Copying(drained: nat, writeIndex: nat, count: nat, read: seq<nat>)
    | Stopping(drained: nat)

  /** `claims` and `delivered` record history: the payload behind every claimed index,
      and what the drainer emitted, with the index it took it for. `lost` is the count
      of indices the drainer gave up on. */
  datatype Ring = Ring(
    active: bool, writeIndex: nat, dropped: nat, slots: seq<Slot>,
    producers: map<nat, Producer>, drainer: Drainer, cursor: nat, lost: nat,
    claims: seq<Payload>, delivered: seq<(nat, seq<nat>)>)

  function Fresh(): Ring {
    Ring(false, 0, 0, seq(SLOTS, _ => Slot(0, [0, 0, 0, 0, 0, 0])), map[], Resting, 0, 0, [], [])
  }

  datatype Step =
    | Activate
    | Enter(t: nat, payload: Payload)
    | Claim(t: nat)
    | LoadPrevious(t: nat)
    | CountDrop(t: nat)
    | StoreWord(t: nat)
    | Commit(t: nat)
    | BeginDrain
    | ReadIndex
    | Poll
    | CopyWord
    | Deliver
    | WriteBack

  predicate Enabled(r: Ring, s: Step) {
    match s
    case Activate => true
    case Enter(t, _) => t !in r.producers
    case Claim(t) => t in r.producers && r.producers[t].Entered?
    case LoadPrevious(t) => t in r.producers && r.producers[t].Claimed?
    case CountDrop(t) => t in r.producers && r.producers[t].Lapped?
    case StoreWord(t) => t in r.producers && r.producers[t].Writing? && r.producers[t].written < WORDS
    case Commit(t) => t in r.producers && r.producers[t].Writing? && r.producers[t].written == WORDS
    case BeginDrain => r.drainer.Resting?
    case ReadIndex => r.drainer.Started?
    case Poll => r.drainer.Draining?
    case CopyWord => r.drainer.Copying? && |r.drainer.read| < WORDS
    case Deliver => r.drainer.Copying? && |r.drainer.read| == WORDS
    case WriteBack => r.drainer.Stopping?
  }

  /** The slots are there; every step reads only these. */
  predicate Shaped(r: Ring) {
    |r.slots| == SLOTS
  }

  function Next(r: Ring, s: Step): (r': Ring)
    requires Shaped(r) && Enabled(r, s)
    ensures Shaped(r')
  {
    match s
    case Activate => r.(active := true)
    case Enter(t, payload) =>
      if r.active then r.(producers := r.producers[t := Entered(payload)]) else r
    case Claim(t) =>
      var payload := r.producers[t].payload;
      r.(writeIndex := r.writeIndex + 1, claims := r.claims + [payload],
         producers := r.producers[t := Claimed(r.writeIndex, payload)])
    case LoadPrevious(t) =>
      var p := r.producers[t];
      var previous := r.slots[p.claim % SLOTS].sequence;
      var lapped := previous != 0 && p.claim - (previous - 1) >= SLOTS;
      r.(producers := r.producers[t := if lapped then Lapped(p.claim, p.payload) else Writing(p.claim, p.payload, 0)])
    case CountDrop(t) =>
      var p := r.producers[t];
      r.(dropped := r.dropped + 1, producers := r.producers[t := Writing(p.claim, p.payload, 0)])
    case StoreWord(t) =>
      var p := r.producers[t];
      var at := p.claim % SLOTS;
      var slot := r.slots[at].(words := r.slots[at].words[p.written := p.payload[p.written]]);
      r.(slots := r.slots[at := slot], producers := r.producers[t := p.(written := p.written + 1)])
    case Commit(t) =>
      var p := r.producers[t];
      var at := p.claim % SLOTS;
      r.(slots := r.slots[at := r.slots[at].(sequence := p.claim + 1)], producers := r.producers - {t})
    case BeginDrain => r.(drainer := Started)
    case ReadIndex =>
      if !r.active then r.(drainer := Resting)
      else if r.writeIndex - r.cursor > SLOTS then
        r.(drainer := Draining(r.writeIndex - SLOTS, r.writeIndex, 0),
              lost := r.lost + (r.writeIndex - SLOTS - r.cursor))
      else
        r.(drainer := Draining(r.cursor, r.writeIndex, 0))
    case Poll =>
      var d := r.drainer;
      if d.count < BATCH && d.drained < d.writeIndex && r.slots[d.drained % SLOTS].sequence == d.drained + 1 then
        r.(drainer := Copying(d.drained, d.writeIndex, d.count, []))
      else
        r.(drainer := Stopping(d.drained))
    case CopyWord =>
      var d := r.drainer;
      r.(drainer := d.(read := d.read + [r.slots[d.drained % SLOTS].words[|d.read|]]))
    case Deliver =>
      var d := r.drainer;
      r.(delivered := r.delivered + [(d.drained, d.read)],
            drainer := Draining(d.drained + 1, d.writeIndex, d.count + 1))
    case WriteBack => r.(cursor := r.drainer.drained, drainer := Resting)
  }

  predicate Legal(run: seq<Step>)
    decreases |run|, 0
  {
    run == [] || (Legal(run[..|run| - 1]) && Enabled(After(run[..|run| - 1]), run[|run| - 1]))
  }

  function After(run: seq<Step>): (r: Ring)
    requires Legal(run)
    ensures Shaped(r)
    decreases |run|, 1
  {
    if run == [] then Fresh() else Next(After(run[..|run| - 1]), run[|run| - 1])
  }

  /** The drainer's position: its own while it drains, the stored one otherwise. */
  function Live(r: Ring): nat {
    match r.drainer
    case Resting => r.cursor
    case Started => r.cursor
    case Draining(d, _, _) => d
    case Copying(d, _, _, _) => d
    case Stopping(d) => d
  }

  /** Thread `t` is between taking a claim and committing its slot. */
  predicate Holding(r: Ring, t: nat) {
    t in r.producers && !r.producers[t].Entered?
  }

  function ClaimOf(r: Ring, t: nat): nat
    requires Holding(r, t)
  {
    r.producers[t].claim
  }

  // ---- What every interleaving keeps, overflow or not

  predicate SlotsInPlace(r: Ring) {
    forall i | 0 <= i < |r.slots| ::
      r.slots[i].sequence == 0
      || (r.slots[i].sequence <= r.writeIndex && (r.slots[i].sequence - 1) % SLOTS == i)
  }

  ghost predicate ClaimsRecorded(r: Ring) {
    && |r.claims| == r.writeIndex
    && (forall t | Holding(r, t) ::
          ClaimOf(r, t) < r.writeIndex && r.producers[t].payload == r.claims[ClaimOf(r, t)]
          && (r.producers[t].Writing? ==> r.producers[t].written <= WORDS))
    && (forall t, u | Holding(r, t) && Holding(r, u) && ClaimOf(r, t) == ClaimOf(r, u) :: t == u)
  }

  predicate DrainerBounded(r: Ring) {
    && Live(r) <= r.writeIndex
    && (r.drainer.Draining? || r.drainer.Copying? ==> r.drainer.drained <= r.drainer.writeIndex <= r.writeIndex)
    && (r.drainer.Copying? ==> r.drainer.drained < r.drainer.writeIndex && |r.drainer.read| <= WORDS)
  }

  predicate DeliveredInOrder(r: Ring) {
    && Live(r) == |r.delivered| + r.lost
    && (forall i | 0 <= i < |r.delivered| :: r.delivered[i].0 < Live(r))
    && (forall i, j | 0 <= i < j < |r.delivered| :: r.delivered[i].0 < r.delivered[j].0)
  }

  /** Nothing is claimed before the driver activates the ring. */
  predicate ActiveFirst(r: Ring) {
    r.active || (r.writeIndex == 0 && r.producers == map[])
  }

  ghost predicate AlwaysHolds(r: Ring) {
    && Shaped(r) && ActiveFirst(r) && SlotsInPlace(r) && ClaimsRecorded(r)
    && DrainerBounded(r) && DeliveredInOrder(r)
  }

  lemma StepKeepsSlots(r: Ring, s: Step)
    requires Shaped(r) && SlotsInPlace(r) && ClaimsRecorded(r) && Enabled(r, s)
    ensures SlotsInPlace(Next(r, s))
  {
    if s.Commit? {
      assert Holding(r, s.t);
      var at := ClaimOf(r, s.t) % SLOTS;
      assert forall i | 0 <= i < SLOTS && i != at :: Next(r, s).slots[i] == r.slots[i];
    } else if s.StoreWord? {
      assert forall i | 0 <= i < SLOTS :: Next(r, s).slots[i].sequence == r.slots[i].sequence;
    } else {
      assert Next(r, s).slots == r.slots;
    }
  }

  lemma StepKeepsClaims(r: Ring, s: Step)
    requires Shaped(r) && ClaimsRecorded(r) && Enabled(r, s)
    ensures ClaimsRecorded(Next(r, s))
  {
    var r' := Next(r, s);
    if s.Claim? {
      assert forall u | Holding(r', u) && u != s.t :: Holding(r, u) && ClaimOf(r', u) == ClaimOf(r, u);
    } else {
      assert forall u | Holding(r', u) :: Holding(r, u) && ClaimOf(r', u) == ClaimOf(r, u);
    }
  }

  lemma StepKeepsDrainer(r: Ring, s: Step)
    requires Shaped(r) && DrainerBounded(r) && DeliveredInOrder(r) && Enabled(r, s)
    ensures DrainerBounded(Next(r, s)) && DeliveredInOrder(Next(r, s))
  {
    var r' := Next(r, s);
    if s.Deliver? {
      assert r'.delivered[|r.delivered|].0 == Live(r);
    } else {
      assert r'.delivered == r.delivered && Live(r') >= Live(r);
    }
  }

  lemma StepKeepsAlways(r: Ring, s: Step)
    requires AlwaysHolds(r) && Enabled(r, s)
    ensures AlwaysHolds(Next(r, s))
  {
    StepKeepsSlots(r, s);
    StepKeepsClaims(r, s);
    StepKeepsDrainer(r, s);
  }

  lemma {:induction false} AlwaysInRun(run: seq<Step>)
    requires Legal(run)
    ensures AlwaysHolds(After(run))
    decreases |run|
  {
    if run != [] {
      AlwaysInRun(run[..|run| - 1]);
      StepKeepsAlways(After(run[..|run| - 1]), run[|run| - 1]);
    }
  }

  /** Over any interleaving with serialized drains, overflow included: the delivered
      claim indices strictly increase over all drains, and the cursor is always the
      number delivered plus the number counted as dropped. */
  lemma CursorAccountsForEverything(run: seq<Step>)
    requires Legal(run)
    ensures var r := After(run);
            && (forall i, j | 0 <= i < j < |r.delivered| :: r.delivered[i].0 < r.delivered[j].0)
            && (forall i | 0 <= i < |r.delivered| :: r.delivered[i].0 < Live(r))
            && Live(r) == |r.delivered| + r.lost <= r.writeIndex
  {
    AlwaysInRun(run);
  }

  lemma IndexGrows(r: Ring, s: Step)
    requires Shaped(r) && Enabled(r, s)
    ensures r.writeIndex <= Next(r, s).writeIndex
  {
  }

  lemma {:induction false} MoreSteps(run: seq<Step>, more: seq<Step>)
    requires Legal(run + more)
    ensures Legal(run)
    ensures After(run).writeIndex <= After(run + more).writeIndex
    decreases |more|
  {
    if more == [] {
      assert run + more == run;
    } else {
      var init, last := run + more[..|more| - 1], more[|more| - 1];
      assert run + more == init + [last];
      assert (run + more)[..|run + more| - 1] == init;
      MoreSteps(run, more[..|more| - 1]);
      IndexGrows(After(init), last);
    }
  }

  lemma NextLap(c: nat, d: nat)
    requires c < d && c % SLOTS == d % SLOTS
    ensures d >= c + SLOTS
  {
  }

  lemma NewerMeansLapped(r: Ring)
    requires Shaped(r) && SlotsInPlace(r) && r.slots[Live(r) % SLOTS].sequence > Live(r) + 1
    ensures r.writeIndex > Live(r) + SLOTS
  {
    NextLap(Live(r), r.slots[Live(r) % SLOTS].sequence - 1);
  }

  lemma ResyncMoves(r: Ring)
    requires Shaped(r) && ActiveFirst(r) && r.drainer.Started? && r.writeIndex > r.cursor + SLOTS
    ensures var r' := Next(r, ReadIndex);
            Live(r') == r'.writeIndex - SLOTS > r.cursor && r'.lost > r.lost
  {
  }

  /** A cursor whose slot already holds a newer sequence is never stuck behind it: the
      next drain's resync moves it past the overwritten slots, however the producers
      run on in the meantime. */
  lemma NewerSlotIsResynced(run: seq<Step>, more: seq<Step>)
    requires Legal(run + more) && Legal(run)
    requires After(run).slots[Live(After(run)) % SLOTS].sequence > Live(After(run)) + 1
    requires After(run + more).drainer.Started? && Live(After(run + more)) == Live(After(run))
    ensures var r' := Next(After(run + more), ReadIndex);
            Live(r') == r'.writeIndex - SLOTS > Live(After(run)) && r'.lost > After(run + more).lost
  {
    AlwaysInRun(run);
    MoreSteps(run, more);
    NewerMeansLapped(After(run));
    AlwaysInRun(run + more);
    var r := After(run + more);
    assert r.writeIndex > r.cursor + SLOTS;
    ResyncMoves(r);
  }

  // ---- Runs in which the producers never lap the drainer

  /** Every claim is taken less than a ring ahead of the live cursor. */
  predicate NeverOverrun(run: seq<Step>)
    requires Legal(run)
  {
    run == [] ||
    (&& NeverOverrun(run[..|run| - 1])
     && (run[|run| - 1].Claim? ==>
           After(run[..|run| - 1]).writeIndex < Live(After(run[..|run| - 1])) + SLOTS))
  }

  /** The sequence a slot carried before claim `c` was taken. */
  function Before(c: nat): nat {
    if c < SLOTS then 0 else c - SLOTS + 1
  }

  function SlotOf(r: Ring, c: nat): Slot
    requires Shaped(r)
  {
    r.slots[c % SLOTS]
  }

  /** The claims whose slots no later claim has been given. */
  predicate Current(r: Ring, c: nat) {
    r.writeIndex - SLOTS <= c < r.writeIndex
  }

  /** A thread holding a claim has an undrained slot to itself, which still carries the
      previous lap's sequence and the words written so far. */
  predicate HolderExact(r: Ring, t: nat)
    requires Shaped(r) && Holding(r, t)
  {
    var c := ClaimOf(r, t);
    var p := r.producers[t];
    && Live(r) <= c < r.writeIndex
    && SlotOf(r, c).sequence == Before(c)
    && (p.Lapped? ==> c >= SLOTS)
    && (p.Writing? ==> p.written <= WORDS && SlotOf(r, c).words[..p.written] == p.payload[..p.written])
  }

  ghost predicate Held(r: Ring, c: nat) {
    exists t :: Holding(r, t) && ClaimOf(r, t) == c
  }

  /** A current claim is either committed, its own payload in the slot, or still held. */
  ghost predicate SlotExact(r: Ring, c: nat)
    requires Shaped(r)
  {
    (c < |r.claims| && SlotOf(r, c) == Slot(c + 1, r.claims[c])) || Held(r, c)
  }

  /** What is being copied out is committed and copied faithfully so far. */
  predicate CopyExact(r: Ring)
    requires Shaped(r) && r.drainer.Copying?
  {
    var d := r.drainer.drained;
    && Live(r) == d < |r.claims| && |r.drainer.read| <= WORDS
    && SlotOf(r, d) == Slot(d + 1, r.claims[d])
    && r.drainer.read == r.claims[d][..|r.drainer.read|]
  }

  predicate DeliveredExact(r: Ring) {
    && r.lost == 0 && |r.delivered| == Live(r) <= |r.claims|
    && (forall i: nat | i < |r.delivered| :: r.delivered[i] == (i, r.claims[i]))
  }

  ghost predicate Exact(r: Ring) {
    && Shaped(r)
    && Live(r) <= r.writeIndex <= Live(r) + SLOTS
    && (forall t | Holding(r, t) :: HolderExact(r, t))
    && (forall c: nat | Current(r, c) :: SlotExact(r, c))
    && (r.drainer.Copying? ==> CopyExact(r))
    && DeliveredExact(r)
  }

  lemma SlotsApart(c: nat, d: nat)
    requires c < d < c + SLOTS
    ensures c % SLOTS != d % SLOTS
  {
  }

  /** Two claims in the drainer's window, one of them held: different slots. */
  lemma HolderApart(r: Ring, t: nat, c: nat)
    requires Exact(r) && Holding(r, t) && Current(r, c) && ClaimOf(r, t) != c
    ensures ClaimOf(r, t) % SLOTS != c % SLOTS
  {
    assert HolderExact(r, t);
    if c < ClaimOf(r, t) {
      SlotsApart(c, ClaimOf(r, t));
    } else {
      SlotsApart(ClaimOf(r, t), c);
    }
  }

  lemma HeldStays(r: Ring, r': Ring, c: nat)
    requires Held(r, c)
    requires forall u | Holding(r, u) && ClaimOf(r, u) == c :: Holding(r', u) && ClaimOf(r', u) == c
    ensures Held(r', c)
  {
    var u :| Holding(r, u) && ClaimOf(r, u) == c;
    assert Holding(r', u) && ClaimOf(r', u) == c;
  }

  /** What a committed current claim's slot says. */
  lemma CommittedOrHeld(r: Ring, c: nat)
    requires Exact(r) && Current(r, c)
    ensures SlotOf(r, c).sequence == c + 1 ==> SlotOf(r, c) == Slot(c + 1, r.claims[c])
    ensures c < Live(r) ==> SlotOf(r, c).sequence == c + 1
    ensures SlotOf(r, c).sequence == c + 1 ==> !Held(r, c)
  {
    assert SlotExact(r, c);
    if Held(r, c) {
      var u :| Holding(r, u) && ClaimOf(r, u) == c;
      assert HolderExact(r, u);
    }
  }

  /** The slot a new claim gets still carries the previous lap's sequence. */
  lemma SlotBeforeClaim(r: Ring)
    requires Exact(r) && SlotsInPlace(r) && r.writeIndex < Live(r) + SLOTS
    ensures SlotOf(r, r.writeIndex).sequence == Before(r.writeIndex)
  {
    var c := r.writeIndex;
    if c >= SLOTS {
      CommittedOrHeld(r, c - SLOTS);
      assert (c - SLOTS) % SLOTS == c % SLOTS;
    } else {
      assert c % SLOTS == c;
    }
  }

  lemma ClaimKeepsExact(r: Ring, t: nat)
    requires Exact(r) && AlwaysHolds(r) && Enabled(r, Claim(t)) && r.writeIndex < Live(r) + SLOTS
    ensures Exact(Next(r, Claim(t)))
  {
    var r' := Next(r, Claim(t));
    SlotBeforeClaim(r);
    assert forall u | Holding(r', u) && u != t :: Holding(r, u) && r'.producers[u] == r.producers[u];
    forall u | Holding(r', u) ensures HolderExact(r', u) {
      if u != t {
        assert HolderExact(r, u);
      }
    }
    forall d: nat | Current(r', d) ensures SlotExact(r', d) {
      if d == r.writeIndex {
        assert Holding(r', t) && ClaimOf(r', t) == d;
      } else {
        assert SlotExact(r, d);
        if Held(r, d) {
          HeldStays(r, r', d);
        }
      }
    }
  }

  lemma StoreKeepsHolders(r: Ring, t: nat)
    requires Exact(r) && ClaimsRecorded(r) && Enabled(r, StoreWord(t))
    ensures var r' := Next(r, StoreWord(t)); forall u | Holding(r', u) :: HolderExact(r', u)
  {
    var r' := Next(r, StoreWord(t));
    assert Holding(r, t) && HolderExact(r, t);
    var c := ClaimOf(r, t);
    forall u | Holding(r', u) ensures HolderExact(r', u) {
      if u != t {
        assert Holding(r, u) && HolderExact(r, u) && Current(r, ClaimOf(r, u));
        HolderApart(r, t, ClaimOf(r, u));
      } else {
        var k := r.producers[t].written;
        assert SlotOf(r', c).words[..k + 1] == SlotOf(r, c).words[..k] + [r.producers[t].payload[k]];
      }
    }
  }

  lemma StoreKeepsExact(r: Ring, t: nat)
    requires Exact(r) && ClaimsRecorded(r) && Enabled(r, StoreWord(t))
    ensures Exact(Next(r, StoreWord(t)))
  {
    var r' := Next(r, StoreWord(t));
    assert Holding(r, t) && HolderExact(r, t);
    var c := ClaimOf(r, t);
    forall d: nat | Current(r, d) && d != c ensures SlotOf(r', d) == SlotOf(r, d) {
      HolderApart(r, t, d);
    }
    StoreKeepsHolders(r, t);
    assert forall u | Holding(r', u) && u != t :: Holding(r, u) && r'.producers[u] == r.producers[u];
    forall d: nat | Current(r', d) ensures SlotExact(r', d) {
      assert SlotExact(r, d);
      if Held(r, d) {
        HeldStays(r, r', d);
      } else {
        assert d != c;
      }
    }
    if r.drainer.Copying? {
      CommittedOrHeld(r, Live(r));
    }
  }

  lemma CommitKeepsExact(r: Ring, t: nat)
    requires Exact(r) && ClaimsRecorded(r) && Enabled(r, Commit(t))
    ensures Exact(Next(r, Commit(t)))
  {
    var r' := Next(r, Commit(t));
    assert Holding(r, t) && HolderExact(r, t);
    var c := ClaimOf(r, t);
    forall d: nat | Current(r, d) && d != c ensures SlotOf(r', d) == SlotOf(r, d) {
      HolderApart(r, t, d);
    }
    assert forall u | Holding(r', u) :: u != t && Holding(r, u) && r'.producers[u] == r.producers[u];
    forall u | Holding(r', u) ensures HolderExact(r', u) {
      assert HolderExact(r, u) && Current(r, ClaimOf(r, u));
    }
    assert SlotOf(r, c).words == r.claims[c] by {
      assert SlotOf(r, c).words[..WORDS] == SlotOf(r, c).words;
      assert r.producers[t].payload[..WORDS] == r.producers[t].payload;
    }
    forall d: nat | Current(r', d) ensures SlotExact(r', d) {
      if d != c {
        assert SlotExact(r, d);
        if Held(r, d) {
          HeldStays(r, r', d);
        }
      }
    }
    if r.drainer.Copying? {
      CommittedOrHeld(r, Live(r));
    }
  }

  lemma QuietStepKeepsExact(r: Ring, s: Step)
    requires Exact(r) && ClaimsRecorded(r) && Enabled(r, s)
    requires s.Activate? || s.Enter? || s.LoadPrevious? || s.CountDrop?
    ensures Exact(Next(r, s))
  {
    var r' := Next(r, s);
    if s.LoadPrevious? || s.CountDrop? {
      assert Holding(r, s.t) && HolderExact(r, s.t);
    }
    assert forall u | Holding(r', u) :: Holding(r, u) && ClaimOf(r', u) == ClaimOf(r, u);
    forall u | Holding(r', u) ensures HolderExact(r', u) {
      assert HolderExact(r, u);
    }
    forall d: nat | Current(r', d) ensures SlotExact(r', d) {
      assert SlotExact(r, d);
      if Held(r, d) {
        HeldStays(r, r', d);
      }
    }
  }

  predicate DrainerStep(s: Step) {
    s.BeginDrain? || s.ReadIndex? || s.Poll? || s.CopyWord? || s.Deliver? || s.WriteBack?
  }

  lemma DrainerKeepsExact(r: Ring, s: Step)
    requires Exact(r) && AlwaysHolds(r) && Enabled(r, s) && DrainerStep(s)
    ensures Exact(Next(r, s))
  {
    var r' := Next(r, s);
    assert r'.producers == r.producers && r'.slots == r.slots && r'.claims == r.claims;
    if s.Poll? && r'.drainer.Copying? {
      CommittedOrHeld(r, Live(r));
    }
    if s.Deliver? {
      CommittedOrHeld(r, Live(r));
      assert r.drainer.read == r.claims[Live(r)];
    }
    forall u | Holding(r', u) ensures HolderExact(r', u) {
      assert Holding(r, u) && HolderExact(r, u);
    }
    forall d: nat | Current(r', d) ensures SlotExact(r', d) {
      assert SlotExact(r, d);
      if Held(r, d) {
        HeldStays(r, r', d);
      }
    }
  }

  lemma StepKeepsExact(r: Ring, s: Step)
    requires Exact(r) && AlwaysHolds(r) && Enabled(r, s)
    requires s.Claim? ==> r.writeIndex < Live(r) + SLOTS
    ensures Exact(Next(r, s))
  {
    if s.Claim? {
      ClaimKeepsExact(r, s.t);
    } else if s.StoreWord? {
      StoreKeepsExact(r, s.t);
    } else if s.Commit? {
      CommitKeepsExact(r, s.t);
    } else if DrainerStep(s) {
      DrainerKeepsExact(r, s);
    } else {
      QuietStepKeepsExact(r, s);
    }
  }

  lemma {:induction false} ExactInRun(run: seq<Step>)
    requires Legal(run) && NeverOverrun(run)
    ensures Exact(After(run)) && AlwaysHolds(After(run))
    decreases |run|
  {
    AlwaysInRun(run);
    if run != [] {
      ExactInRun(run[..|run| - 1]);
      StepKeepsExact(After(run[..|run| - 1]), run[|run| - 1]);
    }
  }

  /** Exactness: if no claim is taken a full ring ahead of the live cursor, then in every
      interleaving what the drainer has emitted is exactly the payloads of claims
      0, 1, 2, ... in order, never torn, lost or repeated, and nothing is counted as
      dropped by the driver. */
  lemma DrainedExactly(run: seq<Step>)
    requires Legal(run) && NeverOverrun(run)
    ensures var r := After(run);
            && r.lost == 0
            && |r.delivered| == Live(r) <= |r.claims|
            && forall i: nat | i < |r.delivered| :: r.delivered[i] == (i, r.claims[i])
  {
    ExactInRun(run);
  }

  // ---- The producer-side counter

  /** Threads that took a second-lap or later claim and have not accounted for it. */
  function Uncounted(r: Ring): set<nat> {
    set t | t in r.producers && (r.producers[t].Claimed? || r.producers[t].Lapped?) && r.producers[t].claim >= SLOTS
  }

  lemma UncountedAtClaim(r: Ring, t: nat)
    requires Exact(r) && Enabled(r, Claim(t))
    ensures var r' := Next(r, Claim(t));
            r'.dropped == r.dropped && |Uncounted(r')| == |Uncounted(r)| + if r.writeIndex >= SLOTS then 1 else 0
  {
    var r' := Next(r, Claim(t));
    assert t !in Uncounted(r);
    assert Uncounted(r') == Uncounted(r) + if r.writeIndex >= SLOTS then {t} else {};
  }

  lemma UncountedAtLoad(r: Ring, t: nat)
    requires Exact(r) && Enabled(r, LoadPrevious(t))
    ensures var r' := Next(r, LoadPrevious(t)); r'.dropped == r.dropped && Uncounted(r') == Uncounted(r)
  {
    assert Holding(r, t) && HolderExact(r, t);
  }

  lemma UncountedAtDrop(r: Ring, t: nat)
    requires Exact(r) && Enabled(r, CountDrop(t))
    ensures var r' := Next(r, CountDrop(t));
            r'.dropped == r.dropped + 1 && |Uncounted(r')| == |Uncounted(r)| - 1
  {
    var r' := Next(r, CountDrop(t));
    assert Holding(r, t) && HolderExact(r, t);
    assert t in Uncounted(r) && Uncounted(r') == Uncounted(r) - {t};
  }

  lemma UncountedElsewhere(r: Ring, s: Step)
    requires Shaped(r) && Enabled(r, s) && !s.Claim? && !s.LoadPrevious? && !s.CountDrop?
    ensures var r' := Next(r, s); r'.dropped == r.dropped && Uncounted(r') == Uncounted(r)
  {
  }

  lemma UncountedStep(r: Ring, s: Step)
    requires Exact(r) && Enabled(r, s)
    ensures var r' := Next(r, s);
            r'.dropped + |Uncounted(r')| - (r.dropped + |Uncounted(r)|)
            == if s.Claim? && r.writeIndex >= SLOTS then 1 else 0
  {
    if s.Claim? {
      UncountedAtClaim(r, s.t);
    } else if s.LoadPrevious? {
      UncountedAtLoad(r, s.t);
    } else if s.CountDrop? {
      UncountedAtDrop(r, s.t);
    } else {
      UncountedElsewhere(r, s);
    }
  }

  lemma {:induction false} DroppedAndUncounted(run: seq<Step>)
    requires Legal(run) && NeverOverrun(run)
    ensures var r := After(run);
            r.dropped + |Uncounted(r)| == if r.writeIndex > SLOTS then r.writeIndex - SLOTS else 0
    decreases |run|
  {
    if run != [] {
      var init := run[..|run| - 1];
      DroppedAndUncounted(init);
      ExactInRun(init);
      UncountedStep(After(init), run[|run| - 1]);
    }
  }

  /** The producers' own counter is not a loss count. Although a run that never overruns
      loses nothing, once its threads are done the counter reads the number of claims
      past the first lap: every lapped write, drained or not. */
  lemma DroppedCountsEveryLap(run: seq<Step>)
    requires Legal(run) && NeverOverrun(run) && After(run).producers == map[]
    ensures var r := After(run);
            r.lost == 0 && r.dropped == if r.writeIndex > SLOTS then r.writeIndex - SLOTS else 0
  {
    DrainedExactly(run);
    DroppedAndUncounted(run);
    assert Uncounted(After(run)) == {};
  }
}
