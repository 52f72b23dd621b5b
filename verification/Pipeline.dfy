/** Every record's fate in the driver, over whole runs (driver/secoutfall/secoutfall.cpp). */
module Pipeline {
  import opened Wire
  import opened Queues

  /** The drain's queue order. */
  const ITEMS: nat := 0
  const FILES: nat := 1
  const DROPS: nat := 2

  type Class = c: nat | c < 3

  function CapOf(c: Class): (cap: nat)
    ensures cap > 0
  {
    if c == ITEMS then ITEMS_CAP else if c == FILES then FILES_CAP else DROPS_CAP
  }

  datatype State = State(
    next: nat,                  // NextSequence: the last number assigned
    issued: seq<Item>,          // every record AllocRecord started
    inFlight: multiset<Item>,   // allocated, not yet pushed
    queues: seq<History>,
    delivered: seq<Item>,
    skipped: seq<Item>,         // removed because no buffer of this client could hold them
    evicted: multiset<Item>,
    stopped: multiset<Item>)

  const START := State(0, [], multiset{}, [EMPTY_HISTORY, EMPTY_HISTORY, EMPTY_HISTORY], [], [], multiset{}, multiset{})

  /** Emitters take sequence numbers and push; drains take or skip; in any interleaving. */
  datatype Step =
    | Alloc(bytes: seq<byte>)
    | AllocFails
    | Push(cls: Class, item: Item)
    | Emit(emitCls: Class, emitBytes: seq<byte>)   // Alloc and its Push with nothing between
    | Take(takeCls: Class, room: nat)
    | Skip(skipCls: Class, size: nat)

  predicate Shaped(s: State) {
    |s.queues| == 3 && forall c: Class :: c < |s.queues| ==> |s.queues[c].list| <= CapOf(c)
  }

  function AfterAlloc(s: State, bytes: seq<byte>): State {
    var item := Item(s.next + 1, bytes);
    s.(next := s.next + 1, issued := s.issued + [item], inFlight := s.inFlight + multiset{item})
  }

  function PushOperation(c: Class, item: Item): Operation {
    if c == DROPS then Accept(item) else PushOldest(item)
  }

  /** PushRecord and PushDropRecord. */
  function AfterPush(s: State, c: Class, item: Item): (r: State)
    requires Shaped(s)
    ensures Shaped(r)
  {
    if item !in s.inFlight then s
    else
      var q := s.queues[c];
      var full := |q.list| == CapOf(c);
      s.(inFlight := s.inFlight - multiset{item},
         queues := s.queues[c := Apply(q, CapOf(c), PushOperation(c, item))],
         evicted := s.evicted + (if full && c != DROPS then multiset{q.list[0]} else multiset{}),
         stopped := s.stopped + (if full && c == DROPS then multiset{item} else multiset{}))
  }

  function Removed(s: State, c: Class): (r: State)
    requires Shaped(s)
    ensures Shaped(r)
  {
    s.(queues := s.queues[c := Apply(s.queues[c], CapOf(c), Remove)])
  }

  predicate CanTake(s: State, c: Class, room: nat)
    requires Shaped(s)
  {
    s.queues[c].list != [] && |s.queues[c].list[0].bytes| <= room
  }

  predicate CanSkip(s: State, c: Class, size: nat)
    requires Shaped(s)
  {
    s.queues[c].list != [] && |s.queues[c].list[0].bytes| > size
  }

  /** One PopIfFits by a drain. */
  function AfterTake(s: State, c: Class, room: nat): (r: State)
    requires Shaped(s)
    ensures Shaped(r)
  {
    if CanTake(s, c, room) then Removed(s, c).(delivered := s.delivered + [s.queues[c].list[0]]) else s
  }

  /** The drain's oversized-skip. */
  function AfterSkip(s: State, c: Class, size: nat): (r: State)
    requires Shaped(s)
    ensures Shaped(r)
  {
    if CanSkip(s, c, size) then Removed(s, c).(skipped := s.skipped + [s.queues[c].list[0]]) else s
  }

  function Next(s: State, step: Step): (r: State)
    requires Shaped(s)
    ensures Shaped(r)
  {
    match step
    case Alloc(bytes) => AfterAlloc(s, bytes)
    case AllocFails => s
    case Push(c, item) => AfterPush(s, c, item)
    case Emit(c, bytes) => AfterPush(AfterAlloc(s, bytes), c, Item(s.next + 1, bytes))
    case Take(c, room) => AfterTake(s, c, room)
    case Skip(c, size) => AfterSkip(s, c, size)
  }

  function After(steps: seq<Step>): (s: State)
    ensures Shaped(s)
  {
    if steps == [] then START else Next(After(steps[..|steps| - 1]), steps[|steps| - 1])
  }

  // ---- Conservation

  function Resident(s: State): multiset<Item>
    requires |s.queues| == 3
  {
    multiset(s.queues[0].list) + multiset(s.queues[1].list) + multiset(s.queues[2].list)
  }

  /** Where every record ever started is now. */
  function Whereabouts(s: State): multiset<Item>
    requires |s.queues| == 3
  {
    s.inFlight + Resident(s) + multiset(s.delivered) + multiset(s.skipped) + s.evicted + s.stopped
  }

  predicate Conserved(s: State) {
    && |s.queues| == 3
    && multiset(s.issued) == Whereabouts(s)
    && |s.issued| == s.next
    && (forall i :: 0 <= i < |s.issued| ==> s.issued[i].sequence == i + 1)
    && |s.evicted| == s.queues[ITEMS].overwritten + s.queues[FILES].overwritten
    && |s.stopped| == s.queues[DROPS].refused
    && s.queues[ITEMS].refused == s.queues[FILES].refused == s.queues[DROPS].overwritten == 0
  }

  lemma HeadOff(q: seq<Item>)
    requires q != []
    ensures multiset(q) == multiset{q[0]} + multiset(q[1..])
  {
    assert q == [q[0]] + q[1..];
  }

  /** What a push adds to a queue and what it pushes out. */
  lemma PushBalance(h: History, c: Class, item: Item)
    requires |h.list| <= CapOf(c)
    ensures var r := Apply(h, CapOf(c), PushOperation(c, item));
            var full := |h.list| == CapOf(c);
            multiset(r.list) + (if !full then multiset{} else if c
                  == DROPS then multiset{item} else multiset{h.list[0]})
            == multiset(h.list) + multiset{item}
  {
    if |h.list| == CapOf(c) && c != DROPS {
      HeadOff(h.list);
    }
  }

  lemma ResidentUpdate(s: State, r: State, c: Class, h: History)
    requires |s.queues| == 3 && r.queues == s.queues[c := h]
    ensures Resident(r) + multiset(s.queues[c].list) == Resident(s) + multiset(h.list)
  {
  }

  lemma AllocConserves(s: State, bytes: seq<byte>)
    requires Conserved(s)
    ensures Conserved(AfterAlloc(s, bytes))
  {
  }

  /** Exchanging one queue's contents for others, with the difference accounted for. */
  lemma Exchange(resident: multiset<Item>, was: multiset<Item>, now: multiset<Item>, after: multiset<Item>,
                 gained: multiset<Item>, lost: multiset<Item>)
    requires after + was == resident + now && now + lost == was + gained
    ensures after + lost == resident + gained
  {
    forall x
      ensures (after + lost)[x] == (resident + gained)[x]
    {
      assert (after + was)[x] == (resident + now)[x];
      assert (now + lost)[x] == (was + gained)[x];
    }
  }

  lemma PushMovesOne(s: State, c: Class, item: Item)
    requires Shaped(s) && item in s.inFlight
    ensures Whereabouts(AfterPush(s, c, item)) == Whereabouts(s)
  {
    var r := AfterPush(s, c, item);
    var q := s.queues[c];
    var full := |q.list| == CapOf(c);
    var lost := if !full then multiset{} else if c == DROPS then multiset{item} else multiset{q.list[0]};
    ResidentUpdate(s, r, c, r.queues[c]);
    PushBalance(q, c, item);
    Exchange(Resident(s), multiset(q.list), multiset(r.queues[c].list), Resident(r), multiset{item}, lost);
    assert s.inFlight == r.inFlight + multiset{item};
    assert r.evicted + r.stopped == s.evicted + s.stopped + lost;
    Rearranged(s, r, item, lost);
  }

  lemma PushConserves(s: State, c: Class, item: Item)
    requires Shaped(s) && Conserved(s)
    ensures Conserved(AfterPush(s, c, item))
  {
    if item in s.inFlight {
      PushMovesOne(s, c, item);
    }
  }

  lemma Rearranged(s: State, r: State, item: Item, lost: multiset<Item>)
    requires |s.queues| == |r.queues| == 3
    requires Resident(r) + lost == Resident(s) + multiset{item}
    requires s.inFlight == r.inFlight + multiset{item} && r.evicted + r.stopped == s.evicted + s.stopped + lost
    requires r.delivered == s.delivered && r.skipped == s.skipped
    ensures Whereabouts(r) == Whereabouts(s)
  {
    var other := multiset(s.delivered) + multiset(s.skipped);
    assert Whereabouts(s) == s.inFlight + Resident(s) + other + (s.evicted + s.stopped);
    assert Whereabouts(r) == r.inFlight + Resident(r) + other + (r.evicted + r.stopped);
    assert Whereabouts(r) == r.inFlight + (Resident(r) + lost) + other + (s.evicted + s.stopped);
  }

  lemma RemovalBalance(s: State, c: Class)
    requires Shaped(s) && s.queues[c].list != []
    ensures Resident(Removed(s, c)) + multiset{s.queues[c].list[0]} == Resident(s)
  {
    var r := Removed(s, c);
    var q := s.queues[c].list;
    HeadOff(q);
    ResidentUpdate(s, r, c, r.queues[c]);
    Exchange(Resident(s), multiset(q), multiset(q[1..]), Resident(r), multiset{}, multiset{q[0]});
  }

  lemma RemovalConserves(s: State, c: Class, r: State)
    requires Shaped(s) && Conserved(s) && s.queues[c].list != []
    requires var item := s.queues[c].list[0];
             r == Removed(s, c).(delivered := s.delivered + [item])
                   || r == Removed(s, c).(skipped := s.skipped + [item])
    ensures Conserved(r)
  {
    var item := s.queues[c].list[0];
    RemovalBalance(s, c);
    RemovedRearranged(s, r, item);
  }

  lemma RemovedRearranged(s: State, r: State, item: Item)
    requires |s.queues| == |r.queues| == 3
    requires Resident(r) + multiset{item} == Resident(s)
    requires r.inFlight == s.inFlight && r.evicted == s.evicted && r.stopped == s.stopped
    requires || (r.delivered == s.delivered + [item] && r.skipped == s.skipped)
             || (r.delivered == s.delivered && r.skipped == s.skipped + [item])
    ensures Whereabouts(r) == Whereabouts(s)
  {
    var was, now := multiset(s.delivered) + multiset(s.skipped), multiset(r.delivered) + multiset(r.skipped);
    assert now == was + multiset{item};
    assert Whereabouts(s) == s.inFlight + Resident(s) + was + s.evicted + s.stopped;
    assert Whereabouts(r) == r.inFlight + Resident(r) + now + r.evicted + r.stopped;
  }

  lemma NextConserves(s: State, step: Step)
    requires Shaped(s) && Conserved(s)
    ensures Conserved(Next(s, step))
  {
    match step
    case Alloc(bytes) => AllocConserves(s, bytes);
    case AllocFails =>
    case Push(c, item) => PushConserves(s, c, item);
    case Emit(c, bytes) =>
      AllocConserves(s, bytes);
      PushConserves(AfterAlloc(s, bytes), c, Item(s.next + 1, bytes));
    case Take(c, room) =>
      if CanTake(s, c, room) {
        RemovalConserves(s, c, Next(s, step));
      }
    case Skip(c, size) =>
      if CanSkip(s, c, size) {
        RemovalConserves(s, c, Next(s, step));
      }
  }

  lemma {:induction false} AlwaysConserved(steps: seq<Step>)
    ensures Conserved(After(steps))
  {
    if steps == [] {
      assert Resident(START) == multiset{};
    } else {
      AlwaysConserved(steps[..|steps| - 1]);
      NextConserves(After(steps[..|steps| - 1]), steps[|steps| - 1]);
    }
  }

  /** Nothing is ever lost silently: once no emitter is between its allocation and its
      push, the numbers handed out are exactly the records delivered, resident, overwritten,
      refused or skipped, each counted by the driver's own counters. */
  lemma SequenceConservation(steps: seq<Step>)
    requires After(steps).inFlight == multiset{}
    ensures var s := After(steps);
            s.next == |s.delivered| + |s.queues[ITEMS].list| + |s.queues[FILES].list| + |s.queues[DROPS].list|
                      + s.queues[ITEMS].overwritten + s.queues[FILES].overwritten + s.queues[DROPS].refused
                            + |s.skipped|
  {
    AlwaysConserved(steps);
    var s := After(steps);
    assert |multiset(s.issued)| == |Whereabouts(s)|;
    assert |Whereabouts(s)| == |s.inFlight| + |Resident(s)| + |s.delivered| + |s.skipped| + |s.evicted| + |s.stopped|;
  }

  lemma {:induction false} IssuedOnce(issued: seq<Item>, item: Item)
    requires forall i :: 0 <= i < |issued| ==> issued[i].sequence == i + 1
    ensures multiset(issued)[item] == if item in issued then 1 else 0
  {
    if issued != [] {
      var n := |issued| - 1;
      assert issued == issued[..n] + [issued[n]];
      IssuedOnce(issued[..n], item);
      assert item == issued[n] ==> item !in issued[..n];
    }
  }

  /** No record is ever in two places: not delivered twice, and not both delivered and
      still queued, lost or in flight. */
  lemma OneFate(steps: seq<Step>, item: Item)
    ensures Whereabouts(After(steps))[item] == (if item in After(steps).issued then 1 else 0)
  {
    AlwaysConserved(steps);
    IssuedOnce(After(steps).issued, item);
  }

  // ---- Each queue inside the whole run

  function OperationOf(s: State, c: Class, step: Step): seq<Operation>
    requires Shaped(s)
  {
    match step
    case Push(p, item) => if p == c && item in s.inFlight then [PushOperation(c, item)] else []
    case Emit(p, bytes) => if p == c then [PushOperation(c, Item(s.next + 1, bytes))] else []
    case Take(p, room) => if p == c && CanTake(s, c, room) then [Remove] else []
    case Skip(p, size) => if p == c && CanSkip(s, c, size) then [Remove] else []
    case _ => []
  }

  function OperationsOf(c: Class, steps: seq<Step>): seq<Operation> {
    if steps == [] then []
    else OperationsOf(c, steps[..|steps| - 1]) + OperationOf(After(steps[..|steps| - 1]), c, steps[|steps| - 1])
  }

  function AppliedTo(h: History, cap: nat, ops: seq<Operation>): History
    requires cap > 0 && |h.list| <= cap
  {
    if ops == [] then h else Apply(h, cap, ops[0])
  }

  lemma PushIsOne(s: State, p: Class, item: Item, c: Class)
    requires Shaped(s)
    ensures AfterPush(s, p, item).queues[c]
         == AppliedTo(s.queues[c], CapOf(c), if p == c && item in s.inFlight then [PushOperation(c, item)] else [])
  {
  }

  lemma OneOperation(s: State, c: Class, step: Step)
    requires Shaped(s)
    ensures Next(s, step).queues[c] == AppliedTo(s.queues[c], CapOf(c), OperationOf(s, c, step))
  {
    match step
    case Push(p, item) => PushIsOne(s, p, item, c);
    case Emit(p, bytes) => PushIsOne(AfterAlloc(s, bytes), p, Item(s.next + 1, bytes), c);
    case _ =>
  }

  lemma RunSnoc(ops: seq<Operation>, more: seq<Operation>, cap: nat)
    requires cap > 0 && |more| <= 1
    ensures RunOf(ops + more, cap) == AppliedTo(RunOf(ops, cap), cap, more)
  {
    if more == [] {
      assert ops + more == ops;
    } else {
      assert (ops + more)[..|ops + more| - 1] == ops;
    }
  }

  /** Whatever the interleaving, each queue's history is a run of that queue alone, so
      everything proved of one queue's runs holds inside the driver. */
  lemma {:induction false} QueueRuns(c: Class, steps: seq<Step>)
    ensures After(steps).queues[c] == RunOf(OperationsOf(c, steps), CapOf(c))
  {
    if steps != [] {
      var init, step := steps[..|steps| - 1], steps[|steps| - 1];
      QueueRuns(c, init);
      OneOperation(After(init), c, step);
      RunSnoc(OperationsOf(c, init), OperationOf(After(init), c, step), CapOf(c));
    }
  }

  lemma {:induction false} QueueKinds(c: Class, steps: seq<Step>)
    ensures if c == DROPS then StopCollectOnly(OperationsOf(c, steps)) else DropOldestOnly(OperationsOf(c, steps))
  {
    if steps != [] {
      QueueKinds(c, steps[..|steps| - 1]);
    }
  }

  /** The two drop-oldest queues keep exactly the newest records up to their cap among
      those after the last one given out. */
  lemma NewestAreKept(c: Class, steps: seq<Step>)
    requires c != DROPS
    ensures HoldsNewest(After(steps).queues[c], CapOf(c))
  {
    QueueRuns(c, steps);
    QueueKinds(c, steps);
    HoldsTheNewest(OperationsOf(c, steps), CapOf(c));
  }

  /** Drop evidence delivered, then resident, is exactly what was accepted. */
  lemma EvidenceIsKept(steps: seq<Step>)
    ensures var h := After(steps).queues[DROPS];
            && h.overwritten == 0
            && (forall i :: 0 <= i < |h.out| ==> h.out[i] < |h.taken|)
            && Delivered(h) + h.list == h.taken
  {
    QueueRuns(DROPS, steps);
    QueueKinds(DROPS, steps);
    AcceptedIsKept(OperationsOf(DROPS, steps), CapOf(DROPS));
  }

  // ---- Order

  predicate Below(q: seq<Item>, bound: nat) {
    forall item <- q :: 0 < item.sequence <= bound
  }

  predicate Ordered(s: State) {
    |s.queues| == 3 && forall c: Class :: c < |s.queues| ==>
        Ascending(s.queues[c].list) && Below(s.queues[c].list, s.next)
  }

  /** Emitters that allocate and push in one step. */
  predicate Undivided(steps: seq<Step>) {
    forall step <- steps :: !step.Alloc? && !step.Push?
  }

  lemma PushedAscending(q: seq<Item>, cap: nat, item: Item)
    requires cap > 0 && |q| <= cap && Ascending(q) && item.sequence > 0 && Below(q, item.sequence - 1)
    ensures Ascending(Pushed(q, cap, item)) && Below(Pushed(q, cap, item), item.sequence)
  {
  }

  lemma EmitKeepsOrder(s: State, c: Class, bytes: seq<byte>)
    requires Shaped(s) && Ordered(s)
    ensures Ordered(Next(s, Emit(c, bytes)))
  {
    PushedAscending(s.queues[c].list, CapOf(c), Item(s.next + 1, bytes));
  }

  /** The push leaves the queue sorted: nothing enters it, or something younger than its
      tail does. */
  predicate Younger(s: State, c: Class, item: Item)
    requires Shaped(s)
  {
    var q := s.queues[c].list;
    || item !in s.inFlight || q == [] || q[|q| - 1].sequence < item.sequence
    || (c == DROPS && |q| == CapOf(c))
  }

  lemma TailAscends(q: seq<Item>, item: Item)
    requires Ascending(q)
    ensures Ascending(q + [item]) <==> q == [] || q[|q| - 1].sequence < item.sequence
  {
    var r := q + [item];
    if q != [] {
      assert r[|q| - 1] == q[|q| - 1] && r[|q|] == item;
    }
  }

  lemma TailOfPushed(q: seq<Item>, cap: nat, item: Item)
    requires cap > 1 && |q| <= cap && Ascending(q)
    ensures Ascending(Pushed(q, cap, item)) <==> q == [] || q[|q| - 1].sequence < item.sequence
  {
    if |q| == cap {
      assert Ascending(q[1..]);
      TailAscends(q[1..], item);
    } else {
      TailAscends(q, item);
    }
  }

  lemma BelowPushed(q: seq<Item>, cap: nat, item: Item, bound: nat)
    requires cap > 0 && |q| <= cap && Below(q, bound) && 0 < item.sequence <= bound
    ensures Below(Pushed(q, cap, item), bound) && Below(q + [item], bound)
  {
  }

  /** A push keeps the queues sorted exactly when its record is younger than its queue's
      tail, or enters no queue at all. */
  lemma PushKeepsOrderIff(s: State, c: Class, item: Item)
    requires Shaped(s) && Ordered(s) && (item in s.inFlight ==> 0 < item.sequence <= s.next)
    ensures Ordered(AfterPush(s, c, item)) <==> Younger(s, c, item)
  {
    if item in s.inFlight {
      var q, r := s.queues[c].list, AfterPush(s, c, item);
      assert Ascending(q) && Below(q, s.next);
      if c == DROPS {
        TailAscends(q, item);
      } else {
        TailOfPushed(q, CapOf(c), item);
      }
      BelowPushed(q, CapOf(c), item, s.next);
      assert forall d: Class :: d != c ==> r.queues[d] == s.queues[d];
    }
  }

  /** Every push of a step is younger than its queue's tail; a push next to its allocation
      always is. */
  predicate InOrder(s: State, step: Step)
    requires Shaped(s)
  {
    step.Push? ==> Younger(s, step.cls, step.item)
  }

  predicate InOrderRun(steps: seq<Step>) {
    steps == [] || (InOrderRun(steps[..|steps| - 1]) && InOrder(After(steps[..|steps| - 1]), steps[|steps| - 1]))
  }

  lemma RemovalKeepsOrder(s: State, c: Class)
    requires Shaped(s) && Ordered(s)
    ensures Ordered(Removed(s, c))
  {
    var q := s.queues[c].list;
    if q != [] {
      assert Ascending(q[1..]) && Below(q[1..], s.next);
    }
  }

  lemma InFlightNumbered(s: State, item: Item)
    requires Conserved(s) && item in s.inFlight
    ensures 0 < item.sequence <= s.next
  {
    assert item in multiset(s.issued);
  }

  lemma OrderStep(s: State, step: Step)
    requires Shaped(s) && Conserved(s) && Ordered(s)
    ensures Ordered(Next(s, step)) <==> InOrder(s, step)
  {
    match step
    case Alloc(bytes) =>
      assert AfterAlloc(s, bytes).queues == s.queues;
    case AllocFails =>
    case Push(c, item) =>
      if item in s.inFlight {
        InFlightNumbered(s, item);
      }
      PushKeepsOrderIff(s, c, item);
    case Emit(c, bytes) => EmitKeepsOrder(s, c, bytes);
    case Take(c, room) => RemovalKeepsOrder(s, c);
    case Skip(c, size) => RemovalKeepsOrder(s, c);
  }

  /** Sorted queues after the run and after every prefix of it. */
  predicate AlwaysOrdered(steps: seq<Step>) {
    Ordered(After(steps)) && (steps == [] || AlwaysOrdered(steps[..|steps| - 1]))
  }

  /** A run keeps every queue sorted throughout exactly when every push is younger than its
      queue's tail, or is refused. */
  lemma {:induction false} SortedIffInOrder(steps: seq<Step>)
    ensures AlwaysOrdered(steps) <==> InOrderRun(steps)
    decreases |steps|
  {
    if steps == [] {
      assert Ordered(START);
    } else {
      var init := steps[..|steps| - 1];
      SortedIffInOrder(init);
      if AlwaysOrdered(init) {
        AlwaysConserved(init);
        OrderStep(After(init), steps[|steps| - 1]);
      }
    }
  }

  /** Two emitters that overlap, from any sorted state the pipeline reaches: if the first to
      allocate is the last to push, its queue is still sorted after the second's push and
      out of order after its own. */
  lemma DividedEmittersDisorder(s: State, c: Class, first: seq<byte>, second: seq<byte>)
    requires Shaped(s) && Conserved(s) && Ordered(s) && c != DROPS
    ensures var a, b := Item(s.next + 1, first), Item(s.next + 2, second);
            var pushed := AfterPush(AfterAlloc(AfterAlloc(s, first), second), c, b);
            Ordered(pushed) && !Ordered(AfterPush(pushed, c, a))
  {
    var a, b := Item(s.next + 1, first), Item(s.next + 2, second);
    var s2 := AfterAlloc(AfterAlloc(s, first), second);
    TwoAllocated(s, c, first, second);
    AllocConserves(s, first);
    AllocConserves(AfterAlloc(s, first), second);
    AllocKeepsOrder(s, first);
    AllocKeepsOrder(AfterAlloc(s, first), second);
    InFlightNumbered(s2, b);
    PushKeepsOrderIff(s2, c, b);
    PushConserves(s2, c, b);
    YoungerOnly(AfterPush(s2, c, b), c, a);
  }

  lemma {:induction false} UndividedIsInOrder(steps: seq<Step>)
    requires Undivided(steps)
    ensures InOrderRun(steps)
  {
    if steps != [] {
      assert steps[|steps| - 1] in steps;
      UndividedIsInOrder(steps[..|steps| - 1]);
    }
  }

  /** If allocation and push are one step, every queue is strictly sorted by sequence. */
  lemma QueuesSorted(steps: seq<Step>)
    requires Undivided(steps)
    ensures Ordered(After(steps))
  {
    UndividedIsInOrder(steps);
    SortedIffInOrder(steps);
  }

  lemma AllocKeepsOrder(s: State, bytes: seq<byte>)
    requires Ordered(s)
    ensures Ordered(AfterAlloc(s, bytes))
  {
  }

  lemma YoungerOnly(s: State, c: Class, item: Item)
    requires Shaped(s) && Conserved(s) && Ordered(s) && !Younger(s, c, item)
    ensures !Ordered(AfterPush(s, c, item))
  {
    InFlightNumbered(s, item);
    PushKeepsOrderIff(s, c, item);
  }

  lemma TwoAllocated(s: State, c: Class, first: seq<byte>, second: seq<byte>)
    requires Shaped(s) && Ordered(s) && c != DROPS
    ensures var a, b := Item(s.next + 1, first), Item(s.next + 2, second);
            var s2 := AfterAlloc(AfterAlloc(s, first), second);
            && b in s2.inFlight && Younger(s2, c, b)
            && !Younger(AfterPush(s2, c, b), c, a)
  {
    var a, b := Item(s.next + 1, first), Item(s.next + 2, second);
    var s2 := AfterAlloc(AfterAlloc(s, first), second);
    var q := s.queues[c].list;
    assert Below(q, s.next);
    assert s2.inFlight == s.inFlight + multiset{a} + multiset{b};
    PushedLast(s2, c, b);
  }

  lemma PushedLast(s: State, c: Class, item: Item)
    requires Shaped(s) && item in s.inFlight && c != DROPS
    ensures var r := AfterPush(s, c, item);
            && r.queues[c].list != [] && r.queues[c].list[|r.queues[c].list| - 1] == item
            && r.inFlight == s.inFlight - multiset{item}
  {
  }
}
