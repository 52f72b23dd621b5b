/** Which queue each record enters, and that drop evidence is never evicted
    (driver/secoutfall/secoutfall.cpp). */
module QueueClasses {
  import opened Wrappers
  import opened Wire
  import opened Queues
  import opened EndToEnd
  import opened Driver
  import opened WholeRuns
  import opened WireTable
  import P = Pipeline
  import D = Drain

  /** The type code a record carries at bytes 4 and 5. */
  function CodeIn(item: Item): nat {
    if |item.bytes| < 6 then 0
    else
      var lo: nat, hi: nat := item.bytes[4], item.bytes[5];
      lo + 256 * hi
  }

  predicate IsEvidence(item: Item) {
    CodeIn(item) == 14
  }

  predicate IsFlood(item: Item) {
    CodeIn(item) in {9, 10, 11, 12, 13, 15}
  }

  /** Evidence has its own queue, file and behaviour records theirs, the rest the first. */
  predicate Belongs(queue: nat, item: Item) {
    if queue == 2 then IsEvidence(item)
    else if queue == 1 then IsFlood(item)
    else !IsEvidence(item) && !IsFlood(item)
  }

  predicate AllBelong(c: nat, items: seq<Item>) {
    forall item <- items :: Belongs(c, item)
  }

  predicate QueuesClassed(queues: seq<History>) {
    |queues| == 3 && forall c: nat :: c < 3 ==> AllBelong(c, queues[c].taken) && AllBelong(c, queues[c].list)
  }

  /** Where everything that ever entered a queue, or was lost, belongs. */
  predicate Classed(s: P.State) {
    && QueuesClassed(s.queues)
    && (forall item <- s.evicted :: !IsEvidence(item))
    && (forall item <- s.stopped :: IsEvidence(item))
  }

  // ---- What the driver's own callbacks do

  /** The item an emitter pushes, into the queue it pushes to. */
  ghost predicate PushOf(c: P.Class, item: Item) {
    exists st, ev :: item == ItemFor(st, ev) && c == ClassOf(ev)
  }

  /** Steps of the driver: emitters allocate and push their own records, drains keep to the
      size guard; in any interleaving. */
  ghost predicate ByDriver(s: P.State, step: P.Step) {
    && Honest(s, step)
    && (step.Push? ==> PushOf(step.cls, step.item))
    && (step.Emit? ==> PushOf(step.emitCls, Item(s.next + 1, step.emitBytes)))
  }

  ghost predicate DriverRun(steps: seq<P.Step>) {
    steps == [] || (DriverRun(steps[..|steps| - 1]) && ByDriver(P.After(steps[..|steps| - 1]), steps[|steps| - 1]))
  }

  lemma CodeOfItem(st: Stamp, ev: Event)
    ensures CodeIn(ItemFor(st, ev)) == CodeFor(ev)
  {
    EventIsTold(st, ev, []);
  }

  lemma PushBelongs(c: P.Class, item: Item)
    requires PushOf(c, item)
    ensures Belongs(c, item)
  {
    var st, ev :| item == ItemFor(st, ev) && c == ClassOf(ev);
    CodeOfItem(st, ev);
  }

  lemma OneMoreBelongs(c: nat, items: seq<Item>, item: Item)
    requires AllBelong(c, items) && Belongs(c, item)
    ensures AllBelong(c, items + [item])
    ensures items != [] ==> AllBelong(c, items[1..] + [item])
  {
    assert items != [] ==> forall i <- items[1..] :: i in items;
  }

  lemma AddedBelongs(q: History, cap: nat, c: P.Class, item: Item)
    requires cap > 0 && |q.list| <= cap && Belongs(c, item) && AllBelong(c, q.list) && AllBelong(c, q.taken)
    ensures var r := Apply(q, cap, P.PushOperation(c, item)); AllBelong(c, r.list) && AllBelong(c, r.taken)
  {
    OneMoreBelongs(c, q.list, item);
    OneMoreBelongs(c, q.taken, item);
  }

  lemma QueuePushed(s: P.State, c: P.Class, item: Item)
    requires P.Shaped(s) && QueuesClassed(s.queues) && Belongs(c, item)
    ensures QueuesClassed(P.AfterPush(s, c, item).queues)
  {
    AddedBelongs(s.queues[c], P.CapOf(c), c, item);
  }

  lemma LossBelongs(s: P.State, c: P.Class, item: Item)
    requires P.Shaped(s) && Classed(s) && Belongs(c, item)
    ensures var r := P.AfterPush(s, c, item);
            (forall i <- r.evicted :: !IsEvidence(i)) && (forall i <- r.stopped :: IsEvidence(i))
  {
    var q := s.queues[c];
    assert q.list != [] ==> q.list[0] in q.list;
    assert q.list != [] ==> Belongs(c, q.list[0]);
  }

  lemma PushClassed(s: P.State, c: P.Class, item: Item)
    requires P.Shaped(s) && Classed(s) && Belongs(c, item)
    ensures Classed(P.AfterPush(s, c, item))
  {
    QueuePushed(s, c, item);
    LossBelongs(s, c, item);
  }

  lemma RemovalClassed(s: P.State, c: P.Class)
    requires P.Shaped(s) && Classed(s)
    ensures Classed(P.Removed(s, c))
  {
    var q := s.queues[c].list;
    assert q != [] ==> forall item <- q[1..] :: item in q;
  }

  lemma DrainClassed(s: P.State, step: P.Step)
    requires P.Shaped(s) && Classed(s) && (step.Take? || step.Skip?)
    ensures Classed(P.Next(s, step))
  {
    RemovalClassed(s, if step.Take? then step.takeCls else step.skipCls);
  }

  lemma AllocClassed(s: P.State, bytes: seq<byte>)
    requires P.Shaped(s) && Classed(s)
    ensures P.Shaped(P.AfterAlloc(s, bytes)) && Classed(P.AfterAlloc(s, bytes))
  {
  }

  lemma EmitIsAllocAndPush(s: P.State, c: P.Class, bytes: seq<byte>)
    requires P.Shaped(s)
    ensures P.Shaped(P.AfterAlloc(s, bytes))
    ensures P.Next(s, P.Emit(c, bytes)) == P.AfterPush(P.AfterAlloc(s, bytes), c, Item(s.next + 1, bytes))
  {
  }

  lemma EmitClassed(s: P.State, c: P.Class, bytes: seq<byte>)
    requires P.Shaped(s) && Classed(s) && Belongs(c, Item(s.next + 1, bytes))
    ensures Classed(P.Next(s, P.Emit(c, bytes)))
  {
    AllocClassed(s, bytes);
    PushClassed(P.AfterAlloc(s, bytes), c, Item(s.next + 1, bytes));
    EmitIsAllocAndPush(s, c, bytes);
  }

  lemma StepClassed(s: P.State, step: P.Step)
    requires P.Shaped(s) && Classed(s) && ByDriver(s, step)
    ensures Classed(P.Next(s, step))
  {
    match step
    case Alloc(bytes) => AllocClassed(s, bytes);
    case AllocFails =>
    case Push(c, item) =>
      PushBelongs(c, item);
      PushClassed(s, c, item);
    case Emit(c, bytes) =>
      PushBelongs(c, Item(s.next + 1, bytes));
      EmitClassed(s, c, bytes);
    case Take(_, _) => DrainClassed(s, step);
    case Skip(_, _) => DrainClassed(s, step);
  }

  lemma {:induction false} AlwaysClassed(steps: seq<P.Step>)
    requires DriverRun(steps)
    ensures Classed(P.After(steps)) && HonestRun(steps)
  {
    if steps != [] {
      AlwaysClassed(steps[..|steps| - 1]);
      StepClassed(P.After(steps[..|steps| - 1]), steps[|steps| - 1]);
    }
  }

  // ---- Fates

  /** The places a record of its class can be in. */
  predicate Fate(s: P.State, item: Item)
    requires |s.queues| == 3
  {
    if IsEvidence(item) then
      item !in s.evicted
      && (item in s.inFlight || item in s.queues[2].list || item in s.delivered || item in s.stopped)
    else
      item !in s.stopped
      && (item in s.inFlight || item in s.delivered || item in s.evicted
          || if IsFlood(item) then item in s.queues[1].list else item in s.queues[0].list)
  }

  lemma IssuedIsSomewhere(s: P.State, item: Item)
    requires P.Conserved(s) && item in s.issued && s.skipped == []
    ensures item in s.inFlight || item in s.delivered || item in s.evicted || item in s.stopped
         || item in s.queues[0].list || item in s.queues[1].list || item in s.queues[2].list
  {
    assert item in multiset(s.issued);
    assert item in P.Whereabouts(s);
    assert item in s.inFlight || item in P.Resident(s) || item in s.delivered || item in s.skipped
        || item in s.evicted || item in s.stopped;
  }

  lemma ClassedFate(s: P.State, item: Item)
    requires P.Conserved(s) && Classed(s) && item in s.issued && s.skipped == []
    ensures Fate(s, item)
  {
    IssuedIsSomewhere(s, item);
    assert item in s.queues[0].list ==> Belongs(0, item);
    assert item in s.queues[1].list ==> Belongs(1, item);
    assert item in s.queues[2].list ==> Belongs(2, item);
  }

  /** In every interleaving of the driver's emitters and drains: whatever enters a queue
      belongs there, no drop evidence is among the evicted, nothing else is refused, and every
      record is in flight, delivered, resident in its own queue, or lost as its class is. */
  lemma EveryRecordInItsClass(steps: seq<P.Step>)
    requires DriverRun(steps)
    ensures Classed(P.After(steps))
    ensures forall item <- P.After(steps).issued :: Fate(P.After(steps), item)
  {
    AlwaysClassed(steps);
    NothingEverSkipped(steps);
    P.AlwaysConserved(steps);
    forall item <- P.After(steps).issued
      ensures Fate(P.After(steps), item)
    {
      ClassedFate(P.After(steps), item);
    }
  }

  // ---- The device's calls

  lemma {:induction false} MovesClassed(s: P.State, moves: seq<D.Move>, size: nat, count: nat)
    requires P.Shaped(s) && Classed(s)
    ensures Classed(AfterMoves(s, moves, size, count))
    decreases |moves|
  {
    if moves != [] && moves[0].queue < 3 && count <= size {
      var step := MoveStep(moves[0], size, count);
      DrainClassed(s, step);
      MovesClassed(P.Next(s, step), moves[1..], size, D.CountAfter(moves[0], count));
    }
  }

  lemma NotificationClassed(s: P.State, call: Call)
    requires Fits(s, 1) && Classed(s) && call.Notification?
    ensures Classed(AfterCall(s, call))
  {
    if call.allocates {
      var st := Stamp(call.pid, s.next + 1, call.time, call.created);
      var item := ItemFor(st, call.ev);
      assert PushOf(ClassOf(call.ev), item);
      PushBelongs(ClassOf(call.ev), item);
      EmitClassed(s, ClassOf(call.ev), item.bytes);
    }
  }

  lemma CallClassed(s: P.State, call: Call)
    requires Fits(s, 1) && Classed(s)
    ensures Classed(AfterCall(s, call))
  {
    if call.Notification? {
      NotificationClassed(s, call);
    } else if call.size >= MAX_RECORD_BYTES {
      MovesClassed(s, MovesOf(s, call.size), call.size, 0);
    }
  }

  lemma {:induction false} ServedClassed(calls: seq<Call>)
    requires |calls| < MAX_SEQUENCE
    ensures Classed(ServedAll(P.START, calls).state)
  {
    if calls != [] {
      ServedClassed(calls[..|calls| - 1]);
      CallClassed(ServedAll(P.START, calls[..|calls| - 1]).state, calls[|calls| - 1]);
    }
  }

  /** Where the record of a notification is after any calls on a device, by what it tells. */
  predicate Whereabouts(s: P.State, ev: Event, item: Item)
    requires |s.queues| == 3
  {
    match ev
    case DropCapturedEvent(_, _, _) =>
      item !in s.evicted && (item in s.inFlight || item in s.queues[2].list || item in s.delivered || item in s.stopped)
    case FileEvent(_, _) => FloodPlace(s, item)
    case FileWrittenEvent(_, _, _) => FloodPlace(s, item)
    case FileRenamedEvent(_, _) => FloodPlace(s, item)
    case BehaviorCallEvent(_, _, _, _, _, _) => FloodPlace(s, item)
    case _ =>
      item !in s.stopped
      && (item in s.inFlight || item in s.queues[0].list || item in s.delivered || item in s.evicted)
  }

  predicate FloodPlace(s: P.State, item: Item)
    requires |s.queues| == 3
  {
    && item !in s.stopped
    && (item in s.inFlight || item in s.queues[1].list || item in s.delivered || item in s.evicted)
  }

  lemma FateOfEvent(s: P.State, st: Stamp, ev: Event, item: Item)
    requires P.Shaped(s) && item == ItemFor(st, ev) && Fate(s, item)
    ensures Whereabouts(s, ev, item)
  {
    CodeOfItem(st, ev);
  }

  lemma ServedIsWhole(calls: seq<Call>)
    requires |calls| < MAX_SEQUENCE
    ensures var s := ServedAll(P.START, calls).state;
            P.Conserved(s) && s.skipped == [] && Issued(P.START, s, ServedAll(P.START, calls).built)
  {
    StartIsReachable();
    CallsComeTo(P.START, calls);
    var s := ServedAll(P.START, calls).state;
    var steps :| HonestRun(steps) && P.After(steps) == s;
    P.AlwaysConserved(steps);
  }

  /** After any calls on a device, the record of each notification that got one: a drop
      capture is never evicted, only resident in the evidence queue, delivered or refused;
      files and behaviour are resident only in the 4096 queue, and all else in the 256 one. */
  lemma EveryNotificationInItsClass(calls: seq<Call>, i: nat)
    requires |calls| < MAX_SEQUENCE && i < |ServedAll(P.START, calls).built|
    ensures var s, n := ServedAll(P.START, calls).state, ServedAll(P.START, calls).built[i];
            i < |s.issued| && s.issued[i] == ItemFor(n.0, n.1) && |s.queues| == 3 && Whereabouts(s, n.1, s.issued[i])
  {
    var r := ServedAll(P.START, calls);
    ServedIsWhole(calls);
    ServedClassed(calls);
    assert IssuedAs(r.state, |P.START.issued| + i, r.built[i]);
    ClassedFate(r.state, r.state.issued[i]);
    FateOfEvent(r.state, r.built[i].0, r.built[i].1, r.state.issued[i]);
  }

  /** The caps of the three queues. */
  lemma QueueCaps(calls: seq<Call>)
    requires |calls| < MAX_SEQUENCE
    ensures var s := ServedAll(P.START, calls).state;
            && |s.queues| == 3 && |s.queues[0].list| <= 256 && |s.queues[1].list| <= 4096
            && |s.queues[2].list| <= 512
  {
    var s := ServedAll(P.START, calls).state;
    assert |s.queues[0].list| <= P.CapOf(0) && |s.queues[1].list| <= P.CapOf(1) && |s.queues[2].list| <= P.CapOf(2);
  }
}
