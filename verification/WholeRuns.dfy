/** The drain's and the decoder's guarantees at every reachable state of the driver: what
    emitters put in is all a drain ever finds. */
module WholeRuns {
  import opened Wrappers
  import opened Wire
  import opened Decoder
  import opened Queues
  import opened RoundTrip
  import opened EndToEnd
  import opened Driver
  import P = Pipeline
  import D = Drain

  /** The bytes an emitter writes under the next sequence number. */
  ghost predicate ByAnEmitter(s: P.State, bytes: seq<byte>) {
    exists st, ev :: Item(s.next + 1, bytes) == ItemFor(st, ev)
  }

  /** Records come from emitters only, and drains keep to the size guard. */
  ghost predicate Honest(s: P.State, step: P.Step) {
    match step
    case Alloc(bytes) => ByAnEmitter(s, bytes)
    case Emit(_, bytes) => ByAnEmitter(s, bytes)
    case Skip(_, size) => size >= MAX_RECORD_BYTES
    case _ => true
  }

  ghost predicate HonestRun(steps: seq<P.Step>) {
    steps == [] || (HonestRun(steps[..|steps| - 1]) && Honest(P.After(steps[..|steps| - 1]), steps[|steps| - 1]))
  }

  ghost predicate AllIssuedEmitted(s: P.State) {
    forall item <- s.issued :: Emitted(item)
  }

  lemma QueuedWasIssued(s: P.State, c: P.Class, item: Item)
    requires P.Conserved(s) && item in s.queues[c].list
    ensures item in s.issued
  {
    assert item in multiset(s.queues[c].list);
    assert item in P.Resident(s);
    assert item in multiset(s.issued);
  }

  function NewlyIssued(s: P.State, step: P.Step): seq<Item> {
    match step
    case Alloc(bytes) => [Item(s.next + 1, bytes)]
    case Emit(_, bytes) => [Item(s.next + 1, bytes)]
    case _ => []
  }

  lemma PushIssuesNothing(s: P.State, c: P.Class, item: Item)
    requires P.Shaped(s)
    ensures P.AfterPush(s, c, item).issued == s.issued
  {
  }

  lemma IssuedGrows(s: P.State, step: P.Step)
    requires P.Shaped(s)
    ensures P.Next(s, step).issued == s.issued + NewlyIssued(s, step)
  {
    match step
    case Push(c, item) => PushIssuesNothing(s, c, item);
    case Emit(c, bytes) => PushIssuesNothing(P.AfterAlloc(s, bytes), c, Item(s.next + 1, bytes));
    case _ =>
  }

  lemma IssuedStep(s: P.State, step: P.Step)
    requires P.Shaped(s) && AllIssuedEmitted(s) && Honest(s, step)
    ensures AllIssuedEmitted(P.Next(s, step))
  {
    IssuedGrows(s, step);
    assert forall item <- NewlyIssued(s, step) :: Emitted(item);
  }

  lemma {:induction false} EverythingIssuedWasEmitted(steps: seq<P.Step>)
    requires HonestRun(steps)
    ensures AllIssuedEmitted(P.After(steps))
  {
    if steps != [] {
      EverythingIssuedWasEmitted(steps[..|steps| - 1]);
      IssuedStep(P.After(steps[..|steps| - 1]), steps[|steps| - 1]);
    }
  }

  lemma QueuesHoldEmitted(steps: seq<P.Step>)
    requires HonestRun(steps)
    ensures AllEmitted(ListsIn(P.After(steps)))
  {
    var s := P.After(steps);
    EverythingIssuedWasEmitted(steps);
    P.AlwaysConserved(steps);
    forall q <- ListsIn(s), item <- q
      ensures Emitted(item)
    {
      var c :| 0 <= c < 3 && ListsIn(s)[c] == q;
      QueuedWasIssued(s, c, item);
    }
  }

  lemma NothingToSkip(steps: seq<P.Step>, c: P.Class, size: nat)
    requires HonestRun(steps) && size >= MAX_RECORD_BYTES
    ensures !P.CanSkip(P.After(steps), c, size)
  {
    var s := P.After(steps);
    if s.queues[c].list != [] {
      EverythingIssuedWasEmitted(steps);
      P.AlwaysConserved(steps);
      QueuedWasIssued(s, c, s.queues[c].list[0]);
      EmittedFits(s.queues[c].list[0]);
    }
  }

  lemma EmittedFits(item: Item)
    ensures Emitted(item) ==> |item.bytes| <= MAX_RECORD_BYTES
  {
    if Emitted(item) {
      var st, ev :| item == ItemFor(st, ev);
      RecordsFit(ev);
    }
  }

  lemma SkippedStep(s: P.State, step: P.Step)
    requires P.Shaped(s) && (step.Skip? ==> !P.CanSkip(s, step.skipCls, step.size))
    ensures P.Next(s, step).skipped == s.skipped
  {
  }

  /** OversizedSkipped never moves: under the size guard no run ever skips a record. */
  lemma {:induction false} NothingEverSkipped(steps: seq<P.Step>)
    requires HonestRun(steps)
    ensures P.After(steps).skipped == []
  {
    if steps != [] {
      var init, step := steps[..|steps| - 1], steps[|steps| - 1];
      NothingEverSkipped(init);
      if step.Skip? {
        NothingToSkip(init, step.skipCls, step.size);
      }
      SkippedStep(P.After(init), step);
    }
  }

  /** After any run whatever, one drain into an admitted buffer writes bytes that decode,
      strictly, to exactly the notifications it popped, and skips none. */
  lemma AnyDrainDecodes(steps: seq<P.Step>, size: nat)
    requires HonestRun(steps) && size >= MAX_RECORD_BYTES
    ensures var moves := D.DrainFrom(ListsIn(P.After(steps)), size, 0).moves;
            && D.Skipped(moves) == []
            && (forall item <- D.Taken(moves) :: Emitted(item))
            && DecodeAll(D.Concat(D.Taken(moves))) == Ok(RecordsFor(SourcesOf(D.Taken(moves))))
  {
    QueuesHoldEmitted(steps);
    DrainDecodes(ListsIn(P.After(steps)), size);
  }

  lemma ListsAreNumbered(steps: seq<P.Step>)
    requires P.After(steps).next < MAX_SEQUENCE
    ensures D.Numbered(ListsIn(P.After(steps)))
  {
    var s := P.After(steps);
    P.AlwaysConserved(steps);
    forall q <- ListsIn(s), item <- q
      ensures item.sequence < MAX_SEQUENCE
    {
      var c :| 0 <= c < 3 && ListsIn(s)[c] == q;
      QueuedWasIssued(s, c, item);
    }
  }

  lemma InTwoQueues(s: P.State, c: P.Class, d: P.Class, item: Item)
    requires |s.queues| == 3 && c != d && item in s.queues[c].list && item in s.queues[d].list
    ensures P.Whereabouts(s)[item] >= 2
  {
    assert multiset(s.queues[c].list)[item] >= 1 && multiset(s.queues[d].list)[item] >= 1;
    assert P.Resident(s)[item] >= 2;
  }

  lemma NotInTwoQueues(s: P.State, c: P.Class, d: P.Class, item: Item)
    requires P.Conserved(s) && c != d && P.Whereabouts(s)[item] <= 1
    ensures !(item in s.queues[c].list && item in s.queues[d].list)
  {
    if item in s.queues[c].list && item in s.queues[d].list {
      InTwoQueues(s, c, d, item);
    }
  }

  lemma QueuedApart(s: P.State, c: P.Class, d: P.Class, a: Item, b: Item)
    requires P.Conserved(s) && c != d && P.Whereabouts(s)[a] <= 1
    ensures a in s.queues[c].list && b in s.queues[d].list ==> a.sequence != b.sequence
  {
    NotInTwoQueues(s, c, d, a);
    if a in s.queues[c].list && b in s.queues[d].list {
      QueuedWasIssued(s, c, a);
      QueuedWasIssued(s, d, b);
    }
  }

  /** No number is queued twice, in any run. */
  lemma ListsAreApart(steps: seq<P.Step>)
    ensures D.Apart(ListsIn(P.After(steps)))
  {
    var qs := ListsIn(P.After(steps));
    P.AlwaysConserved(steps);
    forall i, j, a: Item, b: Item | 0 <= i < j < |qs| && a in qs[i] && b in qs[j]
      ensures a.sequence != b.sequence
    {
      P.OneFate(steps, a);
      QueuedApart(P.After(steps), i, j, a, b);
    }
  }

  lemma ListsAreSorted(s: P.State)
    requires P.Ordered(s)
    ensures D.Sorted(ListsIn(s))
  {
    forall q <- ListsIn(s)
      ensures Ascending(q)
    {
      var c :| 0 <= c < 3 && ListsIn(s)[c] == q;
      assert Ascending(s.queues[c].list);
    }
  }

  /** At every reachable state with sorted queues, and for every buffer: each record a drain
      takes leaves in its turn exactly when it was the oldest head, and the whole batch is
      in global order exactly when no younger head was ever taken. */
  lemma AnyDrainIsOrderedIff(steps: seq<P.Step>, size: nat)
    ensures P.Ordered(P.After(steps)) && P.After(steps).next < MAX_SEQUENCE ==>
              OrderedIffOldest(D.DrainFrom(ListsIn(P.After(steps)), size, 0))
  {
    if P.Ordered(P.After(steps)) && P.After(steps).next < MAX_SEQUENCE {
      ListsAreSorted(P.After(steps));
      ListsAreNumbered(steps);
      ListsAreApart(steps);
      SortedListsDrain(ListsIn(P.After(steps)), size);
    }
  }

  predicate OrderedIffOldest(b: D.Batch) {
    && (forall i :: 0 <= i < |b.moves| ==> (D.LeastFrom(b, i) <==> b.moves[i].wasOldest))
    && (D.FullyOrdered(b) <==> forall m <- b.moves :: m.wasOldest)
  }

  lemma SortedListsDrain(qs: D.Lists, size: nat)
    requires D.Sorted(qs) && D.Numbered(qs) && D.Apart(qs)
    ensures OrderedIffOldest(D.DrainFrom(qs, size, 0))
  {
    var b := D.DrainFrom(qs, size, 0);
    forall i | 0 <= i < |b.moves|
      ensures D.LeastFrom(b, i) <==> b.moves[i].wasOldest
    {
      D.InTurnIffOldest(qs, size, 0, i);
    }
    D.OrderedIffNoMiss(qs, size, 0);
  }

  /** As many drains as there are resident records deliver them all, each class in order,
      in any run whatever. */
  lemma AnyDrainsDeliverEverything(steps: seq<P.Step>, size: nat)
    requires HonestRun(steps) && P.After(steps).next < MAX_SEQUENCE && size >= MAX_RECORD_BYTES
    ensures var qs := ListsIn(P.After(steps));
            && D.Skipped(D.Drains(qs, size, D.Total(qs)).moves) == []
            && forall i :: 0 <= i < |qs| ==> D.RemovedFrom(D.Drains(qs, size, D.Total(qs)).moves, i) == qs[i]
  {
    var qs := ListsIn(P.After(steps));
    ListsAreNumbered(steps);
    QueuesHoldEmitted(steps);
    EmittedAreBounded(qs, size);
    D.DrainsDeliverEverything(qs, size, D.Total(qs));
  }

  /** After any run whose pushes were in order, divided or not: a drain's batch is in global
      order exactly when the oldest head never had to wait, and drains deliver everything. */
  lemma AnyDrainIsOrderedAndComplete(steps: seq<P.Step>, size: nat)
    requires HonestRun(steps) && P.InOrderRun(steps) && P.After(steps).next < MAX_SEQUENCE && size >= MAX_RECORD_BYTES
    ensures var qs := ListsIn(P.After(steps));
            var b := D.DrainFrom(qs, size, 0);
            && D.OrderedUntilMiss(b)
            && (D.FullyOrdered(b) <==> forall m <- b.moves :: m.wasOldest)
            && forall i :: 0 <= i < |qs| ==> D.RemovedFrom(D.Drains(qs, size, D.Total(qs)).moves, i) == qs[i]
  {
    P.SortedIffInOrder(steps);
    AnyDrainIsOrderedIff(steps, size);
    ListsAreSorted(P.After(steps));
    D.BatchIsOrdered(ListsIn(P.After(steps)), size, 0);
    AnyDrainsDeliverEverything(steps, size);
  }

  // ---- The device's own states

  /** A state some honest run leads to. */
  ghost predicate Reachable(s: P.State) {
    exists steps :: HonestRun(steps) && P.After(steps) == s
  }

  lemma StartIsReachable()
    ensures Reachable(P.START)
  {
    assert HonestRun([]) && P.After([]) == P.START;
  }

  lemma HonestStepStaysReachable(s: P.State, step: P.Step)
    requires P.Shaped(s) && Reachable(s) && Honest(s, step)
    ensures Reachable(P.Next(s, step))
  {
    var steps :| HonestRun(steps) && P.After(steps) == s;
    var more := steps + [step];
    assert more[..|more| - 1] == steps;
    assert HonestRun(more) && P.After(more) == P.Next(s, step);
  }

  /** Each move of a drain that keeps to the size guard is an honest step. */
  lemma {:induction false} MovesStayReachable(s: P.State, moves: seq<D.Move>, size: nat, count: nat)
    requires P.Shaped(s) && Reachable(s) && size >= MAX_RECORD_BYTES
    ensures Reachable(AfterMoves(s, moves, size, count))
    decreases |moves|
  {
    if moves != [] && moves[0].queue < 3 && count <= size {
      HonestStepStaysReachable(s, MoveStep(moves[0], size, count));
      MovesStayReachable(P.Next(s, MoveStep(moves[0], size, count)), moves[1..], size, D.CountAfter(moves[0], count));
    }
  }

  // ---- Any calls on a device

  datatype Call =
    | Notification(ev: Event, pid: u32, time: u64, created: u64, allocates: bool)
    | Read(size: nat)

  /** What one call gives a record: a notification, unless its allocation fails. */
  function StampedByOne(call: Call, next: nat): (built: seq<(Stamp, Event)>)
    requires next + 1 < MAX_SEQUENCE
    ensures |built| <= 1
  {
    if call.Notification? && call.allocates
    then [(Stamp(call.pid, next + 1, call.time, call.created), call.ev)]
    else []
  }

  function MovesOf(s: P.State, size: nat): seq<D.Move> {
    D.DrainFrom(ListsIn(s), size, 0).moves
  }

  /** The step a notification takes: the emitter's bytes into the queue of its class. */
  function EmitOf(call: Call, next: nat): P.Step
    requires call.Notification? && next + 1 < MAX_SEQUENCE
  {
    P.Emit(ClassOf(call.ev), RecordBytes(Stamp(call.pid, next + 1, call.time, call.created), call.ev))
  }

  function AfterCall(s: P.State, call: Call): (r: P.State)
    requires P.Shaped(s) && s.next + 1 < MAX_SEQUENCE
    ensures P.Shaped(r)
  {
    match call
    case Notification(_, _, _, _, allocates) => if allocates then P.Next(s, EmitOf(call, s.next)) else s
    case Read(size) => if size >= MAX_RECORD_BYTES then AfterMoves(s, MovesOf(s, size), size, 0) else s
  }

  /** The items popped for one call: those of its one batch, if it is a read that is not
      refused. */
  function PoppedBy(s: P.State, call: Call): seq<seq<Item>> {
    if call.Read? && call.size >= MAX_RECORD_BYTES then [D.Taken(MovesOf(s, call.size))] else []
  }

  /** A stretch of calls, call by call. */
  datatype Served = Served(state: P.State, built: seq<(Stamp, Event)>, popped: seq<seq<Item>>)

  predicate Fits(s: P.State, n: nat) {
    P.Shaped(s) && s.next + n < MAX_SEQUENCE
  }

  function ServedOne(r: Served, call: Call): (r': Served)
    requires Fits(r.state, 1)
  {
    Served(AfterCall(r.state, call), r.built + StampedByOne(call, r.state.next), r.popped + PoppedBy(r.state, call))
  }

  lemma NumbersTaken(s: P.State, call: Call)
    requires Fits(s, 1)
    ensures AfterCall(s, call).next <= s.next + 1
  {
    if call.Read? && call.size >= MAX_RECORD_BYTES {
      MovesTakeNoNumber(s, MovesOf(s, call.size), call.size, 0);
    }
  }

  lemma {:induction false} MovesTakeNoNumber(s: P.State, moves: seq<D.Move>, size: nat, count: nat)
    requires P.Shaped(s)
    ensures AfterMoves(s, moves, size, count).next == s.next && AfterMoves(s, moves, size, count).issued == s.issued
    decreases |moves|
  {
    if moves != [] && moves[0].queue < 3 && count <= size {
      var step := MoveStep(moves[0], size, count);
      IssuedGrows(s, step);
      MovesTakeNoNumber(P.Next(s, step), moves[1..], size, D.CountAfter(moves[0], count));
    }
  }

  function ServedAll(s: P.State, calls: seq<Call>): (r: Served)
    requires Fits(s, |calls|)
    ensures P.Shaped(r.state) && r.state.next <= s.next + |calls|
  {
    if calls == [] then Served(s, [], [])
    else
      var before := ServedAll(s, calls[..|calls| - 1]);
      NumbersTaken(before.state, calls[|calls| - 1]);
      ServedOne(before, calls[|calls| - 1])
  }

  lemma ServedSnoc(s: P.State, calls: seq<Call>, k: nat)
    requires Fits(s, |calls|) && k < |calls|
    ensures ServedAll(s, calls[..k + 1]) == ServedOne(ServedAll(s, calls[..k]), calls[k])
  {
    assert calls[..k + 1][..k] == calls[..k];
  }

  /** The bytes of each batch are those of the items popped for it. */
  predicate Copied(batches: seq<seq<byte>>, popped: seq<seq<Item>>) {
    |batches| == |popped| && forall i :: 0 <= i < |batches| ==> batches[i] == D.Concat(popped[i])
  }

  /** A read that is refused, or answered with one batch. */
  method AnswerRead(device: Device, size: nat) returns (batch: seq<seq<byte>>)
    requires device.Valid() && device.nextSequence + 1 < MAX_SEQUENCE
    modifies device, device.items, device.files, device.drops
    ensures device.Valid() && device.state == AfterCall(old(device.state), Read(size))
    ensures Copied(batch, PoppedBy(old(device.state), Read(size)))
  {
    var buffer := new byte[size](_ => 0);
    var accepted, count := device.GetData(buffer);
    batch := if accepted then [buffer[..count]] else [];
  }

  /** One call on the device. */
  method Answer(device: Device, call: Call) returns (batch: seq<seq<byte>>)
    requires device.Valid() && device.nextSequence + 1 < MAX_SEQUENCE
    modifies device, device.items, device.files, device.drops
    ensures device.Valid() && device.state == AfterCall(old(device.state), call)
    ensures Copied(batch, PoppedBy(old(device.state), call))
  {
    match call
    case Notification(ev, pid, time, created, allocates) =>
      device.Notify(ev, pid, time, created, allocates);
      batch := [];
    case Read(size) => batch := AnswerRead(device, size);
  }

  lemma CopiedBoth(batches: seq<seq<byte>>, popped: seq<seq<Item>>, batch: seq<seq<byte>>, items: seq<seq<Item>>)
    requires Copied(batches, popped) && Copied(batch, items)
    ensures Copied(batches + batch, popped + items)
  {
  }

  /** Any calls on a device, one after the other: its state and the batches it returns are
      those of the calls taken one by one. */
  method Serve(device: Device, calls: seq<Call>) returns (batches: seq<seq<byte>>)
    requires device.Valid() && device.nextSequence + |calls| < MAX_SEQUENCE
    modifies device, device.items, device.files, device.drops
    ensures device.Valid() && device.state == ServedAll(old(device.state), calls).state
    ensures Copied(batches, ServedAll(old(device.state), calls).popped)
  {
    ghost var was := device.state;
    batches := [];
    for k := 0 to |calls|
      invariant device.Valid() && device.state == ServedAll(was, calls[..k]).state
      invariant Copied(batches, ServedAll(was, calls[..k]).popped)
    {
      ServedSnoc(was, calls, k);
      ghost var before := ServedAll(was, calls[..k]);
      var batch := Answer(device, calls[k]);
      CopiedBoth(batches, before.popped, batch, PoppedBy(before.state, calls[k]));
      batches := batches + batch;
    }
    assert calls[..|calls|] == calls;
  }

  // ---- What the calls come to

  /** Copied back to back, these items are emitted records that decode strictly, to exactly
      their notifications' records in this order. */
  ghost predicate Decodes(items: seq<Item>) {
    (forall item <- items :: Emitted(item)) && DecodeAll(D.Concat(items)) == Ok(RecordsFor(SourcesOf(items)))
  }

  function Flat(batches: seq<seq<Item>>): seq<Item> {
    if batches == [] then [] else Flat(batches[..|batches| - 1]) + batches[|batches| - 1]
  }

  lemma FlatOne(batches: seq<seq<Item>>, batch: seq<Item>)
    ensures Flat(batches + [batch]) == Flat(batches) + batch
  {
    assert (batches + [batch])[..|batches|] == batches;
  }

  /** From `s` to `r` the items issued are the records of these notifications, one by one. */
  ghost predicate Issued(s: P.State, r: P.State, built: seq<(Stamp, Event)>) {
    && s.issued <= r.issued && |r.issued| == |s.issued| + |built|
    && forall i :: 0 <= i < |built| ==> IssuedAs(r, |s.issued| + i, built[i])
  }

  ghost predicate IssuedAs(r: P.State, at: nat, built: (Stamp, Event)) {
    at < |r.issued| && r.issued[at] == ItemFor(built.0, built.1)
  }

  lemma EmitGivesNothingOut(s: P.State, c: P.Class, bytes: seq<byte>)
    requires P.Shaped(s)
    ensures var r := P.Next(s, P.Emit(c, bytes)); r.delivered == s.delivered && r.skipped == s.skipped
  {
  }

  lemma OneIssued(s: P.State, r: P.State, built: (Stamp, Event))
    requires r.issued == s.issued + [ItemFor(built.0, built.1)]
    ensures Issued(s, r, [built])
  {
    assert IssuedAs(r, |s.issued|, built);
  }

  lemma EmitIsHonest(s: P.State, c: P.Class, st: Stamp, ev: Event)
    requires st.sequence == s.next + 1
    ensures Honest(s, P.Emit(c, RecordBytes(st, ev)))
  {
    assert Item(s.next + 1, RecordBytes(st, ev)) == ItemFor(st, ev);
  }

  lemma NotificationIsHonest(s: P.State, call: Call)
    requires Fits(s, 1) && call.Notification?
    ensures Honest(s, EmitOf(call, s.next))
  {
    EmitIsHonest(s, ClassOf(call.ev), Stamp(call.pid, s.next + 1, call.time, call.created), call.ev);
  }

  lemma NotificationReaches(s: P.State, call: Call, r: P.State)
    requires Reachable(s) && Fits(s, 1) && call.Notification? && r == AfterCall(s, call)
    ensures Reachable(r)
  {
    if call.allocates {
      NotificationIsHonest(s, call);
      HonestStepStaysReachable(s, EmitOf(call, s.next));
    }
  }

  lemma EmitIssues(s: P.State, c: P.Class, item: Item)
    requires P.Shaped(s) && item.sequence == s.next + 1
    ensures P.Next(s, P.Emit(c, item.bytes)).issued == s.issued + [item]
  {
    IssuedGrows(s, P.Emit(c, item.bytes));
  }

  lemma NoneIssued(s: P.State)
    ensures Issued(s, s, [])
  {
  }

  lemma NotificationIssues(s: P.State, call: Call)
    requires Fits(s, 1) && call.Notification?
    ensures Issued(s, AfterCall(s, call), StampedByOne(call, s.next))
  {
    if call.allocates {
      var st := Stamp(call.pid, s.next + 1, call.time, call.created);
      EmitIssues(s, ClassOf(call.ev), ItemFor(st, call.ev));
      OneIssued(s, AfterCall(s, call), (st, call.ev));
    } else {
      NoneIssued(s);
    }
  }

  lemma NotificationGivesNothingOut(s: P.State, call: Call)
    requires Fits(s, 1) && call.Notification?
    ensures AfterCall(s, call).delivered == s.delivered && AfterCall(s, call).skipped == s.skipped
  {
    if call.allocates {
      var st := Stamp(call.pid, s.next + 1, call.time, call.created);
      EmitGivesNothingOut(s, ClassOf(call.ev), RecordBytes(st, call.ev));
    }
  }

  lemma ReadDoes(s: P.State, call: Call)
    requires Reachable(s) && Fits(s, 1) && call.Read? && call.size >= MAX_RECORD_BYTES
    ensures var r, items := AfterCall(s, call), D.Taken(MovesOf(s, call.size));
            && Reachable(r) && r.delivered == s.delivered + items && r.skipped == s.skipped
            && r.issued == s.issued && Decodes(items)
  {
    MovesStayReachable(s, MovesOf(s, call.size), call.size, 0);
    MovesTakeNoNumber(s, MovesOf(s, call.size), call.size, 0);
    DrainIsARun(s, call.size, 0);
    var steps :| HonestRun(steps) && P.After(steps) == s;
    AnyDrainDecodes(steps, call.size);
  }

  /** From `s`, the stretch served: its end is reachable, what it issued, and what it popped. */
  ghost predicate ServedFrom(s: P.State, r: Served) {
    && Issued(s, r.state, r.built) && (forall items <- r.popped :: Decodes(items))
    && r.state.delivered == s.delivered + Flat(r.popped) && r.state.skipped == s.skipped
  }

  lemma IssuedOn(s: P.State, m: P.State, r: P.State, built: seq<(Stamp, Event)>, more: seq<(Stamp, Event)>)
    requires Issued(s, m, built) && Issued(m, r, more)
    ensures Issued(s, r, built + more)
  {
    var all := built + more;
    forall i | 0 <= i < |all|
      ensures IssuedAs(r, |s.issued| + i, all[i])
    {
      if i < |built| {
        assert IssuedAs(m, |s.issued| + i, built[i]);
      } else {
        assert IssuedAs(r, |m.issued| + (i - |built|), more[i - |built|]);
      }
    }
  }

  lemma NotificationServed(s: P.State, r: Served, call: Call)
    requires ServedFrom(s, r) && Reachable(r.state) && Fits(r.state, 1) && call.Notification?
    ensures ServedFrom(s, ServedOne(r, call)) && Reachable(ServedOne(r, call).state)
  {
    NotificationReaches(r.state, call, AfterCall(r.state, call));
    NotificationIssues(r.state, call);
    NotificationGivesNothingOut(r.state, call);
    IssuedOn(s, r.state, AfterCall(r.state, call), r.built, StampedByOne(call, r.state.next));
    assert r.popped + PoppedBy(r.state, call) == r.popped;
  }

  lemma NothingIssued(s: P.State, m: P.State, r: P.State, built: seq<(Stamp, Event)>)
    requires Issued(s, m, built) && r.issued == m.issued
    ensures Issued(s, r, built)
  {
    forall i | 0 <= i < |built|
      ensures IssuedAs(r, |s.issued| + i, built[i])
    {
      assert IssuedAs(m, |s.issued| + i, built[i]);
    }
  }

  lemma PoppedMore(s: P.State, r: P.State, next: P.State, popped: seq<seq<Item>>, items: seq<Item>)
    requires r.delivered == s.delivered + Flat(popped) && next.delivered == r.delivered + items
    ensures next.delivered == s.delivered + Flat(popped + [items])
  {
    FlatOne(popped, items);
    assert s.delivered + (Flat(popped) + items) == s.delivered + Flat(popped) + items;
  }

  lemma ReadServed(s: P.State, r: Served, call: Call)
    requires ServedFrom(s, r) && Reachable(r.state) && Fits(r.state, 1) && call.Read? && call.size >= MAX_RECORD_BYTES
    ensures ServedFrom(s, ServedOne(r, call)) && Reachable(ServedOne(r, call).state)
  {
    var items, next := D.Taken(MovesOf(r.state, call.size)), AfterCall(r.state, call);
    ReadDoes(r.state, call);
    PoppedMore(s, r.state, next, r.popped, items);
    NothingIssued(s, r.state, next, r.built);
    ReadAnswered(r, call);
  }

  lemma ReadAnswered(r: Served, call: Call)
    requires Fits(r.state, 1) && call.Read? && call.size >= MAX_RECORD_BYTES
    ensures ServedOne(r, call)
         == Served(AfterCall(r.state, call), r.built, r.popped + [D.Taken(MovesOf(r.state, call.size))])
  {
    assert r.built + [] == r.built;
  }

  lemma RefusedServed(r: Served, call: Call)
    requires Fits(r.state, 1) && call.Read? && call.size < MAX_RECORD_BYTES
    ensures ServedOne(r, call) == r
  {
    assert r.built + [] == r.built && r.popped + [] == r.popped;
  }

  /** Whatever the calls: the state stays reachable, each accepted read's batch decodes to
      exactly the items popped for it, the items popped are, batch after batch, what was
      delivered, what was issued is the calls' notifications in order, and nothing is
      skipped. */
  lemma {:induction false} CallsComeTo(s: P.State, calls: seq<Call>)
    requires Reachable(s) && Fits(s, |calls|)
    ensures ServedFrom(s, ServedAll(s, calls)) && Reachable(ServedAll(s, calls).state)
    decreases |calls|
  {
    if calls != [] {
      var before, call := ServedAll(s, calls[..|calls| - 1]), calls[|calls| - 1];
      CallsComeTo(s, calls[..|calls| - 1]);
      if call.Notification? {
        NotificationServed(s, before, call);
      } else if call.size >= MAX_RECORD_BYTES {
        ReadServed(s, before, call);
      } else {
        RefusedServed(before, call);
      }
    }
  }

  lemma ReachableIsConserved(s: P.State)
    requires Reachable(s)
    ensures multiset(s.delivered) <= multiset(s.issued)
  {
    var steps :| HonestRun(steps) && P.After(steps) == s;
    P.AlwaysConserved(steps);
  }

  /** A whole life of the driver, from its start: every batch read decodes to exactly the
      items popped for it, and these are records of the notifications made, none twice. */
  method ServeFromStart(calls: seq<Call>) returns (batches: seq<seq<byte>>, ghost popped: seq<seq<Item>>)
    requires |calls| < MAX_SEQUENCE
    ensures Copied(batches, popped) && forall items <- popped :: Decodes(items)
    ensures multiset(Flat(popped)) <= multiset(ServedAll(P.START, calls).state.issued)
    ensures Issued(P.START, ServedAll(P.START, calls).state, ServedAll(P.START, calls).built)
  {
    var device := new Device();
    StartIsReachable();
    batches := Serve(device, calls);
    CallsComeTo(P.START, calls);
    ReachableIsConserved(ServedAll(P.START, calls).state);
    popped := ServedAll(P.START, calls).popped;
    assert [] + Flat(popped) == Flat(popped);
  }

  // ---- Drains and emitters in any interleaving

  /** Whatever is interleaved with the takes, any stretch of what a run delivered, copied back
      to back, decodes strictly to exactly those notifications. */
  lemma AnyStretchDecodes(steps: seq<P.Step>, i: nat, j: nat)
    requires HonestRun(steps) && i <= j <= |P.After(steps).delivered|
    ensures Decodes(P.After(steps).delivered[i..j])
  {
    var s := P.After(steps);
    EverythingIssuedWasEmitted(steps);
    P.AlwaysConserved(steps);
    forall item <- s.delivered[i..j]
      ensures Emitted(item)
    {
      DeliveredWasIssued(s, item);
    }
    DecodeAllUndoesEmitters(SourcesOf(s.delivered[i..j]));
  }

  lemma DeliveredWasIssued(s: P.State, item: Item)
    requires P.Conserved(s) && item in s.delivered
    ensures item in s.issued
  {
    assert item in multiset(s.delivered);
    assert item in multiset(s.issued);
  }
}
