/** GET_DATA's merged drain over the record queues (driver/secoutfall/secoutfall.cpp). */
module Drain {
  import opened Wrappers
  import opened Wire
  import opened Queues

  type Lists = seq<seq<Item>>

  // ---- One step: the globally oldest head that fits gives way to younger ones once it does
  // not fit, and a head no buffer of this client could hold is skipped and counted

  function BestSeq(qs: Lists, best: Option<nat>): nat
    requires best.Some? ==> best.value < |qs|
  {
    if best.None? then MAX_SEQUENCE else HeadSeqOf(qs[best.value])
  }

  /** The scan for the smallest head sequence, over the first n queues. */
  function OldestIn(qs: Lists, n: nat): (best: Option<nat>)
    requires n <= |qs|
    ensures best.Some? ==> best.value < n
  {
    if n == 0 then None
    else
      var best := OldestIn(qs, n - 1);
      if HeadSeqOf(qs[n - 1]) < BestSeq(qs, best) then Some(n - 1) else best
  }

  function Oldest(qs: Lists): (best: Option<nat>)
    ensures best.Some? ==> best.value < |qs|
  {
    OldestIn(qs, |qs|)
  }

  /** tryPop makes progress: the head fits the space left, or fits no buffer at all. */
  predicate Movable(q: seq<Item>, size: nat, count: nat) {
    q != [] && (count + |q[0].bytes| <= size || |q[0].bytes| > size)
  }

  /** The first other queue, from `at` on, whose head can move. */
  function FirstOther(qs: Lists, oldest: nat, size: nat, count: nat, at: nat): (pick: Option<nat>)
    requires at <= |qs|
    ensures pick.Some? ==> at <= pick.value < |qs| && pick.value != oldest && Movable(qs[pick.value], size, count)
    ensures forall i :: at <= i < (if pick.Some? then pick.value else |qs|) && i != oldest ==>
              !Movable(qs[i], size, count)
    decreases |qs| - at
  {
    if at == |qs| then None
    else if at != oldest && Movable(qs[at], size, count) then Some(at)
    else FirstOther(qs, oldest, size, count, at + 1)
  }

  function Pick(qs: Lists, size: nat, count: nat): (pick: Option<nat>)
    ensures pick.Some? ==> pick.value < |qs| && Movable(qs[pick.value], size, count)
  {
    var oldest := Oldest(qs);
    if oldest.None? then None
    else if Movable(qs[oldest.value], size, count) then oldest
    else FirstOther(qs, oldest.value, size, count, 0)
  }

  // ---- A whole drain

  datatype Move = Move(queue: nat, item: Item, delivered: bool, wasOldest: bool)

  datatype Batch = Batch(moves: seq<Move>, left: Lists)

  function Total(qs: Lists): nat {
    if qs == [] then 0 else Total(qs[..|qs| - 1]) + |qs[|qs| - 1]|
  }

  lemma {:induction false} TotalUpdate(qs: Lists, i: nat, q: seq<Item>)
    requires i < |qs|
    ensures Total(qs[i := q]) + |qs[i]| == Total(qs) + |q|
    decreases |qs|
  {
    var n := |qs| - 1;
    if i == n {
      assert qs[i := q][..n] == qs[..n];
    } else {
      TotalUpdate(qs[..n], i, q);
      assert qs[i := q][..n] == qs[..n][i := q];
    }
  }

  function Popped(qs: Lists, i: nat): (r: Lists)
    requires i < |qs| && qs[i] != []
    ensures |r| == |qs| && Total(r) < Total(qs)
  {
    TotalUpdate(qs, i, qs[i][1..]);
    qs[i := qs[i][1..]]
  }

  function MoveOf(qs: Lists, size: nat, count: nat, i: nat): Move
    requires i < |qs| && qs[i] != []
  {
    Move(i, qs[i][0], count + |qs[i][0].bytes| <= size, Oldest(qs) == Some(i))
  }

  function CountAfter(m: Move, count: nat): nat {
    if m.delivered then count + |m.item.bytes| else count
  }

  /** The drain from queue contents and bytes already written. */
  function DrainFrom(qs: Lists, size: nat, count: nat): (b: Batch)
    ensures |b.left| == |qs|
    decreases Total(qs)
  {
    var pick := Pick(qs, size, count);
    if pick.None? then Batch([], qs)
    else
      var m := MoveOf(qs, size, count, pick.value);
      var rest := DrainFrom(Popped(qs, pick.value), size, CountAfter(m, count));
      Batch([m] + rest.moves, rest.left)
  }

  function Taken(moves: seq<Move>): seq<Item> {
    if moves == [] then []
    else (if moves[0].delivered then [moves[0].item] else []) + Taken(moves[1..])
  }

  function Skipped(moves: seq<Move>): seq<Item> {
    if moves == [] then []
    else (if moves[0].delivered then [] else [moves[0].item]) + Skipped(moves[1..])
  }

  function Concat(items: seq<Item>): seq<byte> {
    if items == [] then [] else items[0].bytes + Concat(items[1..])
  }

  // ---- What a drain guarantees

  /** Heads with usable sequence numbers; NextSequence starts at 1 and never reaches 2^64 - 1. */
  predicate Numbered(qs: Lists) {
    forall q <- qs :: forall item <- q :: item.sequence < MAX_SEQUENCE
  }

  lemma PoppedNumbered(qs: Lists, i: nat)
    requires Numbered(qs) && i < |qs| && qs[i] != []
    ensures Numbered(Popped(qs, i))
  {
    forall q <- Popped(qs, i), item <- q
      ensures item.sequence < MAX_SEQUENCE
    {
      if q == qs[i][1..] {
        assert item in qs[i] && qs[i] in qs;
      } else {
        assert q in qs;
      }
    }
  }

  lemma {:induction false} OldestIsLeast(qs: Lists, n: nat)
    requires n <= |qs|
    ensures forall j :: 0 <= j < n ==> BestSeq(qs, OldestIn(qs, n)) <= HeadSeqOf(qs[j])
    ensures OldestIn(qs, n).None? ==> forall j :: 0 <= j < n ==> HeadSeqOf(qs[j]) >= MAX_SEQUENCE
  {
    if n > 0 {
      OldestIsLeast(qs, n - 1);
    }
  }

  function BytesOf(moves: seq<Move>): nat {
    |Concat(Taken(moves))|
  }

  /** The buffer is never overrun. */
  lemma {:induction false} NeverOverruns(qs: Lists, size: nat, count: nat)
    requires count <= size
    ensures count + BytesOf(DrainFrom(qs, size, count).moves) <= size
    decreases Total(qs)
  {
    var pick := Pick(qs, size, count);
    if pick.Some? {
      var m := MoveOf(qs, size, count, pick.value);
      NeverOverruns(Popped(qs, pick.value), size, CountAfter(m, count));
      var rest := DrainFrom(Popped(qs, pick.value), size, CountAfter(m, count)).moves;
      TakenStep(m, rest);
    }
  }

  lemma ConcatCons(item: Item, items: seq<Item>)
    ensures Concat([item] + items) == item.bytes + Concat(items)
  {
    assert ([item] + items)[1..] == items;
  }

  lemma TakenStep(m: Move, rest: seq<Move>)
    ensures Taken([m] + rest) == (if m.delivered then [m.item] else []) + Taken(rest)
    ensures Skipped([m] + rest) == (if m.delivered then [] else [m.item]) + Skipped(rest)
    ensures BytesOf([m] + rest) == CountAfter(m, 0) + BytesOf(rest)
  {
    assert ([m] + rest)[1..] == rest;
    if m.delivered {
      ConcatCons(m.item, Taken(rest));
    } else {
      assert [] + Taken(rest) == Taken(rest);
    }
  }

  /** Every queue is empty or its head needs more space than is left, though no more than
      the whole buffer. */
  predicate NoHeadFits(qs: Lists, size: nat, used: nat) {
    forall i :: 0 <= i < |qs| ==> qs[i] == [] || (size < used + |qs[i][0].bytes| && |qs[i][0].bytes| <= size)
  }

  /** On exit no head fits what is left of the buffer. */
  lemma {:induction false} NothingLeftFits(qs: Lists, size: nat, count: nat)
    requires Numbered(qs) && count <= size
    ensures var b := DrainFrom(qs, size, count);
            NoHeadFits(b.left, size, count + BytesOf(b.moves))
    decreases Total(qs)
  {
    var pick := Pick(qs, size, count);
    if pick.None? {
      NothingMovable(qs, size, count);
      assert Taken([]) == [];
    } else {
      var m := MoveOf(qs, size, count, pick.value);
      PoppedNumbered(qs, pick.value);
      NothingLeftFits(Popped(qs, pick.value), size, CountAfter(m, count));
      var rest := DrainFrom(Popped(qs, pick.value), size, CountAfter(m, count));
      TakenStep(m, rest.moves);
      assert DrainFrom(qs, size, count) == Batch([m] + rest.moves, rest.left);
    }
  }

  lemma HeadNumbered(qs: Lists, i: nat)
    requires Numbered(qs) && i < |qs| && qs[i] != []
    ensures HeadSeqOf(qs[i]) < MAX_SEQUENCE
  {
    assert qs[i] in qs && qs[i][0] in qs[i];
  }

  lemma NothingMovable(qs: Lists, size: nat, count: nat)
    requires Numbered(qs) && Pick(qs, size, count).None?
    ensures forall i :: 0 <= i < |qs| ==> !Movable(qs[i], size, count)
  {
    OldestIsLeast(qs, |qs|);
    forall i | 0 <= i < |qs|
      ensures !Movable(qs[i], size, count)
    {
      if qs[i] != [] {
        HeadNumbered(qs, i);
      }
    }
  }

  // ---- The move made

  /** The non-empty queue with the least head sequence, the first of them among equals. */
  predicate HoldsOldest(qs: Lists, o: nat) {
    && o < |qs| && qs[o] != []
    && forall j :: 0 <= j < |qs| && qs[j] != [] ==>
         qs[o][0].sequence <= qs[j][0].sequence && (j < o ==> qs[o][0].sequence < qs[j][0].sequence)
  }

  /** The head fits what is left of the buffer, or is too large for all of it. */
  predicate Goes(q: seq<Item>, size: nat, count: nat) {
    q != [] && (|q[0].bytes| <= size - count || |q[0].bytes| > size)
  }

  lemma {:induction false} OldestIsFirstLeast(qs: Lists, n: nat)
    requires Numbered(qs) && n <= |qs|
    ensures OldestIn(qs, n).None? ==> forall j :: 0 <= j < n ==> qs[j] == []
    ensures OldestIn(qs, n).Some? ==>
              var o := OldestIn(qs, n).value;
              && qs[o] != []
              && forall j :: 0 <= j < n && qs[j] != [] ==>
                   qs[o][0].sequence <= qs[j][0].sequence && (j < o ==> qs[o][0].sequence < qs[j][0].sequence)
  {
    if n > 0 {
      OldestIsFirstLeast(qs, n - 1);
      if qs[n - 1] != [] {
        HeadNumbered(qs, n - 1);
      }
      if OldestIn(qs, n - 1).Some? {
        HeadNumbered(qs, OldestIn(qs, n - 1).value);
      }
    }
  }

  lemma OneOldest(qs: Lists, o: nat, p: nat)
    requires HoldsOldest(qs, o) && HoldsOldest(qs, p)
    ensures o == p
  {
  }

  predicate NoneGoes(qs: Lists, size: nat, count: nat) {
    forall i :: 0 <= i < |qs| ==> !Goes(qs[i], size, count)
  }

  /** The oldest head's queue if its head goes, else the first other whose head does. */
  ghost predicate TurnOf(qs: Lists, size: nat, count: nat, i: nat) {
    && i < |qs| && Goes(qs[i], size, count)
    && forall o: nat :: HoldsOldest(qs, o) ==>
         if Goes(qs[o], size, count) then i == o else forall j :: 0 <= j < i ==> !Goes(qs[j], size, count)
  }

  lemma PickIsTurn(qs: Lists, size: nat, count: nat)
    requires Numbered(qs) && count <= size
    ensures Pick(qs, size, count).None? <==> NoneGoes(qs, size, count)
    ensures Pick(qs, size, count).Some? ==> TurnOf(qs, size, count, Pick(qs, size, count).value)
  {
    assert forall i :: 0 <= i < |qs| ==> (Goes(qs[i], size, count) <==> Movable(qs[i], size, count));
    OldestIsFirstLeast(qs, |qs|);
    var pick := Pick(qs, size, count);
    if pick.None? {
      NothingMovable(qs, size, count);
    } else {
      var i, p := pick.value, Oldest(qs).value;
      forall o: nat | HoldsOldest(qs, o)
        ensures if Goes(qs[o], size, count) then i == o else forall j :: 0 <= j < i ==> !Goes(qs[j], size, count)
      {
        OneOldest(qs, o, p);
      }
    }
  }

  /** One turn of a drain: the head of queue `i` leaves. */
  lemma OneTurn(qs: Lists, size: nat, count: nat, i: nat, left: Lists, rest: Batch)
    requires Pick(qs, size, count) == Some(i) && left == qs[i := qs[i][1..]]
    requires rest == DrainFrom(left, size, CountAfter(MoveOf(qs, size, count, i), count))
    ensures DrainFrom(qs, size, count) == Batch([MoveOf(qs, size, count, i)] + rest.moves, rest.left)
  {
    assert left == Popped(qs, i);
  }

  lemma TurnIsPicked(qs: Lists, size: nat, count: nat, i: nat)
    requires Numbered(qs) && count <= size && TurnOf(qs, size, count, i)
    ensures Pick(qs, size, count) == Some(i)
  {
    PickIsTurn(qs, size, count);
    OldestIsFirstLeast(qs, |qs|);
    assert HoldsOldest(qs, Oldest(qs).value);
  }

  lemma PickedMoves(qs: Lists, size: nat, count: nat, i: nat, left: Lists, used: nat, rest: Batch)
    requires count <= size && Pick(qs, size, count) == Some(i) && left == qs[i := qs[i][1..]]
    requires used == CountAfter(MoveOf(qs, size, count, i), count) && rest == DrainFrom(left, size, used)
    ensures var b := DrainFrom(qs, size, count);
            && |b.moves| == 1 + |rest.moves| && b.left == rest.left && b.moves[1..] == rest.moves
            && b.moves[0] == MoveOf(qs, size, count, i)
  {
    OneTurn(qs, size, count, i, left, rest);
  }

  /** A drain ends exactly when no head goes, leaving the queues as they are. */
  lemma DrainEndsIff(qs: Lists, size: nat, count: nat)
    requires Numbered(qs) && count <= size
    ensures NoneGoes(qs, size, count) <==> DrainFrom(qs, size, count).moves == []
    ensures NoneGoes(qs, size, count) ==> DrainFrom(qs, size, count).left == qs
  {
    PickIsTurn(qs, size, count);
  }

  /** And otherwise its next move is that of the oldest head if it goes, else of the first
      other queue's, in the queues' order, that goes; the record is delivered exactly if it
      fits, and the drain goes on without it, with so much less space. */
  lemma DrainMovesOn(qs: Lists, size: nat, count: nat, i: nat, fits: bool, left: Lists, rest: Batch)
    requires Numbered(qs) && count <= size && TurnOf(qs, size, count, i)
    requires fits <==> |qs[i][0].bytes| <= size - count
    requires left == qs[i := qs[i][1..]]
    requires rest == DrainFrom(left, size, if fits then count + |qs[i][0].bytes| else count)
    ensures var b := DrainFrom(qs, size, count);
            && |b.moves| == 1 + |rest.moves| && b.left == rest.left && b.moves[1..] == rest.moves
            && b.moves[0].queue == i && b.moves[0].item == qs[i][0] && b.moves[0].delivered == fits
  {
    TurnIsPicked(qs, size, count, i);
    PickedMoves(qs, size, count, i, left, if fits then count + |qs[i][0].bytes| else count, rest);
  }

  /** There is such a queue, and only one, whenever some head goes. */
  lemma OneTurnOnly(qs: Lists, size: nat, count: nat) returns (i: nat)
    requires Numbered(qs) && count <= size && !NoneGoes(qs, size, count)
    ensures TurnOf(qs, size, count, i) && forall j: nat :: TurnOf(qs, size, count, j) ==> j == i
  {
    PickIsTurn(qs, size, count);
    i := Pick(qs, size, count).value;
    forall j: nat | TurnOf(qs, size, count, j)
      ensures j == i
    {
      TurnIsPicked(qs, size, count, j);
    }
  }

  /** What the moves took out of one queue. */
  function RemovedFrom(moves: seq<Move>, i: nat): seq<Item> {
    if moves == [] then []
    else (if moves[0].queue == i then [moves[0].item] else []) + RemovedFrom(moves[1..], i)
  }

  /** Each class leaves in first-in first-out order, and nothing is lost: what was removed,
      then what is left, is the queue as it was. */
  lemma {:induction false} KeepsFifo(qs: Lists, size: nat, count: nat, i: nat)
    requires i < |qs|
    ensures var b := DrainFrom(qs, size, count); RemovedFrom(b.moves, i) + b.left[i] == qs[i]
    decreases Total(qs)
  {
    var pick := Pick(qs, size, count);
    if pick.Some? {
      var m := MoveOf(qs, size, count, pick.value);
      var next := Popped(qs, pick.value);
      KeepsFifo(next, size, CountAfter(m, count), i);
      var rest := DrainFrom(next, size, CountAfter(m, count));
      assert ([m] + rest.moves)[1..] == rest.moves;
      if pick.value == i {
        assert qs[i] == [qs[i][0]] + next[i];
      }
    }
  }

  lemma {:induction false} MovesComeFromQueues(qs: Lists, size: nat, count: nat, m: Move)
    requires m in DrainFrom(qs, size, count).moves
    ensures m.queue < |qs| && m.item in qs[m.queue]
    ensures m.delivered ==> |m.item.bytes| <= size
    ensures !m.delivered ==> |m.item.bytes| > size
    decreases Total(qs)
  {
    var i := Pick(qs, size, count).value;
    var first := MoveOf(qs, size, count, i);
    if m != first {
      MovesComeFromQueues(Popped(qs, i), size, CountAfter(first, count), m);
    }
  }

  // ---- Global order

  predicate Sorted(qs: Lists) {
    forall q <- qs :: Ascending(q)
  }

  lemma OldestBelowAll(qs: Lists, i: nat, j: nat, item: Item)
    requires Sorted(qs) && Oldest(qs) == Some(i) && j < |qs| && item in qs[j]
    ensures qs[i] != [] ==> qs[i][0].sequence <= item.sequence
  {
    OldestIsLeast(qs, |qs|);
    assert qs[j] in qs && qs[j][0].sequence <= item.sequence;
  }

  /** From the start of the batch to the first time the oldest head did not fit, records
      leave in global sequence order: nothing that leaves later, or stays, is older. */
  predicate OrderedUntilMiss(b: Batch) {
    forall i :: 0 <= i < |b.moves| && NoMissUpTo(b.moves, i) ==> LeastFrom(b, i)
  }

  predicate NoMissUpTo(moves: seq<Move>, i: nat)
    requires i < |moves|
  {
    forall k :: 0 <= k <= i ==> moves[k].wasOldest
  }

  predicate LeastFrom(b: Batch, i: nat)
    requires i < |b.moves|
  {
    && (forall j :: i < j < |b.moves| ==> b.moves[i].item.sequence <= b.moves[j].item.sequence)
    && (forall q <- b.left :: forall item <- q :: b.moves[i].item.sequence <= item.sequence)
  }

  lemma PoppedSorted(qs: Lists, i: nat)
    requires Sorted(qs) && i < |qs| && qs[i] != []
    ensures Sorted(Popped(qs, i))
  {
    assert qs[i] in qs;
    forall q <- Popped(qs, i)
      ensures Ascending(q)
    {
      if q != qs[i][1..] {
        assert q in qs;
      }
    }
  }

  lemma FirstIsLeast(qs: Lists, size: nat, count: nat)
    requires Sorted(qs) && Oldest(qs).Some? && Pick(qs, size, count) == Oldest(qs)
    ensures |DrainFrom(qs, size, count).moves| > 0 && LeastFrom(DrainFrom(qs, size, count), 0)
  {
    var b := DrainFrom(qs, size, count);
    var i := Oldest(qs).value;
    assert b.moves[0] == MoveOf(qs, size, count, i);
    forall j | 0 < j < |b.moves|
      ensures b.moves[0].item.sequence <= b.moves[j].item.sequence
    {
      MovesComeFromQueues(qs, size, count, b.moves[j]);
      OldestBelowAll(qs, i, b.moves[j].queue, b.moves[j].item);
    }
    forall k, item | 0 <= k < |b.left| && item in b.left[k]
      ensures b.moves[0].item.sequence <= item.sequence
    {
      KeepsFifo(qs, size, count, k);
      assert item in qs[k];
      OldestBelowAll(qs, i, k, item);
    }
  }

  lemma {:induction false} BatchIsOrdered(qs: Lists, size: nat, count: nat)
    requires Sorted(qs)
    ensures OrderedUntilMiss(DrainFrom(qs, size, count))
    decreases Total(qs)
  {
    var pick := Pick(qs, size, count);
    if pick.Some? {
      var m := MoveOf(qs, size, count, pick.value);
      var next := Popped(qs, pick.value);
      PoppedSorted(qs, pick.value);
      BatchIsOrdered(next, size, CountAfter(m, count));
      var rest := DrainFrom(next, size, CountAfter(m, count));
      if m.wasOldest {
        FirstIsLeast(qs, size, count);
      }
      OrderedStep(m, rest, DrainFrom(qs, size, count));
    }
  }

  lemma OrderedStep(m: Move, rest: Batch, b: Batch)
    requires OrderedUntilMiss(rest) && b == Batch([m] + rest.moves, rest.left)
    requires m.wasOldest ==> LeastFrom(b, 0)
    ensures OrderedUntilMiss(b)
  {
    forall i | 0 <= i < |b.moves| && NoMissUpTo(b.moves, i)
      ensures LeastFrom(b, i)
    {
      assert b.moves[0] == m;
      if i > 0 {
        LaterLeast(m, rest, b, i - 1);
      }
    }
  }

  lemma LaterLeast(m: Move, rest: Batch, b: Batch, i: nat)
    requires b == Batch([m] + rest.moves, rest.left) && i < |rest.moves|
    requires OrderedUntilMiss(rest) && NoMissUpTo(b.moves, i + 1)
    ensures LeastFrom(b, i + 1)
  {
    assert forall k :: 0 <= k < |rest.moves| ==> rest.moves[k] == b.moves[k + 1];
    assert NoMissUpTo(rest.moves, i);
    assert LeastFrom(rest, i);
    forall j | i + 1 < j < |b.moves|
      ensures b.moves[i + 1].item.sequence <= b.moves[j].item.sequence
    {
      assert b.moves[j] == rest.moves[j - 1];
    }
  }

  /** No two queues hold the same sequence number. */
  predicate Apart(qs: Lists) {
    forall i, j :: 0 <= i < j < |qs| ==> forall a <- qs[i] :: forall b <- qs[j] :: a.sequence != b.sequence
  }

  lemma PoppedApart(qs: Lists, i: nat)
    requires Apart(qs) && i < |qs| && qs[i] != []
    ensures Apart(Popped(qs, i))
  {
    var r := Popped(qs, i);
    assert forall k, item :: 0 <= k < |r| && item in r[k] ==> item in qs[k];
  }

  /** What a drain does not take first it takes later or leaves. */
  lemma LaterOrLeft(qs: Lists, size: nat, count: nat, i: nat, item: Item)
    requires i < |qs| && item in qs[i]
    ensures var b := DrainFrom(qs, size, count);
            item in b.left[i] || exists j :: 0 <= j < |b.moves| && b.moves[j].item == item
  {
    var b := DrainFrom(qs, size, count);
    KeepsFifo(qs, size, count, i);
    if item in RemovedFrom(b.moves, i) {
      RemovedWasMoved(b.moves, i, item);
    }
  }

  lemma {:induction false} RemovedWasMoved(moves: seq<Move>, i: nat, item: Item)
    requires item in RemovedFrom(moves, i)
    ensures exists j :: 0 <= j < |moves| && moves[j].item == item
  {
    if moves[0].item != item {
      RemovedWasMoved(moves[1..], i, item);
      var j :| 0 <= j < |moves[1..]| && moves[1..][j].item == item;
      assert moves[j + 1].item == item;
    }
  }

  lemma OldestIsOlder(qs: Lists, o: nat, i: nat)
    requires Numbered(qs) && Apart(qs) && Oldest(qs) == Some(o) && i < |qs| && i != o && qs[i] != []
    ensures qs[o] != [] && qs[o][0].sequence < qs[i][0].sequence
  {
    OldestIsLeast(qs, |qs|);
    HeadNumbered(qs, i);
    assert HeadSeqOf(qs[o]) <= HeadSeqOf(qs[i]);
    assert qs[o][0] in qs[o] && qs[i][0] in qs[i];
  }

  lemma OlderComesLater(m: Move, rest: Batch, o: nat, older: Item)
    requires older.sequence < m.item.sequence && o < |rest.left|
    requires older in rest.left[o] || exists j :: 0 <= j < |rest.moves| && rest.moves[j].item == older
    ensures !LeastFrom(Batch([m] + rest.moves, rest.left), 0)
  {
    var b := Batch([m] + rest.moves, rest.left);
    if older in rest.left[o] {
      assert b.left[o] in b.left;
    } else {
      var j :| 0 <= j < |rest.moves| && rest.moves[j].item == older;
      assert b.moves[j + 1].item == older;
    }
  }

  /** When a younger head is taken, the oldest one is older and still to come. */
  lemma FirstIsOvertaken(qs: Lists, size: nat, count: nat)
    requires Numbered(qs) && Apart(qs)
    requires Pick(qs, size, count).Some? && Pick(qs, size, count) != Oldest(qs)
    ensures var b := DrainFrom(qs, size, count); |b.moves| > 0 && !LeastFrom(b, 0)
  {
    var i, o := Pick(qs, size, count).value, Oldest(qs).value;
    var m := MoveOf(qs, size, count, i);
    var next := Popped(qs, i);
    OldestIsOlder(qs, o, i);
    LaterOrLeft(next, size, CountAfter(m, count), o, qs[o][0]);
    OlderComesLater(m, DrainFrom(next, size, CountAfter(m, count)), o, qs[o][0]);
  }

  lemma LeastShifts(m: Move, rest: Batch, i: nat)
    requires i < |rest.moves|
    ensures LeastFrom(Batch([m] + rest.moves, rest.left), i + 1) <==> LeastFrom(rest, i)
  {
    var b := Batch([m] + rest.moves, rest.left);
    assert forall j :: 0 <= j < |rest.moves| ==> rest.moves[j] == b.moves[j + 1];
    if LeastFrom(b, i + 1) {
      forall j | i < j < |rest.moves|
        ensures rest.moves[i].item.sequence <= rest.moves[j].item.sequence
      {
        assert b.moves[j + 1] == rest.moves[j];
      }
    }
    if LeastFrom(rest, i) {
      forall j | i + 1 < j < |b.moves|
        ensures b.moves[i + 1].item.sequence <= b.moves[j].item.sequence
      {
        assert b.moves[j] == rest.moves[j - 1];
      }
    }
  }

  /** A record leaves before everything younger, and after nothing older, exactly when it was
      the oldest head at its turn: each miss, and only a miss, lets it overtake. */
  lemma {:induction false} InTurnIffOldest(qs: Lists, size: nat, count: nat, i: nat)
    requires Sorted(qs) && Numbered(qs) && Apart(qs) && i < |DrainFrom(qs, size, count).moves|
    ensures var b := DrainFrom(qs, size, count); LeastFrom(b, i) <==> b.moves[i].wasOldest
    decreases Total(qs)
  {
    var pick := Pick(qs, size, count).value;
    var m := MoveOf(qs, size, count, pick);
    var next := Popped(qs, pick);
    var rest := DrainFrom(next, size, CountAfter(m, count));
    assert DrainFrom(qs, size, count) == Batch([m] + rest.moves, rest.left);
    if i > 0 {
      PoppedSorted(qs, pick);
      PoppedNumbered(qs, pick);
      PoppedApart(qs, pick);
      InTurnIffOldest(next, size, CountAfter(m, count), i - 1);
      LeastShifts(m, rest, i - 1);
    } else if m.wasOldest {
      FirstIsLeast(qs, size, count);
    } else {
      FirstIsOvertaken(qs, size, count);
    }
  }

  /** The whole batch, with what stays behind, is in global sequence order. */
  predicate FullyOrdered(b: Batch) {
    forall i :: 0 <= i < |b.moves| ==> LeastFrom(b, i)
  }

  /** A batch is fully ordered exactly when every head taken was the oldest, that is when
      the oldest head never failed to fit while another moved. */
  lemma OrderedIffNoMiss(qs: Lists, size: nat, count: nat)
    requires Sorted(qs) && Numbered(qs) && Apart(qs)
    ensures var b := DrainFrom(qs, size, count);
            FullyOrdered(b) <==> forall m <- b.moves :: m.wasOldest
  {
    var b := DrainFrom(qs, size, count);
    forall i | 0 <= i < |b.moves|
      ensures LeastFrom(b, i) <==> b.moves[i].wasOldest
    {
      InTurnIffOldest(qs, size, count, i);
    }
    if FullyOrdered(b) {
      forall m | m in b.moves
        ensures m.wasOldest
      {
        var i :| 0 <= i < |b.moves| && b.moves[i] == m;
        assert LeastFrom(b, i);
      }
    }
  }

  /** After a miss younger records fill in: whenever the second record of one class does
      not fit behind the first but the next class's head does, the batch runs ahead of a
      record that stays behind. */
  lemma AfterMissDisorder(a: Item, b: Item, c: Item, size: nat)
    requires a.sequence < b.sequence < c.sequence < MAX_SEQUENCE
    requires |a.bytes| <= size && |b.bytes| <= size
    requires |a.bytes| + |c.bytes| <= size < |a.bytes| + |b.bytes|
    ensures Sorted([[a, b], [c], []])
    ensures DrainFrom([[a, b], [c], []], size, 0)
         == Batch([Move(0, a, true, true), Move(1, c, true, false)], [[b], [], []])
  {
    var q0: Lists, q1: Lists, q2: Lists := [[a, b], [c], []], [[b], [c], []], [[b], [], []];
    assert OldestIn(q0, 1) == Some(0) && OldestIn(q0, 2) == Some(0);
    assert q0[0][1..] == [b];
    assert Popped(q0, 0) == q1;
    assert OldestIn(q1, 1) == Some(0) && OldestIn(q1, 2) == Some(0);
    assert FirstOther(q1, 0, size, |a.bytes|, 1) == Some(1);
    assert q1[1][1..] == [];
    assert Popped(q1, 1) == q2;
    assert OldestIn(q2, 1) == Some(0) && OldestIn(q2, 2) == Some(0);
    var count := |a.bytes| + |c.bytes|;
    assert FirstOther(q2, 0, size, count, 2) == None && FirstOther(q2, 0, size, count, 1) == None;
    assert DrainFrom(q2, size, count) == Batch([], q2);
  }

  // ---- Progress

  /** No emitter builds a record above the bound the size guard enforces. */
  predicate Bounded(qs: Lists, size: nat) {
    forall q <- qs :: forall item <- q :: |item.bytes| <= size
  }

  lemma {:induction false} NothingSkipped(qs: Lists, size: nat, count: nat)
    requires Bounded(qs, size)
    ensures Skipped(DrainFrom(qs, size, count).moves) == []
    decreases Total(qs)
  {
    var pick := Pick(qs, size, count);
    if pick.Some? {
      var m := MoveOf(qs, size, count, pick.value);
      assert qs[pick.value] in qs && qs[pick.value][0] in qs[pick.value];
      PoppedBounded(qs, pick.value, size);
      NothingSkipped(Popped(qs, pick.value), size, CountAfter(m, count));
      TakenStep(m, DrainFrom(Popped(qs, pick.value), size, CountAfter(m, count)).moves);
    }
  }

  lemma PoppedBounded(qs: Lists, i: nat, size: nat)
    requires Bounded(qs, size) && i < |qs| && qs[i] != []
    ensures Bounded(Popped(qs, i), size)
  {
    forall q <- Popped(qs, i), item <- q
      ensures |item.bytes| <= size
    {
      if q == qs[i][1..] {
        assert item in qs[i] && qs[i] in qs;
      } else {
        assert q in qs;
      }
    }
  }

  /** A drain of queues that are not all empty, into a buffer any record fits, delivers at
      least one record: the oldest. */
  lemma DrainDelivers(qs: Lists, size: nat)
    requires Numbered(qs) && Bounded(qs, size) && Total(qs) > 0
    ensures var b := DrainFrom(qs, size, 0);
            |b.moves| > 0 && b.moves[0].delivered && b.moves[0].wasOldest && Total(b.left) < Total(qs)
  {
    var i := SomeRecord(qs);
    OldestIsLeast(qs, |qs|);
    assert qs[i] in qs && qs[i][0] in qs[i];
    var oldest := Oldest(qs).value;
    assert qs[oldest] != [];
    assert qs[oldest] in qs && qs[oldest][0] in qs[oldest];
    assert Pick(qs, size, 0) == Some(oldest);
    LeftShrinks(Popped(qs, oldest), size, CountAfter(MoveOf(qs, size, 0, oldest), 0));
  }

  lemma {:induction false} SomeRecord(qs: Lists) returns (i: nat)
    requires Total(qs) > 0
    ensures i < |qs| && qs[i] != []
  {
    if qs[|qs| - 1] != [] {
      i := |qs| - 1;
    } else {
      i := SomeRecord(qs[..|qs| - 1]);
    }
  }

  lemma {:induction false} LeftShrinks(qs: Lists, size: nat, count: nat)
    ensures Total(DrainFrom(qs, size, count).left) <= Total(qs)
    decreases Total(qs)
  {
    var pick := Pick(qs, size, count);
    if pick.Some? {
      LeftShrinks(Popped(qs, pick.value), size, CountAfter(MoveOf(qs, size, count, pick.value), count));
    }
  }

  lemma LeftStaysGood(qs: Lists, size: nat)
    requires Numbered(qs) && Bounded(qs, size)
    ensures var b := DrainFrom(qs, size, 0); Numbered(b.left) && Bounded(b.left, size)
  {
    var b := DrainFrom(qs, size, 0);
    forall i, item | 0 <= i < |b.left| && item in b.left[i]
      ensures item.sequence < MAX_SEQUENCE && |item.bytes| <= size
    {
      KeepsFifo(qs, size, 0, i);
      assert item in qs[i] && qs[i] in qs;
    }
  }

  /** Repeated drains with nothing pushed between them. */
  function Drains(qs: Lists, size: nat, n: nat): (b: Batch)
    ensures |b.left| == |qs|
    decreases n
  {
    if n == 0 then Batch([], qs)
    else
      var first := DrainFrom(qs, size, 0);
      var rest := Drains(first.left, size, n - 1);
      Batch(first.moves + rest.moves, rest.left)
  }

  lemma {:induction false} RemovedAppend(a: seq<Move>, b: seq<Move>, i: nat)
    ensures RemovedFrom(a + b, i) == RemovedFrom(a, i) + RemovedFrom(b, i)
  {
    if a == [] {
      assert a + b == b;
    } else {
      assert (a + b)[0] == a[0] && (a + b)[1..] == a[1..] + b;
      RemovedAppend(a[1..], b, i);
      var front := if a[0].queue == i then [a[0].item] else [];
      assert front + (RemovedFrom(a[1..], i) + RemovedFrom(b, i)) == front + RemovedFrom(a[1..], i) + RemovedFrom(b, i);
    }
  }

  lemma {:induction false} SkippedAppend(a: seq<Move>, b: seq<Move>)
    ensures Skipped(a + b) == Skipped(a) + Skipped(b)
  {
    if a == [] {
      assert a + b == b;
    } else {
      assert (a + b)[1..] == a[1..] + b;
      SkippedAppend(a[1..], b);
    }
  }

  /** Finitely many drains, at most one per resident record, deliver everything resident,
      each class in its own order, and skip nothing. */
  lemma {:induction false} DrainsDeliverEverything(qs: Lists, size: nat, n: nat)
    requires Numbered(qs) && Bounded(qs, size) && n >= Total(qs)
    ensures var b := Drains(qs, size, n);
            && Skipped(b.moves) == []
            && forall i :: 0 <= i < |qs| ==> b.left[i] == [] && RemovedFrom(b.moves, i) == qs[i]
    decreases n
  {
    if n == 0 {
      AllEmpty(qs);
    } else {
      var first := DrainFrom(qs, size, 0);
      DrainMakesProgress(qs, size);
      DrainsDeliverEverything(first.left, size, n - 1);
      var rest := Drains(first.left, size, n - 1);
      SkippedAppend(first.moves, rest.moves);
      forall i | 0 <= i < |qs|
        ensures RemovedFrom(first.moves + rest.moves, i) == qs[i]
      {
        KeepsFifo(qs, size, 0, i);
        RemovedAppend(first.moves, rest.moves, i);
      }
    }
  }

  lemma DrainMakesProgress(qs: Lists, size: nat)
    requires Numbered(qs) && Bounded(qs, size)
    ensures var b := DrainFrom(qs, size, 0);
            && Numbered(b.left) && Bounded(b.left, size) && Skipped(b.moves) == []
            && (Total(b.left) < Total(qs) || Total(b.left) == Total(qs) == 0)
  {
    LeftStaysGood(qs, size);
    NothingSkipped(qs, size, 0);
    if Total(qs) > 0 {
      DrainDelivers(qs, size);
    } else {
      LeftShrinks(qs, size, 0);
    }
  }

  lemma {:induction false} AllEmpty(qs: Lists)
    requires Total(qs) == 0
    ensures forall i :: 0 <= i < |qs| ==> qs[i] == []
  {
    if qs != [] {
      AllEmpty(qs[..|qs| - 1]);
    }
  }
}
