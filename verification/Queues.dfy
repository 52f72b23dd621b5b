/** The driver's bounded record queues (driver/secoutfall/Queue.h): drop-oldest for the
    control and flood classes, stop-collect for drop evidence. */
module Queues {
  import opened Wrappers
  import opened Wire

  const ITEMS_CAP: nat := 256
  const FILES_CAP: nat := 4096
  const DROPS_CAP: nat := 512

  /** HeadSeq's answer for an empty queue. */
  const MAX_SEQUENCE: nat := 0xFFFF_FFFF_FFFF_FFFF

  datatype Item = Item(sequence: nat, bytes: seq<byte>)

  // ---- Queue contents as values

  function Pushed(q: seq<Item>, cap: nat, item: Item): (r: seq<Item>)
    requires cap > 0 && |q| <= cap
    ensures |r| <= cap
  {
    if |q| == cap then q[1..] + [item] else q + [item]
  }

  function HeadSeqOf(q: seq<Item>): nat {
    if q == [] then MAX_SEQUENCE else q[0].sequence
  }

  predicate Ascending(q: seq<Item>) {
    forall i, j :: 0 <= i < j < |q| ==> q[i].sequence < q[j].sequence
  }

  class BoundedQueue {
    var list: seq<Item>
    var size: nat
    const maxItems: nat
    var overwritten: nat

    ghost predicate Valid()
      reads this
    {
      maxItems > 0 && size == |list| <= maxItems
    }

    constructor (maxItems: nat)
      requires maxItems > 0
      ensures Valid() && list == [] && overwritten == 0 && this.maxItems == maxItems
    {
      this.maxItems, list, size, overwritten := maxItems, [], 0, 0;
    }

    method Push(entry: Item)
      requires Valid()
      modifies this
      ensures Valid() && list == Pushed(old(list), maxItems, entry)
      ensures overwritten == old(overwritten) + if |old(list)| == maxItems then 1 else 0
    {
      if size == maxItems {
        list := list[1..];
        size := size - 1;
        overwritten := overwritten + 1;
      }
      list := list + [entry];
      size := size + 1;
    }

    method TryPush(entry: Item) returns (accepted: bool)
      requires Valid()
      modifies this
      ensures Valid() && overwritten == old(overwritten)
      ensures accepted <==> |old(list)| < maxItems
      ensures list == if accepted then old(list) + [entry] else old(list)
    {
      if size == maxItems {
        return false;
      }
      list := list + [entry];
      size := size + 1;
      return true;
    }

    method Pop() returns (item: Option<Item>)
      requires Valid()
      modifies this
      ensures Valid() && overwritten == old(overwritten)
      ensures item.None? <==> old(list) == []
      ensures item.None? ==> list == old(list)
      ensures item.Some? ==> [item.value] + list == old(list)
    {
      if size == 0 {
        return None;
      }
      item := Some(list[0]);
      list := list[1..];
      size := size - 1;
    }

    method PopIfFits(available: nat) returns (item: Option<Item>)
      requires Valid()
      modifies this
      ensures Valid() && overwritten == old(overwritten)
      ensures item.Some? <==> old(list) != [] && |old(list)[0].bytes| <= available
      ensures item.None? ==> list == old(list)
      ensures item.Some? ==> [item.value] + list == old(list)
    {
      if size == 0 {
        return None;
      }
      if |list[0].bytes| > available {
        return None;
      }
      item := Some(list[0]);
      list := list[1..];
      size := size - 1;
    }

    method HeadSeq() returns (s: nat)
      requires Valid()
      ensures s == HeadSeqOf(list)
    {
      s := if size == 0 then MAX_SEQUENCE else list[0].sequence;
    }

    method HeadSize() returns (n: nat)
      requires Valid()
      ensures n == if list == [] then 0 else |list[0].bytes|
    {
      n := if size == 0 then 0 else |list[0].bytes|;
    }
  }

  // ---- Whole runs of one queue

  datatype Operation = PushOldest(item: Item) | Accept(item: Item) | Remove

  /** A queue with its history: everything it took in, the places in that history of what
      it gave out, and what it lost. */
  datatype History = History(
    list: seq<Item>,
    taken: seq<Item>,     // items that entered, in order
    out: seq<nat>,        // history indices of the items removed by the drain, in order
    overwritten: nat,
    refused: nat)

  const EMPTY_HISTORY := History([], [], [], 0, 0)

  function Head(h: History): int {
    |h.taken| - |h.list|
  }

  function Max(a: int, b: int): int {
    if a < b then b else a
  }

  function Apply(h: History, cap: nat, op: Operation): (r: History)
    requires cap > 0 && |h.list| <= cap
    ensures |r.list| <= cap
  {
    match op
    case PushOldest(item) =>
      h.(list := Pushed(h.list, cap, item), taken := h.taken + [item],
         overwritten := h.overwritten + if |h.list| == cap then 1 else 0)
    case Accept(item) =>
      if |h.list| == cap then h.(refused := h.refused + 1)
      else h.(list := h.list + [item], taken := h.taken + [item])
    case Remove =>
      if h.list == [] then h
      else h.(list := h.list[1..], out := h.out + [Max(Head(h), 0)])
  }

  function RunOf(ops: seq<Operation>, cap: nat): (h: History)
    requires cap > 0
    ensures |h.list| <= cap
  {
    if ops == [] then EMPTY_HISTORY else Apply(RunOf(ops[..|ops| - 1], cap), cap, ops[|ops| - 1])
  }

  /** One past the history index given out last. */
  function PastLastOut(h: History): nat {
    if h.out == [] then 0 else h.out[|h.out| - 1] + 1
  }

  /** The list is the tail of the history; indices leave in order and never twice; what is
      behind the head was either given out or overwritten. */
  predicate Tracked(h: History) {
    && Head(h) >= 0 && h.list == h.taken[Head(h)..]
    && (forall i :: 0 <= i < |h.out| ==> h.out[i] < Head(h))
    && (forall i, j :: 0 <= i < j < |h.out| ==> h.out[i] < h.out[j])
    && |h.out| + h.overwritten == Head(h)
  }

  lemma TrackedStep(h: History, cap: nat, op: Operation)
    requires cap > 0 && |h.list| <= cap && Tracked(h)
    ensures Tracked(Apply(h, cap, op))
  {
    var r := Apply(h, cap, op);
    match op
    case PushOldest(item) => assert r.list == r.taken[Head(r)..];
    case Accept(item) => assert r.list == r.taken[Head(r)..];
    case Remove => assert r.list == r.taken[Head(r)..];
  }

  lemma {:induction false} AlwaysTracked(ops: seq<Operation>, cap: nat)
    requires cap > 0
    ensures Tracked(RunOf(ops, cap))
  {
    if ops != [] {
      AlwaysTracked(ops[..|ops| - 1], cap);
      TrackedStep(RunOf(ops[..|ops| - 1], cap), cap, ops[|ops| - 1]);
    }
  }

  predicate DropOldestOnly(ops: seq<Operation>) {
    forall op <- ops :: !op.Accept?
  }

  predicate StopCollectOnly(ops: seq<Operation>) {
    forall op <- ops :: !op.PushOldest?
  }

  /** The list is exactly the newest records up to the cap among those after the last one
      given out. */
  predicate HoldsNewest(h: History, cap: nat) {
    0 <= Head(h) == Max(PastLastOut(h), |h.taken| - cap) && h.list == h.taken[Head(h)..]
  }

  /** A drop-oldest queue never loses something newer to keep something older. */
  lemma {:induction false} HoldsTheNewest(ops: seq<Operation>, cap: nat)
    requires cap > 0 && DropOldestOnly(ops)
    ensures HoldsNewest(RunOf(ops, cap), cap) && RunOf(ops, cap).refused == 0
  {
    AlwaysTracked(ops, cap);
    if ops != [] {
      HoldsTheNewest(ops[..|ops| - 1], cap);
      AlwaysTracked(ops[..|ops| - 1], cap);
    }
  }

  /** What left the queue, in order. */
  function Delivered(h: History): seq<Item>
    requires forall i :: 0 <= i < |h.out| ==> h.out[i] < |h.taken|
  {
    seq(|h.out|, i requires 0 <= i < |h.out| => h.taken[h.out[i]])
  }

  lemma {:induction false} NothingOverwritten(ops: seq<Operation>, cap: nat)
    requires cap > 0 && StopCollectOnly(ops)
    ensures var h := RunOf(ops, cap);
            h.overwritten == 0 && |h.out| <= |h.taken| && forall i :: 0 <= i < |h.out| ==> h.out[i] == i
  {
    AlwaysTracked(ops, cap);
    if ops != [] {
      NothingOverwritten(ops[..|ops| - 1], cap);
      AlwaysTracked(ops[..|ops| - 1], cap);
    }
  }

  lemma DeliveredIsPrefix(h: History)
    requires Tracked(h) && h.overwritten == 0 && forall i :: 0 <= i < |h.out| ==> h.out[i] == i
    ensures (forall i :: 0 <= i < |h.out| ==> h.out[i] < |h.taken|) && Delivered(h) + h.list == h.taken
  {
    assert |h.out| == Head(h) <= |h.taken|;
    assert Delivered(h) == h.taken[..Head(h)];
  }

  /** A stop-collect queue never loses accepted evidence: delivered, then resident, is
      exactly the accepted sequence. */
  lemma AcceptedIsKept(ops: seq<Operation>, cap: nat)
    requires cap > 0 && StopCollectOnly(ops)
    ensures var h := RunOf(ops, cap);
            && h.overwritten == 0
            && (forall i :: 0 <= i < |h.out| ==> h.out[i] < |h.taken|)
            && Delivered(h) + h.list == h.taken
  {
    AlwaysTracked(ops, cap);
    NothingOverwritten(ops, cap);
    DeliveredIsPrefix(RunOf(ops, cap));
  }

  /** Every record that was offered is accounted for: still resident, given out,
      overwritten, or refused. */
  lemma {:induction false} OfferedIsAccounted(ops: seq<Operation>, cap: nat)
    requires cap > 0
    ensures var h := RunOf(ops, cap);
            |h.list| + |h.out| + h.overwritten + h.refused == Offered(ops)
  {
    AlwaysTracked(ops, cap);
    if ops != [] {
      OfferedIsAccounted(ops[..|ops| - 1], cap);
      AlwaysTracked(ops[..|ops| - 1], cap);
    }
  }

  function Offered(ops: seq<Operation>): nat {
    if ops == [] then 0
    else Offered(ops[..|ops| - 1]) + if ops[|ops| - 1].Remove? then 0 else 1
  }
}
