/** The driver object itself: notifications in, drained buffers out, each call tied to the
    step machine of `Pipeline` and the drain of `Drain` (driver/secoutfall/secoutfall.cpp).
    A ghost field holds the pipeline's state beside the three queues, and every method is
    proved to move it by the steps it stands for. */
module Driver {
  import opened Wrappers
  import opened Wire
  import opened Queues
  import E = Emitters
  import P = Pipeline
  import D = Drain

  /** Which queue an emitter pushes to. */
  function ClassOf(ev: Event): P.Class {
    match ev
    case FileEvent(_, _) => P.FILES
    case FileWrittenEvent(_, _, _) => P.FILES
    case FileRenamedEvent(_, _) => P.FILES
    case BehaviorCallEvent(_, _, _, _, _, _) => P.FILES
    case DropCapturedEvent(_, _, _) => P.DROPS
    case _ => P.ITEMS
  }

  function ListsIn(s: P.State): D.Lists {
    seq(|s.queues|, i requires 0 <= i < |s.queues| => s.queues[i].list)
  }

  // ---- A drain's moves as steps of the pipeline

  function MoveStep(m: D.Move, size: nat, count: nat): P.Step
    requires m.queue < 3 && count <= size
  {
    if m.delivered then P.Take(m.queue, size - count) else P.Skip(m.queue, size)
  }

  /** The pipeline after a drain's moves. */
  function AfterMoves(s: P.State, moves: seq<D.Move>, size: nat, count: nat): (r: P.State)
    requires P.Shaped(s)
    ensures P.Shaped(r)
    decreases |moves|
  {
    if moves == [] || moves[0].queue >= 3 || count > size then s
    else
      AfterMoves(P.Next(s, MoveStep(moves[0], size, count)), moves[1..], size, D.CountAfter(moves[0], count))
  }

  lemma OneMove(s: P.State, size: nat, count: nat, i: nat)
    requires P.Shaped(s) && count <= size && i < 3
    requires D.Movable(s.queues[i].list, size, count)
    ensures var m := D.MoveOf(ListsIn(s), size, count, i);
            var r := P.Next(s, MoveStep(m, size, count));
            && ListsIn(r) == D.Popped(ListsIn(s), i)
            && r.delivered == s.delivered + (if m.delivered then [m.item] else [])
            && r.skipped == s.skipped + (if m.delivered then [] else [m.item])
            && D.CountAfter(m, count) <= size
  {
  }

  /** The same, field by field. */
  lemma MoveEffect(s: P.State, size: nat, count: nat, i: P.Class)
    requires P.Shaped(s) && count <= size && D.Movable(s.queues[i].list, size, count)
    ensures var r := P.Next(s, MoveStep(D.MoveOf(ListsIn(s), size, count, i), size, count));
            && r.queues == s.queues[i := Apply(s.queues[i], P.CapOf(i), Remove)]
            && r.queues[i].list == s.queues[i].list[1..]
            && r.inFlight == s.inFlight && r.next == s.next
            && |r.skipped| == |s.skipped| + if count + |s.queues[i].list[0].bytes| <= size then 0 else 1
  {
    OneMove(s, size, count, i);
  }

  lemma MovesStep(s: P.State, m: D.Move, rest: seq<D.Move>, size: nat, count: nat)
    requires P.Shaped(s) && m.queue < 3 && count <= size
    ensures AfterMoves(s, [m] + rest, size, count)
         == AfterMoves(P.Next(s, MoveStep(m, size, count)), rest, size, D.CountAfter(m, count))
  {
    assert ([m] + rest)[1..] == rest;
  }

  /** A drain is a run of the pipeline: its takes and skips, in order, lead to the queues
      it leaves behind, with what it delivered and skipped on record. */
  lemma {:induction false} DrainIsARun(s: P.State, size: nat, count: nat)
    requires P.Shaped(s) && count <= size
    ensures var b := D.DrainFrom(ListsIn(s), size, count);
            DrainedTo(s, AfterMoves(s, b.moves, size, count), b)
    decreases D.Total(ListsIn(s))
  {
    var qs := ListsIn(s);
    var pick := D.Pick(qs, size, count);
    if pick.None? {
      assert D.DrainFrom(qs, size, count) == D.Batch([], qs);
    } else {
      var m := D.MoveOf(qs, size, count, pick.value);
      var next := P.Next(s, MoveStep(m, size, count));
      OneMove(s, size, count, pick.value);
      DrainIsARun(next, size, D.CountAfter(m, count));
      var rest := D.DrainFrom(ListsIn(next), size, D.CountAfter(m, count));
      MovesStep(s, m, rest.moves, size, count);
      assert D.DrainFrom(qs, size, count) == D.Batch([m] + rest.moves, rest.left);
      DrainedStep(s, m, next, AfterMoves(next, rest.moves, size, D.CountAfter(m, count)), rest);
    }
  }

  predicate DrainedTo(s: P.State, r: P.State, b: D.Batch) {
    && ListsIn(r) == b.left
    && r.delivered == s.delivered + D.Taken(b.moves)
    && r.skipped == s.skipped + D.Skipped(b.moves)
  }

  lemma DrainedStep(s: P.State, m: D.Move, next: P.State, r: P.State, rest: D.Batch)
    requires DrainedTo(next, r, rest)
    requires next.delivered == s.delivered + (if m.delivered then [m.item] else [])
    requires next.skipped == s.skipped + (if m.delivered then [] else [m.item])
    ensures DrainedTo(s, r, D.Batch([m] + rest.moves, rest.left))
  {
    D.TakenStep(m, rest.moves);
  }

  lemma EmitEffect(s: P.State, c: P.Class, bytes: seq<byte>)
    requires P.Shaped(s) && s.inFlight == multiset{}
    ensures var r := P.Next(s, P.Emit(c, bytes));
            var item := Item(s.next + 1, bytes);
            && r.next == s.next + 1 && r.inFlight == multiset{} && r.skipped == s.skipped
            && r.queues == s.queues[c := Apply(s.queues[c], P.CapOf(c), P.PushOperation(c, item))]
  {
    assert Item(s.next + 1, bytes) in P.AfterAlloc(s, bytes).inFlight;
  }

  // ---- The object

  class Device {
    const items: BoundedQueue
    const files: BoundedQueue
    const drops: BoundedQueue
    var nextSequence: nat
    var allocFailures: nat
    var dropsStopped: nat
    var oversizedSkipped: nat
    ghost var state: P.State

    function Queues(): (qs: seq<BoundedQueue>)
      ensures |qs| == 3
    {
      [items, files, drops]
    }

    function Lists(): (qs: D.Lists)
      reads items, files, drops
    {
      [items.list, files.list, drops.list]
    }

    ghost predicate Valid()
      reads this, items, files, drops
    {
      && items != files && files != drops && items != drops
      && items.Valid() && files.Valid() && drops.Valid()
      && items.maxItems == ITEMS_CAP && files.maxItems == FILES_CAP && drops.maxItems == DROPS_CAP
      && P.Shaped(state) && state.inFlight == multiset{}
      && items.list == state.queues[P.ITEMS].list && files.list == state.queues[P.FILES].list
      && drops.list == state.queues[P.DROPS].list && nextSequence == state.next
      && items.overwritten == state.queues[P.ITEMS].overwritten
      && files.overwritten == state.queues[P.FILES].overwritten
      && dropsStopped == state.queues[P.DROPS].refused && oversizedSkipped == |state.skipped|
    }

    constructor ()
      ensures Valid() && state == P.START && fresh(items) && fresh(files) && fresh(drops)
    {
      items := new BoundedQueue(ITEMS_CAP);
      files := new BoundedQueue(FILES_CAP);
      drops := new BoundedQueue(DROPS_CAP);
      nextSequence, allocFailures, dropsStopped, oversizedSkipped := 0, 0, 0, 0;
      state := P.START;
    }

    /** PushRecord and PushDropRecord. */
    method PushRecord(cls: P.Class, item: Item)
      requires Valid() && item == Item(nextSequence + 1, item.bytes)
      modifies this, items, files, drops
      ensures Valid() && allocFailures == old(allocFailures)
      ensures state == P.Next(old(state), P.Emit(cls, item.bytes))
    {
      EmitEffect(state, cls, item.bytes);
      nextSequence := nextSequence + 1;
      state := P.Next(state, P.Emit(cls, item.bytes));
      if cls == P.ITEMS {
        items.Push(item);
      } else if cls == P.FILES {
        files.Push(item);
      } else {
        var accepted := drops.TryPush(item);
        if !accepted {
          dropsStopped := dropsStopped + 1;
        }
      }
    }

    /** One notification, from its callback to its queue; a failed allocation is counted and
        consumes no sequence number. */
    method Notify(ev: Event, pid: u32, time: u64, processCreateTime: u64, allocates: bool)
      requires Valid() && nextSequence + 1 < MAX_SEQUENCE
      modifies this, items, files, drops
      ensures Valid()
      ensures !allocates ==> state == old(state) && allocFailures == old(allocFailures) + 1
      ensures allocates ==> allocFailures == old(allocFailures)
      ensures allocates ==>
        state == P.Next(old(state),
              P.Emit(ClassOf(ev), RecordBytes(Stamp(pid, old(nextSequence) + 1, time, processCreateTime), ev)))
    {
      if !allocates {
        allocFailures := allocFailures + 1;
        return;
      }
      var record := E.BuildRecord(Stamp(pid, nextSequence + 1, time, processCreateTime), ev);
      PushRecord(ClassOf(ev), Item(nextSequence + 1, record[..]));
    }

    method PopFrom(i: P.Class, available: nat) returns (item: Option<Item>)
      requires Valid()
      modifies items, files, drops
      ensures items.Valid() && files.Valid() && drops.Valid()
      ensures items.overwritten == old(items.overwritten) && files.overwritten == old(files.overwritten)
      ensures item.Some? <==> old(Lists())[i] != [] && |old(Lists())[i][0].bytes| <= available
      ensures item.None? ==> Lists() == old(Lists())
      ensures item.Some? ==> item.value == old(Lists())[i][0] && Lists() == D.Popped(old(Lists()), i)
    {
      if i == P.ITEMS {
        item := items.PopIfFits(available);
      } else if i == P.FILES {
        item := files.PopIfFits(available);
      } else {
        item := drops.PopIfFits(available);
      }
      assert item.Some? ==> Lists()[i] == old(Lists())[i][1..];
    }

    method HeadSizeOf(i: P.Class) returns (n: nat)
      requires Valid()
      ensures n == if Lists()[i] == [] then 0 else |Lists()[i][0].bytes|
    {
      if i == P.ITEMS {
        n := items.HeadSize();
      } else if i == P.FILES {
        n := files.HeadSize();
      } else {
        n := drops.HeadSize();
      }
    }

    method HeadSeqAt(i: P.Class) returns (s: nat)
      requires Valid()
      ensures s == HeadSeqOf(Lists()[i])
    {
      if i == P.ITEMS {
        s := items.HeadSeq();
      } else if i == P.FILES {
        s := files.HeadSeq();
      } else {
        s := drops.HeadSeq();
      }
    }

    /** The drain's tryPop on one queue. */
    method TryPop(i: P.Class, buffer: array<byte>, count: nat) returns (progress: int, after: nat)
      requires Valid() && count <= buffer.Length
      modifies this, items, files, drops, buffer
      ensures Valid() && nextSequence == old(nextSequence) && allocFailures == old(allocFailures)
      ensures progress == 1 <==> D.Movable(old(Lists())[i], buffer.Length, count)
      ensures progress != 1 ==>
        state == old(state) && Lists() == old(Lists()) && after == count && buffer[..] == old(buffer[..])
      ensures progress == 1 ==>
        var m := D.MoveOf(old(Lists()), buffer.Length, count, i);
        && Lists() == D.Popped(old(Lists()), i)
        && state == P.Next(old(state), MoveStep(m, buffer.Length, count))
        && after == D.CountAfter(m, count) <= buffer.Length
        && buffer[..after] == old(buffer[..count]) + if m.delivered then m.item.bytes else []
    {
      ghost var m := if Lists()[i]
            == [] then D.Move(i, Item(0, []), false, false) else D.MoveOf(Lists(), buffer.Length, count, i);
      after := count;
      assert Lists() == ListsIn(state);
      if D.Movable(Lists()[i], buffer.Length, count) {
        MoveEffect(state, buffer.Length, count, i);
      }
      var item := PopFrom(i, buffer.Length - count);
      assert items.list == Lists()[P.ITEMS] && files.list == Lists()[P.FILES] && drops.list == Lists()[P.DROPS];
      if item.Some? {
        state := P.Next(state, MoveStep(m, buffer.Length, count));
        E.Store(buffer, count, item.value.bytes);
        after := count + |item.value.bytes|;
        return 1, after;
      }
      var headSize := HeadSizeOf(i);
      if headSize == 0 {
        return -1, after;
      }
      if headSize > buffer.Length {
        item := PopFrom(i, headSize);
        assert items.list == Lists()[P.ITEMS] && files.list == Lists()[P.FILES] && drops.list == Lists()[P.DROPS];
        state := P.Next(state, MoveStep(m, buffer.Length, count));
        oversizedSkipped := oversizedSkipped + 1;
        return 1, after;
      }
      return 0, after;
    }

    /** The scan over the three heads. */
    method FindOldest() returns (oldest: Option<nat>)
      requires Valid()
      ensures oldest == D.Oldest(Lists())
    {
      oldest := None;
      var oldestSeq := MAX_SEQUENCE;
      for i := 0 to 3
        invariant oldest == D.OldestIn(Lists(), i)
        invariant oldestSeq == D.BestSeq(Lists(), oldest)
      {
        var seqno := HeadSeqAt(i);
        if seqno < oldestSeq {
          oldestSeq, oldest := seqno, Some(i);
        }
      }
    }

    /** One turn of the drain loop: the oldest head, or else the first other that moves. */
    method DrainOne(buffer: array<byte>, count: nat) returns (progressed: bool, after: nat)
      requires Valid() && count <= buffer.Length
      modifies this, items, files, drops, buffer
      ensures Valid() && nextSequence == old(nextSequence) && allocFailures == old(allocFailures)
      ensures progressed <==> D.Pick(old(Lists()), buffer.Length, count).Some?
      ensures !progressed ==>
        state == old(state) && Lists() == old(Lists()) && after == count && buffer[..] == old(buffer[..])
      ensures progressed ==>
        var i := D.Pick(old(Lists()), buffer.Length, count).value;
        var m := D.MoveOf(old(Lists()), buffer.Length, count, i);
        && Lists() == D.Popped(old(Lists()), i)
        && state == P.Next(old(state), MoveStep(m, buffer.Length, count))
        && after == D.CountAfter(m, count) <= buffer.Length
        && buffer[..after] == old(buffer[..count]) + if m.delivered then m.item.bytes else []
    {
      after := count;
      var oldest := FindOldest();
      if oldest.None? {
        return false, after;
      }
      var progress: int;
      progress, after := TryPop(oldest.value, buffer, count);
      if progress == 1 {
        return true, after;
      }
      for i := 0 to 3
        invariant Valid() && nextSequence == old(nextSequence) && allocFailures == old(allocFailures)
        invariant state == old(state) && Lists() == old(Lists()) && after == count && buffer[..] == old(buffer[..])
        invariant D.FirstOther(Lists(), oldest.value, buffer.Length, count, 0)
               == D.FirstOther(Lists(), oldest.value, buffer.Length, count, i)
      {
        if i != oldest.value {
          progress, after := TryPop(i, buffer, count);
          if progress == 1 {
            return true, after;
          }
        }
      }
      return false, after;
    }

    /** GET_DATA: a buffer too small for the largest record is refused; otherwise the drain
        leaves exactly the queues, bytes and bookkeeping that its specification says. */
    method GetData(buffer: array<byte>) returns (accepted: bool, count: nat)
      requires Valid()
      modifies this, items, files, drops, buffer
      ensures Valid() && nextSequence == old(nextSequence) && allocFailures == old(allocFailures)
      ensures accepted <==> buffer.Length >= MAX_RECORD_BYTES
      ensures !accepted ==> count == 0 && state == old(state) && buffer[..] == old(buffer[..])
      ensures accepted ==>
        var b := D.DrainFrom(ListsIn(old(state)), buffer.Length, 0);
        && count <= buffer.Length && buffer[..count] == D.Concat(D.Taken(b.moves))
        && state == AfterMoves(old(state), b.moves, buffer.Length, 0)
    {
      if buffer.Length == 0 || buffer.Length < MAX_RECORD_BYTES {
        return false, 0;
      }
      count := 0;
      var size := buffer.Length;
      ghost var whole := D.DrainFrom(Lists(), size, 0);
      assert Lists() == ListsIn(state);
      ghost var ahead := whole;
      var progressed := true;
      while progressed
        invariant Valid() && nextSequence == old(nextSequence) && allocFailures == old(allocFailures)
        invariant count <= size && ahead == D.DrainFrom(Lists(), size, count)
        invariant buffer[..count] + D.Concat(D.Taken(ahead.moves)) == D.Concat(D.Taken(whole.moves))
        invariant AfterMoves(state, ahead.moves, size, count) == AfterMoves(old(state), whole.moves, size, 0)
        invariant !progressed ==> ahead.moves == []
        decreases D.Total(Lists()), progressed
      {
        ghost var qs, was, before := Lists(), state, buffer[..count];
        var after: nat;
        progressed, after := DrainOne(buffer, count);
        if progressed {
          ghost var m := D.MoveOf(qs, size, count, D.Pick(qs, size, count).value);
          ghost var next := D.DrainFrom(Lists(), size, after);
          assert ahead == D.Batch([m] + next.moves, next.left);
          MovesStep(was, m, next.moves, size, count);
          Delivering(before, buffer[..after], m, next.moves);
          ahead := next;
        }
        count := after;
      }
      assert D.Taken([]) == [];
      return true, count;
    }
  }

  lemma Delivering(before: seq<byte>, after: seq<byte>, m: D.Move, rest: seq<D.Move>)
    requires after == before + if m.delivered then m.item.bytes else []
    ensures before + D.Concat(D.Taken([m] + rest)) == after + D.Concat(D.Taken(rest))
  {
    D.TakenStep(m, rest);
    if m.delivered {
      D.ConcatCons(m.item, D.Taken(rest));
      assert before + (m.item.bytes + D.Concat(D.Taken(rest))) == after + D.Concat(D.Taken(rest));
    } else {
      assert [] + D.Taken(rest) == D.Taken(rest);
    }
  }
}
