/** From the emitters' bytes to the agent's records: what GET_DATA writes decodes to
    exactly the popped records, in pop order. */
module EndToEnd {
  import opened Wrappers
  import opened Wire
  import opened Decoder
  import opened Queues
  import opened RoundTrip
  import D = Drain
  import W = Walk

  /** The item an emitter pushed for a notification. */
  function ItemFor(st: Stamp, ev: Event): Item {
    Item(st.sequence, RecordBytes(st, ev))
  }

  ghost predicate Emitted(item: Item) {
    exists st, ev :: item == ItemFor(st, ev)
  }

  function Chunks(items: seq<Item>): seq<seq<byte>> {
    seq(|items|, i requires 0 <= i < |items| => items[i].bytes)
  }

  lemma {:induction false} ConcatIsFlatten(items: seq<Item>)
    ensures D.Concat(items) == W.Flatten(Chunks(items))
  {
    if items != [] {
      ConcatIsFlatten(items[1..]);
      assert Chunks(items)[1..] == Chunks(items[1..]);
    }
  }

  lemma EmittedChunk(st: Stamp, ev: Event)
    ensures W.Truthful(RecordBytes(st, ev))
    ensures Decode(RecordBytes(st, ev)) == Ok(RecordFor(st, ev))
  {
    DecodeUndoesEmit(st, ev, []);
    assert RecordBytes(st, ev) + [] == RecordBytes(st, ev);
    RecordsFit(ev);
    SizeFieldOf(st, ev);
  }

  lemma SizeFieldOf(st: Stamp, ev: Event)
    requires RecordSize(RecordBytes(st, ev)) == Ok(|RecordBytes(st, ev)|)
    ensures ReadLe(RecordBytes(st, ev), 40, 4) == Ok(|RecordBytes(st, ev)|)
  {
  }

  /** The records a list of notifications stands for. */
  function RecordsFor(built: seq<(Stamp, Event)>): seq<Record> {
    if built == [] then [] else [RecordFor(built[0].0, built[0].1)] + RecordsFor(built[1..])
  }

  function ItemsFor(built: seq<(Stamp, Event)>): (items: seq<Item>)
    ensures |items| == |built|
  {
    if built == [] then [] else [ItemFor(built[0].0, built[0].1)] + ItemsFor(built[1..])
  }

  lemma ChunksCons(built: seq<(Stamp, Event)>)
    requires built != []
    ensures Chunks(ItemsFor(built)) == [RecordBytes(built[0].0, built[0].1)] + Chunks(ItemsFor(built[1..]))
  {
    var item, rest := ItemFor(built[0].0, built[0].1), ItemsFor(built[1..]);
    assert ItemsFor(built) == [item] + rest;
  }

  lemma WellFormedCons(chunk: seq<byte>, rest: seq<seq<byte>>, record: Record)
    requires Decode(chunk) == Ok(record)
    ensures W.WellFormed(Decode, [chunk] + rest) == [record] + W.WellFormed(Decode, rest)
    ensures W.Malformed(Decode, [chunk] + rest) == W.Malformed(Decode, rest)
  {
    assert ([chunk] + rest)[1..] == rest;
  }

  lemma {:induction false} ChunksOfBuilt(built: seq<(Stamp, Event)>)
    ensures forall c <- Chunks(ItemsFor(built)) :: W.Truthful(c)
    ensures W.WellFormed(Decode, Chunks(ItemsFor(built))) == RecordsFor(built)
    ensures W.Malformed(Decode, Chunks(ItemsFor(built))) == 0
  {
    if built != [] {
      var (st, ev) := built[0];
      ChunksOfBuilt(built[1..]);
      EmittedChunk(st, ev);
      ChunksCons(built);
      WellFormedCons(RecordBytes(st, ev), Chunks(ItemsFor(built[1..])), RecordFor(st, ev));
    }
  }

  /** Any notifications' records back to back decode, strictly, to exactly those records. */
  lemma DecodeAllUndoesEmitters(built: seq<(Stamp, Event)>)
    ensures DecodeAll(D.Concat(ItemsFor(built))) == Ok(RecordsFor(built))
    ensures W.WalkFrom(Decode, D.Concat(ItemsFor(built))) == W.Walked(RecordsFor(built), 0)
  {
    var items := ItemsFor(built);
    var bytes := D.Concat(items);
    ConcatIsFlatten(items);
    ChunksOfBuilt(built);
    W.DecodeIsLocal();
    W.FaultsAreIsolated(Decode, Chunks(items), []);
    assert bytes + [] == bytes;
    assert RecordsFor(built) + [] == RecordsFor(built);
    W.StrictIffNothingSkipped(Decode, bytes, RecordsFor(built));
  }

  ghost predicate AllEmitted(qs: D.Lists) {
    forall q <- qs :: forall item <- q :: Emitted(item)
  }

  ghost function SourceOf(item: Item): (built: (Stamp, Event))
    requires Emitted(item)
    ensures item == ItemFor(built.0, built.1)
  {
    var st, ev :| item == ItemFor(st, ev);
    (st, ev)
  }

  ghost function SourcesOf(items: seq<Item>): (built: seq<(Stamp, Event)>)
    requires forall item <- items :: Emitted(item)
    ensures ItemsFor(built) == items
  {
    if items == [] then [] else [SourceOf(items[0])] + SourcesOf(items[1..])
  }

  lemma {:induction false} TakenFromMoves(moves: seq<D.Move>, item: Item)
    requires item in D.Taken(moves)
    ensures exists m :: m in moves && m.item == item
  {
    if !moves[0].delivered || moves[0].item != item {
      TakenFromMoves(moves[1..], item);
    } else {
      assert moves[0] in moves;
    }
  }

  lemma TakenAreEmitted(qs: D.Lists, size: nat)
    requires AllEmitted(qs)
    ensures forall item <- D.Taken(D.DrainFrom(qs, size, 0).moves) :: Emitted(item)
  {
    var moves := D.DrainFrom(qs, size, 0).moves;
    forall item <- D.Taken(moves)
      ensures Emitted(item)
    {
      TakenFromMoves(moves, item);
      var m :| m in moves && m.item == item;
      D.MovesComeFromQueues(qs, size, 0, m);
      assert qs[m.queue] in qs;
    }
  }

  /** End to end: for any queues of emitted records and any buffer the size guard admits,
      the bytes one drain writes decode to exactly the records of the notifications popped,
      in pop order, and nothing was skipped to make room. */
  lemma DrainDecodes(qs: D.Lists, size: nat)
    requires AllEmitted(qs) && size >= MAX_RECORD_BYTES
    ensures var moves := D.DrainFrom(qs, size, 0).moves;
            && D.Skipped(moves) == []
            && (forall item <- D.Taken(moves) :: Emitted(item))
            && DecodeAll(D.Concat(D.Taken(moves))) == Ok(RecordsFor(SourcesOf(D.Taken(moves))))
  {
    TakenAreEmitted(qs, size);
    EmittedAreBounded(qs, size);
    D.NothingSkipped(qs, size, 0);
    DecodeAllUndoesEmitters(SourcesOf(D.Taken(D.DrainFrom(qs, size, 0).moves)));
  }

  lemma EmittedAreBounded(qs: D.Lists, size: nat)
    requires AllEmitted(qs) && size >= MAX_RECORD_BYTES
    ensures D.Bounded(qs, size)
  {
    forall q <- qs, item <- q
      ensures |item.bytes| <= size
    {
      assert Emitted(item);
      var st, ev :| item == ItemFor(st, ev);
      RecordsFit(ev);
    }
  }
}
