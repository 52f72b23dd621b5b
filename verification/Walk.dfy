/** The agent's walk over one drained buffer (driver_event_source.rs): a malformed record
    costs itself, an unusable size the rest of the batch. */
module Walk {
  import opened Wrappers
  import opened Wire
  import opened Decoder

  datatype Walked = Walked(records: seq<Record>, skipped: nat)

  /** The walk, for any record decoder. */
  function WalkFrom(decode: seq<byte> -> Decoded<Record>, buf: seq<byte>): (w: Walked)
    decreases |buf|
  {
    if buf == [] then Walked([], 0)
    else
      var size := RecordSize(buf);
      if size.Err? then Walked([], 1)
      else
        var rest := WalkFrom(decode, buf[size.value..]);
        match decode(buf)
        case Ok(record) => Walked([record] + rest.records, rest.skipped)
        case Err(_) => Walked(rest.records, 1 + rest.skipped)
  }

  method WalkBatch(decode: seq<byte> -> Decoded<Record>, buffer: seq<byte>) returns (records: seq<Record>, skipped: nat)
    ensures Walked(records, skipped) == WalkFrom(decode, buffer)
  {
    var rest := buffer;
    records, skipped := [], 0;
    ghost var whole := WalkFrom(decode, buffer);
    while rest != []
      invariant whole.records == records + WalkFrom(decode, rest).records
      invariant whole.skipped == skipped + WalkFrom(decode, rest).skipped
      decreases |rest|
    {
      var size := RecordSize(rest);
      var record := decode(rest);
      if size.Err? {
        skipped := skipped + 1;
        return;
      }
      ghost var later := WalkFrom(decode, rest[size.value..]).records;
      if record.Ok? {
        assert records + ([record.value] + later) == records + [record.value] + later;
        records := records + [record.value];
      } else {
        skipped := skipped + 1;
      }
      rest := rest[size.value..];
    }
  }

  /** The strict decoder succeeds exactly on the buffers the walk takes whole, and then
      they agree. */
  lemma {:induction false} StrictIffNothingSkipped(decode: seq<byte> -> Decoded<Record>, buf: seq<byte>,
        rs: seq<Record>)
    ensures DecodeStream(decode, buf) == Ok(rs) <==> WalkFrom(decode, buf) == Walked(rs, 0)
    decreases |buf|
  {
    if buf != [] {
      var size := RecordSize(buf);
      if size.Ok? && decode(buf).Ok? {
        var rest := buf[size.value..];
        var first := decode(buf).value;
        if rs != [] {
          StrictIffNothingSkipped(decode, rest, rs[1..]);
          assert rs == [rs[0]] + rs[1..];
        }
        if DecodeStream(decode, rest).Ok? {
          var more := DecodeStream(decode, rest).value;
          StrictIffNothingSkipped(decode, rest, more);
          assert ([first] + more)[1..] == more;
        }
        var walked := WalkFrom(decode, rest);
        if walked.skipped == 0 {
          StrictIffNothingSkipped(decode, rest, walked.records);
          assert ([first] + walked.records)[1..] == walked.records;
        }
      }
    }
  }

  /** On any bytes the walk ends within one step per header's worth of input. */
  lemma {:induction false} WalkIsBounded(decode: seq<byte> -> Decoded<Record>, buf: seq<byte>)
    ensures var w := WalkFrom(decode, buf); HEADER_SIZE * (|w.records| + w.skipped) < |buf| + HEADER_SIZE
    decreases |buf|
  {
    if buf != [] && RecordSize(buf).Ok? {
      WalkIsBounded(decode, buf[RecordSize(buf).value..]);
    }
  }

  /** A size field that is cut off, below a header or beyond the buffer ends the walk at the
      cost of one skip, whatever follows. */
  lemma UnusableSizeEndsWalk(decode: seq<byte> -> Decoded<Record>, buf: seq<byte>)
    requires buf != [] && (|buf| < 44 || LeValue(buf[40..44]) < 48 || LeValue(buf[40..44]) > |buf|)
    ensures WalkFrom(decode, buf) == Walked([], 1)
  {
    RecordSizeIsItsField(buf);
  }

  // ---- Fault isolation

  /** A chunk whose size field tells the truth. */
  predicate Truthful(chunk: seq<byte>) {
    |chunk| >= HEADER_SIZE && ReadLe(chunk, 40, 4) == Ok(|chunk|)
  }

  function Flatten(chunks: seq<seq<byte>>): seq<byte> {
    if chunks == [] then [] else chunks[0] + Flatten(chunks[1..])
  }

  function WellFormed(decode: seq<byte> -> Decoded<Record>, chunks: seq<seq<byte>>): seq<Record> {
    if chunks == [] then []
    else
      var rest := WellFormed(decode, chunks[1..]);
      match decode(chunks[0])
      case Ok(record) => [record] + rest
      case Err(_) => rest
  }

  function Malformed(decode: seq<byte> -> Decoded<Record>, chunks: seq<seq<byte>>): nat {
    if chunks == [] then 0
    else Malformed(decode, chunks[1..]) + if decode(chunks[0]).Ok? then 0 else 1
  }

  lemma {:induction false} ReadIgnoresTail(chunk: seq<byte>, rest: seq<byte>, at: nat, n: nat)
    requires at + n <= |chunk|
    ensures ReadLe(chunk + rest, at, n) == ReadLe(chunk, at, n)
    decreases n
  {
    if n > 0 {
      ReadIgnoresTail(chunk, rest, at + 1, n - 1);
    }
  }

  /** Decoding a truthful chunk ignores whatever follows it. */
  lemma DecodeIgnoresTail(chunk: seq<byte>, rest: seq<byte>)
    requires Truthful(chunk)
    ensures Decode(chunk + rest) == Decode(chunk)
    ensures RecordSize(chunk + rest) == Ok(|chunk|)
  {
    var buf := chunk + rest;
    assert buf[..|chunk|] == chunk && chunk[..|chunk|] == chunk;
    ReadIgnoresTail(chunk, rest, 0, 2);
    ReadIgnoresTail(chunk, rest, 4, 2);
    ReadIgnoresTail(chunk, rest, 6, 2);
    ReadIgnoresTail(chunk, rest, 8, 4);
    ReadIgnoresTail(chunk, rest, 16, 8);
    ReadIgnoresTail(chunk, rest, 24, 8);
    ReadIgnoresTail(chunk, rest, 32, 8);
    ReadIgnoresTail(chunk, rest, 40, 4);
  }

  /** A decoder that looks no further than a truthful chunk. */
  ghost predicate Local(decode: seq<byte> -> Decoded<Record>) {
    forall chunk, rest :: Truthful(chunk) ==> decode(chunk + rest) == decode(chunk)
  }

  lemma DecodeIsLocal()
    ensures Local(Decode)
  {
    forall chunk, rest | Truthful(chunk)
      ensures Decode(chunk + rest) == Decode(chunk)
    {
      DecodeIgnoresTail(chunk, rest);
    }
  }

  lemma TruthfulSize(chunk: seq<byte>, rest: seq<byte>)
    requires Truthful(chunk)
    ensures RecordSize(chunk + rest) == Ok(|chunk|)
  {
    ReadIgnoresTail(chunk, rest, 40, 4);
  }

  lemma OneChunk(decode: seq<byte> -> Decoded<Record>, c: seq<byte>, rest: seq<byte>)
    requires Local(decode) && Truthful(c)
    ensures WalkFrom(decode, c + rest)
         == var w := WalkFrom(decode, rest);
            if decode(c).Ok? then Walked([decode(c).value] + w.records, w.skipped) else Walked(w.records, 1 + w.skipped)
  {
    TruthfulSize(c, rest);
    assert (c + rest)[|c|..] == rest;
    assert decode(c + rest) == decode(c);
  }

  /** On truthful chunks back to back, whatever follows them, the walk yields exactly the
      decodes of the well-formed ones in order, charges one skip for each other, and goes on
      with what follows. */
  lemma {:induction false} FaultsAreIsolated(decode: seq<byte> -> Decoded<Record>, chunks: seq<seq<byte>>,
        tail: seq<byte>)
    requires Local(decode) && forall c <- chunks :: Truthful(c)
    ensures var w := WalkFrom(decode, tail);
            WalkFrom(decode, Flatten(chunks) + tail)
            == Walked(WellFormed(decode, chunks) + w.records, Malformed(decode, chunks) + w.skipped)
    decreases |chunks|
  {
    if chunks == [] {
      assert [] + tail == tail;
      assert [] + WalkFrom(decode, tail).records == WalkFrom(decode, tail).records;
    } else {
      var c, rest := chunks[0], Flatten(chunks[1..]) + tail;
      assert c + Flatten(chunks[1..]) + tail == c + rest;
      OneChunk(decode, c, rest);
      FaultsAreIsolated(decode, chunks[1..], tail);
      var later, w := WellFormed(decode, chunks[1..]), WalkFrom(decode, tail);
      if decode(c).Ok? {
        assert [decode(c).value] + (later + w.records) == [decode(c).value] + later + w.records;
      }
    }
  }
}
