/** The user-mode decoder of driver records (crates/protocol/src/driver_wire.rs). Every
    read is checked against the buffer, and every malformed input has its own error.
    Strings stay sequences of UTF-16 units. What it makes of the driver's own records is in
    `RoundTrip`, what it makes of any bytes in `Walk`. */
module Decoder {
  import opened Wrappers
  import opened Wire

  const MAX_DECODED_BYTES: nat := 64 * 1024

  datatype DecodeError =
    | Truncated(available: nat, needed: nat)
    | BadMagic(magic: nat)
    | BadVersion(version: nat)
    | BadHeaderSize(headerSize: nat)
    | BadSize(size: nat, inBuffer: nat)
    | Oversize(declared: nat)
    | UnknownType(raw: nat)
    | BadString(offset: nat, bytes: nat, recordSize: nat)

  datatype Payload =
    | ProcessCreatedData(parentPid: nat, commandLine: Option<seq<u16>>, imageName: Option<seq<u16>>)
    | ProcessExitedData
    | ThreadData(threadId: nat)
    | ImageLoadedData(base: nat, size: nat, name: Option<seq<u16>>)
    | RegistryKeyCreatedData(keyPath: seq<u16>)
    | RegistryKeyDeletedData(deletedPath: seq<u16>)
    | RegistrySetValueData(setPath: seq<u16>, valueName: seq<u16>, dataType: nat, data: seq<byte>)
    | FileCreatedData(createdPath: seq<u16>)
    | FileWrittenData(offset: nat, bytes: nat, writtenPath: seq<u16>)
    | FileCleanedUpData(cleanedPath: seq<u16>)
    | FileDeletedData(removedPath: seq<u16>)
    | FileRenamedData(oldPath: seq<u16>, newPath: seq<u16>)
    | DropCapturedData(path: seq<u16>, storedName: seq<u16>, dropMethod: nat)
    | BehaviorCallData(tid: nat, api: nat, arg0: nat, arg1: nat, arg2: nat, arg3: nat)
    | ProtectionEventData(protectedPid: nat, protectedCreateTime: nat, targetIsThread: bool,
                          originalAccess: nat, strippedAccess: nat)

  datatype Record = Record(
    kind: RecordKind, pid: nat, sequence: nat, time: nat, processCreateTime: nat, truncFlags: nat, payload: Payload)

  type Decoded<T> = Result<T, DecodeError>

  // ---- Readers

  function U8At(buf: seq<byte>, at: nat): Decoded<byte> {
    if at < |buf| then Ok(buf[at]) else Err(Truncated(|buf|, at + 1))
  }

  /** u16_at, u32_at and u64_at: byte by byte, the first byte missing is the error. */
  function ReadLe(buf: seq<byte>, at: nat, n: nat): Decoded<nat>
    decreases n, |buf|
  {
    if n == 0 then Ok(0)
    else
      var lo :- U8At(buf, at);
      var hi :- ReadLe(buf, at + 1, n - 1);
      Ok(lo + 256 * hi)
  }

  function StringAt(buf: seq<byte>, offset: nat, bytes: nat): Decoded<seq<u16>> {
    if bytes % 2 != 0 then Err(BadString(offset, bytes, |buf|))
    else if bytes == 0 then Ok([])
    else if offset + bytes > |buf| then Err(BadString(offset, bytes, |buf|))
    else Ok(UnitsOf(buf[offset..offset + bytes]))
  }

  /** A string that is absent when its length is zero. */
  function OptionalStringAt(buf: seq<byte>, offset: nat, bytes: nat): Decoded<Option<seq<u16>>> {
    if bytes == 0 then Ok(None)
    else
      var units :- StringAt(buf, offset, bytes);
      Ok(Some(units))
  }

  function KindFromWire(raw: nat): (k: Option<RecordKind>)
    ensures k.Some? ==> KindCode(k.value) == raw
    ensures k.None? ==> forall kind :: KindCode(kind) != raw
  {
    if raw == 1 then Some(ProcessCreated) else if raw == 2 then Some(ProcessExited)
    else if raw == 3 then Some(ThreadCreated) else if raw == 4 then Some(ThreadExited)
    else if raw == 5 then Some(ImageLoaded) else if raw == 6 then Some(RegistryKeyCreated)
    else if raw == 7 then Some(RegistryKeyDeleted) else if raw == 8 then Some(RegistrySetValue)
    else if raw == 9 then Some(FileCreated) else if raw == 10 then Some(FileWritten)
    else if raw == 11 then Some(FileCleanedUp) else if raw == 12 then Some(FileDeleted)
    else if raw == 13 then Some(FileRenamed) else if raw == 14 then Some(DropCaptured)
    else if raw == 15 then Some(BehaviorCall) else if raw == 16 then Some(ProtectionEvent)
    else None
  }

  function MinSize(kind: RecordKind): nat {
    match kind
    case ProcessExited => 48
    case ProcessCreated => 60 case DropCaptured => 60
    case FileRenamed => 56
    case ImageLoaded => 64 case RegistrySetValue => 64 case FileWritten => 64
    case BehaviorCall => 88
    case ProtectionEvent => 80
    case _ => 52
  }

  // ---- One record

  function Decode(buf: seq<byte>): Decoded<Record> {
    if |buf| < HEADER_SIZE then Err(Truncated(|buf|, HEADER_SIZE))
    else
      var magic :- ReadLe(buf, 0, 2);
      if magic != WIRE_MAGIC then Err(BadMagic(magic))
      else
        var version :- U8At(buf, 2);
        if version != WIRE_VERSION then Err(BadVersion(version))
        else
          var truncFlags :- U8At(buf, 3);
          var rawType :- ReadLe(buf, 4, 2);
          var headerSize :- ReadLe(buf, 6, 2);
          if headerSize != HEADER_SIZE then Err(BadHeaderSize(headerSize))
          else
            var pid :- ReadLe(buf, 8, 4);
            var sequence :- ReadLe(buf, 16, 8);
            var time :- ReadLe(buf, 24, 8);
            var created :- ReadLe(buf, 32, 8);
            var size :- ReadLe(buf, 40, 4);
            if size < HEADER_SIZE || size > |buf| then Err(BadSize(size, |buf|))
            else if size > MAX_DECODED_BYTES then Err(Oversize(size))
            else
              var kind := KindFromWire(rawType);
              if kind.None? then Err(UnknownType(rawType))
              else
                var payload :- PayloadOf(kind.value, buf[..size]);
                Ok(Record(kind.value, pid, sequence, time, created, truncFlags, payload))
  }

  /** The typed payload of a record cut to its declared size. */
  function PayloadOf(kind: RecordKind, record: seq<byte>): Decoded<Payload> {
    if |record| < MinSize(kind) then Err(BadSize(|record|, |record|))
    else
      match kind
      case ProcessCreated =>
        var parent :- ReadLe(record, 48, 4);
        var cmdOffset :- ReadLe(record, 52, 2);
        var cmdBytes :- ReadLe(record, 54, 2);
        var imageOffset :- ReadLe(record, 56, 2);
        var imageBytes :- ReadLe(record, 58, 2);
        var commandLine :- OptionalStringAt(record, cmdOffset, cmdBytes);
        var imageName :- OptionalStringAt(record, imageOffset, imageBytes);
        Ok(ProcessCreatedData(parent, commandLine, imageName))
      case ProcessExited => Ok(ProcessExitedData)
      case ThreadCreated => ParseThread(record)
      case ThreadExited => ParseThread(record)
      case ImageLoaded =>
        var base :- ReadLe(record, 48, 8);
        var size :- ReadLe(record, 56, 4);
        var nameOffset :- ReadLe(record, 60, 2);
        var nameBytes :- ReadLe(record, 62, 2);
        var name :- OptionalStringAt(record, nameOffset, nameBytes);
        Ok(ImageLoadedData(base, size, name))
      case RegistryKeyCreated => var path :- ParsePath(record, 48); Ok(RegistryKeyCreatedData(path))
      case RegistryKeyDeleted => var path :- ParsePath(record, 48); Ok(RegistryKeyDeletedData(path))
      case RegistrySetValue => ParseRegistrySetValue(record)
      case FileCreated => var path :- ParsePath(record, 48); Ok(FileCreatedData(path))
      case FileCleanedUp => var path :- ParsePath(record, 48); Ok(FileCleanedUpData(path))
      case FileDeleted => var path :- ParsePath(record, 48); Ok(FileDeletedData(path))
      case FileWritten =>
        var offset :- ReadLe(record, 48, 8);
        var bytes :- ReadLe(record, 56, 4);
        var path :- ParsePath(record, 60);
        Ok(FileWrittenData(offset, bytes, path))
      case FileRenamed => ParseFileRenamed(record)
      case DropCaptured => ParseDropCaptured(record)
      case BehaviorCall =>
        var tid :- ReadLe(record, 48, 4);
        var api :- ReadLe(record, 52, 4);
        var arg0 :- ReadLe(record, 56, 8);
        var arg1 :- ReadLe(record, 64, 8);
        var arg2 :- ReadLe(record, 72, 8);
        var arg3 :- ReadLe(record, 80, 8);
        Ok(BehaviorCallData(tid, api, arg0, arg1, arg2, arg3))
      case ProtectionEvent =>
        var pid :- ReadLe(record, 48, 4);
        var isThread :- U8At(record, 52);
        var created :- ReadLe(record, 56, 8);
        var original :- ReadLe(record, 64, 8);
        var stripped :- ReadLe(record, 72, 8);
        Ok(ProtectionEventData(pid, created, isThread != 0, original, stripped))
  }

  function ParseThread(record: seq<byte>): Decoded<Payload> {
    var tid :- ReadLe(record, 48, 4);
    Ok(ThreadData(tid))
  }

  /** A 16-bit offset and length at `at`, and the string they point to. */
  function ParsePath(record: seq<byte>, at: nat): Decoded<seq<u16>> {
    var offset :- ReadLe(record, at, 2);
    var bytes :- ReadLe(record, at + 2, 2);
    StringAt(record, offset, bytes)
  }

  function ParseFileRenamed(record: seq<byte>): Decoded<Payload> {
    var oldOffset :- ReadLe(record, 48, 2);
    var oldBytes :- ReadLe(record, 50, 2);
    var newOffset :- ReadLe(record, 52, 2);
    var newBytes :- ReadLe(record, 54, 2);
    var oldPath :- StringAt(record, oldOffset, oldBytes);
    var newPath :- StringAt(record, newOffset, newBytes);
    Ok(FileRenamedData(oldPath, newPath))
  }

  function ParseDropCaptured(record: seq<byte>): Decoded<Payload> {
    var pathOffset :- ReadLe(record, 48, 2);
    var pathBytes :- ReadLe(record, 50, 2);
    var storedOffset :- ReadLe(record, 52, 2);
    var storedBytes :- ReadLe(record, 54, 2);
    var dropMethod :- ReadLe(record, 56, 4);
    var path :- StringAt(record, pathOffset, pathBytes);
    var stored :- StringAt(record, storedOffset, storedBytes);
    Ok(DropCapturedData(path, stored, dropMethod))
  }

  function ParseRegistrySetValue(record: seq<byte>): Decoded<Payload> {
    var keyOffset :- ReadLe(record, 48, 2);
    var keyBytes :- ReadLe(record, 50, 2);
    var valueOffset :- ReadLe(record, 52, 2);
    var valueBytes :- ReadLe(record, 54, 2);
    var dataType :- ReadLe(record, 56, 4);
    var dataBytes :- ReadLe(record, 60, 4);
    var keyPath :- StringAt(record, keyOffset, keyBytes);
    var valueName :- StringAt(record, valueOffset, valueBytes);
    var at := valueOffset + valueBytes;
    if at + dataBytes > |record| then Err(BadString(at, dataBytes, |record|))
    else Ok(RegistrySetValueData(keyPath, valueName, dataType, record[at..at + dataBytes]))
  }

  /** The wire extent of the record at the front of the buffer. */
  function RecordSize(buf: seq<byte>): (r: Decoded<nat>)
    ensures r.Ok? ==> HEADER_SIZE <= r.value <= |buf|
  {
    var size :- ReadLe(buf, 40, 4);
    if size < HEADER_SIZE || size > |buf| then Err(BadSize(size, |buf|)) else Ok(size)
  }

  lemma {:induction false} ReadLeIs(buf: seq<byte>, at: nat, n: nat)
    ensures ReadLe(buf, at, n) == if n == 0 || at + n <= |buf| then Ok(LeValue(if n == 0 then [] else buf[at..at + n]))
                                  else Err(Truncated(|buf|, if at < |buf| then |buf| + 1 else at + 1))
    decreases n
  {
    if n > 0 {
      ReadLeIs(buf, at + 1, n - 1);
      if at + n <= |buf| {
        assert buf[at..at + n][1..] == buf[at + 1..at + n];
        assert n == 1 ==> buf[at + 1..at + n] == [];
      }
    }
  }

  /** A record's size is the little-endian field at offset 40, accepted exactly when it lies
      between a header and the whole buffer, and reported with the buffer's length when not;
      a buffer that ends inside the field names the first byte missing. */
  lemma RecordSizeIsItsField(buf: seq<byte>)
    ensures |buf| >= 44 ==>
      var size := LeValue(buf[40..44]);
      RecordSize(buf) == if HEADER_SIZE <= size <= |buf| then Ok(size) else Err(BadSize(size, |buf|))
    ensures |buf| < 44 ==> RecordSize(buf) == Err(Truncated(|buf|, if |buf| < 40 then 41 else |buf| + 1))
  {
    ReadLeIs(buf, 40, 4);
  }

  /** A record that decodes has a usable size. */
  lemma DecodedSize(buf: seq<byte>)
    requires Decode(buf).Ok?
    ensures RecordSize(buf).Ok?
  {
  }

  // ---- A whole drain buffer, strictly

  /** Records back to back, all of them or the first error, for any record decoder. */
  function DecodeStream(decode: seq<byte> -> Decoded<Record>, buf: seq<byte>): Decoded<seq<Record>>
    decreases |buf|
  {
    if buf == [] then Ok([])
    else
      var record :- decode(buf);
      var consumed :- RecordSize(buf);
      var rest :- DecodeStream(decode, buf[consumed..]);
      Ok([record] + rest)
  }

  function DecodeAll(buf: seq<byte>): Decoded<seq<Record>> {
    DecodeStream(Decode, buf)
  }

  function Following(records: seq<Record>, rest: Decoded<seq<Record>>): Decoded<seq<Record>> {
    match rest
    case Ok(more) => Ok(records + more)
    case Err(e) => Err(e)
  }

  method DecodeRecords(decode: seq<byte> -> Decoded<Record>, buf: seq<byte>) returns (r: Decoded<seq<Record>>)
    ensures r == DecodeStream(decode, buf)
  {
    var records, rest := [], buf;
    assert forall more: seq<Record> :: [] + more == more;
    while rest != []
      invariant DecodeStream(decode, buf) == Following(records, DecodeStream(decode, rest))
      decreases |rest|
    {
      var record := decode(rest);
      if record.Err? {
        return Err(record.error);
      }
      var consumed := RecordSize(rest);
      if consumed.Err? {
        return Err(consumed.error);
      }
      rest := rest[consumed.value..];
      assert forall more: seq<Record> :: records + ([record.value] + more) == records + [record.value] + more;
      records := records + [record.value];
    }
    assert records + [] == records;
    return Ok(records);
  }

  /** u64_at's loop over eight byte slots. */
  method ReadU64(buf: seq<byte>, at: nat) returns (r: Decoded<nat>)
    ensures r == ReadLe(buf, at, 8)
  {
    var bytes: seq<byte> := [];
    for index := 0 to 8
      invariant |bytes| == index
      invariant index > 0 ==> at + index <= |buf| && bytes == buf[at..at + index]
      invariant ReadLe(buf, at, 8) == Prefixed(bytes, ReadLe(buf, at + index, 8 - index))
    {
      var b := U8At(buf, at + index);
      if b.Err? {
        PrefixedError(bytes, b.error);
        return Err(b.error);
      }
      PrefixedSnoc(bytes, b.value, ReadLe(buf, at + index + 1, 7 - index));
      bytes := bytes + [b.value];
    }
    PrefixedNothing(bytes);
    return Ok(LeValue(bytes));
  }

  function Prefixed(bytes: seq<byte>, rest: Decoded<nat>): Decoded<nat> {
    if bytes == [] then rest
    else
      var hi :- Prefixed(bytes[1..], rest);
      Ok(bytes[0] + 256 * hi)
  }

  lemma {:induction false} PrefixedSnoc(bytes: seq<byte>, b: byte, rest: Decoded<nat>)
    ensures Prefixed(bytes + [b], rest)
         == Prefixed(bytes, match rest { case Ok(hi) => Ok(b + 256 * hi) case Err(e) => Err(e) })
    decreases |bytes|
  {
    if bytes == [] {
      assert [b][1..] == [];
    } else {
      assert (bytes + [b])[1..] == bytes[1..] + [b];
      PrefixedSnoc(bytes[1..], b, rest);
    }
  }

  lemma {:induction false} PrefixedError(bytes: seq<byte>, e: DecodeError)
    ensures Prefixed(bytes, Err(e)) == Err(e)
    decreases |bytes|
  {
    if bytes != [] {
      PrefixedError(bytes[1..], e);
    }
  }

  lemma {:induction false} PrefixedNothing(bytes: seq<byte>)
    ensures Prefixed(bytes, Ok(0)) == Ok(LeValue(bytes))
    decreases |bytes|
  {
    if bytes != [] {
      PrefixedNothing(bytes[1..]);
    }
  }
}
