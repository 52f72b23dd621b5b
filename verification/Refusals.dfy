/** What the decoder accepts, what it refuses and with which error, over all byte strings
    (crates/protocol/src/driver_wire.rs). */
module Refusals {
  import opened Wrappers
  import opened Wire
  import opened Decoder

  // ---- Bytes at fixed positions; a byte past the end counts as zero

  function ByteAt(buf: seq<byte>, at: nat): nat {
    if at < |buf| then buf[at] else 0
  }

  function U16(buf: seq<byte>, at: nat): nat {
    ByteAt(buf, at) + 0x100 * ByteAt(buf, at + 1)
  }

  function U32(buf: seq<byte>, at: nat): nat {
    U16(buf, at) + 0x1_0000 * U16(buf, at + 2)
  }

  function U64(buf: seq<byte>, at: nat): nat {
    U32(buf, at) + 0x1_0000_0000 * U32(buf, at + 4)
  }

  lemma Reads16(buf: seq<byte>, at: nat)
    requires at + 2 <= |buf|
    ensures ReadLe(buf, at, 2) == Ok(U16(buf, at))
  {
    assert ReadLe(buf, at + 1, 1) == Ok(ByteAt(buf, at + 1)) by {
      assert ReadLe(buf, at + 2, 0) == Ok(0);
    }
  }

  lemma ReadsTwice(buf: seq<byte>, at: nat, n: nat, lo: nat, hi: nat)
    requires at + 2 + n <= |buf| && ReadLe(buf, at + 2, n) == Ok(hi) && lo == U16(buf, at)
    ensures ReadLe(buf, at, n + 2) == Ok(lo + 0x1_0000 * hi)
  {
    assert ReadLe(buf, at + 1, n + 1) == Ok(ByteAt(buf, at + 1) + 256 * hi);
  }

  lemma Reads32(buf: seq<byte>, at: nat)
    requires at + 4 <= |buf|
    ensures ReadLe(buf, at, 4) == Ok(U32(buf, at))
  {
    Reads16(buf, at + 2);
    ReadsTwice(buf, at, 2, U16(buf, at), U16(buf, at + 2));
  }

  lemma Reads64(buf: seq<byte>, at: nat)
    requires at + 8 <= |buf|
    ensures ReadLe(buf, at, 8) == Ok(U64(buf, at))
  {
    Reads32(buf, at + 4);
    ReadsTwice(buf, at + 2, 4, U16(buf, at + 2), U32(buf, at + 4));
    ReadsTwice(buf, at, 6, U16(buf, at), U16(buf, at + 2) + 0x1_0000 * U32(buf, at + 4));
  }

  // ---- The tests, on byte positions

  function TypeCode(buf: seq<byte>): nat {
    U16(buf, 4)
  }

  function Size(buf: seq<byte>): nat {
    U32(buf, 40)
  }

  /** The fixed part of each record type, by its code. */
  function Least(code: nat): nat {
    if code == 1 || code == 14 then 60
    else if code == 2 then 48
    else if code == 5 || code == 8 || code == 10 then 64
    else if code == 13 then 56
    else if code == 15 then 88
    else if code == 16 then 80
    else 52
  }

  /** Where each type keeps the offset of its strings, with the byte count behind it. */
  function StringSlots(code: nat): (r: seq<nat>)
    ensures |r| <= 2
  {
    if code == 1 then [52, 56]
    else if code == 5 || code == 10 then [60]
    else if code in {8, 13, 14} then [48, 52]
    else if code in {6, 7, 9, 11, 12} then [48]
    else []
  }

  /** A string of whole units that is empty or lies within the record. */
  predicate Inside(buf: seq<byte>, slot: nat) {
    var offset, bytes := U16(buf, slot), U16(buf, slot + 2);
    bytes % 2 == 0 && (bytes == 0 || offset + bytes <= Size(buf))
  }

  /** Where the value data of a registry write starts: behind the value's name. */
  function DataStart(buf: seq<byte>): nat {
    U16(buf, 52) + U16(buf, 54)
  }

  const TESTS: nat := 11

  /** The tests in the order they are made. */
  predicate Passes(buf: seq<byte>, test: nat) {
    if test == 0 then |buf| >= 48
    else if test == 1 then U16(buf, 0) == 0x5346
    else if test == 2 then ByteAt(buf, 2) == 2
    else if test == 3 then U16(buf, 6) == 48
    else if test == 4 then 48 <= Size(buf) <= |buf|
    else if test == 5 then Size(buf) <= 65536
    else if test == 6 then 1 <= TypeCode(buf) <= 16
    else if test == 7 then Size(buf) >= Least(TypeCode(buf))
    else if test == 8 || test == 9 then
      var slots := StringSlots(TypeCode(buf));
      test - 8 < |slots| ==> Inside(buf, slots[test - 8])
    else
      test == 10 && TypeCode(buf) == 8 ==> DataStart(buf) + U32(buf, 60) <= Size(buf)
  }

  /** What is reported when a test is the first to fail. */
  function ErrorOf(buf: seq<byte>, test: nat): DecodeError {
    if test == 0 then Truncated(|buf|, 48)
    else if test == 1 then BadMagic(U16(buf, 0))
    else if test == 2 then BadVersion(ByteAt(buf, 2))
    else if test == 3 then BadHeaderSize(U16(buf, 6))
    else if test == 4 then BadSize(Size(buf), |buf|)
    else if test == 5 then Oversize(Size(buf))
    else if test == 6 then UnknownType(TypeCode(buf))
    else if test == 7 then BadSize(Size(buf), Size(buf))
    else if test == 10 then BadString(DataStart(buf), U32(buf, 60), Size(buf))
    else
      var slots := StringSlots(TypeCode(buf));
      var slot := if test >= 8 && test - 8 < |slots| then slots[test - 8] else 0;
      BadString(U16(buf, slot), U16(buf, slot + 2), Size(buf))
  }

  predicate PassesUpTo(buf: seq<byte>, test: nat) {
    forall t: nat :: t < test ==> Passes(buf, t)
  }

  // ---- What an accepted record says

  const KINDS: seq<RecordKind> := [
    ProcessCreated, ProcessExited, ThreadCreated, ThreadExited, ImageLoaded, RegistryKeyCreated, RegistryKeyDeleted,
    RegistrySetValue, FileCreated, FileWritten, FileCleanedUp, FileDeleted, FileRenamed, DropCaptured, BehaviorCall,
    ProtectionEvent]

  function UnitAt(buf: seq<byte>, at: nat): u16 {
    U16(buf, at)
  }

  function UnitsFrom(buf: seq<byte>, at: nat, n: nat): seq<u16> {
    seq(n, i requires 0 <= i < n => UnitAt(buf, at + 2 * i))
  }

  /** The units of the string a slot points to. */
  function TextAt(buf: seq<byte>, slot: nat): seq<u16> {
    UnitsFrom(buf, U16(buf, slot), U16(buf, slot + 2) / 2)
  }

  function OptionalTextAt(buf: seq<byte>, slot: nat): Option<seq<u16>> {
    if U16(buf, slot + 2) == 0 then None else Some(TextAt(buf, slot))
  }

  /** The payload, field by field at its byte position. */
  function PayloadAt(buf: seq<byte>): Payload
    requires PassesUpTo(buf, TESTS)
  {
    var code := TypeCode(buf);
    assert forall t: nat :: t < TESTS ==> Passes(buf, t);
    if code == 1 then ProcessCreatedData(U32(buf, 48), OptionalTextAt(buf, 52), OptionalTextAt(buf, 56))
    else if code == 2 then ProcessExitedData
    else if code == 3 || code == 4 then ThreadData(U32(buf, 48))
    else if code == 5 then ImageLoadedData(U64(buf, 48), U32(buf, 56), OptionalTextAt(buf, 60))
    else if code == 6 then RegistryKeyCreatedData(TextAt(buf, 48))
    else if code == 7 then RegistryKeyDeletedData(TextAt(buf, 48))
    else if code == 8 then
      assert Passes(buf, 4) && Passes(buf, 10);
      RegistrySetValueData(TextAt(buf, 48), TextAt(buf, 52), U32(buf, 56),
                           buf[DataStart(buf)..DataStart(buf) + U32(buf, 60)])
    else if code == 9 then FileCreatedData(TextAt(buf, 48))
    else if code == 10 then FileWrittenData(U64(buf, 48), U32(buf, 56), TextAt(buf, 60))
    else if code == 11 then FileCleanedUpData(TextAt(buf, 48))
    else if code == 12 then FileDeletedData(TextAt(buf, 48))
    else if code == 13 then FileRenamedData(TextAt(buf, 48), TextAt(buf, 52))
    else if code == 14 then DropCapturedData(TextAt(buf, 48), TextAt(buf, 52), U32(buf, 56))
    else if code == 15 then
      BehaviorCallData(U32(buf, 48), U32(buf, 52), U64(buf, 56), U64(buf, 64), U64(buf, 72), U64(buf, 80))
    else
      ProtectionEventData(U32(buf, 48), U64(buf, 56), ByteAt(buf, 52) != 0, U64(buf, 64), U64(buf, 72))
  }

  // ---- A record cut to its size reads as the buffer does

  predicate CutFrom(record: seq<byte>, buf: seq<byte>) {
    |record| == Size(buf) && 48 <= |record| <= |buf| && record == buf[..|record|]
  }

  lemma CutByte(record: seq<byte>, buf: seq<byte>, at: nat)
    requires CutFrom(record, buf) && at < |record|
    ensures ByteAt(record, at) == ByteAt(buf, at)
  {
  }

  lemma Cut16(record: seq<byte>, buf: seq<byte>, at: nat)
    requires CutFrom(record, buf) && at + 2 <= |record|
    ensures U16(record, at) == U16(buf, at) && ReadLe(record, at, 2) == Ok(U16(buf, at))
  {
    CutByte(record, buf, at);
    CutByte(record, buf, at + 1);
    Reads16(record, at);
  }

  lemma Cut32(record: seq<byte>, buf: seq<byte>, at: nat)
    requires CutFrom(record, buf) && at + 4 <= |record|
    ensures U32(record, at) == U32(buf, at) && ReadLe(record, at, 4) == Ok(U32(buf, at))
  {
    Cut16(record, buf, at);
    Cut16(record, buf, at + 2);
    Reads32(record, at);
  }

  lemma Cut64(record: seq<byte>, buf: seq<byte>, at: nat)
    requires CutFrom(record, buf) && at + 8 <= |record|
    ensures ReadLe(record, at, 8) == Ok(U64(buf, at))
  {
    Cut32(record, buf, at);
    Cut32(record, buf, at + 4);
    Reads64(record, at);
  }

  /** An offset and a byte count side by side. */
  lemma CutSlot(record: seq<byte>, buf: seq<byte>, slot: nat)
    requires CutFrom(record, buf) && slot + 4 <= |record|
    ensures ReadLe(record, slot, 2) == Ok(U16(buf, slot)) && ReadLe(record, slot + 2, 2) == Ok(U16(buf, slot + 2))
  {
    Cut16(record, buf, slot);
    Cut16(record, buf, slot + 2);
  }

  lemma CutUnits(record: seq<byte>, buf: seq<byte>, offset: nat, bytes: nat)
    requires CutFrom(record, buf) && bytes % 2 == 0 && offset + bytes <= |record|
    ensures UnitsOf(record[offset..offset + bytes]) == UnitsFrom(buf, offset, bytes / 2)
  {
    var slice := record[offset..offset + bytes];
    forall i | 0 <= i < bytes / 2
      ensures UnitsOf(slice)[i] == UnitAt(buf, offset + 2 * i)
    {
      assert slice[2 * i] == buf[offset + 2 * i] && slice[2 * i + 1] == buf[offset + 2 * i + 1];
    }
  }

  lemma TextRead(record: seq<byte>, buf: seq<byte>, offset: nat, bytes: nat)
    requires CutFrom(record, buf)
    ensures StringAt(record, offset, bytes)
         == if bytes % 2 == 0 && (bytes == 0 || offset + bytes <= |record|) then Ok(UnitsFrom(buf, offset, bytes / 2))
            else Err(BadString(offset, bytes, |record|))
  {
    if bytes == 0 {
      assert UnitsFrom(buf, offset, 0) == [];
    } else if bytes % 2 == 0 && offset + bytes <= |record| {
      CutUnits(record, buf, offset, bytes);
    }
  }

  lemma CutText(record: seq<byte>, buf: seq<byte>, slot: nat)
    requires CutFrom(record, buf)
    ensures StringAt(record, U16(buf, slot), U16(buf, slot + 2))
         == if Inside(buf, slot) then Ok(TextAt(buf, slot))
            else Err(BadString(U16(buf, slot), U16(buf, slot + 2), Size(buf)))
    ensures OptionalStringAt(record, U16(buf, slot), U16(buf, slot + 2))
         == if Inside(buf, slot) then Ok(OptionalTextAt(buf, slot))
            else Err(BadString(U16(buf, slot), U16(buf, slot + 2), Size(buf)))
  {
    TextRead(record, buf, U16(buf, slot), U16(buf, slot + 2));
  }

  /** The payload tests of a record that passed the header's. */
  ghost predicate Answers(buf: seq<byte>, payload: Decoded<Payload>) {
    if !Passes(buf, 7) then payload == Err(ErrorOf(buf, 7))
    else if !Passes(buf, 8) then payload == Err(ErrorOf(buf, 8))
    else if !Passes(buf, 9) then payload == Err(ErrorOf(buf, 9))
    else if !Passes(buf, 10) then payload == Err(ErrorOf(buf, 10))
    else payload.Ok? && (PassesUpTo(buf, TESTS) ==> payload.value == PayloadAt(buf))
  }

  ghost predicate Ready(kind: RecordKind, record: seq<byte>, buf: seq<byte>) {
    CutFrom(record, buf) && KindCode(kind) == TypeCode(buf)
  }

  lemma ShortAnswers(kind: RecordKind, record: seq<byte>, buf: seq<byte>)
    requires Ready(kind, record, buf)
    ensures MinSize(kind) == Least(TypeCode(buf))
    ensures |record| < MinSize(kind) ==> Answers(buf, PayloadOf(kind, record))
  {
  }

  lemma PlainAnswers(kind: RecordKind, record: seq<byte>, buf: seq<byte>)
    requires Ready(kind, record, buf) && |record| >= MinSize(kind)
    requires kind in {ProcessExited, ThreadCreated, ThreadExited}
    ensures Answers(buf, PayloadOf(kind, record))
  {
    if kind != ProcessExited {
      Cut32(record, buf, 48);
    }
  }

  lemma CallAnswers(kind: RecordKind, record: seq<byte>, buf: seq<byte>)
    requires Ready(kind, record, buf) && |record| >= MinSize(kind) && kind == BehaviorCall
    ensures Answers(buf, PayloadOf(kind, record))
  {
    Cut32(record, buf, 48);
    Cut32(record, buf, 52);
    Cut64(record, buf, 56);
    Cut64(record, buf, 64);
    Cut64(record, buf, 72);
    Cut64(record, buf, 80);
  }

  lemma ProtectionAnswers(kind: RecordKind, record: seq<byte>, buf: seq<byte>)
    requires Ready(kind, record, buf) && |record| >= MinSize(kind) && kind == ProtectionEvent
    ensures Answers(buf, PayloadOf(kind, record))
  {
    Cut32(record, buf, 48);
    assert U8At(record, 52) == Ok(record[52]) && record[52] == buf[52];
    Cut64(record, buf, 56);
    Cut64(record, buf, 64);
    Cut64(record, buf, 72);
  }

  lemma PathParsed(record: seq<byte>, buf: seq<byte>, slot: nat)
    requires CutFrom(record, buf) && slot + 4 <= |record|
    ensures ParsePath(record, slot)
         == if Inside(buf, slot) then Ok(TextAt(buf, slot))
            else Err(BadString(U16(buf, slot), U16(buf, slot + 2), Size(buf)))
  {
    CutSlot(record, buf, slot);
    CutText(record, buf, slot);
  }

  lemma PathAnswers(kind: RecordKind, record: seq<byte>, buf: seq<byte>)
    requires Ready(kind, record, buf) && |record| >= MinSize(kind)
    requires kind in {RegistryKeyCreated, RegistryKeyDeleted, FileCreated, FileCleanedUp, FileDeleted}
    ensures Answers(buf, PayloadOf(kind, record))
  {
    PathParsed(record, buf, 48);
  }

  lemma ImageAnswers(kind: RecordKind, record: seq<byte>, buf: seq<byte>)
    requires Ready(kind, record, buf) && |record| >= MinSize(kind) && kind == ImageLoaded
    ensures Answers(buf, PayloadOf(kind, record))
  {
    Cut64(record, buf, 48);
    Cut32(record, buf, 56);
    CutSlot(record, buf, 60);
    CutText(record, buf, 60);
  }

  lemma WrittenAnswers(kind: RecordKind, record: seq<byte>, buf: seq<byte>)
    requires Ready(kind, record, buf) && |record| >= MinSize(kind) && kind == FileWritten
    ensures Answers(buf, PayloadOf(kind, record))
  {
    Cut64(record, buf, 48);
    Cut32(record, buf, 56);
    PathParsed(record, buf, 60);
  }

  lemma CreatedAnswers(kind: RecordKind, record: seq<byte>, buf: seq<byte>)
    requires Ready(kind, record, buf) && |record| >= MinSize(kind) && kind == ProcessCreated
    ensures Answers(buf, PayloadOf(kind, record))
  {
    Cut32(record, buf, 48);
    CutSlot(record, buf, 52);
    CutSlot(record, buf, 56);
    CutText(record, buf, 52);
    CutText(record, buf, 56);
  }

  lemma TwoExtents(record: seq<byte>, buf: seq<byte>)
    requires CutFrom(record, buf) && |record| >= 56
    ensures ReadLe(record, 48, 2) == Ok(U16(buf, 48)) && ReadLe(record, 50, 2) == Ok(U16(buf, 50))
    ensures ReadLe(record, 52, 2) == Ok(U16(buf, 52)) && ReadLe(record, 54, 2) == Ok(U16(buf, 54))
  {
    CutSlot(record, buf, 48);
    CutSlot(record, buf, 52);
  }

  /** The string at a slot, or its error. */
  function SlotText(buf: seq<byte>, slot: nat): Decoded<seq<u16>> {
    if Inside(buf, slot) then Ok(TextAt(buf, slot))
    else Err(BadString(U16(buf, slot), U16(buf, slot + 2), Size(buf)))
  }

  lemma RenamedParsed(record: seq<byte>, buf: seq<byte>, first: Decoded<seq<u16>>, second: Decoded<seq<u16>>)
    requires CutFrom(record, buf) && |record| >= 56 && first == SlotText(buf, 48) && second == SlotText(buf, 52)
    ensures ParseFileRenamed(record)
         == if first.Err? then Err(first.error) else if second.Err? then Err(second.error)
            else Ok(FileRenamedData(first.value, second.value))
  {
    TwoExtents(record, buf);
    CutText(record, buf, 48);
    CutText(record, buf, 52);
  }

  lemma CapturedParsed(record: seq<byte>, buf: seq<byte>, first: Decoded<seq<u16>>, second: Decoded<seq<u16>>)
    requires CutFrom(record, buf) && |record| >= 60 && first == SlotText(buf, 48) && second == SlotText(buf, 52)
    ensures ParseDropCaptured(record)
         == if first.Err? then Err(first.error) else if second.Err? then Err(second.error)
            else Ok(DropCapturedData(first.value, second.value, U32(buf, 56)))
  {
    TwoExtents(record, buf);
    Cut32(record, buf, 56);
    CutText(record, buf, 48);
    CutText(record, buf, 52);
  }

  lemma ValueAssembled(record: seq<byte>, o1: nat, b1: nat, o2: nat, b2: nat, dataType: nat, n: nat,
                       first: Decoded<seq<u16>>, second: Decoded<seq<u16>>)
    requires ReadLe(record, 48, 2) == Ok(o1) && ReadLe(record, 50, 2) == Ok(b1)
    requires ReadLe(record, 52, 2) == Ok(o2) && ReadLe(record, 54, 2) == Ok(b2)
    requires ReadLe(record, 56, 4) == Ok(dataType) && ReadLe(record, 60, 4) == Ok(n)
    requires StringAt(record, o1, b1) == first && StringAt(record, o2, b2) == second
    ensures ParseRegistrySetValue(record)
         == if first.Err? then Err(first.error) else if second.Err? then Err(second.error)
            else if o2 + b2 + n > |record| then Err(BadString(o2 + b2, n, |record|))
            else Ok(RegistrySetValueData(first.value, second.value, dataType, record[o2 + b2..o2 + b2 + n]))
  {
  }

  lemma ValueParsed(record: seq<byte>, buf: seq<byte>, first: Decoded<seq<u16>>, second: Decoded<seq<u16>>)
    requires CutFrom(record, buf) && |record| >= 64 && first == SlotText(buf, 48) && second == SlotText(buf, 52)
    ensures var at, n := DataStart(buf), U32(buf, 60);
            ParseRegistrySetValue(record)
            == if first.Err? then Err(first.error) else if second.Err? then Err(second.error)
               else if at + n > |record| then Err(BadString(at, n, |record|))
               else Ok(RegistrySetValueData(first.value, second.value, U32(buf, 56), buf[at..at + n]))
  {
    TwoExtents(record, buf);
    Cut32(record, buf, 56);
    Cut32(record, buf, 60);
    CutText(record, buf, 48);
    CutText(record, buf, 52);
    ValueAssembled(record, U16(buf, 48), U16(buf, 50), U16(buf, 52), U16(buf, 54), U32(buf, 56), U32(buf, 60),
                   first, second);
    var at, n := DataStart(buf), U32(buf, 60);
    assert at + n <= |record| ==> record[at..at + n] == buf[at..at + n];
  }

  lemma RenamedAnswers(kind: RecordKind, record: seq<byte>, buf: seq<byte>)
    requires Ready(kind, record, buf) && |record| >= MinSize(kind) && kind == FileRenamed
    ensures Answers(buf, PayloadOf(kind, record))
  {
    RenamedParsed(record, buf, SlotText(buf, 48), SlotText(buf, 52));
  }

  lemma CapturedAnswers(kind: RecordKind, record: seq<byte>, buf: seq<byte>)
    requires Ready(kind, record, buf) && |record| >= MinSize(kind) && kind == DropCaptured
    ensures Answers(buf, PayloadOf(kind, record))
  {
    CapturedParsed(record, buf, SlotText(buf, 48), SlotText(buf, 52));
  }

  lemma ValueAnswers(kind: RecordKind, record: seq<byte>, buf: seq<byte>)
    requires Ready(kind, record, buf) && |record| >= MinSize(kind) && kind == RegistrySetValue
    ensures Answers(buf, PayloadOf(kind, record))
  {
    ValueParsed(record, buf, SlotText(buf, 48), SlotText(buf, 52));
  }

  lemma PayloadAnswers(kind: RecordKind, record: seq<byte>, buf: seq<byte>)
    requires Ready(kind, record, buf)
    ensures Answers(buf, PayloadOf(kind, record))
  {
    ShortAnswers(kind, record, buf);
    if |record| >= MinSize(kind) {
      match kind
      case ProcessCreated => CreatedAnswers(kind, record, buf);
      case ImageLoaded => ImageAnswers(kind, record, buf);
      case RegistrySetValue => ValueAnswers(kind, record, buf);
      case FileWritten => WrittenAnswers(kind, record, buf);
      case FileRenamed => RenamedAnswers(kind, record, buf);
      case DropCaptured => CapturedAnswers(kind, record, buf);
      case BehaviorCall => CallAnswers(kind, record, buf);
      case ProtectionEvent => ProtectionAnswers(kind, record, buf);
      case ProcessExited => PlainAnswers(kind, record, buf);
      case ThreadCreated => PlainAnswers(kind, record, buf);
      case ThreadExited => PlainAnswers(kind, record, buf);
      case _ => PathAnswers(kind, record, buf);
    }
  }

  // ---- The header

  lemma HeaderReads(buf: seq<byte>)
    requires |buf| >= 48
    ensures ReadLe(buf, 0, 2) == Ok(U16(buf, 0)) && U8At(buf, 2) == Ok(buf[2]) && U8At(buf, 3) == Ok(buf[3])
    ensures ReadLe(buf, 4, 2) == Ok(U16(buf, 4)) && ReadLe(buf, 6, 2) == Ok(U16(buf, 6))
    ensures ReadLe(buf, 8, 4) == Ok(U32(buf, 8)) && ReadLe(buf, 16, 8) == Ok(U64(buf, 16))
    ensures ReadLe(buf, 24, 8) == Ok(U64(buf, 24)) && ReadLe(buf, 32, 8) == Ok(U64(buf, 32))
    ensures ReadLe(buf, 40, 4) == Ok(U32(buf, 40))
  {
    Reads16(buf, 0);
    Reads16(buf, 4);
    Reads16(buf, 6);
    Reads32(buf, 8);
    Reads64(buf, 16);
    Reads64(buf, 24);
    Reads64(buf, 32);
    Reads32(buf, 40);
  }

  /** A header that fails is refused by its first failing test. */
  lemma HeaderRefused(buf: seq<byte>, test: nat)
    requires test < 7 && PassesUpTo(buf, test) && !Passes(buf, test)
    ensures Decode(buf) == Err(ErrorOf(buf, test))
  {
    assert forall t: nat :: t < test ==> Passes(buf, t);
    if test > 0 {
      assert Passes(buf, 0);
      HeaderReads(buf);
      assert test > 1 ==> Passes(buf, 1);
      assert test > 2 ==> Passes(buf, 2);
      assert test > 3 ==> Passes(buf, 3);
      assert test > 4 ==> Passes(buf, 4);
      assert test > 5 ==> Passes(buf, 5);
    }
  }

  lemma KindOfCode(code: nat)
    requires 1 <= code <= 16
    ensures KindFromWire(code) == Some(KINDS[code - 1]) && KindCode(KINDS[code - 1]) == code
  {
  }

  /** A header whose fields are these leaves the answer to the payload. */
  lemma HeaderAssembled(buf: seq<byte>, code: nat, pid: nat, sequence: nat, time: nat, created: nat, size: nat)
    requires |buf| >= 48 && 48 <= size <= |buf| && size <= 65536 && 1 <= code <= 16
    requires ReadLe(buf, 0, 2) == Ok(0x5346) && U8At(buf, 2) == Ok(2) && ReadLe(buf, 6, 2) == Ok(48)
    requires ReadLe(buf, 4, 2) == Ok(code) && ReadLe(buf, 8, 4) == Ok(pid) && ReadLe(buf, 16, 8) == Ok(sequence)
    requires ReadLe(buf, 24, 8) == Ok(time) && ReadLe(buf, 32, 8) == Ok(created) && ReadLe(buf, 40, 4) == Ok(size)
    ensures var p := PayloadOf(KINDS[code - 1], buf[..size]);
            Decode(buf) == if p.Err? then Err(p.error)
                           else Ok(Record(KINDS[code - 1], pid, sequence, time, created, buf[3], p.value))
  {
    KindOfCode(code);
  }

  lemma HeaderPasses(buf: seq<byte>)
    requires PassesUpTo(buf, 7)
    ensures |buf| >= 48 && U16(buf, 0) == 0x5346 && ByteAt(buf, 2) == 2 && U16(buf, 6) == 48
    ensures 48 <= Size(buf) <= |buf| && Size(buf) <= 65536 && 1 <= TypeCode(buf) <= 16
  {
    assert Passes(buf, 0) && Passes(buf, 1) && Passes(buf, 2) && Passes(buf, 3) && Passes(buf, 4) && Passes(buf, 5)
        && Passes(buf, 6);
  }

  /** A header that passes leaves the answer to the payload. */
  lemma HeaderAccepted(buf: seq<byte>) returns (kind: RecordKind)
    requires PassesUpTo(buf, 7)
    ensures |buf| >= 48 && Size(buf) <= |buf| && 1 <= TypeCode(buf) <= 16
    ensures Ready(kind, buf[..Size(buf)], buf) && kind == KINDS[TypeCode(buf) - 1]
    ensures var p := PayloadOf(kind, buf[..Size(buf)]);
            Decode(buf) == if p.Err? then Err(p.error)
                           else Ok(Record(kind, U32(buf, 8), U64(buf, 16), U64(buf, 24), U64(buf, 32), buf[3], p.value))
  {
    HeaderPasses(buf);
    HeaderReads(buf);
    KindOfCode(TypeCode(buf));
    kind := KINDS[TypeCode(buf) - 1];
    HeaderAssembled(buf, TypeCode(buf), U32(buf, 8), U64(buf, 16), U64(buf, 24), U64(buf, 32), Size(buf));
  }

  /** A buffer is refused with the error of its first failing test. */
  lemma FirstFailureIsReported(buf: seq<byte>, test: nat)
    requires test < TESTS && PassesUpTo(buf, test) && !Passes(buf, test)
    ensures Decode(buf) == Err(ErrorOf(buf, test))
  {
    if test < 7 {
      HeaderRefused(buf, test);
    } else {
      assert forall t: nat :: t < test ==> Passes(buf, t);
      var kind := HeaderAccepted(buf);
      PayloadAnswers(kind, buf[..Size(buf)], buf);
      assert test > 7 ==> Passes(buf, 7);
      assert test > 8 ==> Passes(buf, 8);
      assert test > 9 ==> Passes(buf, 9);
    }
  }

  lemma {:induction false} SomeFailureIsFirst(buf: seq<byte>, bound: nat) returns (test: nat)
    requires !PassesUpTo(buf, bound)
    ensures test < bound && PassesUpTo(buf, test) && !Passes(buf, test)
  {
    test := bound - 1;
    if !PassesUpTo(buf, test) {
      test := SomeFailureIsFirst(buf, test);
    }
  }

  /** Any bytes decode exactly when they pass all the tests, and then to exactly what
      stands at the fields' positions. */
  lemma DecodesIffAllPass(buf: seq<byte>)
    ensures Decode(buf).Ok? <==> PassesUpTo(buf, TESTS)
    ensures PassesUpTo(buf, TESTS) ==>
              && |buf| >= 48 && 1 <= TypeCode(buf) <= 16
              && Decode(buf) == Ok(Record(KINDS[TypeCode(buf) - 1], U32(buf, 8), U64(buf, 16), U64(buf, 24),
                                          U64(buf, 32), buf[3], PayloadAt(buf)))
  {
    if PassesUpTo(buf, TESTS) {
      assert Passes(buf, 7) && Passes(buf, 8) && Passes(buf, 9) && Passes(buf, 10);
      var kind := HeaderAccepted(buf);
      PayloadAnswers(kind, buf[..Size(buf)], buf);
    } else {
      var test := SomeFailureIsFirst(buf, TESTS);
      FirstFailureIsReported(buf, test);
    }
  }
}
