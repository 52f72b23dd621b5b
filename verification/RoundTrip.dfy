/** What the decoder makes of the records the driver's emitters build: exactly the
    event, with each string a prefix of its source and flagged when it was cut. */
module RoundTrip {
  import opened Wrappers
  import opened Wire
  import opened Decoder

  function Units(src: Option<Text>, cap: nat): seq<u16>
    requires cap % 2 == 0
  {
    UnitsOf(Copied(src, cap))
  }

  function OptionalUnits(src: Option<Text>, cap: nat): Option<seq<u16>>
    requires cap % 2 == 0
  {
    if Copied(src, cap) == [] then None else Some(Units(src, cap))
  }

  function PayloadFor(ev: Event): Payload {
    match ev
    case ProcessCreatedEvent(parent, cmd, image) =>
      ProcessCreatedData(parent, OptionalUnits(cmd, MAX_COMMAND_LINE_BYTES), OptionalUnits(image, MAX_IMAGE_NAME_BYTES))
    case ProcessExitedEvent => ProcessExitedData
    case ThreadEvent(_, tid) => ThreadData(tid)
    case ImageLoadedEvent(base, size, name) =>
      ImageLoadedData(base, size % 0x1_0000_0000, OptionalUnits(name, MAX_IMAGE_NAME_BYTES))
    case RegistryKeyEvent(created, path) =>
      var p := Units(path, MAX_KEY_PATH_BYTES);
      if created then RegistryKeyCreatedData(p) else RegistryKeyDeletedData(p)
    case RegistrySetValueEvent(key, value, dataType, data) =>
      RegistrySetValueData(Units(key, MAX_KEY_PATH_BYTES), Units(value, MAX_VALUE_NAME_BYTES), dataType,
            CopiedData(data))
    case FileEvent(change, path) =>
      var p := Units(path, MAX_FILE_PATH_BYTES);
      (match change
       case Created => FileCreatedData(p)
       case CleanedUp => FileCleanedUpData(p)
       case Deleted => FileDeletedData(p))
    case FileWrittenEvent(offset, count, path) => FileWrittenData(offset, count, Units(path, MAX_FILE_PATH_BYTES))
    case FileRenamedEvent(was, now) => FileRenamedData(Units(was, MAX_FILE_PATH_BYTES), Units(now, MAX_FILE_PATH_BYTES))
    case DropCapturedEvent(path, stored, m) =>
      DropCapturedData(Units(path, MAX_FILE_PATH_BYTES), Units(stored, MAX_STORED_NAME_BYTES), m)
    case BehaviorCallEvent(tid, api, a0, a1, a2, a3) => BehaviorCallData(tid, api, a0, a1, a2, a3)
    case ProtectionEventEvent(pid, isThread, created, original, stripped) =>
      ProtectionEventData(pid, created, isThread != 0, original, stripped)
  }

  function RecordFor(st: Stamp, ev: Event): Record {
    Record(KindOf(ev), st.pid, st.sequence, st.time, st.processCreateTime, FlagsOf(ev), PayloadFor(ev))
  }

  // ---- Reading fields out of a concatenation

  /** The bytes `bs` stand at offset `at`. */
  predicate At(buf: seq<byte>, at: nat, bs: seq<byte>) {
    at + |bs| <= |buf| && buf[at..at + |bs|] == bs
  }

  lemma Peel(buf: seq<byte>, at: nat, front: seq<byte>, last: seq<byte>)
    requires At(buf, at, front + last)
    ensures At(buf, at, front) && At(buf, at + |front|, last)
  {
    var all := front + last;
    assert buf[at..at + |all|][..|front|] == front;
    assert buf[at..at + |all|][|front|..] == last;
  }

  lemma {:induction false} ReadAt(buf: seq<byte>, at: nat, v: nat, n: nat)
    requires At(buf, at, LeBytes(v, n)) && v < Pow256(n)
    ensures ReadLe(buf, at, n) == Ok(v)
    decreases n
  {
    if n > 0 {
      assert LeBytes(v, n) == [v % 256] + LeBytes(v / 256, n - 1);
      Peel(buf, at, [v % 256], LeBytes(v / 256, n - 1));
      assert buf[at..at + 1][0] == buf[at];
      ReadAt(buf, at + 1, v / 256, n - 1);
    }
  }

  lemma Read16(buf: seq<byte>, at: nat, v: u16)
    requires At(buf, at, LeBytes(v, 2))
    ensures ReadLe(buf, at, 2) == Ok(v)
  {
    Pow256Values();
    ReadAt(buf, at, v, 2);
  }

  lemma Read32(buf: seq<byte>, at: nat, v: u32)
    requires At(buf, at, LeBytes(v, 4))
    ensures ReadLe(buf, at, 4) == Ok(v)
  {
    Pow256Values();
    ReadAt(buf, at, v, 4);
  }

  lemma Read64(buf: seq<byte>, at: nat, v: u64)
    requires At(buf, at, LeBytes(v, 8))
    ensures ReadLe(buf, at, 8) == Ok(v)
  {
    Pow256Values();
    ReadAt(buf, at, v, 8);
  }

  lemma ReadExtent(buf: seq<byte>, at: nat, offset: u16, bs: seq<byte>)
    requires At(buf, at, Extent(offset, bs)) && |bs| < 0x1_0000
    ensures ReadLe(buf, at, 2) == Ok(offset) && ReadLe(buf, at + 2, 2) == Ok(|bs|)
  {
    Peel(buf, at, LeBytes(offset, 2), LeBytes(|bs|, 2));
    Read16(buf, at, offset);
    Read16(buf, at + 2, |bs|);
  }

  lemma ReadString(buf: seq<byte>, offset: nat, src: Option<Text>, cap: nat)
    requires cap % 2 == 0 && At(buf, offset, Copied(src, cap))
    ensures StringAt(buf, offset, |Copied(src, cap)|) == Ok(Units(src, cap))
  {
    assert Copied(src, cap) == [] ==> UnitsOf(Copied(src, cap)) == [];
  }

  lemma ReadHeader(buf: seq<byte>, st: Stamp, kind: RecordKind, flags: byte, size: u32)
    requires At(buf, 0, HeaderBytes(st, kind, flags, size))
    ensures ReadLe(buf, 0, 2) == Ok(WIRE_MAGIC) && buf[2] == WIRE_VERSION && buf[3] == flags
    ensures ReadLe(buf, 4, 2) == Ok(KindCode(kind)) && ReadLe(buf, 6, 2) == Ok(HEADER_SIZE)
    ensures ReadLe(buf, 8, 4) == Ok(st.pid) && ReadLe(buf, 16, 8) == Ok(st.sequence)
    ensures ReadLe(buf, 24, 8) == Ok(st.time) && ReadLe(buf, 32, 8) == Ok(st.processCreateTime)
    ensures ReadLe(buf, 40, 4) == Ok(size)
  {
    var f1 := LeBytes(WIRE_MAGIC, 2);
    var f2 := f1 + [WIRE_VERSION];
    var f3 := f2 + [flags];
    var f4 := f3 + LeBytes(KindCode(kind), 2);
    var f5 := f4 + LeBytes(HEADER_SIZE, 2);
    var f6 := f5 + LeBytes(st.pid, 4);
    var f7 := f6 + [0, 0, 0, 0];
    var f8 := f7 + LeBytes(st.sequence, 8);
    var f9 := f8 + LeBytes(st.time, 8);
    var f10 := f9 + LeBytes(st.processCreateTime, 8);
    var f11 := f10 + LeBytes(size, 4);
    Peel(buf, 0, f11, [0, 0, 0, 0]);
    Peel(buf, 0, f10, LeBytes(size, 4));
    Peel(buf, 0, f9, LeBytes(st.processCreateTime, 8));
    Peel(buf, 0, f8, LeBytes(st.time, 8));
    Peel(buf, 0, f7, LeBytes(st.sequence, 8));
    Peel(buf, 0, f6, [0, 0, 0, 0]);
    Peel(buf, 0, f5, LeBytes(st.pid, 4));
    Peel(buf, 0, f4, LeBytes(HEADER_SIZE, 2));
    Peel(buf, 0, f3, LeBytes(KindCode(kind), 2));
    Peel(buf, 0, f2, [flags]);
    Peel(buf, 0, f1, [WIRE_VERSION]);
    Read16(buf, 0, WIRE_MAGIC);
    assert buf[2..3][0] == buf[2] && buf[3..4][0] == buf[3];
    Read16(buf, 4, KindCode(kind));
    Read16(buf, 6, HEADER_SIZE);
    Read32(buf, 8, st.pid);
    Read64(buf, 16, st.sequence);
    Read64(buf, 24, st.time);
    Read64(buf, 32, st.processCreateTime);
    Read32(buf, 40, size);
  }

  // ---- Payloads, one record kind at a time

  lemma ReadPath(record: seq<byte>, at: nat, offset: u16, src: Option<Text>, cap: nat)
    requires cap % 2 == 0 && cap < 0x1_0000
    requires At(record, at, Extent(offset, Copied(src, cap))) && At(record, offset, Copied(src, cap))
    ensures ParsePath(record, at) == Ok(Units(src, cap))
  {
    ReadExtent(record, at, offset, Copied(src, cap));
    ReadString(record, offset, src, cap);
  }

  lemma ReadOptional(buf: seq<byte>, offset: nat, src: Option<Text>, cap: nat)
    requires cap % 2 == 0 && (Copied(src, cap) != [] ==> At(buf, offset, Copied(src, cap)))
    ensures OptionalStringAt(buf, offset, |Copied(src, cap)|) == Ok(OptionalUnits(src, cap))
  {
    if Copied(src, cap) != [] {
      ReadString(buf, offset, src, cap);
    }
  }

  /** The offset CopyNameW's caller stores: zero for an absent or empty string. */
  function OptionalOffset(offset: nat, bs: seq<byte>): nat {
    if bs == [] then 0 else offset
  }

  lemma ProcessCreatedFields(record: seq<byte>, ev: Event)
    requires ev.ProcessCreatedEvent? && At(record, 48, BodyBytes(ev))
    ensures var c, i := Copied(ev.commandLine, MAX_COMMAND_LINE_BYTES), Copied(ev.imageName, MAX_IMAGE_NAME_BYTES);
            && At(record, 48, LeBytes(ev.parent, 4))
            && At(record, 52, Extent(OptionalOffset(60, c), c))
                  && At(record, 56, Extent(OptionalOffset(60 + |c|, i), i))
            && At(record, 60, c) && At(record, 60 + |c|, i)
  {
    var c, i := Copied(ev.commandLine, MAX_COMMAND_LINE_BYTES), Copied(ev.imageName, MAX_IMAGE_NAME_BYTES);
    var f1 := LeBytes(ev.parent, 4);
    var f2 := f1 + Extent(OptionalOffset(60, c), c);
    var f3 := f2 + Extent(OptionalOffset(60 + |c|, i), i);
    Peel(record, 48, f3 + c, i);
    Peel(record, 48, f3, c);
    Peel(record, 48, f2, Extent(OptionalOffset(60 + |c|, i), i));
    Peel(record, 48, f1, Extent(OptionalOffset(60, c), c));
  }

  lemma ProcessCreatedReads(record: seq<byte>, ev: Event)
    requires ev.ProcessCreatedEvent? && At(record, 48, BodyBytes(ev))
    ensures var c, i := Copied(ev.commandLine, MAX_COMMAND_LINE_BYTES), Copied(ev.imageName, MAX_IMAGE_NAME_BYTES);
            && ReadLe(record, 48, 4) == Ok(ev.parent)
            && ReadLe(record, 52, 2) == Ok(OptionalOffset(60, c)) && ReadLe(record, 54, 2) == Ok(|c|)
            && ReadLe(record, 56, 2) == Ok(OptionalOffset(60 + |c|, i)) && ReadLe(record, 58, 2) == Ok(|i|)
            && OptionalStringAt(record, OptionalOffset(60, c), |c|)
                  == Ok(OptionalUnits(ev.commandLine, MAX_COMMAND_LINE_BYTES))
            && OptionalStringAt(record, OptionalOffset(60 + |c|, i), |i|)
                  == Ok(OptionalUnits(ev.imageName, MAX_IMAGE_NAME_BYTES))
  {
    var c, i := Copied(ev.commandLine, MAX_COMMAND_LINE_BYTES), Copied(ev.imageName, MAX_IMAGE_NAME_BYTES);
    ProcessCreatedFields(record, ev);
    Read32(record, 48, ev.parent);
    ReadExtent(record, 52, OptionalOffset(60, c), c);
    ReadExtent(record, 56, OptionalOffset(60 + |c|, i), i);
    ReadOptional(record, OptionalOffset(60, c), ev.commandLine, MAX_COMMAND_LINE_BYTES);
    ReadOptional(record, OptionalOffset(60 + |c|, i), ev.imageName, MAX_IMAGE_NAME_BYTES);
  }

  lemma ProcessCreatedPayload(record: seq<byte>, ev: Event)
    requires ev.ProcessCreatedEvent? && |record| == SizeOf(ev) && At(record, 48, BodyBytes(ev))
    ensures PayloadOf(KindOf(ev), record) == Ok(PayloadFor(ev))
  {
    ProcessCreatedReads(record, ev);
  }

  lemma ImageLoadedPayload(record: seq<byte>, ev: Event)
    requires ev.ImageLoadedEvent? && |record| == SizeOf(ev) && At(record, 48, BodyBytes(ev))
    ensures PayloadOf(KindOf(ev), record) == Ok(PayloadFor(ev))
  {
    var n := Copied(ev.name, MAX_IMAGE_NAME_BYTES);
    var f1 := LeBytes(ev.base, 8);
    var f2 := f1 + LeBytes(ev.imageSize % 0x1_0000_0000, 4);
    var f3 := f2 + Extent(64, n);
    Peel(record, 48, f3, n);
    Peel(record, 48, f2, Extent(64, n));
    Peel(record, 48, f1, LeBytes(ev.imageSize % 0x1_0000_0000, 4));
    Read64(record, 48, ev.base);
    Read32(record, 56, ev.imageSize % 0x1_0000_0000);
    ReadExtent(record, 60, 64, n);
    ReadOptional(record, 64, ev.name, MAX_IMAGE_NAME_BYTES);
  }

  lemma OnePathPayload(record: seq<byte>, ev: Event)
    requires ev.RegistryKeyEvent? || ev.FileEvent?
    requires |record| == SizeOf(ev) && At(record, 48, BodyBytes(ev))
    ensures PayloadOf(KindOf(ev), record) == Ok(PayloadFor(ev))
  {
    var src := if ev.RegistryKeyEvent? then ev.path else ev.filePath;
    var p := Copied(src, MAX_KEY_PATH_BYTES);
    Peel(record, 48, Extent(52, p), p);
    ReadPath(record, 48, 52, src, MAX_KEY_PATH_BYTES);
  }

  /** Two extents side by side at `at`, and the two strings they point to. */
  lemma ReadTwo(record: seq<byte>, at: nat, o1: u16, first: Option<Text>, cap1: nat, o2: u16, second: Option<Text>,
        cap2: nat)
    requires cap1 % 2 == 0 && cap2 % 2 == 0 && cap1 < 0x1_0000 && cap2 < 0x1_0000
    requires At(record, at, Extent(o1, Copied(first, cap1))) && At(record, at + 4, Extent(o2, Copied(second, cap2)))
    requires At(record, o1, Copied(first, cap1)) && At(record, o2, Copied(second, cap2))
    ensures ReadLe(record, at, 2) == Ok(o1) && ReadLe(record, at + 2, 2) == Ok(|Copied(first, cap1)|)
    ensures ReadLe(record, at + 4, 2) == Ok(o2) && ReadLe(record, at + 6, 2) == Ok(|Copied(second, cap2)|)
    ensures StringAt(record, o1, |Copied(first, cap1)|) == Ok(Units(first, cap1))
    ensures StringAt(record, o2, |Copied(second, cap2)|) == Ok(Units(second, cap2))
  {
    ReadExtent(record, at, o1, Copied(first, cap1));
    ReadExtent(record, at + 4, o2, Copied(second, cap2));
    ReadString(record, o1, first, cap1);
    ReadString(record, o2, second, cap2);
  }

  lemma RegistrySetValueFields(record: seq<byte>, ev: Event)
    requires ev.RegistrySetValueEvent? && At(record, 48, BodyBytes(ev))
    ensures var k, v, d := Copied(ev.keyPath, MAX_KEY_PATH_BYTES), Copied(ev.valueName, MAX_VALUE_NAME_BYTES),
          CopiedData(ev.data);
            && At(record, 48, Extent(64, k)) && At(record, 52, Extent(64 + |k|, v))
            && At(record, 56, LeBytes(ev.dataType, 4)) && At(record, 60, LeBytes(|d|, 4))
            && At(record, 64, k) && At(record, 64 + |k|, v) && At(record, 64 + |k| + |v|, d)
  {
    var k, v := Copied(ev.keyPath, MAX_KEY_PATH_BYTES), Copied(ev.valueName, MAX_VALUE_NAME_BYTES);
    var d := CopiedData(ev.data);
    var f1 := Extent(64, k);
    var f2 := f1 + Extent(64 + |k|, v);
    var f3 := f2 + LeBytes(ev.dataType, 4);
    var f4 := f3 + LeBytes(|d|, 4);
    Peel(record, 48, f4 + k + v, d);
    Peel(record, 48, f4 + k, v);
    Peel(record, 48, f4, k);
    Peel(record, 48, f3, LeBytes(|d|, 4));
    Peel(record, 48, f2, LeBytes(ev.dataType, 4));
    Peel(record, 48, f1, Extent(64 + |k|, v));
  }

  lemma RegistrySetValueReads(record: seq<byte>, ev: Event)
    requires ev.RegistrySetValueEvent? && At(record, 48, BodyBytes(ev))
    ensures var k, v, d := Copied(ev.keyPath, MAX_KEY_PATH_BYTES), Copied(ev.valueName, MAX_VALUE_NAME_BYTES),
          CopiedData(ev.data);
            && ReadLe(record, 48, 2) == Ok(64) && ReadLe(record, 50, 2) == Ok(|k|)
            && ReadLe(record, 52, 2) == Ok(64 + |k|) && ReadLe(record, 54, 2) == Ok(|v|)
            && ReadLe(record, 56, 4) == Ok(ev.dataType) && ReadLe(record, 60, 4) == Ok(|d|)
            && StringAt(record, 64, |k|) == Ok(Units(ev.keyPath, MAX_KEY_PATH_BYTES))
            && StringAt(record, 64 + |k|, |v|) == Ok(Units(ev.valueName, MAX_VALUE_NAME_BYTES))
            && At(record, 64 + |k| + |v|, d)
  {
    RegistrySetValueFields(record, ev);
    ReadTwo(record, 48, 64, ev.keyPath, MAX_KEY_PATH_BYTES,
            64 + |Copied(ev.keyPath, MAX_KEY_PATH_BYTES)|, ev.valueName, MAX_VALUE_NAME_BYTES);
    Read32(record, 56, ev.dataType);
    Read32(record, 60, |CopiedData(ev.data)|);
  }

  lemma RegistrySetValueAssembled(record: seq<byte>, keyBytes: nat, valueBytes: nat, dataType: nat, data: seq<byte>,
                                  key: seq<u16>, value: seq<u16>)
    requires ReadLe(record, 48, 2) == Ok(64) && ReadLe(record, 50, 2) == Ok(keyBytes)
    requires ReadLe(record, 52, 2) == Ok(64 + keyBytes) && ReadLe(record, 54, 2) == Ok(valueBytes)
    requires ReadLe(record, 56, 4) == Ok(dataType) && ReadLe(record, 60, 4) == Ok(|data|)
    requires StringAt(record, 64, keyBytes) == Ok(key) && StringAt(record, 64 + keyBytes, valueBytes) == Ok(value)
    requires At(record, 64 + keyBytes + valueBytes, data)
    ensures ParseRegistrySetValue(record) == Ok(RegistrySetValueData(key, value, dataType, data))
  {
  }

  lemma RegistrySetValueParsed(record: seq<byte>, ev: Event)
    requires ev.RegistrySetValueEvent? && At(record, 48, BodyBytes(ev))
    ensures ParseRegistrySetValue(record) == Ok(PayloadFor(ev))
  {
    RegistrySetValueReads(record, ev);
    RegistrySetValueAssembled(record, |Copied(ev.keyPath, MAX_KEY_PATH_BYTES)|,
      |Copied(ev.valueName, MAX_VALUE_NAME_BYTES)|, ev.dataType, CopiedData(ev.data),
      Units(ev.keyPath, MAX_KEY_PATH_BYTES), Units(ev.valueName, MAX_VALUE_NAME_BYTES));
  }

  lemma RegistrySetValuePayload(record: seq<byte>, ev: Event)
    requires ev.RegistrySetValueEvent? && |record| == SizeOf(ev) && At(record, 48, BodyBytes(ev))
    ensures PayloadOf(KindOf(ev), record) == Ok(PayloadFor(ev))
  {
    RegistrySetValueParsed(record, ev);
  }

  lemma FileWrittenPayload(record: seq<byte>, ev: Event)
    requires ev.FileWrittenEvent? && |record| == SizeOf(ev) && At(record, 48, BodyBytes(ev))
    ensures PayloadOf(KindOf(ev), record) == Ok(PayloadFor(ev))
  {
    var p := Copied(ev.writtenPath, MAX_FILE_PATH_BYTES);
    var f1 := LeBytes(ev.offset, 8);
    var f2 := f1 + LeBytes(ev.count, 4);
    Peel(record, 48, f2 + Extent(64, p), p);
    Peel(record, 48, f2, Extent(64, p));
    Peel(record, 48, f1, LeBytes(ev.count, 4));
    Read64(record, 48, ev.offset);
    Read32(record, 56, ev.count);
    ReadPath(record, 60, 64, ev.writtenPath, MAX_FILE_PATH_BYTES);
  }

  lemma FileRenamedFields(record: seq<byte>, ev: Event)
    requires ev.FileRenamedEvent? && At(record, 48, BodyBytes(ev))
    ensures var o, n := Copied(ev.oldPath, MAX_FILE_PATH_BYTES), Copied(ev.newPath, MAX_FILE_PATH_BYTES);
            && At(record, 48, Extent(56, o)) && At(record, 52, Extent(56 + |o|, n))
            && At(record, 56, o) && At(record, 56 + |o|, n)
  {
    var o, n := Copied(ev.oldPath, MAX_FILE_PATH_BYTES), Copied(ev.newPath, MAX_FILE_PATH_BYTES);
    var f1 := Extent(56, o);
    var f2 := f1 + Extent(56 + |o|, n);
    Peel(record, 48, f2 + o, n);
    Peel(record, 48, f2, o);
    Peel(record, 48, f1, Extent(56 + |o|, n));
  }

  lemma FileRenamedAssembled(record: seq<byte>, oldBytes: nat, at: nat, newBytes: nat,
                             oldPath: seq<u16>, newPath: seq<u16>)
    requires ReadLe(record, 48, 2) == Ok(56) && ReadLe(record, 50, 2) == Ok(oldBytes)
    requires ReadLe(record, 52, 2) == Ok(at) && ReadLe(record, 54, 2) == Ok(newBytes)
    requires StringAt(record, 56, oldBytes) == Ok(oldPath) && StringAt(record, at, newBytes) == Ok(newPath)
    ensures ParseFileRenamed(record) == Ok(FileRenamedData(oldPath, newPath))
  {
  }

  lemma FileRenamedParsed(record: seq<byte>, ev: Event)
    requires ev.FileRenamedEvent? && At(record, 48, BodyBytes(ev))
    ensures ParseFileRenamed(record) == Ok(PayloadFor(ev))
  {
    var o, n := |Copied(ev.oldPath, MAX_FILE_PATH_BYTES)|, |Copied(ev.newPath, MAX_FILE_PATH_BYTES)|;
    FileRenamedFields(record, ev);
    ReadTwo(record, 48, 56, ev.oldPath, MAX_FILE_PATH_BYTES, 56 + o, ev.newPath, MAX_FILE_PATH_BYTES);
    FileRenamedAssembled(record, o, 56 + o, n,
      Units(ev.oldPath, MAX_FILE_PATH_BYTES), Units(ev.newPath, MAX_FILE_PATH_BYTES));
  }

  lemma FileRenamedPayload(record: seq<byte>, ev: Event)
    requires ev.FileRenamedEvent? && |record| == SizeOf(ev) && At(record, 48, BodyBytes(ev))
    ensures PayloadOf(KindOf(ev), record) == Ok(PayloadFor(ev))
  {
    FileRenamedParsed(record, ev);
  }

  lemma DropCapturedFields(record: seq<byte>, ev: Event)
    requires ev.DropCapturedEvent? && At(record, 48, BodyBytes(ev))
    ensures var p, s := Copied(ev.original, MAX_FILE_PATH_BYTES), Copied(ev.stored, MAX_STORED_NAME_BYTES);
            && At(record, 48, Extent(60, p)) && At(record, 52, Extent(60 + |p|, s))
                  && At(record, 56, LeBytes(ev.dropMethod, 4))
            && At(record, 60, p) && At(record, 60 + |p|, s)
  {
    var p, s := Copied(ev.original, MAX_FILE_PATH_BYTES), Copied(ev.stored, MAX_STORED_NAME_BYTES);
    var f1 := Extent(60, p);
    var f2 := f1 + Extent(60 + |p|, s);
    var f3 := f2 + LeBytes(ev.dropMethod, 4);
    Peel(record, 48, f3 + p, s);
    Peel(record, 48, f3, p);
    Peel(record, 48, f2, LeBytes(ev.dropMethod, 4));
    Peel(record, 48, f1, Extent(60 + |p|, s));
  }

  lemma DropCapturedAssembled(record: seq<byte>, pathBytes: nat, at: nat, storedBytes: nat, dropMethod: nat,
                              path: seq<u16>, stored: seq<u16>)
    requires ReadLe(record, 48, 2) == Ok(60) && ReadLe(record, 50, 2) == Ok(pathBytes)
    requires ReadLe(record, 52, 2) == Ok(at) && ReadLe(record, 54, 2) == Ok(storedBytes)
    requires ReadLe(record, 56, 4) == Ok(dropMethod)
    requires StringAt(record, 60, pathBytes) == Ok(path) && StringAt(record, at, storedBytes) == Ok(stored)
    ensures ParseDropCaptured(record) == Ok(DropCapturedData(path, stored, dropMethod))
  {
  }

  lemma DropCapturedParsed(record: seq<byte>, ev: Event)
    requires ev.DropCapturedEvent? && At(record, 48, BodyBytes(ev))
    ensures ParseDropCaptured(record) == Ok(PayloadFor(ev))
  {
    var p, s := |Copied(ev.original, MAX_FILE_PATH_BYTES)|, |Copied(ev.stored, MAX_STORED_NAME_BYTES)|;
    DropCapturedFields(record, ev);
    ReadTwo(record, 48, 60, ev.original, MAX_FILE_PATH_BYTES, 60 + p, ev.stored, MAX_STORED_NAME_BYTES);
    Read32(record, 56, ev.dropMethod);
    DropCapturedAssembled(record, p, 60 + p, s, ev.dropMethod,
      Units(ev.original, MAX_FILE_PATH_BYTES), Units(ev.stored, MAX_STORED_NAME_BYTES));
  }

  lemma DropCapturedPayload(record: seq<byte>, ev: Event)
    requires ev.DropCapturedEvent? && |record| == SizeOf(ev) && At(record, 48, BodyBytes(ev))
    ensures PayloadOf(KindOf(ev), record) == Ok(PayloadFor(ev))
  {
    DropCapturedParsed(record, ev);
  }

  lemma BehaviorCallPayload(record: seq<byte>, ev: Event)
    requires ev.BehaviorCallEvent? && |record| == SizeOf(ev) && At(record, 48, BodyBytes(ev))
    ensures PayloadOf(KindOf(ev), record) == Ok(PayloadFor(ev))
  {
    var f1 := LeBytes(ev.tid, 4);
    var f2 := f1 + LeBytes(ev.api, 4);
    var f3 := f2 + LeBytes(ev.arg0, 8);
    var f4 := f3 + LeBytes(ev.arg1, 8);
    var f5 := f4 + LeBytes(ev.arg2, 8);
    Peel(record, 48, f5, LeBytes(ev.arg3, 8));
    Peel(record, 48, f4, LeBytes(ev.arg2, 8));
    Peel(record, 48, f3, LeBytes(ev.arg1, 8));
    Peel(record, 48, f2, LeBytes(ev.arg0, 8));
    Peel(record, 48, f1, LeBytes(ev.api, 4));
    Read32(record, 48, ev.tid);
    Read32(record, 52, ev.api);
    Read64(record, 56, ev.arg0);
    Read64(record, 64, ev.arg1);
    Read64(record, 72, ev.arg2);
    Read64(record, 80, ev.arg3);
  }

  lemma ProtectionPayload(record: seq<byte>, ev: Event)
    requires ev.ProtectionEventEvent? && |record| == SizeOf(ev) && At(record, 48, BodyBytes(ev))
    ensures PayloadOf(KindOf(ev), record) == Ok(PayloadFor(ev))
  {
    var f1 := LeBytes(ev.protectedPid, 4);
    var f2 := f1 + [ev.targetIsThread];
    var f3 := f2 + [0, 0, 0];
    var f4 := f3 + LeBytes(ev.protectedCreateTime, 8);
    var f5 := f4 + LeBytes(ev.originalAccess, 8);
    Peel(record, 48, f5, LeBytes(ev.strippedAccess, 8));
    Peel(record, 48, f4, LeBytes(ev.originalAccess, 8));
    Peel(record, 48, f3, LeBytes(ev.protectedCreateTime, 8));
    Peel(record, 48, f2, [0, 0, 0]);
    Peel(record, 48, f1, [ev.targetIsThread]);
    Read32(record, 48, ev.protectedPid);
    assert record[52..53][0] == record[52];
    Read64(record, 56, ev.protectedCreateTime);
    Read64(record, 64, ev.originalAccess);
    Read64(record, 72, ev.strippedAccess);
  }

  lemma PayloadComesBack(record: seq<byte>, ev: Event)
    requires |record| == SizeOf(ev) && At(record, 48, BodyBytes(ev))
    ensures PayloadOf(KindOf(ev), record) == Ok(PayloadFor(ev))
  {
    match ev
    case ProcessCreatedEvent(_, _, _) => ProcessCreatedPayload(record, ev);
    case ProcessExitedEvent =>
    case ThreadEvent(_, tid) => Read32(record, 48, tid);
    case ImageLoadedEvent(_, _, _) => ImageLoadedPayload(record, ev);
    case RegistryKeyEvent(_, _) => OnePathPayload(record, ev);
    case RegistrySetValueEvent(_, _, _, _) => RegistrySetValuePayload(record, ev);
    case FileEvent(_, _) => OnePathPayload(record, ev);
    case FileWrittenEvent(_, _, _) => FileWrittenPayload(record, ev);
    case FileRenamedEvent(_, _) => FileRenamedPayload(record, ev);
    case DropCapturedEvent(_, _, _) => DropCapturedPayload(record, ev);
    case BehaviorCallEvent(_, _, _, _, _, _) => BehaviorCallPayload(record, ev);
    case ProtectionEventEvent(_, _, _, _, _) => ProtectionPayload(record, ev);
  }

  lemma KindComesBack(kind: RecordKind)
    ensures KindFromWire(KindCode(kind)) == Some(kind)
  {
    match kind case _ =>
  }

  lemma DecodeFromFields(buf: seq<byte>, st: Stamp, kind: RecordKind, flags: byte, size: u32, payload: Payload)
    requires At(buf, 0, HeaderBytes(st, kind, flags, size))
    requires HEADER_SIZE <= size <= |buf| && size <= MAX_DECODED_BYTES
    requires PayloadOf(kind, buf[..size]) == Ok(payload)
    ensures Decode(buf) == Ok(Record(kind, st.pid, st.sequence, st.time, st.processCreateTime, flags, payload))
    ensures RecordSize(buf) == Ok(size)
  {
    ReadHeader(buf, st, kind, flags, size);
    KindComesBack(kind);
  }

  lemma HeaderThenBody(header: seq<byte>, body: seq<byte>, rest: seq<byte>)
    ensures At(header + body + rest, 0, header) && At(header + body, |header|, body)
    ensures (header + body + rest)[..|header + body|] == header + body
  {
    assert header + body + rest == header + (body + rest);
  }

  /** Decoding undoes emitting: whatever follows it in the buffer, a record any emitter
      built decodes to exactly its event, and its size leads to the next record. */
  lemma DecodeUndoesEmit(st: Stamp, ev: Event, rest: seq<byte>)
    ensures Decode(RecordBytes(st, ev) + rest) == Ok(RecordFor(st, ev))
    ensures RecordSize(RecordBytes(st, ev) + rest) == Ok(|RecordBytes(st, ev)|)
  {
    var record := RecordBytes(st, ev);
    RecordsFit(ev);
    HeaderThenBody(HeaderBytes(st, KindOf(ev), FlagsOf(ev), SizeOf(ev)), BodyBytes(ev), rest);
    PayloadComesBack(record, ev);
    DecodeFromFields(record + rest, st, KindOf(ev), FlagsOf(ev), SizeOf(ev), PayloadFor(ev));
  }

  // ---- Truncation

  function OrEmpty(units: Option<seq<u16>>): seq<u16> {
    if units.Some? then units.value else []
  }

  function Source(src: Option<Text>): seq<byte> {
    if src.Some? then src.value else []
  }

  /** A decoded string against its source: a prefix of it, and all of it exactly when it
      is not flagged as cut. */
  predicate Faithful(units: seq<u16>, src: Option<Text>, flagged: bool) {
    && UnitBytes(units) <= Source(src)
    && (flagged <==> UnitBytes(units) != Source(src))
  }

  predicate Flagged(flags: byte, flag: byte)
    requires flag > 0
  {
    flags / flag % 2 == 1
  }

  /** The strings a payload carries, each with its source and its flag. */
  datatype Carried = Carried(units: seq<u16>, src: Option<Text>, flag: byte)

  function Strings(ev: Event, p: Payload): seq<Carried> {
    match (ev, p)
    case (ProcessCreatedEvent(_, cmd, image), ProcessCreatedData(_, c, i)) =>
      [Carried(OrEmpty(c), cmd, TRUNC_CMDLINE), Carried(OrEmpty(i), image, TRUNC_IMAGE_NAME)]
    case (ImageLoadedEvent(_, _, name), ImageLoadedData(_, _, n)) => [Carried(OrEmpty(n), name, TRUNC_IMAGE_NAME)]
    case (RegistryKeyEvent(_, path), RegistryKeyCreatedData(p)) => [Carried(p, path, TRUNC_KEY_PATH)]
    case (RegistryKeyEvent(_, path), RegistryKeyDeletedData(p)) => [Carried(p, path, TRUNC_KEY_PATH)]
    case (RegistrySetValueEvent(key, value, _, _), RegistrySetValueData(k, v, _, _)) =>
      [Carried(k, key, TRUNC_KEY_PATH), Carried(v, value, TRUNC_VALUE_NAME)]
    case (FileEvent(_, path), FileCreatedData(p)) => [Carried(p, path, TRUNC_FILE_PATH)]
    case (FileEvent(_, path), FileCleanedUpData(p)) => [Carried(p, path, TRUNC_FILE_PATH)]
    case (FileEvent(_, path), FileDeletedData(p)) => [Carried(p, path, TRUNC_FILE_PATH)]
    case (FileWrittenEvent(_, _, path), FileWrittenData(_, _, p)) => [Carried(p, path, TRUNC_FILE_PATH)]
    case (FileRenamedEvent(was, now), FileRenamedData(o, n)) =>
      [Carried(o, was, TRUNC_OLD_PATH), Carried(n, now, TRUNC_NEW_PATH)]
    case (DropCapturedEvent(path, stored, _), DropCapturedData(p, s, _)) =>
      [Carried(p, path, TRUNC_FILE_PATH), Carried(s, stored, TRUNC_NEW_PATH)]
    case _ => []
  }

  predicate Told(c: Carried, flags: byte) {
    c.flag > 0 && Faithful(c.units, c.src, Flagged(flags, c.flag))
  }

  predicate AllTold(carried: seq<Carried>, flags: byte) {
    forall c <- carried :: Told(c, flags)
  }

  lemma CopyIsFaithful(src: Option<Text>, cap: nat)
    requires cap % 2 == 0
    ensures Faithful(Units(src, cap), src, Cut(src, cap))
    ensures OrEmpty(OptionalUnits(src, cap)) == Units(src, cap)
  {
    UnitsRoundTrip(Copied(src, cap));
  }

  lemma TwoFlags(a: bool, fa: byte, b: bool, fb: byte)
    requires (fa, fb) in {(TRUNC_CMDLINE, TRUNC_IMAGE_NAME), (TRUNC_KEY_PATH, TRUNC_VALUE_NAME),
                          (TRUNC_OLD_PATH, TRUNC_NEW_PATH), (TRUNC_FILE_PATH, TRUNC_NEW_PATH)}
    ensures var flags: byte := FlagIf(a, fa) + FlagIf(b, fb); (Flagged(flags, fa) <==> a) && (Flagged(flags, fb) <==> b)
  {
  }

  lemma CopyIsTold(src: Option<Text>, cap: nat, flags: byte, flag: byte)
    requires cap % 2 == 0 && flag > 0 && (Flagged(flags, flag) <==> Cut(src, cap))
    ensures Told(Carried(Units(src, cap), src, flag), flags)
    ensures Told(Carried(OrEmpty(OptionalUnits(src, cap)), src, flag), flags)
  {
    CopyIsFaithful(src, cap);
  }

  lemma OneIsAll(strings: seq<Carried>, flags: byte)
    requires |strings| == 1 && Told(strings[0], flags)
    ensures AllTold(strings, flags)
  {
  }

  lemma TwoAreAll(strings: seq<Carried>, flags: byte)
    requires |strings| == 2 && Told(strings[0], flags) && Told(strings[1], flags)
    ensures AllTold(strings, flags)
  {
  }

  /** One string of a record, plain or optional. */
  predicate CopyOf(c: Carried, src: Option<Text>, cap: nat, flag: byte)
    requires cap % 2 == 0
  {
    c in {Carried(Units(src, cap), src, flag), Carried(OrEmpty(OptionalUnits(src, cap)), src, flag)}
  }

  lemma StringIsTold(c: Carried, src: Option<Text>, cap: nat, flags: byte, flag: byte)
    requires cap % 2 == 0 && flag > 0 && CopyOf(c, src, cap, flag) && (Flagged(flags, flag) <==> Cut(src, cap))
    ensures Told(c, flags)
  {
    CopyIsTold(src, cap, flags, flag);
  }

  lemma OneFlag(a: bool, flag: byte)
    requires flag > 0
    ensures Flagged(FlagIf(a, flag), flag) <==> a
  {
  }

  lemma OneString(strings: seq<Carried>, flags: byte, src: Option<Text>, cap: nat, flag: byte)
    requires cap % 2 == 0 && flag > 0 && (Flagged(flags, flag) <==> Cut(src, cap))
    requires |strings| == 1 && CopyOf(strings[0], src, cap, flag)
    ensures AllTold(strings, flags)
  {
    StringIsTold(strings[0], src, cap, flags, flag);
    OneIsAll(strings, flags);
  }

  lemma TwoStrings(strings: seq<Carried>, flags: byte, first: Option<Text>, cap1: nat, flag1: byte,
                   second: Option<Text>, cap2: nat, flag2: byte)
    requires cap1 % 2 == 0 && flag1 > 0 && (Flagged(flags, flag1) <==> Cut(first, cap1))
    requires cap2 % 2 == 0 && flag2 > 0 && (Flagged(flags, flag2) <==> Cut(second, cap2))
    requires |strings| == 2 && CopyOf(strings[0], first, cap1, flag1) && CopyOf(strings[1], second, cap2, flag2)
    ensures AllTold(strings, flags)
  {
    StringIsTold(strings[0], first, cap1, flags, flag1);
    StringIsTold(strings[1], second, cap2, flags, flag2);
    TwoAreAll(strings, flags);
  }

  lemma ThreeFlags(a: bool, b: bool, c: bool)
    ensures var flags: byte := FlagIf(a, TRUNC_KEY_PATH) + FlagIf(b, TRUNC_VALUE_NAME) + FlagIf(c, TRUNC_DATA);
            && (Flagged(flags, TRUNC_KEY_PATH) <==> a) && (Flagged(flags, TRUNC_VALUE_NAME) <==> b)
            && (Flagged(flags, TRUNC_DATA) <==> c)
  {
  }

  lemma RegistryStrings(ev: Event)
    requires ev.RegistrySetValueEvent?
    ensures AllTold(Strings(ev, PayloadFor(ev)), FlagsOf(ev))
    ensures Flagged(FlagsOf(ev), TRUNC_DATA) <==> |ev.data| > MAX_VALUE_DATA_BYTES
  {
    ThreeFlags(Cut(ev.keyPath, MAX_KEY_PATH_BYTES), Cut(ev.valueName, MAX_VALUE_NAME_BYTES),
          |ev.data| > MAX_VALUE_DATA_BYTES);
    CopyIsTold(ev.keyPath, MAX_KEY_PATH_BYTES, FlagsOf(ev), TRUNC_KEY_PATH);
    CopyIsTold(ev.valueName, MAX_VALUE_NAME_BYTES, FlagsOf(ev), TRUNC_VALUE_NAME);
  }

  /** A flagged string is a proper prefix of the truth, an unflagged one is the truth, and
      the same holds of the value data; records without strings carry no flag. */
  lemma FlagsTellCuts(ev: Event)
    ensures AllTold(Strings(ev, PayloadFor(ev)), FlagsOf(ev))
    ensures ev.RegistrySetValueEvent? ==>
      && PayloadFor(ev).data <= ev.data
      && (Flagged(FlagsOf(ev), TRUNC_DATA) <==> PayloadFor(ev).data != ev.data)
    ensures Strings(ev, PayloadFor(ev)) == [] ==> FlagsOf(ev) == 0
  {
    match ev
    case ProcessCreatedEvent(_, cmd, image) =>
      TwoFlags(Cut(cmd, MAX_COMMAND_LINE_BYTES), TRUNC_CMDLINE, Cut(image, MAX_IMAGE_NAME_BYTES), TRUNC_IMAGE_NAME);
      TwoStrings(Strings(ev, PayloadFor(ev)), FlagsOf(ev),
        cmd, MAX_COMMAND_LINE_BYTES, TRUNC_CMDLINE, image, MAX_IMAGE_NAME_BYTES, TRUNC_IMAGE_NAME);
    case FileRenamedEvent(was, now) =>
      TwoFlags(Cut(was, MAX_FILE_PATH_BYTES), TRUNC_OLD_PATH, Cut(now, MAX_FILE_PATH_BYTES), TRUNC_NEW_PATH);
      TwoStrings(Strings(ev, PayloadFor(ev)), FlagsOf(ev),
        was, MAX_FILE_PATH_BYTES, TRUNC_OLD_PATH, now, MAX_FILE_PATH_BYTES, TRUNC_NEW_PATH);
    case DropCapturedEvent(path, stored, _) =>
      TwoFlags(Cut(path, MAX_FILE_PATH_BYTES), TRUNC_FILE_PATH, Cut(stored, MAX_STORED_NAME_BYTES), TRUNC_NEW_PATH);
      TwoStrings(Strings(ev, PayloadFor(ev)), FlagsOf(ev),
        path, MAX_FILE_PATH_BYTES, TRUNC_FILE_PATH, stored, MAX_STORED_NAME_BYTES, TRUNC_NEW_PATH);
    case ImageLoadedEvent(_, _, name) =>
      OneFlag(Cut(name, MAX_IMAGE_NAME_BYTES), TRUNC_IMAGE_NAME);
      OneString(Strings(ev, PayloadFor(ev)), FlagsOf(ev), name, MAX_IMAGE_NAME_BYTES, TRUNC_IMAGE_NAME);
    case RegistryKeyEvent(_, path) =>
      OneFlag(Cut(path, MAX_KEY_PATH_BYTES), TRUNC_KEY_PATH);
      OneString(Strings(ev, PayloadFor(ev)), FlagsOf(ev), path, MAX_KEY_PATH_BYTES, TRUNC_KEY_PATH);
    case FileEvent(_, path) =>
      OneFlag(Cut(path, MAX_FILE_PATH_BYTES), TRUNC_FILE_PATH);
      OneString(Strings(ev, PayloadFor(ev)), FlagsOf(ev), path, MAX_FILE_PATH_BYTES, TRUNC_FILE_PATH);
    case FileWrittenEvent(_, _, path) =>
      OneFlag(Cut(path, MAX_FILE_PATH_BYTES), TRUNC_FILE_PATH);
      OneString(Strings(ev, PayloadFor(ev)), FlagsOf(ev), path, MAX_FILE_PATH_BYTES, TRUNC_FILE_PATH);
    case RegistrySetValueEvent(_, _, _, _) => RegistryStrings(ev);
    case _ =>
  }

  /** A rename as the driver sees it end to end: the pre-operation callback cuts the old
      name to the cap before the emitter's flagging copy ever sees it. */
  function RenameSeen(was: Text, now: Option<Text>): Event {
    FileRenamedEvent(Some(Copied(Some(was), MAX_FILE_PATH_BYTES)), now)
  }

  lemma RenameFlag(was: Text, now: Option<Text>)
    ensures var ev := RenameSeen(was, now);
            && !Flagged(FlagsOf(ev), TRUNC_OLD_PATH)
            && PayloadFor(ev).oldPath == Units(Some(was), MAX_FILE_PATH_BYTES)
  {
    var cut: Text := Copied(Some(was), MAX_FILE_PATH_BYTES);
    assert Copied(Some(cut), MAX_FILE_PATH_BYTES) == cut;
    TwoFlags(false, TRUNC_OLD_PATH, Cut(now, MAX_FILE_PATH_BYTES), TRUNC_NEW_PATH);
  }

  /** So the old path's flag never fires: the record is faithful about the file's real
      old name exactly when that name fitted the cap in whole units. */
  lemma RenamedOldPathFaithful(was: Text, now: Option<Text>)
    ensures var ev := RenameSeen(was, now);
            && !Flagged(FlagsOf(ev), TRUNC_OLD_PATH)
            && UnitBytes(PayloadFor(ev).oldPath) <= was
            && (Faithful(PayloadFor(ev).oldPath, Some(was), Flagged(FlagsOf(ev), TRUNC_OLD_PATH))
                <==> |was| <= MAX_FILE_PATH_BYTES && |was| % 2 == 0)
  {
    RenameFlag(was, now);
    CopyIsFaithful(Some(was), MAX_FILE_PATH_BYTES);
  }
}
