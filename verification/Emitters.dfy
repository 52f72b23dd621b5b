/** The driver's record builders (driver/secoutfall/secoutfall.cpp): each allocates a zeroed
    buffer of the record's exact size, fills the header, and then writes the fields and the
    strings behind them one after the other. What is written so far is always a prefix, with
    zeros behind it; at the end the prefix is the whole record, and each builder is proved
    to leave exactly `Wire.RecordBytes` there. */
module Emitters {
  import opened Wrappers
  import opened Wire

  function Zeros(n: nat): (bs: seq<byte>)
    ensures |bs| == n
  {
    seq(n, i => 0)
  }

  /** The buffer so far: what was written from the front, and zeros still to be written. */
  ghost predicate Written(item: array<byte>, front: seq<byte>)
    reads item
  {
    |front| <= item.Length && item[..] == front + Zeros(item.Length - |front|)
  }

  /** CopyNameW into the caller's scratch buffer. */
  method CopyName(src: Option<Text>, cap: nat) returns (scratch: seq<byte>, cut: bool)
    requires cap % 2 == 0
    ensures scratch == Copied(src, cap) && cut == Cut(src, cap)
  {
    scratch, cut := [], false;
    if src.Some? && |src.value| > 0 {
      var bytes := if |src.value| < cap then |src.value| else cap;
      bytes := bytes - bytes % 2;
      scratch := src.value[..bytes];
      cut := bytes < |src.value|;
    }
  }

  /** Writes bytes at an offset: an integer field or a copied string. */
  method Store(item: array<byte>, at: nat, bs: seq<byte>)
    requires at + |bs| <= item.Length
    modifies item
    ensures item[..] == old(item[..at]) + bs + old(item[at + |bs|..])
  {
    var i := 0;
    while i < |bs|
      invariant 0 <= i <= |bs|
      invariant item[..at] == old(item[..at]) && item[at..at + i] == bs[..i]
      invariant item[at + i..] == old(item[at + i..])
    {
      item[at + i] := bs[i];
      i := i + 1;
    }
    assert item[..] == item[..at] + item[at..at + |bs|] + item[at + |bs|..];
  }

  /** The next field, stored at its record offset. */
  method Put(item: array<byte>, ghost front: seq<byte>, at: nat, bs: seq<byte>)
    requires Written(item, front) && at == |front| && at + |bs| <= item.Length
    modifies item
    ensures Written(item, front + bs)
  {
    Store(item, at, bs);
    ghost var was := front + Zeros(item.Length - at);
    assert was[..at] == front;
    assert was[at + |bs|..] == Zeros(item.Length - at - |bs|);
  }

  method PutExtent(item: array<byte>, ghost front: seq<byte>, at: nat, offset: nat, ghost bs: seq<byte>, bytes: nat)
    requires Written(item, front) && at == |front| && at + 4 <= item.Length && bytes == |bs|
    modifies item
    ensures Written(item, front + Extent(offset, bs))
  {
    Put(item, front, at, LeBytes(offset, 2));
    Put(item, front + LeBytes(offset, 2), at + 2, LeBytes(bytes, 2));
    assert front + LeBytes(offset, 2) + LeBytes(bytes, 2) == front + Extent(offset, bs);
  }

  /** Reserved bytes are left as the allocation zeroed them. */
  lemma Skip(item: array<byte>, front: seq<byte>, n: nat)
    requires Written(item, front) && |front| + n <= item.Length
    ensures Written(item, front + Zeros(n))
  {
    var left := item.Length - |front|;
    assert Zeros(left) == Zeros(n) + Zeros(left - n);
  }

  /** AllocRecord's header fields, in a zeroed allocation of the record's size. */
  method AllocRecord(st: Stamp, kind: RecordKind, totalSize: nat) returns (item: array<byte>)
    requires HEADER_SIZE <= totalSize
    ensures fresh(item) && item.Length == totalSize
    ensures Written(item, HeaderBytes(st, kind, 0, totalSize))
  {
    item := new byte[totalSize](_ => 0);
    assert item[..] == Zeros(totalSize);
    ghost var h1 := LeBytes(WIRE_MAGIC, 2);
    ghost var h2 := h1 + [WIRE_VERSION];
    ghost var h3 := h2 + [0];
    ghost var h4 := h3 + LeBytes(KindCode(kind), 2);
    ghost var h5 := h4 + LeBytes(HEADER_SIZE, 2);
    ghost var h6 := h5 + LeBytes(st.pid, 4);
    assert item[..] == [] + Zeros(totalSize);
    Put(item, [], 0, LeBytes(WIRE_MAGIC, 2));
    assert [] + h1 == h1;
    Put(item, h1, 2, [WIRE_VERSION]);
    Put(item, h2, 3, [0]);
    Put(item, h3, 4, LeBytes(KindCode(kind), 2));
    Put(item, h4, 6, LeBytes(HEADER_SIZE, 2));
    Put(item, h5, 8, LeBytes(st.pid, 4));
    AllocTail(item, h6, st, totalSize);
    assert Zeros(4) == [0, 0, 0, 0];
  }

  method AllocTail(item: array<byte>, ghost h6: seq<byte>, st: Stamp, totalSize: nat)
    requires |h6| == 12 && Written(item, h6) && HEADER_SIZE <= totalSize == item.Length
    modifies item
    ensures Written(item,
          h6 + Zeros(4) + LeBytes(st.sequence, 8) + LeBytes(st.time, 8) + LeBytes(st.processCreateTime, 8)
                          + LeBytes(totalSize, 4) + Zeros(4))
  {
    ghost var h7 := h6 + Zeros(4);
    ghost var h8 := h7 + LeBytes(st.sequence, 8);
    ghost var h9 := h8 + LeBytes(st.time, 8);
    ghost var h10 := h9 + LeBytes(st.processCreateTime, 8);
    Skip(item, h6, 4);
    Put(item, h7, 16, LeBytes(st.sequence, 8));
    Put(item, h8, 24, LeBytes(st.time, 8));
    Put(item, h9, 32, LeBytes(st.processCreateTime, 8));
    Put(item, h10, 40, LeBytes(totalSize, 4));
    Skip(item, h10 + LeBytes(totalSize, 4), 4);
  }

  /** `TruncFlags |= flag`, for a flag not raised yet. */
  method RaiseFlag(item: array<byte>, raise: bool, flag: byte, ghost st: Stamp, ghost kind: RecordKind,
        ghost flags: byte)
    requires Written(item, HeaderBytes(st, kind, flags, item.Length))
    requires flag > 0 && flags / flag % 2 == 0 && flags + flag < 0x100
    modifies item
    ensures flags + FlagIf(raise, flag) < 0x100
    ensures Written(item, HeaderBytes(st, kind, flags + FlagIf(raise, flag), item.Length))
  {
    if raise {
      ghost var header := HeaderBytes(st, kind, flags, item.Length);
      HeaderFlag(st, kind, flags, flags + flag, item.Length);
      assert item[3] == item[..][3] == flags;
      item[3] := item[3] + flag;
      assert item[..] == (header + Zeros(item.Length - HEADER_SIZE))[3 := flags + flag];
    }
  }

  /** An allocated record with the flags of its two capped strings raised. */
  method StartRecord(st: Stamp, kind: RecordKind, totalSize: nat, cut1: bool, flag1: byte, cut2: bool, flag2: byte)
    returns (item: array<byte>)
    requires HEADER_SIZE <= totalSize
    requires (flag1, flag2) in {(TRUNC_CMDLINE, TRUNC_IMAGE_NAME), (TRUNC_KEY_PATH, TRUNC_VALUE_NAME),
                                (TRUNC_OLD_PATH, TRUNC_NEW_PATH), (TRUNC_FILE_PATH, TRUNC_NEW_PATH)}
    ensures fresh(item) && item.Length == totalSize
    ensures Written(item, HeaderBytes(st, kind, FlagIf(cut1, flag1) + FlagIf(cut2, flag2), totalSize))
  {
    item := AllocRecord(st, kind, totalSize);
    RaiseFlag(item, cut1, flag1, st, kind, 0);
    RaiseFlag(item, cut2, flag2, st, kind, FlagIf(cut1, flag1));
  }

  lemma HeaderFlag(st: Stamp, kind: RecordKind, flags: byte, other: byte, size: nat)
    ensures HeaderBytes(st, kind, flags, size)[3] == flags
    ensures HeaderBytes(st, kind, other, size) == HeaderBytes(st, kind, flags, size)[3 := other]
  {
    var front := LeBytes(WIRE_MAGIC, 2) + [WIRE_VERSION];
    var h := LeBytes(KindCode(kind), 2) + LeBytes(HEADER_SIZE, 2)
      + LeBytes(st.pid, 4) + [0, 0, 0, 0] + LeBytes(st.sequence, 8) + LeBytes(st.time, 8)
      + LeBytes(st.processCreateTime, 8) + LeBytes(size, 4) + [0, 0, 0, 0];
    HeaderSplit(st, kind, flags, size, h);
    HeaderSplit(st, kind, other, size, h);
    FlagByte(front, flags, other, h);
  }

  lemma FlagByte(front: seq<byte>, flags: byte, other: byte, tail: seq<byte>)
    requires |front| == 3
    ensures (front + [flags] + tail)[3] == flags
    ensures (front + [flags] + tail)[3 := other] == front + [other] + tail
  {
  }

  lemma HeaderSplit(st: Stamp, kind: RecordKind, flags: byte, size: nat, h: seq<byte>)
    requires h == LeBytes(KindCode(kind), 2) + LeBytes(HEADER_SIZE, 2)
                  + LeBytes(st.pid, 4) + [0, 0, 0, 0] + LeBytes(st.sequence, 8) + LeBytes(st.time, 8)
                  + LeBytes(st.processCreateTime, 8) + LeBytes(size, 4) + [0, 0, 0, 0]
    ensures HeaderBytes(st, kind, flags, size) == LeBytes(WIRE_MAGIC, 2) + [WIRE_VERSION] + [flags] + h
  {
    var front := LeBytes(WIRE_MAGIC, 2) + [WIRE_VERSION] + [flags];
    Regroup9(front, LeBytes(KindCode(kind), 2), LeBytes(HEADER_SIZE, 2), LeBytes(st.pid, 4), [0, 0, 0, 0],
             LeBytes(st.sequence, 8), LeBytes(st.time, 8), LeBytes(st.processCreateTime, 8), LeBytes(size, 4),
             [0, 0, 0, 0]);
  }

  lemma Regroup9(front: seq<byte>, a: seq<byte>, b: seq<byte>, c: seq<byte>, d: seq<byte>, e: seq<byte>, f: seq<byte>,
                 g: seq<byte>, h: seq<byte>, i: seq<byte>)
    ensures front + a + b + c + d + e + f + g + h + i == front + (a + b + c + d + e + f + g + h + i)
  {
    Regroup7(front, a, b, c, d, e, f, g);
    Regroup2(front, a + b + c + d + e + f + g, h);
    Regroup2(front, a + b + c + d + e + f + g + h, i);
  }

  method PutIfAny(item: array<byte>, ghost front: seq<byte>, at: nat, bs: seq<byte>)
    requires Written(item, front) && at == |front| && at + |bs| <= item.Length
    modifies item
    ensures Written(item, front + bs)
  {
    if |bs| > 0 {
      Put(item, front, at, bs);
    }
    assert front + bs == if |bs| > 0 then front + bs else front;
  }

  lemma Regroup2(h: seq<byte>, a: seq<byte>, b: seq<byte>)
    ensures h + a + b == h + (a + b)
  {
  }

  lemma Regroup4(h: seq<byte>, a: seq<byte>, b: seq<byte>, c: seq<byte>, d: seq<byte>)
    ensures h + a + b + c + d == h + (a + b + c + d)
  {
    Regroup2(h, a, b);
    Regroup2(h, a + b, c);
    Regroup2(h, a + b + c, d);
  }

  lemma Regroup5(h: seq<byte>, a: seq<byte>, b: seq<byte>, c: seq<byte>, d: seq<byte>, e: seq<byte>)
    ensures h + a + b + c + d + e == h + (a + b + c + d + e)
  {
    Regroup4(h, a, b, c, d);
    Regroup2(h, a + b + c + d, e);
  }

  lemma Regroup6(h: seq<byte>, a: seq<byte>, b: seq<byte>, c: seq<byte>, d: seq<byte>, e: seq<byte>, f: seq<byte>)
    ensures h + a + b + c + d + e + f == h + (a + b + c + d + e + f)
  {
    Regroup5(h, a, b, c, d, e);
    Regroup2(h, a + b + c + d + e, f);
  }

  lemma Regroup7(h: seq<byte>, a: seq<byte>, b: seq<byte>, c: seq<byte>, d: seq<byte>,
                 e: seq<byte>, f: seq<byte>, g: seq<byte>)
    ensures h + a + b + c + d + e + f + g == h + (a + b + c + d + e + f + g)
  {
    Regroup6(h, a, b, c, d, e, f);
    Regroup2(h, a + b + c + d + e + f, g);
  }

  method FillProcessCreated(item: array<byte>, ghost header: seq<byte>, ev: Event, cmd: seq<byte>, image: seq<byte>)
    requires ev.ProcessCreatedEvent? && |header| == HEADER_SIZE && Written(item, header) && item.Length == SizeOf(ev)
    requires cmd == Copied(ev.commandLine, MAX_COMMAND_LINE_BYTES)
          && image == Copied(ev.imageName, MAX_IMAGE_NAME_BYTES)
    modifies item
    ensures item[..] == header + BodyBytes(ev)
  {
    var cmdOffset, imageOffset := if |cmd| > 0 then 60 else 0, if |image| > 0 then 60 + |cmd| else 0;
    Put(item, header, 48, LeBytes(ev.parent, 4));
    ghost var f1 := header + LeBytes(ev.parent, 4);
    PutExtent(item, f1, 52, cmdOffset, cmd, |cmd|);
    ghost var f2 := f1 + Extent(cmdOffset, cmd);
    PutExtent(item, f2, 56, imageOffset, image, |image|);
    ghost var f3 := f2 + Extent(imageOffset, image);
    PutIfAny(item, f3, 60, cmd);
    ghost var f4 := f3 + cmd;
    PutIfAny(item, f4, 60 + |cmd|, image);
    Regroup5(header, LeBytes(ev.parent, 4), Extent(cmdOffset, cmd), Extent(imageOffset, image), cmd, image);
  }

  method EmitProcessCreated(st: Stamp, ev: Event) returns (item: array<byte>)
    requires ev.ProcessCreatedEvent?
    ensures fresh(item) && item[..] == RecordBytes(st, ev)
  {
    var cmd, cmdCut := CopyName(ev.commandLine, MAX_COMMAND_LINE_BYTES);
    var image, imageCut := CopyName(ev.imageName, MAX_IMAGE_NAME_BYTES);
    item := StartRecord(st, ProcessCreated, 60 + |cmd| + |image|, cmdCut, TRUNC_CMDLINE, imageCut, TRUNC_IMAGE_NAME);
    FillProcessCreated(item, HeaderBytes(st, KindOf(ev), FlagsOf(ev), item.Length), ev, cmd, image);
  }

  method FillThread(item: array<byte>, ghost header: seq<byte>, ev: Event)
    requires ev.ThreadEvent? && |header| == HEADER_SIZE && Written(item, header) && item.Length == SizeOf(ev)
    modifies item
    ensures item[..] == header + BodyBytes(ev)
  {
    Put(item, header, 48, LeBytes(ev.threadId, 4));
  }

  method EmitThread(st: Stamp, ev: Event) returns (item: array<byte>)
    requires ev.ThreadEvent?
    ensures fresh(item) && item[..] == RecordBytes(st, ev)
  {
    item := AllocRecord(st, KindOf(ev), 52);
    FillThread(item, HeaderBytes(st, KindOf(ev), FlagsOf(ev), item.Length), ev);
  }

  method FillImageLoaded(item: array<byte>, ghost header: seq<byte>, ev: Event, name: seq<byte>)
    requires ev.ImageLoadedEvent? && |header| == HEADER_SIZE && Written(item, header) && item.Length == SizeOf(ev)
    requires name == Copied(ev.name, MAX_IMAGE_NAME_BYTES)
    modifies item
    ensures item[..] == header + BodyBytes(ev)
  {
    Put(item, header, 48, LeBytes(ev.base, 8));
    ghost var f1 := header + LeBytes(ev.base, 8);
    Put(item, f1, 56, LeBytes(ev.imageSize % 0x1_0000_0000, 4));
    ghost var f2 := f1 + LeBytes(ev.imageSize % 0x1_0000_0000, 4);
    PutExtent(item, f2, 60, 64, name, |name|);
    ghost var f3 := f2 + Extent(64, name);
    PutIfAny(item, f3, 64, name);
    Regroup4(header, LeBytes(ev.base, 8), LeBytes(ev.imageSize % 0x1_0000_0000, 4), Extent(64, name), name);
  }

  method EmitImageLoaded(st: Stamp, ev: Event) returns (item: array<byte>)
    requires ev.ImageLoadedEvent?
    ensures fresh(item) && item[..] == RecordBytes(st, ev)
  {
    var name, nameCut := CopyName(ev.name, MAX_IMAGE_NAME_BYTES);
    item := AllocRecord(st, ImageLoaded, 64 + |name|);
    RaiseFlag(item, nameCut, TRUNC_IMAGE_NAME, st, ImageLoaded, 0);
    FillImageLoaded(item, HeaderBytes(st, KindOf(ev), FlagsOf(ev), item.Length), ev, name);
  }

  method FillRegistryKey(item: array<byte>, ghost header: seq<byte>, ev: Event, path: seq<byte>)
    requires ev.RegistryKeyEvent? && |header| == HEADER_SIZE && Written(item, header) && item.Length == SizeOf(ev)
    requires path == Copied(ev.path, MAX_KEY_PATH_BYTES)
    modifies item
    ensures item[..] == header + BodyBytes(ev)
  {
    PutExtent(item, header, 48, 52, path, |path|);
    ghost var f1 := header + Extent(52, path);
    Put(item, f1, 52, path);
    Regroup2(header, Extent(52, path), path);
  }

  method EmitRegistryKey(st: Stamp, ev: Event) returns (item: array<byte>)
    requires ev.RegistryKeyEvent?
    ensures fresh(item) && item[..] == RecordBytes(st, ev)
  {
    var path, pathCut := CopyName(ev.path, MAX_KEY_PATH_BYTES);
    item := AllocRecord(st, KindOf(ev), 52 + |path|);
    RaiseFlag(item, pathCut, TRUNC_KEY_PATH, st, KindOf(ev), 0);
    FillRegistryKey(item, HeaderBytes(st, KindOf(ev), FlagsOf(ev), item.Length), ev, path);
  }

  /** A null data pointer leaves the data's place in the record zero. */
  method FillRegistryStrings(item: array<byte>, ghost front: seq<byte>, key: seq<byte>, value: seq<byte>,
                             data: seq<byte>, given: bool)
    requires Written(item, front) && |front| == 64 && item.Length == 64 + |key| + |value| + |data|
    requires !given ==> data == Zeros(|data|)
    modifies item
    ensures item[..] == front + key + value + data
  {
    Put(item, front, 64, key);
    Put(item, front + key, 64 + |key|, value);
    if |data| > 0 && given {
      Put(item, front + key + value, 64 + |key| + |value|, data);
    }
  }

  method FillRegistrySetValue(item: array<byte>, ghost header: seq<byte>, ev: Event,
                              key: seq<byte>, value: seq<byte>, data: seq<byte>, given: bool)
    requires ev.RegistrySetValueEvent? && |header| == HEADER_SIZE && Written(item, header) && item.Length == SizeOf(ev)
    requires key == Copied(ev.keyPath, MAX_KEY_PATH_BYTES) && value == Copied(ev.valueName, MAX_VALUE_NAME_BYTES)
    requires data == CopiedData(ev.data) && (!given ==> data == Zeros(|data|))
    modifies item
    ensures item[..] == header + BodyBytes(ev)
  {
    PutExtent(item, header, 48, 64, key, |key|);
    ghost var f1 := header + Extent(64, key);
    PutExtent(item, f1, 52, 64 + |key|, value, |value|);
    ghost var f2 := f1 + Extent(64 + |key|, value);
    Put(item, f2, 56, LeBytes(ev.dataType, 4));
    ghost var f3 := f2 + LeBytes(ev.dataType, 4);
    Put(item, f3, 60, LeBytes(|data|, 4));
    ghost var f4 := f3 + LeBytes(|data|, 4);
    FillRegistryStrings(item, f4, key, value, data, given);
    Regroup7(header, Extent(64, key), Extent(64 + |key|, value), LeBytes(ev.dataType, 4), LeBytes(|data|, 4), key,
          value, data);
  }

  /** The header with the three flags raised that apply. */
  method StartRegistrySetValue(st: Stamp, ev: Event, totalSize: nat, keyCut: bool, valueCut: bool)
      returns (item: array<byte>)
    requires ev.RegistrySetValueEvent? && HEADER_SIZE <= totalSize
    requires keyCut == Cut(ev.keyPath, MAX_KEY_PATH_BYTES) && valueCut == Cut(ev.valueName, MAX_VALUE_NAME_BYTES)
    ensures fresh(item) && item.Length == totalSize
    ensures Written(item, HeaderBytes(st, RegistrySetValue, FlagsOf(ev), totalSize))
  {
    item := StartRecord(st, RegistrySetValue, totalSize, keyCut, TRUNC_KEY_PATH, valueCut, TRUNC_VALUE_NAME);
    RaiseFlag(item, |ev.data| > MAX_VALUE_DATA_BYTES, TRUNC_DATA, st, RegistrySetValue,
              FlagIf(keyCut, TRUNC_KEY_PATH) + FlagIf(valueCut, TRUNC_VALUE_NAME));
  }

  /** `given` is whether the data pointer is there; a null one with a length stands for as
      many zero bytes. */
  method EmitRegistrySetValue(st: Stamp, ev: Event, given: bool) returns (item: array<byte>)
    requires ev.RegistrySetValueEvent? && (!given ==> ev.data == Zeros(|ev.data|))
    ensures fresh(item) && item[..] == RecordBytes(st, ev)
  {
    var key, keyCut := CopyName(ev.keyPath, MAX_KEY_PATH_BYTES);
    var value, valueCut := CopyName(ev.valueName, MAX_VALUE_NAME_BYTES);
    var data := ev.data[..if |ev.data| < MAX_VALUE_DATA_BYTES then |ev.data| else MAX_VALUE_DATA_BYTES];
    item := StartRegistrySetValue(st, ev, 64 + |key| + |value| + |data|, keyCut, valueCut);
    FillRegistrySetValue(item, HeaderBytes(st, KindOf(ev), FlagsOf(ev), item.Length), ev, key, value, data, given);
  }

  method FillFile(item: array<byte>, ghost header: seq<byte>, ev: Event, path: seq<byte>)
    requires ev.FileEvent? && |header| == HEADER_SIZE && Written(item, header) && item.Length == SizeOf(ev)
    requires path == Copied(ev.filePath, MAX_FILE_PATH_BYTES)
    modifies item
    ensures item[..] == header + BodyBytes(ev)
  {
    PutExtent(item, header, 48, 52, path, |path|);
    ghost var f1 := header + Extent(52, path);
    Put(item, f1, 52, path);
    Regroup2(header, Extent(52, path), path);
  }

  method EmitFile(st: Stamp, ev: Event) returns (item: array<byte>)
    requires ev.FileEvent?
    ensures fresh(item) && item[..] == RecordBytes(st, ev)
  {
    var path, pathCut := CopyName(ev.filePath, MAX_FILE_PATH_BYTES);
    item := AllocRecord(st, KindOf(ev), 52 + |path|);
    RaiseFlag(item, pathCut, TRUNC_FILE_PATH, st, KindOf(ev), 0);
    FillFile(item, HeaderBytes(st, KindOf(ev), FlagsOf(ev), item.Length), ev, path);
  }

  method FillFileWritten(item: array<byte>, ghost header: seq<byte>, ev: Event, path: seq<byte>)
    requires ev.FileWrittenEvent? && |header| == HEADER_SIZE && Written(item, header) && item.Length == SizeOf(ev)
    requires path == Copied(ev.writtenPath, MAX_FILE_PATH_BYTES)
    modifies item
    ensures item[..] == header + BodyBytes(ev)
  {
    Put(item, header, 48, LeBytes(ev.offset, 8));
    ghost var f1 := header + LeBytes(ev.offset, 8);
    Put(item, f1, 56, LeBytes(ev.count, 4));
    ghost var f2 := f1 + LeBytes(ev.count, 4);
    PutExtent(item, f2, 60, 64, path, |path|);
    ghost var f3 := f2 + Extent(64, path);
    Put(item, f3, 64, path);
    Regroup4(header, LeBytes(ev.offset, 8), LeBytes(ev.count, 4), Extent(64, path), path);
  }

  method EmitFileWritten(st: Stamp, ev: Event) returns (item: array<byte>)
    requires ev.FileWrittenEvent?
    ensures fresh(item) && item[..] == RecordBytes(st, ev)
  {
    var path, pathCut := CopyName(ev.writtenPath, MAX_FILE_PATH_BYTES);
    item := AllocRecord(st, FileWritten, 64 + |path|);
    RaiseFlag(item, pathCut, TRUNC_FILE_PATH, st, FileWritten, 0);
    FillFileWritten(item, HeaderBytes(st, KindOf(ev), FlagsOf(ev), item.Length), ev, path);
  }

  method FillFileRenamed(item: array<byte>, ghost header: seq<byte>, ev: Event, was: seq<byte>, now: seq<byte>)
    requires ev.FileRenamedEvent? && |header| == HEADER_SIZE && Written(item, header) && item.Length == SizeOf(ev)
    requires was == Copied(ev.oldPath, MAX_FILE_PATH_BYTES) && now == Copied(ev.newPath, MAX_FILE_PATH_BYTES)
    modifies item
    ensures item[..] == header + BodyBytes(ev)
  {
    PutExtent(item, header, 48, 56, was, |was|);
    ghost var f1 := header + Extent(56, was);
    PutExtent(item, f1, 52, 56 + |was|, now, |now|);
    ghost var f2 := f1 + Extent(56 + |was|, now);
    PutIfAny(item, f2, 56, was);
    ghost var f3 := f2 + was;
    Put(item, f3, 56 + |was|, now);
    Regroup4(header, Extent(56, was), Extent(56 + |was|, now), was, now);
  }

  method EmitFileRenamed(st: Stamp, ev: Event) returns (item: array<byte>)
    requires ev.FileRenamedEvent?
    ensures fresh(item) && item[..] == RecordBytes(st, ev)
  {
    var was, wasCut := CopyName(ev.oldPath, MAX_FILE_PATH_BYTES);
    var now, nowCut := CopyName(ev.newPath, MAX_FILE_PATH_BYTES);
    item := StartRecord(st, FileRenamed, 56 + |was| + |now|, wasCut, TRUNC_OLD_PATH, nowCut, TRUNC_NEW_PATH);
    FillFileRenamed(item, HeaderBytes(st, KindOf(ev), FlagsOf(ev), item.Length), ev, was, now);
  }

  method FillDropCaptured(item: array<byte>, ghost header: seq<byte>, ev: Event, path: seq<byte>, stored: seq<byte>)
    requires ev.DropCapturedEvent? && |header| == HEADER_SIZE && Written(item, header) && item.Length == SizeOf(ev)
    requires path == Copied(ev.original, MAX_FILE_PATH_BYTES) && stored == Copied(ev.stored, MAX_STORED_NAME_BYTES)
    modifies item
    ensures item[..] == header + BodyBytes(ev)
  {
    PutExtent(item, header, 48, 60, path, |path|);
    ghost var f1 := header + Extent(60, path);
    PutExtent(item, f1, 52, 60 + |path|, stored, |stored|);
    ghost var f2 := f1 + Extent(60 + |path|, stored);
    Put(item, f2, 56, LeBytes(ev.dropMethod, 4));
    ghost var f3 := f2 + LeBytes(ev.dropMethod, 4);
    Put(item, f3, 60, path);
    ghost var f4 := f3 + path;
    Put(item, f4, 60 + |path|, stored);
    Regroup5(header, Extent(60, path), Extent(60 + |path|, stored), LeBytes(ev.dropMethod, 4), path, stored);
  }

  method EmitDropCaptured(st: Stamp, ev: Event) returns (item: array<byte>)
    requires ev.DropCapturedEvent?
    ensures fresh(item) && item[..] == RecordBytes(st, ev)
  {
    var path, pathCut := CopyName(ev.original, MAX_FILE_PATH_BYTES);
    var stored, storedCut := CopyName(ev.stored, MAX_STORED_NAME_BYTES);
    item := StartRecord(st, DropCaptured, 60 + |path| + |stored|, pathCut, TRUNC_FILE_PATH, storedCut, TRUNC_NEW_PATH);
    FillDropCaptured(item, HeaderBytes(st, KindOf(ev), FlagsOf(ev), item.Length), ev, path, stored);
  }

  method FillBehaviorCall(item: array<byte>, ghost header: seq<byte>, ev: Event)
    requires ev.BehaviorCallEvent? && |header| == HEADER_SIZE && Written(item, header) && item.Length == SizeOf(ev)
    modifies item
    ensures item[..] == header + BodyBytes(ev)
  {
    Put(item, header, 48, LeBytes(ev.tid, 4));
    ghost var f1 := header + LeBytes(ev.tid, 4);
    Put(item, f1, 52, LeBytes(ev.api, 4));
    ghost var f2 := f1 + LeBytes(ev.api, 4);
    Put(item, f2, 56, LeBytes(ev.arg0, 8));
    ghost var f3 := f2 + LeBytes(ev.arg0, 8);
    Put(item, f3, 64, LeBytes(ev.arg1, 8));
    ghost var f4 := f3 + LeBytes(ev.arg1, 8);
    Put(item, f4, 72, LeBytes(ev.arg2, 8));
    ghost var f5 := f4 + LeBytes(ev.arg2, 8);
    Put(item, f5, 80, LeBytes(ev.arg3, 8));
    Regroup6(header, LeBytes(ev.tid, 4), LeBytes(ev.api, 4), LeBytes(ev.arg0, 8), LeBytes(ev.arg1, 8),
          LeBytes(ev.arg2, 8),
             LeBytes(ev.arg3, 8));
  }

  method EmitBehaviorCall(st: Stamp, ev: Event) returns (item: array<byte>)
    requires ev.BehaviorCallEvent?
    ensures fresh(item) && item[..] == RecordBytes(st, ev)
  {
    item := AllocRecord(st, BehaviorCall, 88);
    FillBehaviorCall(item, HeaderBytes(st, KindOf(ev), FlagsOf(ev), item.Length), ev);
  }

  method FillProtection(item: array<byte>, ghost header: seq<byte>, ev: Event)
    requires ev.ProtectionEventEvent? && |header| == HEADER_SIZE && Written(item, header) && item.Length == SizeOf(ev)
    modifies item
    ensures item[..] == header + BodyBytes(ev)
  {
    Put(item, header, 48, LeBytes(ev.protectedPid, 4));
    ghost var f1 := header + LeBytes(ev.protectedPid, 4);
    Put(item, f1, 52, [ev.targetIsThread]);
    ghost var f2 := f1 + [ev.targetIsThread];
    Skip(item, f2, 3);
    ghost var f3 := f2 + Zeros(3);
    Put(item, f3, 56, LeBytes(ev.protectedCreateTime, 8));
    ghost var f4 := f3 + LeBytes(ev.protectedCreateTime, 8);
    Put(item, f4, 64, LeBytes(ev.originalAccess, 8));
    ghost var f5 := f4 + LeBytes(ev.originalAccess, 8);
    Put(item, f5, 72, LeBytes(ev.strippedAccess, 8));
    assert Zeros(3) == [0, 0, 0];
    Regroup6(header, LeBytes(ev.protectedPid, 4), [ev.targetIsThread], Zeros(3), LeBytes(ev.protectedCreateTime, 8),
          LeBytes(ev.originalAccess, 8), LeBytes(ev.strippedAccess, 8));
  }

  method EmitProtection(st: Stamp, ev: Event) returns (item: array<byte>)
    requires ev.ProtectionEventEvent?
    ensures fresh(item) && item[..] == RecordBytes(st, ev)
  {
    item := AllocRecord(st, ProtectionEvent, 80);
    FillProtection(item, HeaderBytes(st, KindOf(ev), FlagsOf(ev), item.Length), ev);
  }

  method EmitProcessExited(st: Stamp) returns (item: array<byte>)
    ensures fresh(item) && item[..] == RecordBytes(st, ProcessExitedEvent)
  {
    item := AllocRecord(st, ProcessExited, 48);
  }

  /** Any notification's record. */
  method BuildRecord(st: Stamp, ev: Event) returns (item: array<byte>)
    ensures fresh(item) && item[..] == RecordBytes(st, ev)
  {
    match ev
    case ProcessCreatedEvent(_, _, _) => item := EmitProcessCreated(st, ev);
    case ProcessExitedEvent => item := EmitProcessExited(st);
    case ThreadEvent(_, _) => item := EmitThread(st, ev);
    case ImageLoadedEvent(_, _, _) => item := EmitImageLoaded(st, ev);
    case RegistryKeyEvent(_, _) => item := EmitRegistryKey(st, ev);
    case RegistrySetValueEvent(_, _, _, _) => item := EmitRegistrySetValue(st, ev, true);
    case FileEvent(_, _) => item := EmitFile(st, ev);
    case FileWrittenEvent(_, _, _) => item := EmitFileWritten(st, ev);
    case FileRenamedEvent(_, _) => item := EmitFileRenamed(st, ev);
    case DropCapturedEvent(_, _, _) => item := EmitDropCaptured(st, ev);
    case BehaviorCallEvent(_, _, _, _, _, _) => item := EmitBehaviorCall(st, ev);
    case ProtectionEventEvent(_, _, _, _, _) => item := EmitProtection(st, ev);
  }
}
