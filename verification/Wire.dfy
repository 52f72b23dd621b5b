/** The driver's wire format, version 2 (driver/secoutfall/secoutfallCommon.h): byte
    layout of every record, as the emitters of driver/secoutfall/secoutfall.cpp fill it.
    `RecordBytes` is the specification both sides are held to: the builders of `Emitters`
    write it, the decoder of `Decoder` reads it back. */
module Wire {
  import opened Wrappers

  type byte = b: nat | b < 0x100
  type u16 = n: nat | n < 0x1_0000
  type u32 = n: nat | n < 0x1_0000_0000
  type u64 = n: nat | n < 0x1_0000_0000_0000_0000

  const WIRE_MAGIC: u16 := 0x5346
  const WIRE_VERSION: byte := 2
  const HEADER_SIZE: nat := 48

  const TRUNC_CMDLINE: byte := 0x01
  const TRUNC_KEY_PATH: byte := 0x02
  const TRUNC_VALUE_NAME: byte := 0x04
  const TRUNC_DATA: byte := 0x08
  const TRUNC_IMAGE_NAME: byte := 0x10
  const TRUNC_FILE_PATH: byte := 0x20
  const TRUNC_OLD_PATH: byte := 0x40
  const TRUNC_NEW_PATH: byte := 0x80

  const MAX_COMMAND_LINE_BYTES: nat := 8192
  const MAX_KEY_PATH_BYTES: nat := 1024
  const MAX_VALUE_NAME_BYTES: nat := 512
  const MAX_IMAGE_NAME_BYTES: nat := 1024
  const MAX_FILE_PATH_BYTES: nat := 1024
  const MAX_VALUE_DATA_BYTES: nat := 128
  const MAX_STORED_NAME_BYTES: nat := 128

  /** SECOUTFALL_MAX_RECORD_BYTES: the fixed ProcessCreated part and its two strings. */
  const MAX_RECORD_BYTES: nat := 60 + MAX_COMMAND_LINE_BYTES + MAX_IMAGE_NAME_BYTES

  datatype RecordKind =
    | ProcessCreated | ProcessExited | ThreadCreated | ThreadExited | ImageLoaded
    | RegistryKeyCreated | RegistryKeyDeleted | RegistrySetValue
    | FileCreated | FileWritten | FileCleanedUp | FileDeleted | FileRenamed
    | DropCaptured | BehaviorCall | ProtectionEvent

  function KindCode(k: RecordKind): u16 {
    match k
    case ProcessCreated => 1 case ProcessExited => 2 case ThreadCreated => 3 case ThreadExited => 4
    case ImageLoaded => 5 case RegistryKeyCreated => 6 case RegistryKeyDeleted => 7
    case RegistrySetValue => 8 case FileCreated => 9 case FileWritten => 10 case FileCleanedUp => 11
    case FileDeleted => 12 case FileRenamed => 13 case DropCaptured => 14 case BehaviorCall => 15
    case ProtectionEvent => 16
  }

  // ---- Little-endian integers

  function Pow256(n: nat): (p: nat)
    ensures p > 0
  {
    if n == 0 then 1 else 256 * Pow256(n - 1)
  }

  function LeBytes(v: nat, n: nat): (bs: seq<byte>)
    ensures |bs| == n
    decreases n, v
  {
    if n == 0 then [] else [v % 256] + LeBytes(v / 256, n - 1)
  }

  function LeValue(bs: seq<byte>): nat {
    if bs == [] then 0 else bs[0] + 256 * LeValue(bs[1..])
  }

  lemma {:induction false} LeRoundTrip(v: nat, n: nat)
    requires v < Pow256(n)
    ensures LeValue(LeBytes(v, n)) == v
    decreases n
  {
    if n > 0 {
      LeRoundTrip(v / 256, n - 1);
      assert LeBytes(v, n)[1..] == LeBytes(v / 256, n - 1);
    }
  }

  lemma Pow256Values()
    ensures Pow256(1) == 0x100 && Pow256(2) == 0x1_0000 && Pow256(4) == 0x1_0000_0000
    ensures Pow256(8) == 0x1_0000_0000_0000_0000
  {
    assert Pow256(3) == 0x100_0000 && Pow256(5) == 0x100_0000_0000;
    assert Pow256(6) == 0x1_0000_0000_0000 && Pow256(7) == 0x100_0000_0000_0000;
  }

  // ---- Strings

  /** A counted UNICODE_STRING's bytes: the length is a 16-bit byte count, even or odd. */
  type Text = s: seq<byte> | |s| < 0x1_0000

  /** CopyNameW: at most `cap` bytes, whole 16-bit units only. */
  function Copied(src: Option<Text>, cap: nat): (bs: seq<byte>)
    requires cap % 2 == 0
    ensures |bs| % 2 == 0 && |bs| <= cap
  {
    if src.None? then []
    else
      var n := if |src.value| < cap then |src.value| else cap;
      src.value[..n - n % 2]
  }

  /** CopyNameW's truncation report. */
  predicate Cut(src: Option<Text>, cap: nat)
    requires cap % 2 == 0
  {
    src.Some? && |Copied(src, cap)| < |src.value|
  }

  function Unit(lo: byte, hi: byte): u16 {
    var l: nat, h: nat := lo, hi;
    l + 256 * h
  }

  function UnitsOf(bs: seq<byte>): (units: seq<u16>)
    requires |bs| % 2 == 0
  {
    seq(|bs| / 2, i requires 0 <= i < |bs| / 2 => Unit(bs[2 * i], bs[2 * i + 1]))
  }

  function UnitBytes(units: seq<u16>): (bs: seq<byte>) {
    seq(2 * |units|, i requires 0 <= i < 2 * |units| => if i % 2 == 0 then units[i / 2] % 256 else units[i / 2] / 256)
  }

  lemma UnitsRoundTrip(bs: seq<byte>)
    requires |bs| % 2 == 0
    ensures UnitBytes(UnitsOf(bs)) == bs
  {
    forall i | 0 <= i < |bs|
      ensures UnitBytes(UnitsOf(bs))[i] == bs[i]
    {
      var k := i / 2;
      assert UnitsOf(bs)[k] == Unit(bs[2 * k], bs[2 * k + 1]);
    }
  }

  // ---- What the emitters are given

  /** One notification, with the arguments its emitter sees. Absent strings are null
      UNICODE_STRING pointers or buffers. */
  datatype Event =
    | ProcessCreatedEvent(parent: u32, commandLine: Option<Text>, imageName: Option<Text>)
    | ProcessExitedEvent
    | ThreadEvent(created: bool, threadId: u32)
    | ImageLoadedEvent(base: u64, imageSize: u64, name: Option<Text>)
    | RegistryKeyEvent(keyCreated: bool, path: Option<Text>)
    | RegistrySetValueEvent(keyPath: Option<Text>, valueName: Option<Text>, dataType: u32, data: seq<byte>)
    | FileEvent(change: FileChange, filePath: Option<Text>)
    | FileWrittenEvent(offset: u64, count: u32, writtenPath: Option<Text>)
    | FileRenamedEvent(oldPath: Option<Text>, newPath: Option<Text>)
    | DropCapturedEvent(original: Option<Text>, stored: Option<Text>, dropMethod: u32)
    | BehaviorCallEvent(tid: u32, api: u32, arg0: u64, arg1: u64, arg2: u64, arg3: u64)
    | ProtectionEventEvent(protectedPid: u32, targetIsThread: byte, protectedCreateTime: u64,
                           originalAccess: u64, strippedAccess: u64)

  datatype FileChange = Created | CleanedUp | Deleted

  function KindOf(ev: Event): RecordKind {
    match ev
    case ProcessCreatedEvent(_, _, _) => ProcessCreated
    case ProcessExitedEvent => ProcessExited
    case ThreadEvent(created, _) => if created then ThreadCreated else ThreadExited
    case ImageLoadedEvent(_, _, _) => ImageLoaded
    case RegistryKeyEvent(created, _) => if created then RegistryKeyCreated else RegistryKeyDeleted
    case RegistrySetValueEvent(_, _, _, _) => RegistrySetValue
    case FileEvent(Created, _) => FileCreated
    case FileEvent(CleanedUp, _) => FileCleanedUp
    case FileEvent(Deleted, _) => FileDeleted
    case FileWrittenEvent(_, _, _) => FileWritten
    case FileRenamedEvent(_, _) => FileRenamed
    case DropCapturedEvent(_, _, _) => DropCaptured
    case BehaviorCallEvent(_, _, _, _, _, _) => BehaviorCall
    case ProtectionEventEvent(_, _, _, _, _) => ProtectionEvent
  }

  /** The header fields that do not depend on the event. */
  datatype Stamp = Stamp(pid: u32, sequence: u64, time: u64, processCreateTime: u64)

  function FlagIf(cut: bool, flag: byte): byte {
    if cut then flag else 0
  }

  function FlagsOf(ev: Event): byte {
    match ev
    case ProcessCreatedEvent(_, cmd, image) =>
      FlagIf(Cut(cmd, MAX_COMMAND_LINE_BYTES), TRUNC_CMDLINE)
            + FlagIf(Cut(image, MAX_IMAGE_NAME_BYTES), TRUNC_IMAGE_NAME)
    case ImageLoadedEvent(_, _, name) => FlagIf(Cut(name, MAX_IMAGE_NAME_BYTES), TRUNC_IMAGE_NAME)
    case RegistryKeyEvent(_, path) => FlagIf(Cut(path, MAX_KEY_PATH_BYTES), TRUNC_KEY_PATH)
    case RegistrySetValueEvent(key, value, _, data) =>
      FlagIf(Cut(key, MAX_KEY_PATH_BYTES), TRUNC_KEY_PATH) + FlagIf(Cut(value, MAX_VALUE_NAME_BYTES), TRUNC_VALUE_NAME)
      + FlagIf(|data| > MAX_VALUE_DATA_BYTES, TRUNC_DATA)
    case FileEvent(_, path) => FlagIf(Cut(path, MAX_FILE_PATH_BYTES), TRUNC_FILE_PATH)
    case FileWrittenEvent(_, _, path) => FlagIf(Cut(path, MAX_FILE_PATH_BYTES), TRUNC_FILE_PATH)
    case FileRenamedEvent(was, now) =>
      FlagIf(Cut(was, MAX_FILE_PATH_BYTES), TRUNC_OLD_PATH) + FlagIf(Cut(now, MAX_FILE_PATH_BYTES), TRUNC_NEW_PATH)
    case DropCapturedEvent(path, stored, _) =>
      FlagIf(Cut(path, MAX_FILE_PATH_BYTES), TRUNC_FILE_PATH)
            + FlagIf(Cut(stored, MAX_STORED_NAME_BYTES), TRUNC_NEW_PATH)
    case _ => 0
  }

  function CopiedData(data: seq<byte>): (bs: seq<byte>)
    ensures |bs| <= MAX_VALUE_DATA_BYTES
  {
    if |data| > MAX_VALUE_DATA_BYTES then data[..MAX_VALUE_DATA_BYTES] else data
  }

  // ---- Record bytes

  function HeaderBytes(st: Stamp, kind: RecordKind, flags: byte, size: nat): (bs: seq<byte>)
    ensures |bs| == HEADER_SIZE
  {
    LeBytes(WIRE_MAGIC, 2) + [WIRE_VERSION] + [flags] + LeBytes(KindCode(kind), 2) + LeBytes(HEADER_SIZE, 2)
    + LeBytes(st.pid, 4) + [0, 0, 0, 0] + LeBytes(st.sequence, 8) + LeBytes(st.time, 8)
    + LeBytes(st.processCreateTime, 8) + LeBytes(size, 4) + [0, 0, 0, 0]
  }

  /** A 16-bit offset and a 16-bit length. */
  function Extent(offset: nat, bs: seq<byte>): (r: seq<byte>)
    ensures |r| == 4
  {
    LeBytes(offset, 2) + LeBytes(|bs|, 2)
  }

  /** Everything after the header. */
  function BodyBytes(ev: Event): seq<byte> {
    match ev
    case ProcessCreatedEvent(parent, cmd, image) =>
      var c, i := Copied(cmd, MAX_COMMAND_LINE_BYTES), Copied(image, MAX_IMAGE_NAME_BYTES);
      LeBytes(parent, 4) + Extent(if c == [] then 0 else 60, c) + Extent(if i == [] then 0 else 60 + |c|, i) + c + i
    case ProcessExitedEvent => []
    case ThreadEvent(_, tid) => LeBytes(tid, 4)
    case ImageLoadedEvent(base, imageSize, name) =>
      var n := Copied(name, MAX_IMAGE_NAME_BYTES);
      LeBytes(base, 8) + LeBytes(imageSize % 0x1_0000_0000, 4) + Extent(64, n) + n
    case RegistryKeyEvent(_, path) =>
      var p := Copied(path, MAX_KEY_PATH_BYTES);
      Extent(52, p) + p
    case RegistrySetValueEvent(key, value, dataType, data) =>
      var k, v, d := Copied(key, MAX_KEY_PATH_BYTES), Copied(value, MAX_VALUE_NAME_BYTES), CopiedData(data);
      Extent(64, k) + Extent(64 + |k|, v) + LeBytes(dataType, 4) + LeBytes(|d|, 4) + k + v + d
    case FileEvent(_, path) =>
      var p := Copied(path, MAX_FILE_PATH_BYTES);
      Extent(52, p) + p
    case FileWrittenEvent(offset, count, path) =>
      var p := Copied(path, MAX_FILE_PATH_BYTES);
      LeBytes(offset, 8) + LeBytes(count, 4) + Extent(64, p) + p
    case FileRenamedEvent(was, now) =>
      var o, n := Copied(was, MAX_FILE_PATH_BYTES), Copied(now, MAX_FILE_PATH_BYTES);
      Extent(56, o) + Extent(56 + |o|, n) + o + n
    case DropCapturedEvent(path, stored, m) =>
      var p, s := Copied(path, MAX_FILE_PATH_BYTES), Copied(stored, MAX_STORED_NAME_BYTES);
      Extent(60, p) + Extent(60 + |p|, s) + LeBytes(m, 4) + p + s
    case BehaviorCallEvent(tid, api, a0, a1, a2, a3) =>
      LeBytes(tid, 4) + LeBytes(api, 4) + LeBytes(a0, 8) + LeBytes(a1, 8) + LeBytes(a2, 8) + LeBytes(a3, 8)
    case ProtectionEventEvent(pid, isThread, created, original, stripped) =>
      LeBytes(pid, 4) + [isThread] + [0, 0, 0] + LeBytes(created, 8) + LeBytes(original, 8) + LeBytes(stripped, 8)
  }

  function SizeOf(ev: Event): nat {
    HEADER_SIZE + |BodyBytes(ev)|
  }

  function RecordBytes(st: Stamp, ev: Event): (bs: seq<byte>)
    ensures |bs| == SizeOf(ev)
  {
    HeaderBytes(st, KindOf(ev), FlagsOf(ev), SizeOf(ev)) + BodyBytes(ev)
  }

  /** No emitter's record exceeds the bound GET_DATA's size guard is built on. */
  lemma RecordsFit(ev: Event)
    ensures HEADER_SIZE <= SizeOf(ev) <= MAX_RECORD_BYTES
  {
    match ev
    case ProcessCreatedEvent(_, _, _) =>
    case _ =>
  }
}
