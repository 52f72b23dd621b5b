/** Each notification on the wire and after decoding, by literal codes, flags and caps
    (driver/secoutfall/secoutfallCommon.h). */
module WireTable {
  import opened Wrappers
  import opened Wire
  import opened Decoder
  import opened RoundTrip

  /** The record type of each notification. */
  function CodeFor(ev: Event): nat {
    match ev
    case ProcessCreatedEvent(_, _, _) => 1
    case ProcessExitedEvent => 2
    case ThreadEvent(created, _) => if created then 3 else 4
    case ImageLoadedEvent(_, _, _) => 5
    case RegistryKeyEvent(created, _) => if created then 6 else 7
    case RegistrySetValueEvent(_, _, _, _) => 8
    case FileEvent(change, _) => (match change case Created => 9 case CleanedUp => 11 case Deleted => 12)
    case FileWrittenEvent(_, _, _) => 10
    case FileRenamedEvent(_, _) => 13
    case DropCapturedEvent(_, _, _) => 14
    case BehaviorCallEvent(_, _, _, _, _, _) => 15
    case ProtectionEventEvent(_, _, _, _, _) => 16
  }

  /** A string that a copy of at most `cap` bytes in whole units does not hold. */
  predicate TooLong(src: Option<Text>, cap: nat) {
    src.Some? && (|src.value| > cap || |src.value| % 2 == 1)
  }

  function Bit(raised: bool, bit: nat): nat {
    if raised then bit else 0
  }

  /** The truncation flags of each notification. */
  function FlagsFor(ev: Event): nat {
    match ev
    case ProcessCreatedEvent(_, cmd, image) => Bit(TooLong(cmd, 8192), 1) + Bit(TooLong(image, 1024), 16)
    case ImageLoadedEvent(_, _, name) => Bit(TooLong(name, 1024), 16)
    case RegistryKeyEvent(_, path) => Bit(TooLong(path, 1024), 2)
    case RegistrySetValueEvent(key, value, _, data) =>
      Bit(TooLong(key, 1024), 2) + Bit(TooLong(value, 512), 4) + Bit(|data| > 128, 8)
    case FileEvent(_, path) => Bit(TooLong(path, 1024), 32)
    case FileWrittenEvent(_, _, path) => Bit(TooLong(path, 1024), 32)
    case FileRenamedEvent(was, now) => Bit(TooLong(was, 1024), 64) + Bit(TooLong(now, 1024), 128)
    case DropCapturedEvent(path, stored, _) => Bit(TooLong(path, 1024), 32) + Bit(TooLong(stored, 128), 128)
    case _ => 0
  }

  /** The longest run of whole units of the source that the cap allows. */
  predicate Kept(units: seq<u16>, src: Option<Text>, cap: nat) {
    if src.None? then units == []
    else
      && 2 * |units| <= |src.value| && 2 * |units| <= cap
      && (2 * |units| + 2 > |src.value| || 2 * |units| + 2 > cap)
      && forall i :: 0 <= i < |units| ==> IsUnit(units[i], src.value[2 * i], src.value[2 * i + 1])
  }

  predicate IsUnit(unit: nat, lo: nat, hi: nat) {
    unit == lo + 256 * hi
  }

  predicate OptionallyKept(units: Option<seq<u16>>, src: Option<Text>, cap: nat) {
    (units.Some? ==> units.value != []) && Kept(if units.Some? then units.value else [], src, cap)
  }

  /** The record kind and payload that tell of a notification. */
  predicate Tells(ev: Event, kind: RecordKind, p: Payload) {
    match ev
    case ProcessCreatedEvent(parent, cmd, image) =>
      kind == ProcessCreated && p.ProcessCreatedData? && p.parentPid == parent
      && OptionallyKept(p.commandLine, cmd, 8192) && OptionallyKept(p.imageName, image, 1024)
    case ProcessExitedEvent => kind == ProcessExited && p == ProcessExitedData
    case ThreadEvent(created, tid) =>
      (created ==> kind == ThreadCreated) && (!created ==> kind == ThreadExited) && p == ThreadData(tid)
    case ImageLoadedEvent(base, size, name) =>
      kind == ImageLoaded && p.ImageLoadedData? && p.base == base && p.size == size % 0x1_0000_0000
      && OptionallyKept(p.name, name, 1024)
    case RegistryKeyEvent(true, path) =>
      kind == RegistryKeyCreated && p.RegistryKeyCreatedData? && Kept(p.keyPath, path, 1024)
    case RegistryKeyEvent(false, path) =>
      kind == RegistryKeyDeleted && p.RegistryKeyDeletedData? && Kept(p.deletedPath, path, 1024)
    case RegistrySetValueEvent(key, value, dataType, data) =>
      kind == RegistrySetValue && p.RegistrySetValueData? && p.dataType == dataType
      && Kept(p.setPath, key, 1024) && Kept(p.valueName, value, 512)
      && p.data == data[..if |data| < 128 then |data| else 128]
    case FileEvent(Created, path) => kind == FileCreated && p.FileCreatedData? && Kept(p.createdPath, path, 1024)
    case FileEvent(CleanedUp, path) => kind == FileCleanedUp && p.FileCleanedUpData? && Kept(p.cleanedPath, path, 1024)
    case FileEvent(Deleted, path) => kind == FileDeleted && p.FileDeletedData? && Kept(p.removedPath, path, 1024)
    case FileWrittenEvent(offset, count, path) =>
      kind == FileWritten && p.FileWrittenData? && p.offset == offset && p.bytes == count
      && Kept(p.writtenPath, path, 1024)
    case FileRenamedEvent(was, now) =>
      kind == FileRenamed && p.FileRenamedData? && Kept(p.oldPath, was, 1024) && Kept(p.newPath, now, 1024)
    case DropCapturedEvent(path, stored, m) =>
      kind == DropCaptured && p.DropCapturedData? && p.dropMethod == m
      && Kept(p.path, path, 1024) && Kept(p.storedName, stored, 128)
    case BehaviorCallEvent(tid, api, a0, a1, a2, a3) =>
      kind == BehaviorCall && p == BehaviorCallData(tid, api, a0, a1, a2, a3)
    case ProtectionEventEvent(pid, isThread, created, original, stripped) =>
      kind == ProtectionEvent && p == ProtectionEventData(pid, created, isThread != 0, original, stripped)
  }

  // ---- The emitters' side

  lemma CodeIsKind(ev: Event)
    ensures KindCode(KindOf(ev)) == CodeFor(ev)
  {
  }

  lemma CutIsTooLong(src: Option<Text>, cap: nat)
    requires cap % 2 == 0
    ensures Cut(src, cap) <==> TooLong(src, cap)
  {
  }

  lemma FlagsAreThese(ev: Event)
    ensures FlagsOf(ev) == FlagsFor(ev)
  {
    match ev
    case ProcessCreatedEvent(_, cmd, image) =>
      CutIsTooLong(cmd, 8192);
      CutIsTooLong(image, 1024);
    case ImageLoadedEvent(_, _, name) => CutIsTooLong(name, 1024);
    case RegistryKeyEvent(_, path) => CutIsTooLong(path, 1024);
    case RegistrySetValueEvent(key, value, _, _) =>
      CutIsTooLong(key, 1024);
      CutIsTooLong(value, 512);
    case FileEvent(_, path) => CutIsTooLong(path, 1024);
    case FileWrittenEvent(_, _, path) => CutIsTooLong(path, 1024);
    case FileRenamedEvent(was, now) =>
      CutIsTooLong(was, 1024);
      CutIsTooLong(now, 1024);
    case DropCapturedEvent(path, stored, _) =>
      CutIsTooLong(path, 1024);
      CutIsTooLong(stored, 128);
    case _ =>
  }

  lemma CopyIsKept(src: Option<Text>, cap: nat)
    requires cap % 2 == 0
    ensures Kept(Units(src, cap), src, cap) && OptionallyKept(OptionalUnits(src, cap), src, cap)
  {
    if src.Some? {
      var copy := Copied(src, cap);
      forall i | 0 <= i < |UnitsOf(copy)|
        ensures IsUnit(UnitsOf(copy)[i], src.value[2 * i], src.value[2 * i + 1])
      {
        assert UnitsOf(copy)[i] == Unit(copy[2 * i], copy[2 * i + 1]);
      }
    }
  }

  lemma PayloadTells(ev: Event)
    ensures Tells(ev, KindOf(ev), PayloadFor(ev))
  {
    match ev
    case ProcessCreatedEvent(_, cmd, image) =>
      CopyIsKept(cmd, 8192);
      CopyIsKept(image, 1024);
    case ImageLoadedEvent(_, _, name) => CopyIsKept(name, 1024);
    case RegistryKeyEvent(_, path) => CopyIsKept(path, 1024);
    case RegistrySetValueEvent(key, value, _, _) =>
      CopyIsKept(key, 1024);
      CopyIsKept(value, 512);
    case FileEvent(_, path) => CopyIsKept(path, 1024);
    case FileWrittenEvent(_, _, path) => CopyIsKept(path, 1024);
    case FileRenamedEvent(was, now) =>
      CopyIsKept(was, 1024);
      CopyIsKept(now, 1024);
    case DropCapturedEvent(path, stored, _) =>
      CopyIsKept(path, 1024);
      CopyIsKept(stored, 128);
    case _ =>
  }

  /** Every record's type code and flags stand at bytes 4, 5 and 3, and whatever follows it
      the decoder finds the kind and the payload that tell of its notification. */
  lemma EventIsTold(st: Stamp, ev: Event, rest: seq<byte>)
    ensures var record := RecordBytes(st, ev);
            && |record| >= 48 && IsUnit(CodeFor(ev), record[4], record[5]) && record[3] == FlagsFor(ev)
            && var d := Decode(record + rest);
               d.Ok? && Tells(ev, d.value.kind, d.value.payload) && d.value.truncFlags == FlagsFor(ev)
               && d.value.pid == st.pid && d.value.sequence == st.sequence && d.value.time == st.time
               && d.value.processCreateTime == st.processCreateTime
  {
    FlagsAreThese(ev);
    PayloadTells(ev);
    DecodeUndoesEmit(st, ev, rest);
    CodeBytes(st, ev);
  }

  lemma CodeBytes(st: Stamp, ev: Event)
    ensures var record := RecordBytes(st, ev);
            |record| >= 48 && record[3] == FlagsOf(ev) && IsUnit(CodeFor(ev), record[4], record[5])
  {
    var record := RecordBytes(st, ev);
    var header := HeaderBytes(st, KindOf(ev), FlagsOf(ev), SizeOf(ev));
    HeaderThenBody(header, BodyBytes(ev), []);
    RecordsFit(ev);
    CodeIsKind(ev);
    assert At(record, 0, header) by {
      assert record + [] == record;
    }
    ReadHeader(record, st, KindOf(ev), FlagsOf(ev), SizeOf(ev));
    CodeRead(record, CodeFor(ev));
  }

  lemma CodeRead(record: seq<byte>, code: nat)
    requires |record| >= 48 && ReadLe(record, 4, 2) == Ok(code)
    ensures IsUnit(code, record[4], record[5])
  {
    assert ReadLe(record, 6, 0) == Ok(0);
    assert ReadLe(record, 5, 1) == Ok(record[5]);
  }

  // ---- Back from the record to the notification

  /** As much of two strings as the cap lets through is the same. */
  ghost predicate SameText(a: Option<Text>, b: Option<Text>, cap: nat) {
    exists units :: Kept(units, a, cap) && Kept(units, b, cap)
  }

  /** Two notifications that differ only in what records leave out. */
  ghost predicate SameNotification(a: Event, b: Event) {
    match (a, b)
    case (ProcessCreatedEvent(p, c, i), ProcessCreatedEvent(p', c', i')) =>
      p == p' && SameText(c, c', 8192) && SameText(i, i', 1024)
    case (ProcessExitedEvent, ProcessExitedEvent) => true
    case (ThreadEvent(c, t), ThreadEvent(c', t')) => c == c' && t == t'
    case (ImageLoadedEvent(b, s, n), ImageLoadedEvent(b', s', n')) =>
      b == b' && s % 0x1_0000_0000 == s' % 0x1_0000_0000 && SameText(n, n', 1024)
    case (RegistryKeyEvent(c, p), RegistryKeyEvent(c', p')) => c == c' && SameText(p, p', 1024)
    case (RegistrySetValueEvent(k, v, t, d), RegistrySetValueEvent(k', v', t', d')) =>
      SameText(k, k', 1024) && SameText(v, v', 512) && t == t'
      && d[..if |d| < 128 then |d| else 128] == d'[..if |d'| < 128 then |d'| else 128]
    case (FileEvent(c, p), FileEvent(c', p')) => c == c' && SameText(p, p', 1024)
    case (FileWrittenEvent(o, n, p), FileWrittenEvent(o', n', p')) => o == o' && n == n' && SameText(p, p', 1024)
    case (FileRenamedEvent(o, n), FileRenamedEvent(o', n')) => SameText(o, o', 1024) && SameText(n, n', 1024)
    case (DropCapturedEvent(p, s, m), DropCapturedEvent(p', s', m')) =>
      SameText(p, p', 1024) && SameText(s, s', 128) && m == m'
    case (BehaviorCallEvent(_, _, _, _, _, _), BehaviorCallEvent(_, _, _, _, _, _)) => a == b
    case (ProtectionEventEvent(p, t, c, o, s), ProtectionEventEvent(p', t', c', o', s')) =>
      p == p' && (t == 0 <==> t' == 0) && c == c' && o == o' && s == s'
    case _ => false
  }

  lemma TellsOne(a: Event, b: Event, kind: RecordKind, p: Payload)
    requires Tells(a, kind, p) && Tells(b, kind, p)
    ensures SameNotification(a, b)
  {
  }

  /** Records that decode to the same kind and payload come from the same notification, up
      to what the caps leave out. */
  lemma RecordDeterminesEvent(st: Stamp, a: Event, rest: seq<byte>, st': Stamp, b: Event, rest': seq<byte>)
    ensures var r, r' := Decode(RecordBytes(st, a) + rest), Decode(RecordBytes(st', b) + rest');
            r.Ok? && r'.Ok?
            && (r.value.kind == r'.value.kind && r.value.payload == r'.value.payload ==> SameNotification(a, b))
  {
    EventIsTold(st, a, rest);
    EventIsTold(st', b, rest');
    var r, r' := Decode(RecordBytes(st, a) + rest), Decode(RecordBytes(st', b) + rest');
    if r.value.kind == r'.value.kind && r.value.payload == r'.value.payload {
      TellsOne(a, b, r.value.kind, r.value.payload);
    }
  }
}
