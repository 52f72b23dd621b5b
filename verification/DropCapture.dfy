/** Drop capture (driver/secoutfall/secoutfall.cpp): one stream's context under any
    interleaving of writes, cleanups and driver copies, with how many records it can
    yield and when, and the names captured files are stored under, which differ as long
    as the counter has not come round. */
module DropCapture {
  import opened Wrappers

  // ---- Stored names

  type Unit = u: nat | u < 0x1_0000

  const NAME_UNITS: nat := 64
  const U32_RANGE: nat := 0x1_0000_0000
  const DROP_PREFIX: seq<Unit> := ['d' as int, 'r' as int, 'o' as int, 'p' as int, '-' as int]
  const DOT: Unit := '.' as int

  function HexDigit(d: nat): Unit
    requires d < 16
  {
    if d < 10 then '0' as int + d else 'a' as int + d - 10
  }

  function Digits(n: nat, count: nat): (r: seq<Unit>)
    ensures |r| == count
    decreases count
  {
    if count == 0 then [] else Digits(n / 16, count - 1) + [HexDigit(n % 16)]
  }

  function Pow16(k: nat): (p: nat)
    ensures p > 0
  {
    if k == 0 then 1 else 16 * Pow16(k - 1)
  }

  /** The path's last dot, or its length. */
  function LastDot(path: seq<Unit>): (d: nat)
    ensures d <= |path|
    decreases |path|
  {
    if path == [] then 0
    else if path[|path| - 1] == DOT then |path| - 1
    else
      var d := LastDot(path[..|path| - 1]);
      if d == |path| - 1 then |path| else d
  }

  /** The ordinal is what the increment returned; only its low 32 bits are written. */
  function StoredName(ordinal: nat, path: seq<Unit>): (r: seq<Unit>)
    ensures 13 <= |r| <= NAME_UNITS
  {
    var full := DROP_PREFIX + Digits(ordinal % U32_RANGE, 8) + path[LastDot(path)..];
    if |full| > NAME_UNITS then full[..NAME_UNITS] else full
  }

  lemma DigitStep(n: nat, k: nat)
    requires k < 8
    ensures n / Pow16(k) / 16 == n / Pow16(k + 1)
  {
    assert Pow16(0) == 1 && Pow16(1) == 16 && Pow16(2) == 0x100 && Pow16(3) == 0x1000;
    assert Pow16(4) == 0x1_0000 && Pow16(5) == 0x10_0000 && Pow16(6) == 0x100_0000;
    assert Pow16(7) == 0x1000_0000 && Pow16(8) == 0x1_0000_0000;
    if k == 0 {} else if k == 1 {} else if k == 2 {} else if k == 3 {}
    else if k == 4 {} else if k == 5 {} else if k == 6 {} else {}
  }

  method WriteDigits(counter: nat, buffer: array<Unit>, at: nat)
    requires counter < U32_RANGE && at + 8 <= buffer.Length
    modifies buffer
    ensures buffer[..at + 8] == old(buffer[..at]) + Digits(counter, 8)
  {
    var place, i := 8, at;
    assert Pow16(4) == 0x1_0000 && Pow16(8) == U32_RANGE;
    while place > 0
      invariant 0 <= place <= 8 && i == at + 8 - place
      invariant counter / Pow16(place) >= 0
      invariant buffer[..i] == old(buffer[..at]) + Digits(counter / Pow16(place), 8 - place)
    {
      place := place - 1;
      DigitStep(counter, place);
      ghost var was := buffer[..i];
      buffer[i] := HexDigit(counter / Pow16(place) % 16);
      i := i + 1;
      assert buffer[..i] == was + [HexDigit(counter / Pow16(place) % 16)];
    }
    assert counter / Pow16(0) == counter;
  }

  method FindLastDot(path: seq<Unit>) returns (dot: nat)
    ensures dot == LastDot(path)
  {
    var k := |path|;
    assert path[..k] == path;
    while k > 0
      invariant 0 <= k <= |path|
      invariant LastDot(path) == if LastDot(path[..k]) == k then |path| else LastDot(path[..k])
    {
      k := k - 1;
      assert path[..k + 1][..k] == path[..k];
      if path[k] == DOT {
        return k;
      }
    }
    return |path|;
  }

  method CopyTail(path: seq<Unit>, dot: nat, buffer: array<Unit>, start: nat) returns (i: nat)
    requires dot <= |path| && start <= buffer.Length
    modifies buffer
    ensures start <= i <= buffer.Length
    ensures var full := old(buffer[..start]) + path[dot..];
            buffer[..i] == if |full| > buffer.Length then full[..buffer.Length] else full
  {
    i := start;
    var k := dot;
    while k < |path| && i < buffer.Length
      invariant dot <= k <= |path| && i == start + k - dot <= buffer.Length
      invariant buffer[..i] == old(buffer[..start]) + path[dot..k]
    {
      ghost var was := buffer[..i];
      buffer[i] := path[k];
      i := i + 1;
      k := k + 1;
      assert buffer[..i] == was + [path[k - 1]];
    }
    assert path[dot..][..k - dot] == path[dot..k];
  }

  method GenerateStoredName(ordinal: nat, path: seq<Unit>) returns (name: seq<Unit>)
    ensures name == StoredName(ordinal, path)
  {
    var counter := ordinal % U32_RANGE;
    var buffer := new Unit[NAME_UNITS](_ => 0);
    for c := 0 to |DROP_PREFIX|
      invariant buffer[..c] == DROP_PREFIX[..c]
    {
      buffer[c] := DROP_PREFIX[c];
    }
    WriteDigits(counter, buffer, |DROP_PREFIX|);
    assert DROP_PREFIX[..|DROP_PREFIX|] == DROP_PREFIX;
    assert buffer[..|DROP_PREFIX| + 8] == DROP_PREFIX + Digits(counter, 8);
    var dot := FindLastDot(path);
    var i := CopyTail(path, dot, buffer, |DROP_PREFIX| + 8);
    name := buffer[..i];
  }

  lemma {:induction false} LastDotOfTail(front: seq<Unit>, tail: seq<Unit>)
    requires DOT !in tail
    ensures LastDot(front + [DOT] + tail) == |front|
    decreases |tail|
  {
    var path := front + [DOT] + tail;
    if tail != [] {
      assert path[..|path| - 1] == front + [DOT] + tail[..|tail| - 1];
      LastDotOfTail(front, tail[..|tail| - 1]);
    }
  }

  lemma {:induction false} NoDot(path: seq<Unit>)
    requires DOT !in path
    ensures LastDot(path) == |path|
    decreases |path|
  {
    if path != [] {
      NoDot(path[..|path| - 1]);
    }
  }

  /** The number that lower-case hexadecimal digits write. */
  function HexValue(digits: seq<Unit>): nat {
    if digits == [] then 0
    else 16 * HexValue(digits[..|digits| - 1]) + DigitValue(digits[|digits| - 1])
  }

  function DigitValue(u: Unit): nat {
    if '0' as int <= u <= '9' as int then u - '0' as int
    else if 'a' as int <= u <= 'f' as int then 10 + u - 'a' as int
    else 16
  }

  predicate IsHex(digits: seq<Unit>) {
    forall u <- digits :: DigitValue(u) < 16
  }

  lemma {:induction false} DigitsWrite(n: nat, count: nat)
    requires n < Pow16(count)
    ensures IsHex(Digits(n, count)) && HexValue(Digits(n, count)) == n
    decreases count
  {
    if count > 0 {
      DigitsWrite(n / 16, count - 1);
      var r := Digits(n, count);
      assert r[..|r| - 1] == Digits(n / 16, count - 1);
    }
  }

  predicate NameReads(name: seq<Unit>, ordinal: nat, tail: seq<Unit>) {
    && 13 <= |name| <= 64
    && name[..5] == ['d' as int, 'r' as int, 'o' as int, 'p' as int, '-' as int]
    && IsHex(name[5..13]) && HexValue(name[5..13]) == ordinal % U32_RANGE
    && name[13..] == if |tail| > 51 then tail[..51] else tail
  }

  lemma NameParts(ordinal: nat, path: seq<Unit>)
    ensures NameReads(StoredName(ordinal, path), ordinal, path[LastDot(path)..])
  {
    var n, tail := ordinal % U32_RANGE, path[LastDot(path)..];
    assert Pow16(4) == 0x1_0000 && Pow16(8) == U32_RANGE;
    DigitsWrite(n, 8);
    var full := DROP_PREFIX + Digits(n, 8) + tail;
    var name := StoredName(ordinal, path);
    assert full[..5] == DROP_PREFIX && full[5..13] == Digits(n, 8) && full[13..] == tail;
    assert name[..5] == full[..5] && name[5..13] == full[5..13];
    if |full| > NAME_UNITS {
      assert name[13..] == full[..64][13..] == tail[..51];
    }
  }

  /** A stored name is "drop-", the counter's low 32 bits in eight hexadecimal digits, and
      the path from its last dot on, as much of it as 64 units allow. */
  lemma NameEndsInExtension(ordinal: nat, front: seq<Unit>, tail: seq<Unit>)
    requires DOT !in tail
    ensures NameReads(StoredName(ordinal, front + [DOT] + tail), ordinal, [DOT] + tail)
  {
    var path := front + [DOT] + tail;
    LastDotOfTail(front, tail);
    NameParts(ordinal, path);
    assert path[|front|..] == [DOT] + tail;
  }

  /** And without a dot nothing follows the digits. */
  lemma NameWithoutExtension(ordinal: nat, path: seq<Unit>)
    requires DOT !in path
    ensures NameReads(StoredName(ordinal, path), ordinal, [])
  {
    NoDot(path);
    NameParts(ordinal, path);
  }

  lemma {:induction false} DigitsInjective(a: nat, b: nat, count: nat)
    requires a < Pow16(count) && b < Pow16(count) && Digits(a, count) == Digits(b, count)
    ensures a == b
    decreases count
  {
    if count > 0 {
      var da, db := Digits(a, count), Digits(b, count);
      assert da[..count - 1] == Digits(a / 16, count - 1) && db[..count - 1] == Digits(b / 16, count - 1);
      assert da[count - 1] == HexDigit(a % 16) && db[count - 1] == HexDigit(b % 16);
      DigitsInjective(a / 16, b / 16, count - 1);
    }
  }

  /** Two names minted fewer than 2^32 apart differ, whatever the paths, and they
      already differ in the thirteen units no later cut removes. */
  lemma NamesDiffer(m: nat, n: nat, p: seq<Unit>, q: seq<Unit>)
    requires m < n < m + U32_RANGE
    ensures StoredName(m, p)[..13] != StoredName(n, q)[..13]
  {
    var a, b := m % U32_RANGE, n % U32_RANGE;
    assert a != b;
    assert StoredName(m, p)[..13] == DROP_PREFIX + Digits(a, 8);
    assert StoredName(n, q)[..13] == DROP_PREFIX + Digits(b, 8);
    assert Pow16(4) == 0x1_0000 && Pow16(8) == U32_RANGE;
    if StoredName(m, p)[..13] == StoredName(n, q)[..13] {
      assert (DROP_PREFIX + Digits(a, 8))[5..] == Digits(a, 8);
      assert (DROP_PREFIX + Digits(b, 8))[5..] == Digits(b, 8);
      DigitsInjective(a, b, 8);
    }
  }

  // ---- One stream

  datatype DropState = CopyPending | Linked | CopyDone

  /** Where the one write that attached the context has got to. */
  datatype Capture = NotStarted | Linking | Emitting | Finished

  /** `copying` counts cleanups that took the pending state and have not copied yet;
      `hardLinks` and `copies` count the records emitted. */
  datatype Stream = Stream(
    context: Option<DropState>, capture: Capture, copying: nat, hardLinks: nat, copies: nat,
    missedBusy: nat, linkFailed: nat, copyFailed: nat)

  const UNTOUCHED := Stream(None, NotStarted, 0, 0, 0, 0, 0, 0)

  /** The atomic steps any thread may take. `recorded` is false when the record could
      not be allocated. */
  datatype Step =
    | Attach
    | MarkCopied
    | LinkResult(linked: bool)
    | EmitLink(recorded: bool)
    | Cleanup(passive: bool)
    | CopyResult(copied: bool, recorded: bool)
    | WriteBusy

  predicate Enabled(s: Stream, step: Step) {
    match step
    case LinkResult(_) => s.capture == Linking
    case EmitLink(_) => s.capture == Emitting
    case CopyResult(_, _) => s.copying > 0
    case _ => true
  }

  function Next(s: Stream, step: Step): Stream
    requires Enabled(s, step)
  {
    match step
    case Attach => if s.context.None? then s.(context := Some(CopyPending), capture := Linking) else s
    case MarkCopied => if s.context.None? then s.(context := Some(CopyDone)) else s
    case LinkResult(linked) =>
      if linked then s.(context := Some(Linked), capture := Emitting)
      else s.(capture := Finished, linkFailed := s.linkFailed + 1)
    case EmitLink(recorded) =>
      s.(capture := Finished, hardLinks := s.hardLinks + if recorded then 1 else 0)
    case Cleanup(passive) =>
      if s.context.None? then s
      else
        var t := s.(context := Some(CopyDone));
        if s.context != Some(CopyPending) then t
        else if passive then t.(copying := s.copying + 1)
        else t.(missedBusy := s.missedBusy + 1)
    case CopyResult(copied, recorded) =>
      var t := s.(copying := s.copying - 1);
      if !copied then t.(copyFailed := s.copyFailed + 1)
      else t.(copies := s.copies + if recorded then 1 else 0)
    case WriteBusy => s.(missedBusy := s.missedBusy + 1)
  }

  /** A legal interleaving, as the sequence of its steps. */
  predicate Legal(run: seq<Step>)
    decreases |run|, 0
  {
    run == [] || (Legal(run[..|run| - 1]) && Enabled(After(run[..|run| - 1]), run[|run| - 1]))
  }

  function After(run: seq<Step>): Stream
    requires Legal(run)
    decreases |run|, 1
  {
    if run == [] then UNTOUCHED else Next(After(run[..|run| - 1]), run[|run| - 1])
  }

  predicate CleanupInWindow(run: seq<Step>)
    requires Legal(run)
  {
    run != [] && (|| CleanupInWindow(run[..|run| - 1])
                  || (run[|run| - 1].Cleanup? && After(run[..|run| - 1]).capture == Linking))
  }

  /** The pending state is there to be taken once; whoever took it owns the only copy. */
  predicate OneCapture(s: Stream, raced: bool) {
    && s.copying + s.copies <= 1
    && (s.context in {None, Some(CopyPending)} ==> s.copying == s.copies == 0)
    && (s.context.None? ==> s.capture == NotStarted)
    && (s.capture != Finished ==> s.hardLinks == 0) && s.hardLinks <= 1
    && (s.capture == NotStarted ==> s.copying == s.copies == 0 && s.context != Some(CopyPending))
    && (!raced ==>
          && (s.capture == Linking ==> s.context == Some(CopyPending))
          && (s.capture == Emitting || s.hardLinks == 1 ==>
                s.context != Some(CopyPending) && s.copying == s.copies == 0))
  }

  lemma {:induction false} EveryRunOneCapture(run: seq<Step>)
    requires Legal(run)
    ensures OneCapture(After(run), CleanupInWindow(run))
    decreases |run|
  {
    if run != [] {
      EveryRunOneCapture(run[..|run| - 1]);
    }
  }

  /** In every interleaving a stream yields at most one hard-link record and at most
      one copy record, and at most one in total unless a cleanup fell between the
      context's attach and the link's result. */
  lemma CaptureRecords(run: seq<Step>)
    requires Legal(run)
    ensures After(run).hardLinks <= 1 && After(run).copies <= 1
    ensures !CleanupInWindow(run) ==> After(run).hardLinks + After(run).copies <= 1
  {
    EveryRunOneCapture(run);
  }

  lemma Extend(run: seq<Step>, step: Step)
    requires Legal(run) && Enabled(After(run), step)
    ensures Legal(run + [step]) && After(run + [step]) == Next(After(run), step)
  {
    assert (run + [step])[..|run|] == run;
  }

  /** The window is exact: from ANY run inside it, a cleanup now leads to both records. */
  lemma BothRecordsInTheWindow(run: seq<Step>)
    requires Legal(run) && After(run).capture == Linking && After(run).context == Some(CopyPending)
    ensures var more := run + [Cleanup(true)] + [LinkResult(true)] + [EmitLink(true)] + [CopyResult(true, true)];
            Legal(more) && After(more).hardLinks == 1 && After(more).copies == 1
  {
    EveryRunOneCapture(run);
    Extend(run, Cleanup(true));
    var r1 := run + [Cleanup(true)];
    Extend(r1, LinkResult(true));
    var r2 := r1 + [LinkResult(true)];
    Extend(r2, EmitLink(true));
    Extend(r2 + [EmitLink(true)], CopyResult(true, true));
  }

  predicate Links(step: Step) { step == LinkResult(true) }

  predicate LinkFails(step: Step) { step == LinkResult(false) }

  predicate LinkTold(step: Step) { step == EmitLink(true) }

  predicate TriesCopy(step: Step) { step.CopyResult? }

  predicate CopyFails(step: Step) { step.CopyResult? && !step.copied }

  predicate CopyTold(step: Step) { step == CopyResult(true, true) }

  predicate IsBusy(step: Step) { step == WriteBusy }

  /** How many steps of the run are of a kind. */
  function Times(run: seq<Step>, kind: Step -> bool): nat {
    if run == [] then 0 else Times(run[..|run| - 1], kind) + if kind(run[|run| - 1]) then 1 else 0
  }

  /** Whether some cleanup found the pending state at too high an interrupt level. */
  predicate LostAtCleanup(run: seq<Step>)
    requires Legal(run)
  {
    run != [] && (|| LostAtCleanup(run[..|run| - 1])
                  || (run[|run| - 1] == Cleanup(false) && After(run[..|run| - 1]).context == Some(CopyPending)))
  }

  predicate Counters(run: seq<Step>)
    requires Legal(run)
  {
    var s := After(run);
    && s.linkFailed == Times(run, LinkFails)
    && s.copyFailed == Times(run, CopyFails)
    && s.hardLinks == Times(run, LinkTold)
    && s.copies == Times(run, CopyTold)
    && s.missedBusy >= Times(run, IsBusy) + if LostAtCleanup(run) then 1 else 0
  }

  lemma {:induction false} LossesAreCounted(run: seq<Step>)
    requires Legal(run)
    ensures Counters(run)
    decreases |run|
  {
    if run != [] {
      LossesAreCounted(run[..|run| - 1]);
    }
  }

  /** The pending state is left by a link, by a cleanup that goes on to copy, or by one that
      counts the loss. */
  predicate Traced(run: seq<Step>)
    requires Legal(run)
  {
    var s := After(run);
    s.capture != NotStarted && s.context != Some(CopyPending) ==>
      || Times(run, Links) > 0
      || s.copying > 0 || Times(run, TriesCopy) > 0
      || LostAtCleanup(run)
  }

  lemma {:induction false} AlwaysTraced(run: seq<Step>)
    requires Legal(run)
    ensures Traced(run)
    decreases |run|
  {
    if run != [] {
      AlwaysTraced(run[..|run| - 1]);
      EveryRunOneCapture(run[..|run| - 1]);
    }
  }

  /** No silent loss: in every interleaving, when nothing of a captured stream is pending any
      more, its link succeeded, or its copy was tried, or a loss was counted; and every failed
      link, failed copy and busy moment is in its counter. */
  lemma NoSilentLoss(run: seq<Step>)
    requires Legal(run)
    ensures Counters(run)
    ensures var s := After(run);
            s.capture == Finished && s.copying == 0 && s.context != Some(CopyPending) ==>
              || Times(run, Links) > 0 || Times(run, TriesCopy) > 0
              || s.missedBusy > 0
  {
    LossesAreCounted(run);
    AlwaysTraced(run);
  }

  /** A stream first marked as the driver's own copy is never captured. */
  lemma {:induction false} MarkedNeverCaptured(run: seq<Step>)
    requires Legal(run) && run != [] && run[0] == MarkCopied
    ensures var s := After(run);
            && s.context == Some(CopyDone) && s.capture == NotStarted
            && s.copying == s.hardLinks == s.copies == 0
    decreases |run|
  {
    if |run| > 1 {
      MarkedNeverCaptured(run[..|run| - 1]);
    } else {
      assert run[..0] == [];
    }
  }

  /** The callbacks themselves, each as the steps it takes. Run without interference,
      one call is one path through the step machine. */
  class StreamContext {
    var stream: Stream
    ghost var run: seq<Step>

    ghost predicate Valid()
      reads this
    {
      Legal(run) && stream == After(run)
    }

    constructor ()
      ensures Valid() && run == []
    {
      stream, run := UNTOUCHED, [];
    }

    method Take(step: Step)
      requires Valid() && Enabled(stream, step)
      modifies this
      ensures Valid() && run == old(run) + [step] && stream == Next(old(stream), step)
    {
      Extend(run, step);
      stream := Next(stream, step);
      run := run + [step];
    }

    /** First matching write. The environment decides the interrupt level, the link's
        outcome and whether the record could be allocated. */
    method TryCaptureDrop(passive: bool, linked: bool, recorded: bool)
      requires Valid()
      modifies this
      ensures Valid()
      ensures stream ==
              if !passive then old(stream).(missedBusy := old(stream.missedBusy) + 1)
              else if old(stream).context.Some? then old(stream)
              else if linked then
                old(stream).(context := Some(Linked), capture := Finished,
                             hardLinks := old(stream.hardLinks) + if recorded then 1 else 0)
              else
                old(stream).(context := Some(CopyPending), capture := Finished,
                             linkFailed := old(stream.linkFailed) + 1)
    {
      if !passive {
        Take(WriteBusy);
        return;
      }
      var defined := stream.context.Some?;
      Take(Attach);
      if defined {
        return;
      }
      Take(LinkResult(linked));
      if linked {
        Take(EmitLink(recorded));
      }
    }

    /** Last handle closed. Copies exactly when the state was still pending. */
    method TryCleanupCopy(passive: bool, copied: bool, recorded: bool)
      requires Valid()
      modifies this
      ensures Valid()
      ensures stream.copies == old(stream.copies) +
              if old(stream.context) == Some(CopyPending) && passive && copied && recorded then 1 else 0
      ensures stream.hardLinks == old(stream.hardLinks) && stream.copying == old(stream.copying)
      ensures stream.context == if old(stream.context).None? then None else Some(CopyDone)
    {
      var state := stream.context;
      Take(Cleanup(passive));
      if state == Some(CopyPending) && passive {
        Take(CopyResult(copied, recorded));
      }
    }

    method MarkStreamCopied()
      requires Valid()
      modifies this
      ensures Valid() && run == old(run) + [MarkCopied]
      ensures old(stream.context).Some? ==> stream == old(stream)
    {
      Take(MarkCopied);
    }
  }

  /** Write then cleanup, undisturbed: exactly one record, a link or else a copy,
      however the link goes. */
  method WriteThenCleanup(linked: bool) returns (s: Stream)
    ensures s.hardLinks == (if linked then 1 else 0) && s.hardLinks + s.copies == 1
  {
    var c := new StreamContext();
    c.TryCaptureDrop(true, linked, true);
    c.TryCleanupCopy(true, true, true);
    s := c.stream;
  }
}
