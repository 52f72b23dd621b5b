/** What a drained record holds when producers may lap the drainer
    (driver/secoutfall/Injection.cpp, lines 898 to 916). */
module TornReads {
  import opened Wrappers
  import opened SensorRing
  import RingMemory

  // A slot's sequence is read once, before its words are copied, so a later holder of the
  // slot can store words under the copy. The log of a run is its stores and copies of
  // payload words, in order.

  datatype Access = Wrote(claim: nat, word: nat) | Copied(claim: nat, word: nat)

  function AccessOf(r: Ring, s: Step): seq<Access>
    requires Enabled(r, s)
  {
    match s
    case StoreWord(t) => [Wrote(r.producers[t].claim, r.producers[t].written)]
    case CopyWord => [Copied(r.drainer.drained, |r.drainer.read|)]
    case _ => []
  }

  function Accesses(run: seq<Step>): seq<Access>
    requires Legal(run)
    decreases |run|
  {
    if run == [] then []
    else Accesses(run[..|run| - 1]) + AccessOf(After(run[..|run| - 1]), run[|run| - 1])
  }

  predicate Touches(a: Access, slot: nat, k: nat) {
    a.Wrote? && a.claim % SLOTS == slot && a.word == k
  }

  /** Where the log last stores the word `k` of a slot. */
  function LastWrite(log: seq<Access>, slot: nat, k: nat): (at: Option<nat>)
    ensures at.Some? ==> at.value < |log| && Touches(log[at.value], slot, k)
    ensures forall j: nat :: j < |log| && Touches(log[j], slot, k) ==> at.Some? && j <= at.value
  {
    if log == [] then None
    else if Touches(log[|log| - 1], slot, k) then Some(|log| - 1)
    else LastWrite(log[..|log| - 1], slot, k)
  }

  lemma LastWriteOf(log: seq<Access>, a: Access, slot: nat, k: nat)
    ensures LastWrite(log + [a], slot, k) == if Touches(a, slot, k) then Some(|log|) else LastWrite(log, slot, k)
  {
    assert (log + [a])[..|log|] == log;
  }

  /** The word `k` of claim `c` was copied at `e`: after the claim's own store, and with the
      value of whichever claim had stored it last. */
  predicate CopiedAt(claims: seq<Payload>, log: seq<Access>, c: nat, k: nat, value: nat, e: nat) {
    && k < WORDS && e < |log| && log[e] == Copied(c, k) && Wrote(c, k) in log[..e]
    && var last := LastWrite(log[..e], c % SLOTS, k);
       last.Some? && log[last.value].claim < |claims| && value == claims[log[last.value].claim][k]
  }

  ghost predicate Backed(claims: seq<Payload>, log: seq<Access>, c: nat, k: nat, value: nat) {
    exists e: nat :: CopiedAt(claims, log, c, k, value, e)
  }

  // ---- What every interleaving keeps

  predicate LogInPlace(r: Ring, log: seq<Access>) {
    forall a <- log :: a.word < WORDS && (a.Wrote? ==> a.claim < |r.claims|)
  }

  predicate WordIsLast(r: Ring, log: seq<Access>, i: nat, k: nat)
    requires Shaped(r) && i < SLOTS && k < WORDS
  {
    var last := LastWrite(log, i, k);
    && (last.None? ==> r.slots[i].words[k] == 0)
    && (last.Some? ==> log[last.value].claim < |r.claims|
                       && r.slots[i].words[k] == r.claims[log[last.value].claim][k])
  }

  predicate WordsAreLast(r: Ring, log: seq<Access>)
    requires Shaped(r)
  {
    forall i: nat, k: nat :: i < SLOTS && k < WORDS ==> WordIsLast(r, log, i, k)
  }

  /** A claim has stored its first `n` words. */
  predicate HasWritten(log: seq<Access>, c: nat, n: nat) {
    forall k: nat :: k < n ==> Wrote(c, k) in log
  }

  ghost predicate WrittenFirst(r: Ring, log: seq<Access>)
    requires Shaped(r)
  {
    && (forall i: nat :: i < SLOTS && r.slots[i].sequence != 0 ==> HasWritten(log, r.slots[i].sequence - 1, WORDS))
    && (forall t: nat :: Holding(r, t) && r.producers[t].Writing? ==>
          HasWritten(log, ClaimOf(r, t), r.producers[t].written))
    && (r.drainer.Copying? ==> HasWritten(log, r.drainer.drained, WORDS))
  }

  ghost predicate AllBacked(claims: seq<Payload>, log: seq<Access>, c: nat, words: seq<nat>) {
    forall k: nat :: k < |words| ==> Backed(claims, log, c, k, words[k])
  }

  ghost predicate CopiesBacked(r: Ring, log: seq<Access>) {
    && (r.drainer.Copying? ==> AllBacked(r.claims, log, r.drainer.drained, r.drainer.read))
    && (forall i: nat :: i < |r.delivered| ==>
          |r.delivered[i].1| == WORDS && AllBacked(r.claims, log, r.delivered[i].0, r.delivered[i].1))
  }

  /** No word is copied twice. */
  predicate CopiesOnce(r: Ring, log: seq<Access>) {
    && (forall a <- log :: a.Copied? ==>
          a.claim < Live(r) || (r.drainer.Copying? && a.claim == r.drainer.drained && a.word < |r.drainer.read|))
    && (forall e: nat, f: nat :: e < f < |log| && log[e].Copied? ==> log[e] != log[f])
  }

  ghost predicate Logged(r: Ring, log: seq<Access>) {
    AlwaysHolds(r) && LogInPlace(r, log) && WordsAreLast(r, log) && WrittenFirst(r, log)
    && CopiesBacked(r, log) && CopiesOnce(r, log)
  }

  lemma BackedGrows(claims: seq<Payload>, claims': seq<Payload>, log: seq<Access>, log': seq<Access>, c: nat,
                    words: seq<nat>)
    requires AllBacked(claims, log, c, words) && claims <= claims' && log <= log'
    ensures AllBacked(claims', log', c, words)
  {
    forall k: nat | k < |words|
      ensures Backed(claims', log', c, k, words[k])
    {
      assert Backed(claims, log, c, k, words[k]);
      var e: nat :| CopiedAt(claims, log, c, k, words[k], e);
      assert log'[..e] == log[..e];
      assert CopiedAt(claims', log', c, k, words[k], e);
    }
  }

  lemma StepKeepsLogInPlace(r: Ring, s: Step, log: seq<Access>)
    requires Shaped(r) && ClaimsRecorded(r) && LogInPlace(r, log) && Enabled(r, s)
    ensures LogInPlace(Next(r, s), log + AccessOf(r, s))
  {
    if s.StoreWord? {
      assert Holding(r, s.t);
    }
  }

  lemma StoreKeepsWords(r: Ring, t: nat, log: seq<Access>)
    requires Shaped(r) && ClaimsRecorded(r) && WordsAreLast(r, log) && Enabled(r, StoreWord(t))
    ensures WordsAreLast(Next(r, StoreWord(t)), log + AccessOf(r, StoreWord(t)))
  {
    var r', a := Next(r, StoreWord(t)), AccessOf(r, StoreWord(t))[0];
    assert Holding(r, t);
    forall i: nat, k: nat | i < SLOTS && k < WORDS
      ensures WordIsLast(r', log + [a], i, k)
    {
      assert WordIsLast(r, log, i, k);
      LastWriteOf(log, a, i, k);
    }
  }

  lemma StepKeepsWords(r: Ring, s: Step, log: seq<Access>)
    requires Shaped(r) && ClaimsRecorded(r) && WordsAreLast(r, log) && Enabled(r, s)
    ensures WordsAreLast(Next(r, s), log + AccessOf(r, s))
  {
    if s.StoreWord? {
      StoreKeepsWords(r, s.t, log);
    } else {
      var r' := Next(r, s);
      forall i: nat, k: nat | i < SLOTS && k < WORDS
        ensures WordIsLast(r', log + AccessOf(r, s), i, k)
      {
        assert WordIsLast(r, log, i, k) && r'.slots[i].words == r.slots[i].words && r.claims <= r'.claims;
        if s.CopyWord? {
          LastWriteOf(log, AccessOf(r, s)[0], i, k);
        } else {
          assert log + AccessOf(r, s) == log;
        }
      }
    }
  }

  lemma WrittenGrows(log: seq<Access>, log': seq<Access>, c: nat, n: nat)
    requires HasWritten(log, c, n) && log <= log'
    ensures HasWritten(log', c, n)
  {
    forall k: nat | k < n
      ensures Wrote(c, k) in log'
    {
      assert Wrote(c, k) in log;
    }
  }

  lemma StoreKeepsWritten(r: Ring, t: nat, log: seq<Access>)
    requires Shaped(r) && WrittenFirst(r, log) && Enabled(r, StoreWord(t))
    ensures WrittenFirst(Next(r, StoreWord(t)), log + AccessOf(r, StoreWord(t)))
  {
    var r', log' := Next(r, StoreWord(t)), log + AccessOf(r, StoreWord(t));
    forall i: nat | i < SLOTS && r'.slots[i].sequence != 0
      ensures HasWritten(log', r'.slots[i].sequence - 1, WORDS)
    {
      assert r'.slots[i].sequence == r.slots[i].sequence;
      WrittenGrows(log, log', r.slots[i].sequence - 1, WORDS);
    }
    forall u: nat | Holding(r', u) && r'.producers[u].Writing?
      ensures HasWritten(log', ClaimOf(r', u), r'.producers[u].written)
    {
      assert Holding(r, u);
      WrittenGrows(log, log', ClaimOf(r, u), r.producers[u].written);
      if u == t {
        assert log'[|log|] == Wrote(ClaimOf(r, t), r.producers[t].written);
      }
    }
    if r.drainer.Copying? {
      WrittenGrows(log, log', r.drainer.drained, WORDS);
    }
  }

  lemma CommitKeepsWritten(r: Ring, t: nat, log: seq<Access>)
    requires Shaped(r) && WrittenFirst(r, log) && Enabled(r, Commit(t))
    ensures WrittenFirst(Next(r, Commit(t)), log)
  {
    var r' := Next(r, Commit(t));
    assert Holding(r, t);
    forall i: nat | i < SLOTS && r'.slots[i].sequence != 0
      ensures HasWritten(log, r'.slots[i].sequence - 1, WORDS)
    {
      if i == ClaimOf(r, t) % SLOTS {
        assert r'.slots[i].sequence - 1 == ClaimOf(r, t);
      } else {
        assert r'.slots[i] == r.slots[i];
      }
    }
    assert forall u: nat :: Holding(r', u) ==> Holding(r, u) && r'.producers[u] == r.producers[u];
  }

  lemma ThreadKeepsWritten(r: Ring, s: Step, log: seq<Access>)
    requires Shaped(r) && WrittenFirst(r, log) && Enabled(r, s)
    requires s.Activate? || s.Enter? || s.Claim? || s.LoadPrevious? || s.CountDrop?
    ensures WrittenFirst(Next(r, s), log)
  {
    var r' := Next(r, s);
    forall u: nat | Holding(r', u) && r'.producers[u].Writing?
      ensures HasWritten(log, ClaimOf(r', u), r'.producers[u].written)
    {
      if r'.producers[u].written > 0 {
        assert Holding(r, u) && r.producers[u] == r'.producers[u];
      }
    }
  }

  lemma DrainerKeepsWritten(r: Ring, s: Step, log: seq<Access>)
    requires Shaped(r) && WrittenFirst(r, log) && Enabled(r, s) && DrainerStep(s)
    ensures WrittenFirst(Next(r, s), log + AccessOf(r, s))
  {
    var r', log' := Next(r, s), log + AccessOf(r, s);
    assert r'.slots == r.slots && r'.producers == r.producers;
    forall i: nat | i < SLOTS && r.slots[i].sequence != 0
      ensures HasWritten(log', r.slots[i].sequence - 1, WORDS)
    {
      WrittenGrows(log, log', r.slots[i].sequence - 1, WORDS);
    }
    forall u: nat | Holding(r, u) && r.producers[u].Writing?
      ensures HasWritten(log', ClaimOf(r, u), r.producers[u].written)
    {
      WrittenGrows(log, log', ClaimOf(r, u), r.producers[u].written);
    }
    if r'.drainer.Copying? {
      if s.Poll? {
        assert r.slots[Live(r) % SLOTS].sequence - 1 == r'.drainer.drained;
      } else {
        WrittenGrows(log, log', r.drainer.drained, WORDS);
      }
    }
  }

  lemma StepKeepsWritten(r: Ring, s: Step, log: seq<Access>)
    requires Shaped(r) && WrittenFirst(r, log) && Enabled(r, s)
    ensures WrittenFirst(Next(r, s), log + AccessOf(r, s))
  {
    if s.StoreWord? {
      StoreKeepsWritten(r, s.t, log);
    } else if DrainerStep(s) {
      DrainerKeepsWritten(r, s, log);
    } else {
      assert log + AccessOf(r, s) == log;
      if s.Commit? {
        CommitKeepsWritten(r, s.t, log);
      } else {
        ThreadKeepsWritten(r, s, log);
      }
    }
  }

  lemma CopyIsBacked(r: Ring, log: seq<Access>)
    requires Shaped(r) && WordsAreLast(r, log) && WrittenFirst(r, log) && Enabled(r, CopyWord)
    ensures var c, k := r.drainer.drained, |r.drainer.read|;
            CopiedAt(r.claims, log + [Copied(c, k)], c, k, SlotOf(r, c).words[k], |log|)
  {
    var c, k := r.drainer.drained, |r.drainer.read|;
    assert (log + [Copied(c, k)])[..|log|] == log;
    assert WordIsLast(r, log, c % SLOTS, k);
    assert Wrote(c, k) in log;
    var own: nat :| own < |log| && log[own] == Wrote(c, k);
    assert Touches(log[own], c % SLOTS, k);
  }

  lemma CopyKeepsCopies(r: Ring, log: seq<Access>)
    requires Shaped(r) && WordsAreLast(r, log) && WrittenFirst(r, log) && CopiesBacked(r, log) && Enabled(r, CopyWord)
    ensures CopiesBacked(Next(r, CopyWord), log + AccessOf(r, CopyWord))
  {
    var r', log' := Next(r, CopyWord), log + AccessOf(r, CopyWord);
    var c, read := r.drainer.drained, r.drainer.read;
    BackedGrows(r.claims, r.claims, log, log', c, read);
    CopyIsBacked(r, log);
    forall k: nat | k < |r'.drainer.read|
      ensures Backed(r.claims, log', c, k, r'.drainer.read[k])
    {
      if k < |read| {
        assert r'.drainer.read[k] == read[k];
      } else {
        assert CopiedAt(r.claims, log', c, k, r'.drainer.read[k], |log|);
      }
    }
    forall i: nat | i < |r.delivered|
      ensures AllBacked(r.claims, log', r.delivered[i].0, r.delivered[i].1)
    {
      BackedGrows(r.claims, r.claims, log, log', r.delivered[i].0, r.delivered[i].1);
    }
  }

  lemma StepKeepsCopies(r: Ring, s: Step, log: seq<Access>)
    requires Shaped(r) && WordsAreLast(r, log) && WrittenFirst(r, log) && CopiesBacked(r, log) && Enabled(r, s)
    ensures CopiesBacked(Next(r, s), log + AccessOf(r, s))
  {
    if s.CopyWord? {
      CopyKeepsCopies(r, log);
    } else {
      var r', log' := Next(r, s), log + AccessOf(r, s);
      assert r.claims <= r'.claims && r.delivered <= r'.delivered;
      if r.drainer.Copying? {
        BackedGrows(r.claims, r'.claims, log, log', r.drainer.drained, r.drainer.read);
      }
      forall i: nat | i < |r.delivered|
        ensures AllBacked(r'.claims, log', r.delivered[i].0, r.delivered[i].1)
      {
        BackedGrows(r.claims, r'.claims, log, log', r.delivered[i].0, r.delivered[i].1);
      }
      assert forall i: nat :: i < |r.delivered| ==> r'.delivered[i] == r.delivered[i];
    }
  }

  lemma CopyKeepsOnce(r: Ring, log: seq<Access>)
    requires Shaped(r) && CopiesOnce(r, log) && Enabled(r, CopyWord)
    ensures CopiesOnce(Next(r, CopyWord), log + AccessOf(r, CopyWord))
  {
    var log' := log + AccessOf(r, CopyWord);
    forall e: nat, f: nat | e < f < |log'| && log'[e].Copied?
      ensures log'[e] != log'[f]
    {
      assert log'[e] == log[e] && log[e] in log;
    }
  }

  lemma StepKeepsOnce(r: Ring, s: Step, log: seq<Access>)
    requires Shaped(r) && CopiesOnce(r, log) && Enabled(r, s)
    ensures CopiesOnce(Next(r, s), log + AccessOf(r, s))
  {
    if s.CopyWord? {
      CopyKeepsOnce(r, log);
    } else {
      var log' := log + AccessOf(r, s);
      assert forall a <- log' :: a.Copied? ==> a in log;
      assert Live(Next(r, s)) >= Live(r);
    }
  }

  lemma {:induction false} AlwaysLogged(run: seq<Step>)
    requires Legal(run)
    ensures Logged(After(run), Accesses(run))
    decreases |run|
  {
    AlwaysInRun(run);
    if run != [] {
      var init, last := run[..|run| - 1], run[|run| - 1];
      AlwaysLogged(init);
      StepKeepsLogInPlace(After(init), last, Accesses(init));
      StepKeepsWords(After(init), last, Accesses(init));
      StepKeepsWritten(After(init), last, Accesses(init));
      StepKeepsCopies(After(init), last, Accesses(init));
      StepKeepsOnce(After(init), last, Accesses(init));
    }
  }

  // ---- What is delivered

  /** At `copy` the drainer copied word `k` for claim `c`; the store it saw is at `from`, and
      `c`'s own store is not after that. */
  predicate SeenAt(log: seq<Access>, c: nat, k: nat, own: nat, from: nat, copy: nat) {
    && own <= from < copy < |log|
    && log[own] == Wrote(c, k) && log[copy] == Copied(c, k)
    && Touches(log[from], c % SLOTS, k) && LastWrite(log[..copy], c % SLOTS, k) == Some(from)
  }

  /** `value` is what the drainer saw for word `k` of claim `c`. */
  ghost predicate Seen(claims: seq<Payload>, log: seq<Access>, c: nat, k: nat, value: nat) {
    k < WORDS && exists own: nat, from: nat, copy: nat :: SeenAt(log, c, k, own, from, copy)
                   && log[from].claim < |claims| && value == claims[log[from].claim][k]
  }

  lemma CopySees(claims: seq<Payload>, log: seq<Access>, c: nat, k: nat, value: nat)
    requires Backed(claims, log, c, k, value)
    ensures Seen(claims, log, c, k, value)
  {
    var copy: nat :| CopiedAt(claims, log, c, k, value, copy);
    var own: nat :| own < copy && log[..copy][own] == Wrote(c, k);
    assert Touches(log[..copy][own], c % SLOTS, k);
    var from := LastWrite(log[..copy], c % SLOTS, k).value;
    assert log[..copy][from] == log[from];
    assert SeenAt(log, c, k, own, from, copy);
  }

  lemma LoggedIsSeen(r: Ring, log: seq<Access>, i: nat)
    requires Logged(r, log) && i < |r.delivered|
    ensures r.delivered[i].0 < |r.claims| && |r.delivered[i].1| == WORDS
    ensures forall k: nat :: k < WORDS ==> Seen(r.claims, log, r.delivered[i].0, k, r.delivered[i].1[k])
  {
    var c, words := r.delivered[i].0, r.delivered[i].1;
    forall k: nat | k < WORDS
      ensures Seen(r.claims, log, c, k, words[k])
    {
      assert AllBacked(r.claims, log, c, words);
      CopySees(r.claims, log, c, k, words[k]);
    }
  }

  /** In every interleaving, overruns included, each delivered word was copied after its
      claim's own store, and is the word of whichever claim stored there last. */
  lemma DeliveredIsLastStored(run: seq<Step>, i: nat)
    requires Legal(run) && i < |After(run).delivered|
    ensures var r := After(run);
            && r.delivered[i].0 < |r.claims| && |r.delivered[i].1| == WORDS
            && forall k: nat :: k < WORDS ==>
                 Seen(r.claims, Accesses(run), r.delivered[i].0, k, r.delivered[i].1[k])
  {
    AlwaysLogged(run);
    LoggedIsSeen(After(run), Accesses(run), i);
  }

  /** Another claim of the same slot stored a different word `k` between `c`'s own store
      and the drainer's copy, and nobody stored that word again before the copy. */
  ghost predicate Overwritten(claims: seq<Payload>, log: seq<Access>, c: nat, k: nat) {
    c < |claims| && k < WORDS && exists own: nat, from: nat, copy: nat ::
      SeenAt(log, c, k, own, from, copy) && own < from && log[from].claim != c
      && log[from].claim < |claims| && claims[log[from].claim][k] != claims[c][k]
  }

  lemma SeenOnce(r: Ring, log: seq<Access>, c: nat, k: nat, own: nat, from: nat, copy: nat, own': nat, from': nat,
                 copy': nat)
    requires CopiesOnce(r, log) && SeenAt(log, c, k, own, from, copy) && SeenAt(log, c, k, own', from', copy')
    ensures from == from'
  {
    assert log[copy] == log[copy'] == Copied(c, k);
    assert copy == copy';
  }

  lemma OverwrittenDiffers(r: Ring, log: seq<Access>, c: nat, k: nat, value: nat)
    requires CopiesOnce(r, log) && Seen(r.claims, log, c, k, value) && Overwritten(r.claims, log, c, k)
    ensures value != r.claims[c][k]
  {
    var own: nat, from: nat, copy: nat :| SeenAt(log, c, k, own, from, copy)
      && log[from].claim < |r.claims| && value == r.claims[log[from].claim][k];
    var own': nat, from': nat, copy': nat :| SeenAt(log, c, k, own', from', copy')
      && own' < from' && log[from'].claim != c
      && log[from'].claim < |r.claims| && r.claims[log[from'].claim][k] != r.claims[c][k];
    SeenOnce(r, log, c, k, own, from, copy, own', from', copy');
  }

  lemma DiffersWasOverwritten(claims: seq<Payload>, log: seq<Access>, c: nat, k: nat, value: nat)
    requires c < |claims| && Seen(claims, log, c, k, value) && value != claims[c][k]
    ensures Overwritten(claims, log, c, k)
  {
    var own: nat, from: nat, copy: nat :| SeenAt(log, c, k, own, from, copy)
      && log[from].claim < |claims| && value == claims[log[from].claim][k];
    assert own != from;
  }

  ghost predicate AnyOverwritten(claims: seq<Payload>, log: seq<Access>, c: nat) {
    exists k: nat :: Overwritten(claims, log, c, k)
  }

  lemma TornIff(r: Ring, log: seq<Access>, c: nat, words: seq<nat>)
    requires CopiesOnce(r, log) && c < |r.claims| && |words| == WORDS
    requires forall k: nat :: k < WORDS ==> Seen(r.claims, log, c, k, words[k])
    ensures words != r.claims[c] <==> AnyOverwritten(r.claims, log, c)
  {
    if words != r.claims[c] {
      var k: nat :| k < WORDS && words[k] != r.claims[c][k];
      DiffersWasOverwritten(r.claims, log, c, k, words[k]);
    }
    if AnyOverwritten(r.claims, log, c) {
      var k: nat :| Overwritten(r.claims, log, c, k);
      OverwrittenDiffers(r, log, c, k, words[k]);
    }
  }

  /** A delivered record is torn if and only if one of its words was overwritten, by another
      holder of its slot, between the claim's own store and the drainer's copy. */
  lemma TornIffOverwritten(run: seq<Step>, i: nat)
    requires Legal(run) && i < |After(run).delivered|
    ensures var r := After(run);
            var c, words := r.delivered[i].0, r.delivered[i].1;
            && c < |r.claims| && |words| == WORDS
            && (words != r.claims[c] <==> AnyOverwritten(r.claims, Accesses(run), c))
  {
    AlwaysLogged(run);
    var r, log := After(run), Accesses(run);
    LoggedIsSeen(r, log, i);
    TornIff(r, log, r.delivered[i].0, r.delivered[i].1);
  }

  // ---- Every copy can be torn

  /** The run can go on to the state `r`. */
  ghost predicate Leads(run: seq<Step>, r: Ring) {
    Shaped(r) && exists more :: Legal(run + more) && After(run + more) == r
  }

  lemma LeadsNext(run: seq<Step>, r: Ring, s: Step)
    requires Leads(run, r) && Enabled(r, s)
    ensures Leads(run, Next(r, s))
  {
    var more :| Legal(run + more) && After(run + more) == r;
    var longer := run + (more + [s]);
    assert longer[..|longer| - 1] == run + more && longer[|longer| - 1] == s;
  }

  lemma LeadsHere(run: seq<Step>)
    requires Legal(run)
    ensures Leads(run, After(run))
  {
    assert run + [] == run;
  }

  /** A thread that has claimed and is about to write, its slot's counter seen to. */
  function Underway(r: Ring, t: nat, payload: Payload, dropped: nat): Ring {
    r.(writeIndex := r.writeIndex + 1, claims := r.claims + [payload], dropped := dropped,
       producers := r.producers[t := Writing(r.writeIndex, payload, 0)])
  }

  lemma ClaimTaken(run: seq<Step>, r: Ring, t: nat, payload: Payload)
    requires Leads(run, r) && r.active && t !in r.producers
    ensures Leads(run, r.(writeIndex := r.writeIndex + 1, claims := r.claims + [payload],
                          producers := r.producers[t := Claimed(r.writeIndex, payload)]))
  {
    LeadsNext(run, r, Enter(t, payload));
    var entered := Next(r, Enter(t, payload));
    LeadsNext(run, entered, Claim(t));
    assert entered.producers[t := Claimed(r.writeIndex, payload)]
        == r.producers[t := Claimed(r.writeIndex, payload)];
  }

  lemma EmitStarted(run: seq<Step>, r: Ring, t: nat, payload: Payload) returns (dropped: nat)
    requires Leads(run, r) && r.active && t !in r.producers
    ensures Leads(run, Underway(r, t, payload, dropped))
  {
    ClaimTaken(run, r, t, payload);
    var c := r.writeIndex;
    var claimed := r.(writeIndex := c + 1, claims := r.claims + [payload],
                      producers := r.producers[t := Claimed(c, payload)]);
    LeadsNext(run, claimed, LoadPrevious(t));
    var loaded := Next(claimed, LoadPrevious(t));
    assert r.producers[t := Claimed(c, payload)][t := Writing(c, payload, 0)] == r.producers[t := Writing(c, payload, 0)];
    if loaded.producers[t].Lapped? {
      LeadsNext(run, loaded, CountDrop(t));
      assert loaded.producers[t := Writing(c, payload, 0)] == r.producers[t := Writing(c, payload, 0)];
      dropped := r.dropped + 1;
    } else {
      dropped := r.dropped;
    }
  }

  /** The thread's first `n` words stored. */
  function Stored(r: Ring, t: nat, c: nat, payload: Payload, n: nat): Ring
    requires Shaped(r) && n <= WORDS
  {
    var slot := SlotOf(r, c);
    r.(slots := r.slots[c % SLOTS := slot.(words := payload[..n] + slot.words[n..])],
       producers := r.producers[t := Writing(c, payload, n)])
  }

  lemma NothingStored(r: Ring, t: nat, c: nat, payload: Payload)
    requires Shaped(r) && t in r.producers && r.producers[t] == Writing(c, payload, 0)
    ensures Stored(r, t, c, payload, 0) == r
  {
    var slot := SlotOf(r, c);
    assert payload[..0] + slot.words[0..] == slot.words;
    assert r.slots[c % SLOTS := slot] == r.slots;
    assert r.producers[t := Writing(c, payload, 0)] == r.producers;
  }

  lemma OneMoreStored(r: Ring, t: nat, c: nat, payload: Payload, n: nat)
    requires Shaped(r) && n < WORDS
    ensures Enabled(Stored(r, t, c, payload, n), StoreWord(t))
    ensures Next(Stored(r, t, c, payload, n), StoreWord(t)) == Stored(r, t, c, payload, n + 1)
  {
    var words := SlotOf(r, c).words;
    assert (payload[..n] + words[n..])[n := payload[n]] == payload[..n + 1] + words[n + 1..];
  }

  lemma {:induction false} WordsStored(run: seq<Step>, r: Ring, t: nat, c: nat, payload: Payload, n: nat)
    requires Leads(run, r) && t in r.producers && r.producers[t] == Writing(c, payload, 0) && n <= WORDS
    ensures Leads(run, Stored(r, t, c, payload, n))
    decreases n
  {
    if n == 0 {
      NothingStored(r, t, c, payload);
    } else {
      WordsStored(run, r, t, c, payload, n - 1);
      OneMoreStored(r, t, c, payload, n - 1);
      LeadsNext(run, Stored(r, t, c, payload, n - 1), StoreWord(t));
    }
  }

  /** The whole emit over. */
  function Emitted(r: Ring, payload: Payload, dropped: nat): Ring
    requires Shaped(r)
  {
    var c := r.writeIndex;
    r.(writeIndex := c + 1, claims := r.claims + [payload], dropped := dropped,
       slots := r.slots[c % SLOTS := Slot(c + 1, payload)])
  }

  lemma CommitIs(r: Ring, t: nat, payload: Payload, dropped: nat)
    requires Shaped(r) && t !in r.producers
    ensures var stored := Stored(Underway(r, t, payload, dropped), t, r.writeIndex, payload, WORDS);
            Enabled(stored, Commit(t)) && Next(stored, Commit(t)) == Emitted(r, payload, dropped)
  {
    var c := r.writeIndex;
    var stored := Stored(Underway(r, t, payload, dropped), t, c, payload, WORDS);
    assert payload[..WORDS] + SlotOf(r, c).words[WORDS..] == payload;
    assert stored.producers - {t} == r.producers;
    assert stored.slots[c % SLOTS := Slot(c + 1, payload)] == r.slots[c % SLOTS := Slot(c + 1, payload)];
  }

  /** One whole emit, whatever the drainer is in the middle of. */
  lemma WholeEmit(run: seq<Step>, r: Ring, t: nat, payload: Payload) returns (dropped: nat)
    requires Leads(run, r) && r.active && t !in r.producers
    ensures Leads(run, Emitted(r, payload, dropped))
  {
    dropped := EmitStarted(run, r, t, payload);
    var started := Underway(r, t, payload, dropped);
    WordsStored(run, started, t, r.writeIndex, payload, WORDS);
    CommitIs(r, t, payload, dropped);
    LeadsNext(run, Stored(started, t, r.writeIndex, payload, WORDS), Commit(t));
  }

  /** Nothing but emits into other slots happened. */
  predicate OthersWritten(r: Ring, r': Ring, at: nat)
    requires Shaped(r) && Shaped(r') && at < SLOTS
  {
    && r'.active == r.active && r'.producers == r.producers && r'.drainer == r.drainer
    && r'.delivered == r.delivered && r.claims <= r'.claims && r'.slots[at] == r.slots[at]
  }

  lemma OneSlotCloser(w: nat, at: nat)
    requires at < SLOTS && w % SLOTS != at
    ensures 0 <= (at - (w + 1)) % SLOTS < (at - w) % SLOTS
  {
  }

  lemma OtherWritten(r: Ring, payload: Payload, dropped: nat, at: nat)
    requires Shaped(r) && at < SLOTS && r.writeIndex % SLOTS != at
    ensures OthersWritten(r, Emitted(r, payload, dropped), at)
  {
  }

  /** Whole emits by one thread until the next claim falls on the slot `at`. */
  lemma {:induction false} EmittedUntil(run: seq<Step>, r: Ring, t: nat, payload: Payload, at: nat) returns (r': Ring)
    requires Leads(run, r) && r.active && t !in r.producers && at < SLOTS
    ensures Leads(run, r') && OthersWritten(r, r', at) && r'.writeIndex % SLOTS == at
    decreases (at - r.writeIndex) % SLOTS
  {
    if r.writeIndex % SLOTS == at {
      r' := r;
    } else {
      var dropped := WholeEmit(run, r, t, payload);
      OtherWritten(r, payload, dropped, at);
      OneSlotCloser(r.writeIndex, at);
      r' := EmittedUntil(run, Emitted(r, payload, dropped), t, payload, at);
    }
  }

  /** The first `n` words copied. */
  function WithRead(r: Ring, n: nat): Ring
    requires Shaped(r) && r.drainer.Copying? && n <= WORDS
  {
    r.(drainer := r.drainer.(read := SlotOf(r, r.drainer.drained).words[..n]))
  }

  lemma {:induction false} WordsCopied(run: seq<Step>, r: Ring, n: nat)
    requires Leads(run, r) && r.drainer.Copying? && r.drainer.read == [] && n <= WORDS
    ensures Leads(run, WithRead(r, n))
    decreases n
  {
    if n == 0 {
      assert WithRead(r, 0) == r;
    } else {
      WordsCopied(run, r, n - 1);
      var words := SlotOf(r, r.drainer.drained).words;
      assert words[..n - 1] + [words[n - 1]] == words[..n];
      LeadsNext(run, WithRead(r, n - 1), CopyWord);
    }
  }

  /** The slot's first word is stored by a claim that has just got the slot. */
  lemma FirstWordStored(run: seq<Step>, r: Ring, t: nat, payload: Payload) returns (r': Ring)
    requires Leads(run, r) && r.active && t !in r.producers
    ensures Leads(run, r') && r'.drainer == r.drainer && r'.delivered == r.delivered && r.claims <= r'.claims
    ensures SlotOf(r', r.writeIndex).words == SlotOf(r, r.writeIndex).words[0 := payload[0]]
  {
    var dropped := EmitStarted(run, r, t, payload);
    var started := Underway(r, t, payload, dropped);
    LeadsNext(run, started, StoreWord(t));
    r' := Next(started, StoreWord(t));
  }

  lemma CopyDelivered(run: seq<Step>, r: Ring) returns (r': Ring)
    requires Leads(run, r) && r.drainer.Copying? && r.drainer.read == []
    ensures Leads(run, r') && r'.claims == r.claims && r'.writeIndex == r.writeIndex
    ensures var c := r.drainer.drained; r'.delivered == r.delivered + [(c, SlotOf(r, c).words)]
  {
    WordsCopied(run, r, WORDS);
    LeadsNext(run, WithRead(r, WORDS), Deliver);
    r' := Next(WithRead(r, WORDS), Deliver);
    var words := SlotOf(r, r.drainer.drained).words;
    assert words[..WORDS] == words;
  }

  /** Whatever led to a copy, it can still be torn: one thread goes on emitting until it
      holds the slot and stores one word, and the drainer delivers that word in front of
      the others it found. */
  lemma AnyCopyCanBeTorn(run: seq<Step>, t: nat, payload: Payload) returns (torn: Ring)
    requires Legal(run) && After(run).drainer.Copying? && After(run).drainer.read == []
    requires t !in After(run).producers
    ensures var r := After(run);
            var c := r.drainer.drained;
            && Leads(run, torn) && r.claims <= torn.claims
            && torn.delivered == r.delivered + [(c, SlotOf(r, c).words[0 := payload[0]])]
  {
    AlwaysInRun(run);
    LeadsHere(run);
    var c := After(run).drainer.drained;
    var lapped := EmittedUntil(run, After(run), t, payload, c % SLOTS);
    var stored := FirstWordStored(run, lapped, t, payload);
    torn := CopyDelivered(run, stored);
  }

  lemma LeadsSomewhere(run: seq<Step>, r: Ring) returns (longer: seq<Step>)
    requires Leads(run, r)
    ensures Legal(longer) && After(longer) == r
  {
    var more :| Legal(run + more) && After(run + more) == r;
    longer := run + more;
  }

  /** The drainer begins to copy a committed slot at its cursor. */
  lemma CopyBegun(run: seq<Step>, r: Ring)
    requires Leads(run, r) && r.active && r.drainer.Resting? && r.cursor < r.writeIndex <= r.cursor + SLOTS
    requires RingMemory.CommittedAt(r.slots, r.cursor)
    ensures Leads(run, r.(drainer := Copying(r.cursor, r.writeIndex, 0, [])))
  {
    LeadsNext(run, r, BeginDrain);
    LeadsNext(run, r.(drainer := Drainer.Started), ReadIndex);
    LeadsNext(run, r.(drainer := Draining(r.cursor, r.writeIndex, 0)), Poll);
  }

  /** One emit committed, and the drainer about to copy it. */
  lemma FirstCopy(run: seq<Step>, payload: Payload) returns (longer: seq<Step>)
    requires Legal(run) && After(run) == Fresh()
    ensures Legal(longer)
    ensures var r := After(longer);
            && r.drainer == Copying(0, 1, 0, []) && r.producers == map[]
            && r.claims == [payload] && r.delivered == [] && r.slots[0].words == payload
  {
    LeadsHere(run);
    LeadsNext(run, Fresh(), Activate);
    var active := Fresh().(active := true);
    var dropped := WholeEmit(run, active, 0, payload);
    var emitted := Emitted(active, payload, dropped);
    CopyBegun(run, emitted);
    longer := LeadsSomewhere(run, emitted.(drainer := Copying(0, 1, 0, [])));
  }

  /** A first record torn: neither claim 0's payload nor anyone else's. */
  lemma SomeReadIsTorn() returns (run: seq<Step>)
    ensures Legal(run) && After(run).claims != [] && After(run).claims[0] == [1, 1, 1, 1, 1, 1]
    ensures After(run).delivered == [(0, [2, 1, 1, 1, 1, 1])]
  {
    var polled := FirstCopy([], [1, 1, 1, 1, 1, 1]);
    var torn := AnyCopyCanBeTorn(polled, 0, [2, 2, 2, 2, 2, 2]);
    assert [1, 1, 1, 1, 1, 1][0 := 2] == [2, 1, 1, 1, 1, 1];
    run := LeadsSomewhere(polled, torn);
  }
}
