/** What each event of a run is worth, told from the events alone
    (crates/agent/src/plugins/scoring.rs, crates/agent/src/domain/score.rs). */
module ScoreRuns {
  import opened Wrappers
  import opened Chains
  import opened Scoring

  // ---- Calls counted since a pid's slot, from the events

  /** The pids that hold one of the 4096 slots: from a call that finds one free to the pid's
      exit from the scope. */
  function Holders(run: seq<BusEvent>): set<nat> {
    if run == [] then {}
    else
      var before := Holders(run[..|run| - 1]);
      match run[|run| - 1]
      case BehaviorObserved(pid, _) => if pid in before || |before| < 4096 then before + {pid} else before
      case ExitedScope(pid) => before - {pid}
      case _ => before
  }

  /** How often a pid made a call since it got its slot. */
  function Count(run: seq<BusEvent>, pid: nat, api: nat): nat {
    if run == [] then 0
    else
      var before := Count(run[..|run| - 1], pid, api);
      match run[|run| - 1]
      case BehaviorObserved(p, a) => if p == pid && a == api && pid in Holders(run) then before + 1 else before
      case ExitedScope(p) => if p == pid then 0 else before
      case _ => before
  }

  ghost predicate Follows(run: seq<BusEvent>) {
    && MemoryAfter(run).slots.Keys == Holders(run)
    && forall pid: nat, api: nat {:trigger Count(run, pid, api)} ::
         Count(run, pid, api) == Sightings(CallsOf(MemoryAfter(run), pid), api)
  }

  lemma OneMoreSighting(calls: seq<nat>, api: nat, other: nat)
    ensures Sightings(calls + [api], other) == Sightings(calls, other) + if api == other then 1 else 0
  {
    assert (calls + [api])[..|calls|] == calls;
  }

  lemma HoldersFollow(run: seq<BusEvent>)
    requires run != [] && Follows(run[..|run| - 1])
    ensures MemoryAfter(run).slots.Keys == Holders(run)
  {
    var m := MemoryAfter(run[..|run| - 1]);
    assert |m.slots| == |m.slots.Keys|;
    match run[|run| - 1]
    case BehaviorObserved(pid, api) => assert Observed(m, pid, api).slots.Keys == Holders(run);
    case ExitedScope(pid) => assert Forgotten(m, pid).slots.Keys == m.slots.Keys - {pid};
    case _ =>
  }

  lemma CountFollows(run: seq<BusEvent>, pid: nat, api: nat)
    requires run != [] && Follows(run[..|run| - 1]) && MemoryAfter(run).slots.Keys == Holders(run)
    ensures Count(run, pid, api) == Sightings(CallsOf(MemoryAfter(run), pid), api)
  {
    var init := run[..|run| - 1];
    var m := MemoryAfter(init);
    assert Count(init, pid, api) == Sightings(CallsOf(m, pid), api);
    match run[|run| - 1]
    case BehaviorObserved(p, a) =>
      OneMoreSighting(CallsOf(m, pid), a, api);
      assert |m.slots| == |m.slots.Keys|;
    case ExitedScope(p) =>
    case _ =>
  }

  lemma {:induction false} AlwaysFollows(run: seq<BusEvent>)
    ensures Follows(run)
  {
    if run != [] {
      AlwaysFollows(run[..|run| - 1]);
      HoldersFollow(run);
      forall pid: nat, api: nat
        ensures Count(run, pid, api) == Sightings(CallsOf(MemoryAfter(run), pid), api)
      {
        CountFollows(run, pid, api);
      }
    }
  }

  // ---- What an event is worth

  /** A cross-process write and a thread creation, the later of them this call. */
  predicate Injects(run: seq<BusEvent>, pid: nat, api: nat) {
    || (api == 9 && Count(run, pid, 9) == 0 && Count(run, pid, 4) > 0)
    || (api == 4 && Count(run, pid, 4) == 0 && Count(run, pid, 9) > 0)
  }

  /** Eight encryptions and a shadow-copy deletion, the last of them this call. */
  predicate Ransoms(run: seq<BusEvent>, pid: nat, api: nat) {
    || (api == 12 && Count(run, pid, 12) == 7 && Count(run, pid, 10) > 0)
    || (api == 10 && Count(run, pid, 10) == 0 && Count(run, pid, 12) >= 8)
  }

  /** The call gets into a slot. */
  predicate Counted(run: seq<BusEvent>, pid: nat) {
    pid in Holders(run) || |Holders(run)| < 4096
  }

  /** The scores an event gives rise to after a run. */
  predicate Worth(w: Weights, run: seq<BusEvent>, e: BusEvent, score: nat) {
    match e
    case EnteredScope(_, cli) => cli && score == w.cliStarted
    case DropObserved => score == w.dropObserved
    case BehaviorObserved(pid, api) =>
      Counted(run, pid)
      && (|| (api == 7 && Count(run, pid, 7) == 0 && score == w.runKeySet)
          || (Injects(run, pid, api) && score == w.chainInjection)
          || (Ransoms(run, pid, api) && score == w.chainRansomware))
    case _ => false
  }

  lemma {:induction false} SeenIffSighted(calls: seq<nat>, api: nat)
    ensures api in calls <==> Sightings(calls, api) > 0
  {
    if calls != [] {
      SeenIffSighted(calls[..|calls| - 1], api);
      assert calls == calls[..|calls| - 1] + [calls[|calls| - 1]];
    }
  }

  /** No 32-bit counter of these calls has wrapped. */
  ghost predicate Unwrapped(calls: seq<nat>) {
    forall api: nat :: Sightings(calls, api) < U32_RANGE
  }

  lemma FiredIffComplete(calls: seq<nat>, api: nat, c: ChainId)
    requires Unwrapped(calls) && Unwrapped(calls + [api])
    ensures Fired(calls, c) <==> Complete(calls, c)
    ensures CountersComplete(calls + [api], c) <==> Complete(calls + [api], c)
  {
    FiredIsComplete(calls, c);
    CountersAreExact(calls + [api], c);
  }

  lemma InjectionComplete(calls: seq<nat>)
    ensures Complete(calls, Injection) <==> Sightings(calls, 9) >= 1 && Sightings(calls, 4) >= 1
  {
    assert (9, 1) == Members(Injection)[0] && (4, 1) == Members(Injection)[1];
  }

  lemma RansomwareComplete(calls: seq<nat>)
    ensures Complete(calls, Ransomware) <==> Sightings(calls, 12) >= 8 && Sightings(calls, 10) >= 1
  {
    assert (12, 8) == Members(Ransomware)[0] && (10, 1) == Members(Ransomware)[1];
  }

  lemma InjectionFires(run: seq<BusEvent>, calls: seq<nat>, pid: nat, api: nat)
    requires Unwrapped(calls) && Unwrapped(calls + [api]) && forall a :: Count(run, pid, a) == Sightings(calls, a)
    ensures NewlyFired(calls, api, Injection) == if Injects(run, pid, api) then [Injection] else []
  {
    FiredIffComplete(calls, api, Injection);
    InjectionComplete(calls);
    InjectionComplete(calls + [api]);
    OneMoreSighting(calls, api, 9);
    OneMoreSighting(calls, api, 4);
  }

  lemma RansomwareFires(run: seq<BusEvent>, calls: seq<nat>, pid: nat, api: nat)
    requires Unwrapped(calls) && Unwrapped(calls + [api]) && forall a :: Count(run, pid, a) == Sightings(calls, a)
    ensures NewlyFired(calls, api, Ransomware) == if Ransoms(run, pid, api) then [Ransomware] else []
  {
    FiredIffComplete(calls, api, Ransomware);
    RansomwareComplete(calls);
    RansomwareComplete(calls + [api]);
    OneMoreSighting(calls, api, 12);
    OneMoreSighting(calls, api, 10);
  }

  lemma ChainsWeigh(w: Weights, chains: seq<ChainId>, score: nat)
    ensures score in ChainWeights(w, chains) <==>
              (Injection in chains && score == w.chainInjection) || (Ransomware in chains && score == w.chainRansomware)
  {
    var weights := ChainWeights(w, chains);
    if Injection in chains {
      var i :| 0 <= i < |chains| && chains[i] == Injection;
      assert weights[i] == w.chainInjection;
    }
    if Ransomware in chains {
      var i :| 0 <= i < |chains| && chains[i] == Ransomware;
      assert weights[i] == w.chainRansomware;
    }
    if score in weights {
      var i :| 0 <= i < |weights| && weights[i] == score;
      assert chains[i] in chains;
    }
  }

  /** No counter of a held slot wraps in the run: fewer than 2^32 calls of one kind between a
      pid's slot and its exit. */
  ghost predicate NeverWraps(run: seq<BusEvent>) {
    && (run == [] || NeverWraps(run[..|run| - 1]))
    && forall pid: nat, api: nat :: Count(run, pid, api) < U32_RANGE
  }

  lemma CallsUnwrapped(run: seq<BusEvent>, pid: nat)
    requires NeverWraps(run)
    ensures Unwrapped(CallsOf(MemoryAfter(run), pid))
  {
    AlwaysFollows(run);
    forall api: nat
      ensures Sightings(CallsOf(MemoryAfter(run), pid), api) < U32_RANGE
    {
      assert Count(run, pid, api) < U32_RANGE;
    }
  }

  lemma CallTaken(run: seq<BusEvent>, pid: nat, api: nat)
    requires Counted(run, pid)
    ensures !Refused(MemoryAfter(run), pid)
    ensures CallsOf(MemoryAfter(run + [BehaviorObserved(pid, api)]), pid) == CallsOf(MemoryAfter(run), pid) + [api]
  {
    var e := BehaviorObserved(pid, api);
    AlwaysFollows(run);
    var m := MemoryAfter(run);
    assert |m.slots| == |m.slots.Keys|;
    assert (run + [e])[..|run|] == run && (run + [e])[|run|] == e;
    assert MemoryAfter(run + [e]) == Observed(m, pid, api);
  }

  lemma CallIsWorth(w: Weights, run: seq<BusEvent>, pid: nat, api: nat, score: nat)
    requires NeverWraps(run) && NeverWraps(run + [BehaviorObserved(pid, api)])
    ensures score in Signals(w, MemoryAfter(run), BehaviorObserved(pid, api))
       <==> Worth(w, run, BehaviorObserved(pid, api), score)
  {
    var m := MemoryAfter(run);
    var calls := CallsOf(m, pid);
    AlwaysFollows(run);
    assert forall a :: Count(run, pid, a) == Sightings(calls, a);
    if Counted(run, pid) {
      CallTaken(run, pid, api);
      CallsUnwrapped(run, pid);
      CallsUnwrapped(run + [BehaviorObserved(pid, api)], pid);
      InjectionFires(run, calls, pid, api);
      RansomwareFires(run, calls, pid, api);
      SeenIffSighted(calls, 7);
      ChainsWeigh(w, Reported(m, pid, api).chains, score);
    } else {
      assert |m.slots| == |m.slots.Keys| && Refused(m, pid);
      assert ChainWeights(w, []) == [];
    }
  }

  lemma EventIsWorth(w: Weights, run: seq<BusEvent>, e: BusEvent, score: nat)
    requires NeverWraps(run) && NeverWraps(run + [e])
    ensures score in Signals(w, MemoryAfter(run), e) <==> Worth(w, run, e, score)
  {
    if e.BehaviorObserved? {
      CallIsWorth(w, run, e.pid, e.api, score);
    }
  }

  /** The i-th event of the run is worth this much. */
  predicate WorthAt(w: Weights, run: seq<BusEvent>, i: nat, score: nat) {
    i < |run| && Worth(w, run[..i], run[i], score)
  }

  lemma WorthOfPrefix(w: Weights, run: seq<BusEvent>, i: nat, score: nat)
    requires run != [] && i < |run| - 1
    ensures WorthAt(w, run, i, score) <==> WorthAt(w, run[..|run| - 1], i, score)
  {
    assert run[..|run| - 1][..i] == run[..i];
  }

  ghost predicate SomeWorth(w: Weights, run: seq<BusEvent>, score: nat) {
    exists i: nat :: WorthAt(w, run, i, score)
  }

  lemma LastWorth(w: Weights, run: seq<BusEvent>, init: seq<BusEvent>, e: BusEvent, score: nat)
    requires run == init + [e]
    ensures WorthAt(w, run, |init|, score) <==> Worth(w, init, e, score)
  {
    assert run[..|init|] == init && run[|init|] == e;
  }

  lemma MoreWorth(w: Weights, run: seq<BusEvent>, init: seq<BusEvent>, e: BusEvent, score: nat)
    requires run == init + [e] && init == run[..|run| - 1]
    ensures SomeWorth(w, run, score) <==> SomeWorth(w, init, score) || Worth(w, init, e, score)
  {
    LastWorth(w, run, init, e, score);
    if SomeWorth(w, init, score) {
      var i: nat :| WorthAt(w, init, i, score);
      WorthOfPrefix(w, run, i, score);
    }
    if SomeWorth(w, run, score) {
      var i: nat :| WorthAt(w, run, i, score);
      if i < |init| {
        WorthOfPrefix(w, run, i, score);
      }
    }
  }

  lemma SignalsGrow(w: Weights, run: seq<BusEvent>, score: nat)
    requires run != []
    ensures score in AllSignals(w, run) <==>
              score in AllSignals(w, run[..|run| - 1])
              || score in Signals(w, MemoryAfter(run[..|run| - 1]), run[|run| - 1])
  {
  }

  /** A score is among all those of a run exactly when some event of it is worth that much:
      an interpreter's entry, a drop, a pid's first run-key write, the call that completes an
      injection, or the one that completes a ransomware chain, each by its own weight. */
  lemma {:induction false} SignalIffWorth(w: Weights, run: seq<BusEvent>, score: nat)
    requires NeverWraps(run)
    ensures score in AllSignals(w, run) <==> SomeWorth(w, run, score)
    decreases |run|
  {
    if run != [] {
      var init, e := run[..|run| - 1], run[|run| - 1];
      assert init + [e] == run;
      SignalIffWorth(w, init, score);
      SignalsGrow(w, run, score);
      EventIsWorth(w, init, e, score);
      MoreWorth(w, run, init, e, score);
    }
  }

  /** So the session score is the greatest of these, and zero without any. */
  lemma ScoreIsGreatestWorth(w: Weights, run: seq<BusEvent>, score: nat)
    requires NeverWraps(run) && IsMaximum(AllSignals(w, run), score)
    ensures forall i: nat, s: nat :: WorthAt(w, run, i, s) ==> s <= score
    ensures score == 0 || SomeWorth(w, run, score)
  {
    forall i: nat, s: nat | WorthAt(w, run, i, s)
      ensures s <= score
    {
      assert SomeWorth(w, run, s);
      SignalIffWorth(w, run, s);
    }
    if score != 0 {
      SignalIffWorth(w, run, score);
    }
  }
}
