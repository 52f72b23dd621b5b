/** The scoring consumer (crates/agent/src/plugins/scoring.rs): bus events in, a
    running session maximum out. */
module Scoring {
  import opened Wrappers
  import opened Chains

  datatype Weights = Weights(
    cliStarted: nat, dropObserved: nat, runKeySet: nat, chainInjection: nat, chainRansomware: nat)

  function Weight(w: Weights, c: ChainId): nat {
    match c
    case Injection => w.chainInjection
    case Ransomware => w.chainRansomware
  }

  /** The bus events the consumer reacts to. `cli` says whether the image that
      entered the scope is a CLI or interpreter. */
  datatype BusEvent =
    | EnteredScope(pid: nat, cli: bool)
    | ExitedScope(pid: nat)
    | DropObserved
    | BehaviorObserved(pid: nat, api: nat)
    | Other

  function Remembered(m: Memory, e: BusEvent): Memory {
    match e
    case BehaviorObserved(pid, api) => Observed(m, pid, api)
    case ExitedScope(pid) => Forgotten(m, pid)
    case _ => m
  }

  /** Every score one event gives rise to, each signal on its own. */
  function Signals(w: Weights, m: Memory, e: BusEvent): seq<nat> {
    match e
    case EnteredScope(_, cli) => if cli then [w.cliStarted] else []
    case DropObserved => [w.dropObserved]
    case BehaviorObserved(pid, api) =>
      var f := Reported(m, pid, api);
      (if f.runKeySet then [w.runKeySet] else []) + ChainWeights(w, f.chains)
    case _ => []
  }

  function ChainWeights(w: Weights, chains: seq<ChainId>): seq<nat> {
    seq(|chains|, i requires 0 <= i < |chains| => Weight(w, chains[i]))
  }

  function MemoryAfter(run: seq<BusEvent>): Memory {
    if run == [] then FORGOTTEN else Remembered(MemoryAfter(run[..|run| - 1]), run[|run| - 1])
  }

  /** All signals of a run, in order. */
  function AllSignals(w: Weights, run: seq<BusEvent>): seq<nat> {
    if run == [] then []
    else AllSignals(w, run[..|run| - 1]) + Signals(w, MemoryAfter(run[..|run| - 1]), run[|run| - 1])
  }

  /** `m` is the greatest of the scores, 0 when there is none. */
  predicate IsMaximum(scores: seq<nat>, m: nat) {
    && (forall s | s in scores :: s <= m)
    && (m == 0 || m in scores)
  }

  lemma MaximumExtends(scores: seq<nat>, m: nat, more: seq<nat>, k: nat)
    requires IsMaximum(scores, m) && IsMaximum(more, k)
    ensures IsMaximum(scores + more, if k > m then k else m)
  {
    assert forall s :: s in scores + more <==> s in scores || s in more;
  }

  /** One score per event is enough: the code looks at the run-key signal first and
      at the chains only otherwise, and no event has both. */
  predicate IsCandidate(w: Weights, m: Memory, e: BusEvent, candidate: Option<nat>) {
    match candidate
    case None => Signals(w, m, e) == []
    case Some(score) => Signals(w, m, e) != [] && IsMaximum(Signals(w, m, e), score)
  }

  function Raise(score: nat, candidate: Option<nat>): nat {
    if candidate.Some? && candidate.value > score then candidate.value else score
  }

  lemma ScoreFollows(w: Weights, seen: seq<BusEvent>, e: BusEvent, score: nat, candidate: Option<nat>)
    requires IsMaximum(AllSignals(w, seen), score)
    requires IsCandidate(w, MemoryAfter(seen), e, candidate)
    ensures IsMaximum(AllSignals(w, seen + [e]), Raise(score, candidate))
    ensures MemoryAfter(seen + [e]) == Remembered(MemoryAfter(seen), e)
  {
    assert (seen + [e])[..|seen|] == seen;
    var signals := Signals(w, MemoryAfter(seen), e);
    if candidate.Some? {
      MaximumExtends(AllSignals(w, seen), score, signals, candidate.value);
    } else {
      assert AllSignals(w, seen) + signals == AllSignals(w, seen);
    }
  }

  /** Strictly increasing positive scores, the last of them the maximum. */
  predicate RaisedUpTo(raised: seq<nat>, score: nat) {
    && (forall i, j | 0 <= i < j < |raised| :: raised[i] < raised[j])
    && (forall i | 0 <= i < |raised| :: 0 < raised[i] <= score)
    && score == (if raised == [] then 0 else raised[|raised| - 1])
  }

  class ScoringPlugin {
    const weights: Weights
    const detector: ChainDetector
    var maxScore: nat
    /** The SessionScoreRaised events published so far. */
    var raised: seq<nat>
    ghost var seen: seq<BusEvent>

    ghost predicate Valid()
      reads this, detector
    {
      && detector.Valid() && detector.memory == MemoryAfter(seen)
      && IsMaximum(AllSignals(weights, seen), maxScore)
      && RaisedUpTo(raised, maxScore)
    }

    constructor (w: Weights)
      ensures Valid() && fresh(detector) && weights == w && seen == []
    {
      weights := w;
      detector := new ChainDetector();
      maxScore, raised, seen := 0, [], [];
    }

    method Candidate(event: BusEvent) returns (candidate: Option<nat>)
      requires detector.Valid()
      modifies detector
      ensures detector.Valid() && detector.memory == Remembered(old(detector.memory), event)
      ensures IsCandidate(weights, old(detector.memory), event, candidate)
    {
      candidate := None;
      match event
      case EnteredScope(_, cli) =>
        if cli {
          candidate := Some(weights.cliStarted);
        }
      case DropObserved =>
        candidate := Some(weights.dropObserved);
      case BehaviorObserved(pid, api) =>
        ghost var m := detector.memory;
        var finding := detector.Observe(pid, api);
        if finding.runKeySet {
          NoFindingCarriesBoth(m, pid, api);
          candidate := Some(weights.runKeySet);
        } else {
          candidate := MaxWeight(finding.chains);
        }
      case ExitedScope(pid) =>
        detector.Forget(pid);
      case Other =>
    }

    method MaxWeight(chains: seq<ChainId>) returns (best: Option<nat>)
      ensures best.None? <==> chains == []
      ensures best.Some? ==> IsMaximum(ChainWeights(weights, chains), best.value)
    {
      best := None;
      for i := 0 to |chains|
        invariant best.None? <==> i == 0
        invariant best.Some? ==> IsMaximum(ChainWeights(weights, chains[..i]), best.value)
      {
        var score := Weight(weights, chains[i]);
        assert chains[..i + 1] == chains[..i] + [chains[i]];
        assert ChainWeights(weights, chains[..i + 1]) == ChainWeights(weights, chains[..i]) + [score];
        assert ChainWeights(weights, chains[..0]) == [];
        MaximumExtends(ChainWeights(weights, chains[..i]), if best.Some? then best.value else 0, [score], score);
        if best.None? || score > best.value {
          best := Some(score);
        }
      }
      assert chains[..|chains|] == chains;
    }

    /** After any run of events the session score is the maximum of every signal of
        the run, and the raises published are strictly increasing up to it. */
    method Handle(event: BusEvent)
      requires Valid()
      modifies this`maxScore, this`raised, this`seen, detector
      ensures Valid() && seen == old(seen) + [event]
      ensures raised == old(raised) || raised == old(raised) + [maxScore]
    {
      var candidate := Candidate(event);
      ScoreFollows(weights, seen, event, maxScore, candidate);
      if candidate.Some? {
        var previous := maxScore;
        if candidate.value > previous {
          maxScore := candidate.value;
          raised := raised + [candidate.value];
        }
      }
      seen := seen + [event];
    }
  }

  lemma {:induction false} SignalsOfPrefix(w: Weights, run: seq<BusEvent>, i: nat)
    requires i < |run|
    ensures forall s | s in Signals(w, MemoryAfter(run[..i]), run[i]) :: s in AllSignals(w, run)
    decreases |run|
  {
    if i < |run| - 1 {
      SignalsOfPrefix(w, run[..|run| - 1], i);
      assert run[..|run| - 1][..i] == run[..i];
    }
  }

  /** The score a valid consumer reports dominates each chain completed anywhere in the
      run, with completion counted, in 32 bits, from the creation of the pid's slot. */
  lemma ScoreCoversCompletedChains(w: Weights, run: seq<BusEvent>, i: nat, c: ChainId, score: nat)
    requires i < |run| && run[i].BehaviorObserved?
    requires IsMaximum(AllSignals(w, run), score)
    ensures CompletesAt(MemoryAfter(run[..i]), run[i].pid, run[i].api, c) ==> score >= Weight(w, c)
  {
    var m := MemoryAfter(run[..i]);
    if CompletesAt(m, run[i].pid, run[i].api, c) {
      FiredIsComplete(CallsOf(m, run[i].pid), c);
      var f := Reported(m, run[i].pid, run[i].api);
      assert c in f.chains by {
        match c case Injection => case Ransomware =>
      }
      var k :| 0 <= k < |f.chains| && f.chains[k] == c;
      assert ChainWeights(w, f.chains)[k] == Weight(w, c);
      assert Weight(w, c) in Signals(w, m, run[i]);
      SignalsOfPrefix(w, run, i);
    }
  }

  /** The call is taken in and completes the chain on the pid's counters. */
  predicate CompletesAt(m: Memory, pid: nat, api: nat, c: ChainId) {
    !Refused(m, pid) && !Complete(CallsOf(m, pid), c) && CountersComplete(CallsOf(m, pid) + [api], c)
  }
}
