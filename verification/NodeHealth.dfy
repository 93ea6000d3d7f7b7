/**
  One node of the health-aware pool: its two streak counters, its healthy flag and the
  size-1 wake-up channel of its probe loop (pkg/client/health.go).

  `NodeState` is the mutable node. `Record` is what one outcome does to it, `Replay` what a
  whole history of outcomes does, and the lemmas say what that comes to.
 */
module NodeHealth {

  const DEFAULT_THRESHOLD := 2

  datatype ThresholdConfig = ThresholdConfig(failure: int, success: int)

  /** A configuration that has been through `WithDefaults`. */
  type Thresholds = t: ThresholdConfig | 1 <= t.failure && 1 <= t.success
    witness ThresholdConfig(2, 2)

  function WithDefaults(c: ThresholdConfig): (t: Thresholds)
    ensures 1 <= c.failure ==> t.failure == c.failure
    ensures 1 <= c.success ==> t.success == c.success
    ensures c.failure <= 0 ==> t.failure == DEFAULT_THRESHOLD
    ensures c.success <= 0 ==> t.success == DEFAULT_THRESHOLD
  {
    ThresholdConfig(if c.failure <= 0 then DEFAULT_THRESHOLD else c.failure,
                    if c.success <= 0 then DEFAULT_THRESHOLD else c.success)
  }

  /** How a call or a probe ended. `ClassifyErr` decides which errors are network failures. */
  datatype Outcome = Success | NetworkFailure | LogicalFailure

  datatype Health = Health(healthy: bool, successes: nat, failures: nat)

  const FRESH := Health(true, 0, 0)

  function Record(t: Thresholds, h: Health, o: Outcome): Health {
    match o
    case Success => Health(h.healthy || t.success <= h.successes + 1, h.successes + 1, 0)
    case NetworkFailure => Health(h.healthy && h.failures + 1 < t.failure, 0, h.failures + 1)
    case LogicalFailure => h
  }

  function Replay(t: Thresholds, history: seq<Outcome>): Health {
    if history == [] then FRESH
    else Record(t, Replay(t, history[..|history| - 1]), history[|history| - 1])
  }

  class NodeState {
    const tier: int
    var healthy: bool
    var consecutiveSuccess: nat
    var consecutiveFailure: nat
    var notified: bool  // a token waits in notifyCh

    constructor (tier: int)
      ensures this.tier == tier && State() == FRESH && !notified
    {
      this.tier := tier;
      healthy, consecutiveSuccess, consecutiveFailure, notified := true, 0, 0, false;
    }

    function State(): Health
      reads this
    {
      Health(healthy, consecutiveSuccess, consecutiveFailure)
    }

    method MarkSuccess(t: Thresholds) returns (transition: bool)
      modifies this`healthy, this`consecutiveSuccess, this`consecutiveFailure
      ensures State() == Record(t, old(State()), Success)
      ensures transition <==> !old(healthy) && healthy
    {
      consecutiveFailure := 0;
      consecutiveSuccess := consecutiveSuccess + 1;
      transition := !healthy && consecutiveSuccess >= t.success;
      if transition {
        healthy := true;
      }
    }

    method MarkFailure(t: Thresholds) returns (transition: bool)
      modifies this`healthy, this`consecutiveSuccess, this`consecutiveFailure
      ensures State() == Record(t, old(State()), NetworkFailure)
      ensures transition <==> old(healthy) && !healthy
    {
      consecutiveSuccess := 0;
      consecutiveFailure := consecutiveFailure + 1;
      transition := healthy && consecutiveFailure >= t.failure;
      if transition {
        healthy := false;
      }
    }

    /** The outcome of a live call or a probe; logical errors leave the node alone. */
    method RecordOutcome(t: Thresholds, o: Outcome) returns (transition: bool)
      modifies this`healthy, this`consecutiveSuccess, this`consecutiveFailure
      ensures State() == Record(t, old(State()), o)
      ensures transition <==> old(healthy) != healthy
    {
      transition := false;
      match o {
        case Success => transition := MarkSuccess(t);
        case NetworkFailure => transition := MarkFailure(t);
        case LogicalFailure =>
      }
    }

    /** Non-blocking send on the size-1 channel: a full channel drops the token. */
    method Notify()
      modifies this`notified
      ensures notified
    {
      if !notified {
        notified := true;
      }
    }
  }

  // ----- Logical errors are invisible -----

  function Counted(history: seq<Outcome>): seq<Outcome> {
    if history == [] then []
    else
      var last := history[|history| - 1];
      Counted(history[..|history| - 1]) + if last == LogicalFailure then [] else [last]
  }

  lemma {:induction false} ReplayIgnoresLogicalErrors(t: Thresholds, history: seq<Outcome>)
    ensures Replay(t, history) == Replay(t, Counted(history))
    ensures LogicalFailure !in Counted(history)
  {
    if history != [] {
      var front, last := history[..|history| - 1], history[|history| - 1];
      ReplayIgnoresLogicalErrors(t, front);
      if last != LogicalFailure {
        var c := Counted(history);
        assert c[..|c| - 1] == Counted(front);
      } else {
        assert Counted(history) == Counted(front);
      }
    }
  }

  /** Inserting a logical error anywhere in a history changes nothing. */
  lemma InsertedLogicalErrorChangesNothing(t: Thresholds, before: seq<Outcome>, after: seq<Outcome>)
    ensures Replay(t, before + [LogicalFailure] + after) == Replay(t, before + after)
  {
    CountedConcat(before + [LogicalFailure], after);
    CountedConcat(before, after);
    assert (before + [LogicalFailure])[..|before|] == before;
    assert Counted(before + [LogicalFailure]) == Counted(before);
    ReplayIgnoresLogicalErrors(t, before + [LogicalFailure] + after);
    ReplayIgnoresLogicalErrors(t, before + after);
  }

  lemma {:induction false} CountedConcat(a: seq<Outcome>, b: seq<Outcome>)
    ensures Counted(a + b) == Counted(a) + Counted(b)
  {
    if b == [] {
      assert a + b == a;
    } else {
      CountedConcat(a, b[..|b| - 1]);
      assert (a + b)[..|a + b| - 1] == a + b[..|b| - 1];
    }
  }

  // ----- The healthy flag, read off the history -----

  /** A run of `t.failure` network failures ends just before position `p`. */
  ghost predicate DownAt(t: Thresholds, e: seq<Outcome>, p: int) {
    t.failure <= p <= |e| && forall i :: p - t.failure <= i < p ==> e[i] == NetworkFailure
  }

  ghost predicate UpAt(t: Thresholds, e: seq<Outcome>, p: int) {
    t.success <= p <= |e| && forall i :: p - t.success <= i < p ==> e[i] == Success
  }

  /** Some failure run long enough to evict has not been followed by a success run long enough to readmit. */
  ghost predicate Evicted(t: Thresholds, e: seq<Outcome>) {
    exists p :: DownAt(t, e, p) && forall q :: p < q <= |e| ==> !UpAt(t, e, q)
  }

  /** A node is unhealthy exactly when its history, logical errors erased, leaves it evicted. */
  lemma HealthyFlagIsHistory(t: Thresholds, history: seq<Outcome>)
    ensures Replay(t, history).healthy <==> !Evicted(t, Counted(history))
  {
    ReplayIgnoresLogicalErrors(t, history);
    FlagOfCountedHistory(t, Counted(history));
  }

  /** The streak counters are the lengths of the two trailing runs, so at most one is nonzero. */
  ghost predicate StreaksOf(h: Health, e: seq<Outcome>) {
    && h.failures <= |e| && h.successes <= |e|
    && (forall i :: |e| - h.failures <= i < |e| ==> e[i] == NetworkFailure)
    && (forall i :: |e| - h.successes <= i < |e| ==> e[i] == Success)
    && (h.failures < |e| ==> e[|e| - h.failures - 1] != NetworkFailure)
    && (h.successes < |e| ==> e[|e| - h.successes - 1] != Success)
  }

  lemma {:induction false} StreaksAreTrailingRuns(t: Thresholds, e: seq<Outcome>)
    requires LogicalFailure !in e
    ensures StreaksOf(Replay(t, e), e)
  {
    if e != [] {
      StreaksAreTrailingRuns(t, e[..|e| - 1]);
    }
  }

  lemma {:induction false} FlagOfCountedHistory(t: Thresholds, e: seq<Outcome>)
    requires LogicalFailure !in e
    ensures Replay(t, e).healthy <==> !Evicted(t, e)
  {
    if e != [] {
      var front := e[..|e| - 1];
      FlagOfCountedHistory(t, front);
      StreaksAreTrailingRuns(t, front);
      StreaksAreTrailingRuns(t, e);
      var h := Replay(t, e);
      assert h.successes < |e| ==> e[|e| - h.successes - 1] != Success;
      assert h.failures < |e| ==> e[|e| - h.failures - 1] != NetworkFailure;
      assert UpAt(t, e, |e|) <==> t.success <= h.successes;
      assert DownAt(t, e, |e|) <==> t.failure <= h.failures;
      EvictedStep(t, front, e);
    }
  }

  lemma EvictedStep(t: Thresholds, front: seq<Outcome>, e: seq<Outcome>)
    requires e != [] && front == e[..|e| - 1]
    ensures Evicted(t, e) <==> DownAt(t, e, |e|) || (Evicted(t, front) && !UpAt(t, e, |e|))
  {
    assert forall p :: p < |e| ==> (DownAt(t, e, p) <==> DownAt(t, front, p));
    assert forall p :: p < |e| ==> (UpAt(t, e, p) <==> UpAt(t, front, p));
    if Evicted(t, e) && !DownAt(t, e, |e|) {
      var p :| DownAt(t, e, p) && forall q :: p < q <= |e| ==> !UpAt(t, e, q);
      assert DownAt(t, front, p);
      assert forall q :: p < q <= |front| ==> !UpAt(t, front, q);
    }
    if Evicted(t, front) && !UpAt(t, e, |e|) {
      var p :| DownAt(t, front, p) && forall q :: p < q <= |front| ==> !UpAt(t, front, q);
      assert DownAt(t, e, p);
    }
  }

  // ----- How often a node can flap -----

  /** Transitions to unhealthy over a history. */
  function Evictions(t: Thresholds, history: seq<Outcome>): nat {
    if history == [] then 0
    else
      var front := history[..|history| - 1];
      Evictions(t, front) + if Replay(t, front).healthy && !Replay(t, history).healthy then 1 else 0
  }

  function Recoveries(t: Thresholds, history: seq<Outcome>): nat {
    if history == [] then 0
    else
      var front := history[..|history| - 1];
      Recoveries(t, front) + if !Replay(t, front).healthy && Replay(t, history).healthy then 1 else 0
  }

  /**
    Every eviction is paid for by `t.failure` network failures of its own and every recovery
    by `t.success` successes of its own; evictions and recoveries alternate.
   */
  lemma FlappingIsPaidFor(t: Thresholds, history: seq<Outcome>)
    ensures Evictions(t, history) * t.failure <= multiset(history)[NetworkFailure]
    ensures Recoveries(t, history) * t.success <= multiset(history)[Success]
    ensures Evictions(t, history) - Recoveries(t, history) == if Replay(t, history).healthy then 0 else 1
  {
    FlappingLedger(t, history);
  }

  /** What a history has left over after paying for its transitions, and the live streak below its threshold. */
  ghost predicate Ledger(t: Thresholds, h: Health, evictions: int, recoveries: int, failures: int, successes: int) {
    && (if h.healthy then h.failures < t.failure else h.successes < t.success)
    && (h.successes == 0 || h.failures == 0)
    && evictions - recoveries == (if h.healthy then 0 else 1)
    && evictions * t.failure + (if h.healthy then h.failures else 0) <= failures
    && recoveries * t.success + (if h.healthy then 0 else h.successes) <= successes
  }

  lemma {:induction false} FlappingLedger(t: Thresholds, history: seq<Outcome>)
    ensures Ledger(t, Replay(t, history), Evictions(t, history), Recoveries(t, history),
                   multiset(history)[NetworkFailure], multiset(history)[Success])
  {
    if history != [] {
      var front, last := history[..|history| - 1], history[|history| - 1];
      FlappingLedger(t, front);
      assert history == front + [last];
      LedgerStep(t, Replay(t, front), last, Evictions(t, front), Recoveries(t, front),
                 multiset(front)[NetworkFailure], multiset(front)[Success]);
    }
  }

  lemma LedgerStep(t: Thresholds, h: Health, o: Outcome, ev: int, re: int, f: int, s: int)
    requires Ledger(t, h, ev, re, f, s)
    ensures var h' := Record(t, h, o);
            Ledger(t, h',
                   ev + (if h.healthy && !h'.healthy then 1 else 0),
                   re + (if !h.healthy && h'.healthy then 1 else 0),
                   f + (if o == NetworkFailure then 1 else 0),
                   s + (if o == Success then 1 else 0))
  {
    assert (ev + 1) * t.failure == ev * t.failure + t.failure;
    assert (re + 1) * t.success == re * t.success + t.success;
  }
}
