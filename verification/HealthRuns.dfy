/** What the concurrent health-aware transport guarantees over whole runs. */
module HealthRuns {
  import opened Wrappers
  import opened Modular
  import opened NodeHealth
  import opened Selection
  import opened TierGrouping
  import opened HealthTransport
  import opened HealthProtocol
  import opened HealthSafety

  ghost predicate StepAt(c: Config, run: seq<State>, i: nat)
    requires i + 1 < |run|
  {
    Next(c, run[i], run[i + 1])
  }

  ghost predicate IsRun(c: Config, run: seq<State>) {
    && c.Valid() && c.keys != []
    && run != [] && run[0] == Init(c)
    && forall i :: 0 <= i < |run| - 1 ==> StepAt(c, run, i)
  }

  lemma {:induction false} RunInv(c: Config, run: seq<State>, i: nat)
    requires IsRun(c, run) && i < |run|
    ensures Inv(c, run[i])
  {
    if i == 0 {
      InitInv(c);
    } else {
      RunInv(c, run, i - 1);
      assert StepAt(c, run, i - 1);
      NextInv(c, run[i - 1], run[i]);
    }
  }

  lemma PrefixIsRun(c: Config, run: seq<State>, n: nat)
    requires IsRun(c, run) && 0 < n <= |run|
    ensures IsRun(c, run[..n])
  {
    forall i | 0 <= i < n - 1
      ensures StepAt(c, run[..n], i)
    {
      assert StepAt(c, run, i);
    }
  }

  /**
    Whenever no thread is between flipping a node and finishing its recompute, activeTier is
    the lowest tier with a healthy node and the published gauges are the true ones.
   */
  lemma PublishedStateIsTrue(c: Config, run: seq<State>, i: nat)
    requires IsRun(c, run) && i < |run| && Quiescent(run[i])
    ensures |run[i].health| == c.Size()
    ensures IsActiveTier(c.tierOf, HealthFlags(run[i].health), run[i].activeTier)
    ensures c.publishes ==> run[i].gauges == GaugesOf(HealthFlags(run[i].health))
  {
    RunInv(c, run, i);
  }

  /** A loop armed from a tier that is not the active one any more will be woken. */
  lemma WakeupIsNeverLost(c: Config, run: seq<State>, i: nat, n: nat)
    requires IsRun(c, run) && i < |run| && n < c.Size()
    ensures WellFormed(c, run[i])
    ensures StaleTier(run[i], n) ==> run[i].tokens[n] || NoticeDue(run[i], n)
  {
    RunInv(c, run, i);
  }

  /** Once things have settled, a loop asleep with no token in its channel knows the true active tier. */
  lemma SleepingLoopKnowsActiveTier(c: Config, run: seq<State>, i: nat, n: nat)
    requires IsRun(c, run) && i < |run| && n < c.Size() && Quiescent(run[i])
    requires n < |run[i].threads| && run[i].threads[n].Waiting? && run[i].threads[n].seen.Some?
    requires n < |run[i].tokens| && !run[i].tokens[n]
    ensures |run[i].health| == c.Size()
    ensures IsActiveTier(c.tierOf, HealthFlags(run[i].health), run[i].threads[n].seen.value)
  {
    WakeupIsNeverLost(c, run, i, n);
    PublishedStateIsTrue(c, run, i);
  }

  function ArmedDelay(tier: int, seen: Option<int>): Interval {
    match seen
    case None => IntervalOf(tier, false, tier)
    case Some(a) => IntervalOf(tier, true, a)
  }

  /**
    The delay such a loop sleeps on is the one intervalFor would give now exactly when the
    node's health is what the loop read: a flip that does not move the active tier wakes nobody.
   */
  lemma SleepingDelayIsCurrentIff(c: Config, run: seq<State>, i: nat, n: nat)
    requires IsRun(c, run) && i < |run| && n < c.Size() && Quiescent(run[i])
    requires n < |run[i].threads| && run[i].threads[n].Waiting?
    requires n < |run[i].tokens| && !run[i].tokens[n]
    ensures |run[i].health| == c.Size()
    ensures var s, tier := run[i], c.tierOf[n];
            ArmedDelay(tier, s.threads[n].seen) == IntervalOf(tier, s.health[n].healthy, s.activeTier)
            <==> (s.threads[n].seen.Some? <==> s.health[n].healthy)
  {
    WakeupIsNeverLost(c, run, i, n);
  }

  /** A node's flag is the declarative verdict on what it was told, in the order its mutex let it be told. */
  lemma NodeFlagIsItsHistory(c: Config, run: seq<State>, i: nat, n: nat)
    requires IsRun(c, run) && i < |run| && n < c.Size()
    ensures |run[i].health| == |run[i].outcomes| == c.Size()
    ensures run[i].health[n].healthy <==> !Evicted(c.thresholds, Counted(run[i].outcomes[n]))
  {
    RunInv(c, run, i);
    HealthyFlagIsHistory(c.thresholds, run[i].outcomes[n]);
  }

  // ----- Where the calls went -----

  datatype Event = CallStarts | CallFails | TierServes(k: nat)

  ghost predicate Happens(e: Event, t: nat, s: State, s': State) {
    t < |s.threads| && t < |s'.threads| &&
    match e
    case CallStarts => s.threads[t].Idle? && s'.threads[t].Sweeping?
    case CallFails => s.threads[t].Sweeping? && s'.threads[t].Failed?
    case TierServes(k) => s.threads[t].Sweeping? && s.threads[t].tier == k && s'.threads[t].Calling?
  }

  ghost predicate Occurs(e: Event, s: State, s': State) {
    exists t :: Happens(e, t, s, s')
  }

  ghost function Times(e: Event, run: seq<State>): nat {
    if |run| < 2 then 0
    else
      var n := |run|;
      Times(e, run[..n - 1]) + if Occurs(e, run[n - 2], run[n - 1]) then 1 else 0
  }

  ghost predicate Sized(c: Config, s: State) {
    |s.advances| == |s.served| == |s.counters| == |c.groups| > 0
  }

  lemma {:induction false} LedgerCountsEvents(c: Config, run: seq<State>, k: nat)
    requires IsRun(c, run) && k < |c.groups|
    ensures Sized(c, run[|run| - 1])
    ensures var s := run[|run| - 1];
            && s.advances[0] == Times(CallStarts, run)
            && s.failed == Times(CallFails, run)
            && s.served[k] == Times(TierServes(k), run)
  {
    var n := |run|;
    RunStepLedger(c, run, n - 1, k);
    if n >= 2 {
      PrefixIsRun(c, run, n - 1);
      LedgerCountsEvents(c, run[..n - 1], k);
    }
  }

  lemma RunStepLedger(c: Config, run: seq<State>, i: nat, k: nat)
    requires IsRun(c, run) && i < |run| && k < |c.groups|
    ensures Sized(c, run[i])
    ensures 0 < i ==>
      var s, s' := run[i - 1], run[i];
      && Sized(c, s)
      && s'.advances[0] == s.advances[0] + (if Occurs(CallStarts, s, s') then 1 else 0)
      && s'.failed == s.failed + (if Occurs(CallFails, s, s') then 1 else 0)
      && s'.served[k] == s.served[k] + (if Occurs(TierServes(k), s, s') then 1 else 0)
  {
    RunInv(c, run, i);
    if 0 < i {
      assert StepAt(c, run, i - 1);
      LedgerStep(c, run[i - 1], run[i], k);
    }
  }

  lemma LedgerStep(c: Config, s: State, s': State, k: nat)
    requires Next(c, s, s') && k < |c.groups| && WellFormed(c, s')
    ensures s'.advances[0] == s.advances[0] + if Occurs(CallStarts, s, s') then 1 else 0
    ensures s'.failed == s.failed + if Occurs(CallFails, s, s') then 1 else 0
    ensures s'.served[k] == s.served[k] + if Occurs(TierServes(k), s, s') then 1 else 0
  {
    if s' == Spawn(s) {
      NothingHappens(s, s', CallStarts);
      NothingHappens(s, s', CallFails);
      NothingHappens(s, s', TierServes(k));
    } else {
      var t, choice :| 0 <= t < |s.threads| && Step(c, s, t, choice) == Some(s');
      hide Occurs, Happens, Step;
      OnlyMoverMoves(c, s, t, choice, s');
      MoverLedger(c, s, t, choice, s', k);
      OnlyMoverHappens(s, s', t, CallStarts);
      OnlyMoverHappens(s, s', t, CallFails);
      OnlyMoverHappens(s, s', t, TierServes(k));
    }
  }

  lemma NothingHappens(s: State, s': State, e: Event)
    requires s' == Spawn(s)
    ensures !Occurs(e, s, s')
  {
    assert forall t :: 0 <= t < |s.threads| ==> s'.threads[t] == s.threads[t];
  }

  ghost predicate Stays(s: State, s': State, u: nat) {
    u < |s.threads| && u < |s'.threads| ==> s'.threads[u] == s.threads[u]
  }

  lemma OnlyMoverMoves(c: Config, s: State, t: nat, choice: Choice, s': State)
    requires WellFormed(c, s) && t < |s.threads| && Step(c, s, t, choice) == Some(s')
    ensures forall u: nat :: u != t ==> Stays(s, s', u)
  {
  }

  lemma OnlyMoverHappens(s: State, s': State, t: nat, e: Event)
    requires forall u: nat :: u != t ==> Stays(s, s', u)
    ensures Occurs(e, s, s') <==> Happens(e, t, s, s')
  {
    forall u: nat | Happens(e, u, s, s') ensures u == t {
      assert u != t ==> Stays(s, s', u);
    }
  }

  lemma MoverLedger(c: Config, s: State, t: nat, choice: Choice, s': State, k: nat)
    requires WellFormed(c, s) && k < |c.groups| && WellFormed(c, s')
    requires t < |s.threads| && Step(c, s, t, choice) == Some(s')
    ensures s'.advances[0] == s.advances[0] + if Happens(CallStarts, t, s, s') then 1 else 0
    ensures s'.failed == s.failed + if Happens(CallFails, t, s, s') then 1 else 0
    ensures s'.served[k] == s.served[k] + if Happens(TierServes(k), t, s, s') then 1 else 0
  {
    if !s.threads[t].Idle? && !s.threads[t].Sweeping? {
      NoCallLedger(c, s, t, choice, s');
    }
  }

  /** How many calls the tiers from `k` on served. */
  ghost function TimesServed(run: seq<State>, tiers: nat, k: nat): nat
    requires k <= tiers
    decreases tiers - k
  {
    if k == tiers then 0 else Times(TierServes(k), run) + TimesServed(run, tiers, k + 1)
  }

  function InTiers(threads: seq<Phase>, tiers: nat, k: nat): nat
    requires k <= tiers
    decreases tiers - k
  {
    if k == tiers then 0 else InTier(threads, k) + InTiers(threads, tiers, k + 1)
  }

  /** The calls that got as far as tier `k`: served there or beyond, still sweeping there or beyond, or failed. */
  ghost function Reached(c: Config, run: seq<State>, k: nat): nat
    requires run != [] && k <= |c.groups|
  {
    TimesServed(run, |c.groups|, k) + InTiers(run[|run| - 1].threads, |c.groups|, k) + Times(CallFails, run)
  }

  /**
    Every call of next that ever started was served by one tier, failed, or is still sweeping,
    and the counter of tier k has been advanced once, modulo 2^64, for each call that reached it.
   */
  lemma CallsAddUp(c: Config, run: seq<State>)
    requires IsRun(c, run)
    ensures Times(CallStarts, run) == Reached(c, run, 0)
    ensures |run[|run| - 1].counters| == |c.groups|
    ensures forall k :: 0 <= k < |c.groups| ==> run[|run| - 1].counters[k] == Reached(c, run, k) % TWO_64
  {
    RunInv(c, run, |run| - 1);
    LedgerCountsEvents(c, run, 0);
    TierAddsUp(c, run, 0);
    forall k | 0 <= k < |c.groups|
      ensures run[|run| - 1].counters[k] == Reached(c, run, k) % TWO_64
    {
      TierAddsUp(c, run, k);
      TierRecurrence(c, run, k);
    }
  }

  lemma TierRecurrence(c: Config, run: seq<State>, k: nat)
    requires IsRun(c, run) && k < |c.groups|
    ensures var s, n := run[|run| - 1], |c.groups|;
            && |s.advances| == |s.counters| == n
            && s.counters[k] == s.advances[k] % TWO_64
            && s.advances[k] == Times(TierServes(k), run) + InTier(s.threads, k)
                                + if k + 1 < n then s.advances[k + 1] else Times(CallFails, run)
  {
    RunInv(c, run, |run| - 1);
    LedgerCountsEvents(c, run, k);
  }

  lemma {:induction false} TierAddsUp(c: Config, run: seq<State>, k: nat)
    requires IsRun(c, run) && k < |c.groups| == |run[|run| - 1].advances|
    ensures run[|run| - 1].advances[k] == Reached(c, run, k)
    decreases |c.groups| - k
  {
    TierRecurrence(c, run, k);
    if k + 1 < |c.groups| {
      TierAddsUp(c, run, k + 1);
    } else {
      assert TimesServed(run, k + 1, k + 1) == 0 && InTiers(run[|run| - 1].threads, k + 1, k + 1) == 0;
    }
  }
}
