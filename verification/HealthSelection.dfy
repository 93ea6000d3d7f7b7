/**
  What a concurrent call of `next` may rely on, although health changes under it while it
  looks at one node after the other (pkg/client/health.go).
 */
module HealthSelection {
  import opened Wrappers
  import opened Modular
  import opened NodeHealth
  import opened Selection
  import opened TierGrouping
  import opened HealthTransport
  import opened HealthProtocol
  import opened HealthSafety
  import opened HealthRuns

  ghost predicate UnhealthyAt(run: seq<State>, j: nat, n: nat) {
    j < |run| && n < |run[j].health| && !run[j].health[n].healthy
  }

  /** Node `n` was unhealthy at some instant strictly between states a and b. */
  ghost predicate WasUnhealthy(run: seq<State>, a: nat, b: nat, n: nat) {
    exists j :: a < j < b && UnhealthyAt(run, j, n)
  }

  ghost predicate SweepingAt(run: seq<State>, t: nat, j: nat) {
    j < |run| && t < |run[j].threads| && run[j].threads[t].Sweeping?
  }

  /** Thread `t` enters `next` in the step from state a and is still inside in state b. */
  ghost predicate InNext(run: seq<State>, t: nat, a: nat, b: nat) {
    && a < b < |run|
    && t < |run[a].threads| && run[a].threads[t].Idle?
    && forall j :: a < j <= b ==> SweepingAt(run, t, j)
  }

  /** A sweep of thread `t` that has found nothing by state `j` has not skipped a node when its counter wrapped. */
  ghost predicate NoSkipAt(c: Config, run: seq<State>, t: nat, j: nat) {
    SweepingAt(run, t, j) &&
    var ph := run[j].threads[t];
    ph.tier < |c.groups| && ph.i == |c.groups[ph.tier]| > 0 ==> SweepDoesNotSkip(ph.start, |c.groups[ph.tier]|)
  }

  /** No sweep the call gave up, between states a and b, skipped a node. */
  ghost predicate NoSkipDuring(c: Config, run: seq<State>, t: nat, a: nat, b: nat) {
    forall j :: a < j <= b ==> NoSkipAt(c, run, t, j)
  }

  /** What a sweep has established by the time it is at step `i` of tier `k`. */
  ghost predicate Evidence(c: Config, run: seq<State>, a: nat, b: nat, ph: Phase) {
    ph.Sweeping? && ph.tier < |c.groups| && c.groups[ph.tier] != [] &&
    var group := c.groups[ph.tier];
    && (forall u, n :: 0 <= u < ph.tier && n in c.groups[u] ==> WasUnhealthy(run, a, b, n))
    && (forall l :: 0 <= l < ph.i ==> WasUnhealthy(run, a, b, group[Visit(ph.start, l, |group|)]))
  }

  lemma LaterEvidence(c: Config, run: seq<State>, a: nat, b: nat, b': nat, ph: Phase)
    requires Evidence(c, run, a, b, ph) && b <= b'
    ensures Evidence(c, run, a, b', ph)
  {
    assert forall n :: WasUnhealthy(run, a, b, n) ==> WasUnhealthy(run, a, b', n);
  }

  ghost predicate Takes(c: Config, s: State, t: nat, s': State) {
    WellFormed(c, s) && t < |s.threads| && exists choice :: Step(c, s, t, choice) == Some(s')
  }

  /** Either thread `t` took the step from s to s', or it is where it was. */
  lemma StepOfThread(c: Config, s: State, s': State, t: nat)
    requires Next(c, s, s') && t < |s.threads|
    ensures t < |s'.threads|
    ensures s'.threads[t] == s.threads[t] || Takes(c, s, t, s')
  {
    if s' != Spawn(s) {
      var u, choice :| 0 <= u < |s.threads| && Step(c, s, u, choice) == Some(s');
      WellFormedStep(c, s, u, choice, s');
    }
  }

  lemma {:induction false} SweepGathersEvidence(c: Config, run: seq<State>, t: nat, a: nat, b: nat)
    requires IsRun(c, run) && c.Size() <= TWO_64
    requires InNext(run, t, a, b) && NoSkipDuring(c, run, t, a, b - 1)
    ensures SweepingAt(run, t, b) && Evidence(c, run, a, b, run[b].threads[t])
  {
    assert SweepingAt(run, t, b);
    if b - 1 == a {
      RunStepOfThread(c, run, a, t);
      EnteringEvidence(c, run, t, a, b);
    } else {
      assert SweepingAt(run, t, b - 1) && NoSkipAt(c, run, t, b - 1);
      SweepGathersEvidence(c, run, t, a, b - 1);
      EvidenceStep(c, run, t, a, b);
    }
  }

  lemma RunStepOfThread(c: Config, run: seq<State>, i: nat, t: nat)
    requires IsRun(c, run) && i + 1 < |run| && t < |run[i].threads|
    ensures t < |run[i + 1].threads|
    ensures run[i + 1].threads[t] == run[i].threads[t] || Takes(c, run[i], t, run[i + 1])
  {
    assert StepAt(c, run, i);
    StepOfThread(c, run[i], run[i + 1], t);
  }

  lemma EvidenceStep(c: Config, run: seq<State>, t: nat, a: nat, b: nat)
    requires IsRun(c, run) && c.Size() <= TWO_64
    requires a + 1 < b < |run| && NoSkipAt(c, run, t, b - 1)
    requires SweepingAt(run, t, b - 1) && SweepingAt(run, t, b)
    requires Evidence(c, run, a, b - 1, run[b - 1].threads[t])
    ensures Evidence(c, run, a, b, run[b].threads[t])
  {
    RunStepOfThread(c, run, b - 1, t);
    if run[b].threads[t] == run[b - 1].threads[t] {
      LaterEvidence(c, run, a, b - 1, b, run[b].threads[t]);
    } else {
      SweepingEvidence(c, run, t, a, b);
    }
  }

  lemma EnteringEvidence(c: Config, run: seq<State>, t: nat, a: nat, b: nat)
    requires b == a + 1 < |run| && WellFormed(c, run[a])
    requires t < |run[a].threads| && run[a].threads[t].Idle?
    requires t < |run[b].threads| && run[b].threads[t].Sweeping?
    requires Takes(c, run[a], t, run[b])
    ensures Evidence(c, run, a, b, run[b].threads[t])
  {
  }

  lemma SweepingEvidence(c: Config, run: seq<State>, t: nat, a: nat, b: nat)
    requires a + 1 < b < |run| && WellFormed(c, run[b - 1]) && NoSkipAt(c, run, t, b - 1) && c.Valid() && c.Size() <= TWO_64
    requires t < |run[b - 1].threads| && Evidence(c, run, a, b - 1, run[b - 1].threads[t])
    requires t < |run[b].threads| && run[b].threads[t].Sweeping?
    requires Takes(c, run[b - 1], t, run[b])
    ensures Evidence(c, run, a, b, run[b].threads[t])
  {
    var ph := run[b - 1].threads[t];
    LaterEvidence(c, run, a, b - 1, b, ph);
    if ph.i < |c.groups[ph.tier]| {
      VisitedEvidence(c, run, t, a, b);
    } else {
      NextTierEvidence(c, run, t, a, b);
    }
  }

  /** The thread turns to the next tier. */
  lemma NextTierEvidence(c: Config, run: seq<State>, t: nat, a: nat, b: nat)
    requires a + 1 < b < |run| && WellFormed(c, run[b - 1]) && NoSkipAt(c, run, t, b - 1) && c.Valid() && c.Size() <= TWO_64
    requires t < |run[b - 1].threads| && Evidence(c, run, a, b, run[b - 1].threads[t])
    requires run[b - 1].threads[t].i >= |c.groups[run[b - 1].threads[t].tier]|
    requires t < |run[b].threads| && run[b].threads[t].Sweeping?
    requires Takes(c, run[b - 1], t, run[b])
    ensures Evidence(c, run, a, b, run[b].threads[t])
  {
    ExhaustedTier(c, run, a, b, run[b - 1].threads[t]);
  }

  /** The thread looks at one more node and finds it unhealthy. */
  lemma VisitedEvidence(c: Config, run: seq<State>, t: nat, a: nat, b: nat)
    requires a + 1 < b < |run| && WellFormed(c, run[b - 1]) && c.Valid()
    requires t < |run[b - 1].threads| && Evidence(c, run, a, b, run[b - 1].threads[t])
    requires run[b - 1].threads[t].i < |c.groups[run[b - 1].threads[t].tier]|
    requires t < |run[b].threads| && run[b].threads[t].Sweeping?
    requires Takes(c, run[b - 1], t, run[b])
    ensures Evidence(c, run, a, b, run[b].threads[t])
  {
    hide Visit, SweepDoesNotSkip, Grouping;
    var ph := run[b - 1].threads[t];
    var n := c.groups[ph.tier][Visit(ph.start, ph.i, |c.groups[ph.tier]|)];
    assert UnhealthyAt(run, b - 1, n);
    assert WasUnhealthy(run, a, b, n);
  }

  /** A sweep that has run to its end has seen every node of its tier unhealthy. */
  lemma ExhaustedTier(c: Config, run: seq<State>, a: nat, b: nat, ph: Phase)
    requires c.Valid() && c.Size() <= TWO_64
    requires Evidence(c, run, a, b, ph) && ph.i == |c.groups[ph.tier]| && SweepDoesNotSkip(ph.start, ph.i)
    ensures forall u, n :: 0 <= u <= ph.tier && n in c.groups[u] ==> WasUnhealthy(run, a, b, n)
  {
    var group := c.groups[ph.tier];
    GroupFits(c.tierOf, c.keys, c.groups, ph.tier);
    SweepCoversIff(ph.start, |group|);
    forall n | n in group
      ensures WasUnhealthy(run, a, b, n)
    {
      var p :| 0 <= p < |group| && group[p] == n;
      assert Visits(ph.start, |group|, p);
    }
  }

  lemma GroupFits(tierOf: seq<int>, keys: seq<int>, groups: seq<seq<nat>>, k: nat)
    requires Grouping(tierOf, keys, groups) && k < |groups|
    ensures |groups[k]| <= |tierOf|
  {
    GroupingIsPartition(tierOf, keys, groups);
    if groups[k] != [] {
      IncreasingBound(groups[k], |groups[k]| - 1);
    }
  }

  lemma {:induction false} IncreasingBound(s: seq<nat>, i: nat)
    requires StrictlyIncreasing(s) && i < |s|
    ensures i <= s[i]
  {
    if i > 0 {
      IncreasingBound(s, i - 1);
    }
  }

  /** Thread `t` entered `next` in the step from state a and left it in the step to state b. */
  ghost predicate NextCall(run: seq<State>, t: nat, a: nat, b: nat) {
    && 0 < b < |run| && InNext(run, t, a, b - 1)
    && t < |run[b].threads| && !run[b].threads[t].Sweeping?
  }

  ghost predicate LowerWereUnhealthy(c: Config, run: seq<State>, a: nat, b: nat, tier: int) {
    forall m :: 0 <= m < c.Size() && c.tierOf[m] < tier ==> WasUnhealthy(run, a, b, m)
  }

  ghost predicate AllWereUnhealthy(c: Config, run: seq<State>, a: nat, b: nat) {
    forall m :: 0 <= m < c.Size() ==> WasUnhealthy(run, a, b, m)
  }

  /** A call of `next` fails or returns a node that was healthy at an instant of the call. */
  lemma ReturnedNodeWasHealthy(c: Config, run: seq<State>, t: nat, a: nat, b: nat)
    requires IsRun(c, run) && NextCall(run, t, a, b)
    ensures run[b].threads[t].Failed? || run[b].threads[t].Calling?
    ensures run[b].threads[t].Calling? ==>
              var n := run[b].threads[t].node;
              n < c.Size() == |run[b - 1].health| && run[b - 1].health[n].healthy
  {
    RunInv(c, run, b - 1);
    assert SweepingAt(run, t, b - 1);
    RunStepOfThread(c, run, b - 1, t);
    LeavingNext(c, run[b - 1], run[b], t);
  }

  /**
    Unless one of the call's own sweeps skipped a node at the wrap of its counter, every node of every tier below the one
    served was unhealthy at an instant of the call, and a call that failed has seen every node
    unhealthy.
   */
  lemma BetterNodesWereUnhealthy(c: Config, run: seq<State>, t: nat, a: nat, b: nat)
    requires IsRun(c, run) && c.Size() <= TWO_64
    requires NextCall(run, t, a, b) && NoSkipDuring(c, run, t, a, b - 1)
    ensures run[b].threads[t].Calling? ==>
              && run[b].threads[t].node < c.Size()
              && LowerWereUnhealthy(c, run, a, b, c.tierOf[run[b].threads[t].node])
    ensures run[b].threads[t].Failed? ==> AllWereUnhealthy(c, run, a, b)
  {
    SweepGathersEvidence(c, run, t, a, b - 1);
    assert SweepingAt(run, t, b - 1) && NoSkipAt(c, run, t, b - 1);
    RunStepOfThread(c, run, b - 1, t);
    LeavingWithEvidence(c, run, t, a, b);
  }

  lemma LeavingWithEvidence(c: Config, run: seq<State>, t: nat, a: nat, b: nat)
    requires c.Valid() && c.Size() <= TWO_64 && 0 < b < |run| && NoSkipAt(c, run, t, b - 1)
    requires t < |run[b - 1].threads| && Evidence(c, run, a, b - 1, run[b - 1].threads[t])
    requires t < |run[b].threads| && !run[b].threads[t].Sweeping? && Takes(c, run[b - 1], t, run[b])
    ensures run[b].threads[t].Calling? ==>
              && run[b].threads[t].node < c.Size()
              && LowerWereUnhealthy(c, run, a, b, c.tierOf[run[b].threads[t].node])
    ensures run[b].threads[t].Failed? ==> AllWereUnhealthy(c, run, a, b)
  {
    var ph := run[b - 1].threads[t];
    LaterEvidence(c, run, a, b - 1, b, ph);
    LeavingNext(c, run[b - 1], run[b], t);
    if run[b].threads[t].Calling? {
      LowerTiersUnhealthy(c, run, a, b, ph, run[b].threads[t].node);
    } else {
      ExhaustedLastTier(c, run, a, b, ph);
    }
  }

  lemma ExhaustedLastTier(c: Config, run: seq<State>, a: nat, b: nat, ph: Phase)
    requires c.Valid() && c.Size() <= TWO_64 && Evidence(c, run, a, b, ph)
    requires ph.tier == |c.groups| - 1 && ph.i == |c.groups[ph.tier]| && SweepDoesNotSkip(ph.start, ph.i)
    ensures AllWereUnhealthy(c, run, a, b)
  {
    ExhaustedTier(c, run, a, b, ph);
    GroupingIsPartition(c.tierOf, c.keys, c.groups);
    forall m | 0 <= m < c.Size()
      ensures WasUnhealthy(run, a, b, m)
    {
      assert Placed(c.groups, m);
    }
  }

  lemma LowerTiersUnhealthy(c: Config, run: seq<State>, a: nat, b: nat, ph: Phase, n: nat)
    requires c.Valid() && Evidence(c, run, a, b, ph) && n in c.groups[ph.tier]
    ensures n < c.Size() && LowerWereUnhealthy(c, run, a, b, c.tierOf[n])
  {
    MemberOfGroup(c.tierOf, c.keys, c.groups, ph.tier, n);
    forall m | 0 <= m < c.Size() && c.tierOf[m] < c.tierOf[n]
      ensures WasUnhealthy(run, a, b, m)
    {
      var u := LowerTierIsEarlier(c.tierOf, c.keys, c.groups, ph.tier, m);
    }
  }

  lemma LeavingNext(c: Config, s: State, s': State, t: nat)
    requires WellFormed(c, s) && t < |s.threads| && s.threads[t].Sweeping?
    requires t < |s'.threads| && !s'.threads[t].Sweeping?
    requires Takes(c, s, t, s')
    ensures s'.threads[t].Failed? || s'.threads[t].Calling?
    ensures s'.threads[t].Failed? ==>
              s.threads[t].tier == |c.groups| - 1 && s.threads[t].i == |c.groups[s.threads[t].tier]|
    ensures s'.threads[t].Calling? ==>
              var n := s'.threads[t].node;
              n < |s.health| && s.health[n].healthy && n in c.groups[s.threads[t].tier]
  {
    assert PhaseOk(c, t, s.threads[t]);
  }
}
