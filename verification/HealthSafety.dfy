/** The invariants of `HealthProtocol` hold in every state of every run. */
module HealthSafety {
  import opened Wrappers
  import opened Modular
  import opened NodeHealth
  import opened Selection
  import opened TierGrouping
  import opened HealthTransport
  import opened HealthProtocol

  lemma InitInv(c: Config)
    requires c.Valid()
    ensures c.keys != [] && Inv(c, Init(c))
  {
    var lowest := c.tierOf[0];
    assert lowest in c.tierOf && lowest in c.keys;
    GroupingIsPartition(c.tierOf, c.keys, c.groups);
    var s := Init(c);
    var flags := HealthFlags(s.health);
    LowestKeyIsActive(c.tierOf, c.keys, c.groups, flags);
    AllHealthyCount(flags);
    assert Tracks(c, s);
    forall k | 0 <= k < |c.groups|
      ensures InTier(s.threads, k) == 0
    {
      NobodyInTier(s.threads, k);
    }
  }

  lemma {:induction false} AllHealthyCount(flags: seq<bool>)
    requires forall i :: 0 <= i < |flags| ==> flags[i]
    ensures CountHealthy(flags) == |flags|
  {
    if flags != [] {
      AllHealthyCount(flags[..|flags| - 1]);
    }
  }

  lemma {:induction false} NobodyInTier(threads: seq<Phase>, k: nat)
    requires forall t :: 0 <= t < |threads| ==> !threads[t].Sweeping?
    ensures InTier(threads, k) == 0
  {
    if threads != [] {
      NobodyInTier(threads[..|threads| - 1], k);
    }
  }

  /** The shape every step has: one thread moves, and nobody else gains or loses publishMu. */
  ghost predicate Moves(c: Config, s: State, t: nat, s': State)
    requires WellFormed(c, s) && t < |s.threads|
  {
    && |s'.threads| == |s.threads|
    && s'.threads == s.threads[t := s'.threads[t]]
    && PhaseOk(c, t, s'.threads[t])
    && (s'.threads[t].Holds() <==> s'.publishMu == Some(t))
    && (s'.publishMu == s.publishMu || (s.publishMu in {None, Some(t)} && s'.publishMu in {None, Some(t)}))
    && |s'.health| == |s.health| && |s'.tokens| == |s.tokens| && |s'.outcomes| == |s.outcomes|
    && |s'.counters| == |s.counters| && |s'.advances| == |s.advances| && |s'.served| == |s.served|
  }

  lemma MovesIsWellFormed(c: Config, s: State, t: nat, s': State)
    requires WellFormed(c, s) && t < |s.threads| && Moves(c, s, t, s')
    ensures WellFormed(c, s')
  {
  }

  lemma CallerMoves(c: Config, s: State, t: nat, choice: Choice, s': State)
    requires WellFormed(c, s) && t < |s.threads| && Step(c, s, t, choice) == Some(s')
    requires !s.threads[t].Holds()
    ensures Moves(c, s, t, s')
  {
    assert PhaseOk(c, t, s.threads[t]);
    assert s.publishMu != Some(t);
  }

  lemma HolderMoves(c: Config, s: State, t: nat, choice: Choice, s': State)
    requires WellFormed(c, s) && t < |s.threads| && Step(c, s, t, choice) == Some(s')
    requires s.threads[t].Holds()
    ensures Moves(c, s, t, s')
  {
    assert PhaseOk(c, t, s.threads[t]);
    assert s.publishMu == Some(t);
  }

  lemma WellFormedStep(c: Config, s: State, t: nat, choice: Choice, s': State)
    requires WellFormed(c, s) && t < |s.threads| && Step(c, s, t, choice) == Some(s')
    ensures Moves(c, s, t, s') && WellFormed(c, s')
  {
    if s.threads[t].Holds() {
      HolderMoves(c, s, t, choice, s');
    } else {
      CallerMoves(c, s, t, choice, s');
    }
    MovesIsWellFormed(c, s, t, s');
  }

  // ----- The active tier and the gauges -----

  /** A step that leaves the flags, the published state and publishMu alone. */
  lemma BystanderTracks(c: Config, s: State, t: nat, s': State)
    requires WellFormed(c, s) && WellFormed(c, s') && Tracks(c, s)
    requires t < |s.threads| && Moves(c, s, t, s') && !s.threads[t].Flipped? && s.publishMu != Some(t)
    requires HealthFlags(s'.health) == HealthFlags(s.health) && s'.publishMu == s.publishMu
    requires s'.activeTier == s.activeTier && s'.gauges == s.gauges
    ensures Tracks(c, s')
  {
    assert forall n :: 0 <= n < c.Size() ==> s'.health[n].healthy == HealthFlags(s.health)[n] == s.health[n].healthy;
    if Settled(s') {
      assert Settled(s) by {
        assert forall u :: 0 <= u < |s.threads| && u != t ==> s'.threads[u] == s.threads[u];
      }
    }
  }

  lemma CallerTracks(c: Config, s: State, t: nat, choice: Choice, s': State)
    requires WellFormed(c, s) && WellFormed(c, s') && Tracks(c, s)
    requires t < |s.threads| && Step(c, s, t, choice) == Some(s') && Moves(c, s, t, s')
    requires !s.threads[t].Holds() && !s.threads[t].Flipped?
    ensures Tracks(c, s')
  {
    if s'.threads[t].Flipped? {
      assert !Settled(s');
    } else {
      assert HealthFlags(s'.health) == HealthFlags(s.health);
      BystanderTracks(c, s, t, s');
    }
  }

  lemma HolderTracks(c: Config, s: State, t: nat, choice: Choice, s': State)
    requires c.Valid() && WellFormed(c, s) && WellFormed(c, s') && Settled(s)
    requires t < |s.threads| && Step(c, s, t, choice) == Some(s')
    requires s.publishMu == Some(t) && HolderKnows(c, s, s.threads[t])
    ensures HolderKnows(c, s', if s'.publishMu.Some? then s'.threads[s'.publishMu.value] else Idle)
  {
    match s.threads[t] {
      case Scanning(k, p) => ScanTracks(c, s, t);
      case Counting(_, i, h) => CountTracks(c, s, t);
      case _ =>
    }
  }

  lemma TracksStep(c: Config, s: State, t: nat, choice: Choice, s': State)
    requires c.Valid() && WellFormed(c, s) && WellFormed(c, s') && Tracks(c, s)
    requires t < |s.threads| && Step(c, s, t, choice) == Some(s') && Moves(c, s, t, s')
    ensures Tracks(c, s')
  {
    if s.threads[t].Flipped? {
      assert s'.threads[t] == Scanning(0, 0);
    } else if s.threads[t].Holds() {
      if Settled(s') {
        assert Settled(s) by {
          assert forall u :: 0 <= u < |s.threads| && u != t ==> s'.threads[u] == s.threads[u];
        }
        HolderTracks(c, s, t, choice, s');
      }
    } else {
      CallerTracks(c, s, t, choice, s');
    }
  }

  lemma ScanTracks(c: Config, s: State, t: nat)
    requires c.Valid() && WellFormed(c, s) && t < |s.threads| && s.threads[t].Scanning?
    requires HolderKnows(c, s, s.threads[t])
    ensures var s' := ScanStep(c, s, t);
            WellFormed(c, s') ==> HolderKnows(c, s', s'.threads[t])
  {
    var Scanning(k, p) := s.threads[t];
    var flags := HealthFlags(s.health);
    if k == |c.groups| {
      NoneHealthyIsActive(c.tierOf, c.keys, c.groups, flags);
    } else if p < |c.groups[k]| && s.health[c.groups[k][p]].healthy {
      FirstHealthyTierIsActive(c.tierOf, c.keys, c.groups, flags, k, p);
    } else if p == |c.groups[k]| {
      forall u, i | 0 <= u < k + 1 && i in c.groups[u]
        ensures !s.health[i].healthy
      {
        if u == k {
          var q :| 0 <= q < |c.groups[k]| && c.groups[k][q] == i;
        }
      }
    }
  }

  lemma NoneHealthyIsActive(tierOf: seq<int>, keys: seq<int>, groups: seq<seq<nat>>, flags: seq<bool>)
    requires Grouping(tierOf, keys, groups) && |flags| == |tierOf|
    requires forall u, i :: 0 <= u < |groups| && i in groups[u] && i < |flags| ==> !flags[i]
    ensures IsActiveTier(tierOf, flags, -1)
  {
    GroupingIsPartition(tierOf, keys, groups);
    forall i | 0 <= i < |flags|
      ensures !flags[i]
    {
      assert Placed(groups, i);
    }
  }

  lemma CountTracks(c: Config, s: State, t: nat)
    requires c.Valid() && WellFormed(c, s) && t < |s.threads| && s.threads[t].Counting?
    requires HolderKnows(c, s, s.threads[t])
    ensures var s' := CountStep(c, s, t);
            WellFormed(c, s') ==> HolderKnows(c, s', s'.threads[t])
  {
    var Counting(_, i, h) := s.threads[t];
    var flags := HealthFlags(s.health);
    if i < c.Size() {
      assert flags[..i + 1][..i] == flags[..i];
    } else {
      assert flags[..i] == flags;
    }
  }

  // ----- Wake-ups -----

  lemma HolderWakes(c: Config, s: State, t: nat, choice: Choice, s': State, n: nat)
    requires WellFormed(c, s) && WellFormed(c, s') && NoLostWakeup(c, s)
    requires t < |s.threads| && Step(c, s, t, choice) == Some(s') && Moves(c, s, t, s')
    requires s.threads[t].Holds() && n < c.Size() && StaleTier(s', n)
    ensures s'.tokens[n] || NoticeDue(s', n)
  {
    assert s.publishMu == Some(t);
    assert n != t;
    assert s'.threads[n] == s.threads[n];
    if StaleTier(s, n) {
      assert s.tokens[n] || NoticeDue(s, n);
    }
  }

  lemma CallerWakes(c: Config, s: State, t: nat, choice: Choice, s': State, n: nat)
    requires WellFormed(c, s) && WellFormed(c, s') && NoLostWakeup(c, s)
    requires t < |s.threads| && Step(c, s, t, choice) == Some(s') && Moves(c, s, t, s')
    requires !s.threads[t].Holds() && n < c.Size() && StaleTier(s', n)
    ensures s'.tokens[n] || NoticeDue(s', n)
  {
    assert s'.activeTier == s.activeTier;
    assert n != t;
    assert s'.threads[n] == s.threads[n] && StaleTier(s, n);
    assert s.tokens[n] || NoticeDue(s, n);
  }

  lemma WakeupStep(c: Config, s: State, t: nat, choice: Choice, s': State)
    requires WellFormed(c, s) && WellFormed(c, s') && NoLostWakeup(c, s)
    requires t < |s.threads| && Step(c, s, t, choice) == Some(s') && Moves(c, s, t, s')
    ensures NoLostWakeup(c, s')
  {
    forall n | 0 <= n < c.Size() && StaleTier(s', n)
      ensures s'.tokens[n] || NoticeDue(s', n)
    {
      if s.threads[t].Holds() {
        HolderWakes(c, s, t, choice, s', n);
      } else {
        CallerWakes(c, s, t, choice, s', n);
      }
    }
  }

  // ----- Node histories -----

  lemma HistoryStep(c: Config, s: State, t: nat, choice: Choice, s': State)
    requires WellFormed(c, s) && WellFormed(c, s') && HealthIsReplay(c, s)
    requires t < |s.threads| && Step(c, s, t, choice) == Some(s')
    ensures HealthIsReplay(c, s')
  {
    if s.threads[t].Calling? {
      var n := s.threads[t].node;
      assert s'.outcomes[n][..|s.outcomes[n]|] == s.outcomes[n];
    }
  }

  // ----- Calls -----

  function One(ph: Phase, k: nat): nat {
    if ph.Sweeping? && ph.tier == k then 1 else 0
  }

  lemma {:induction false} InTierUpdate(threads: seq<Phase>, t: nat, ph: Phase, k: nat)
    requires t < |threads|
    ensures InTier(threads[t := ph], k) + One(threads[t], k) == InTier(threads, k) + One(ph, k)
  {
    var n := |threads| - 1;
    if t < n {
      InTierUpdate(threads[..n], t, ph, k);
      assert threads[t := ph][..n] == threads[..n][t := ph];
    } else {
      assert threads[t := ph][..n] == threads[..n];
    }
  }

  /** What a step of next does to the ledger of tier `k`, the thread's own place in it included. */
  lemma CallLedger(c: Config, s: State, t: nat, choice: Choice, s': State, k: nat)
    requires WellFormed(c, s) && WellFormed(c, s') && k < |c.groups|
    requires t < |s.threads| && Step(c, s, t, choice) == Some(s')
    requires s.threads[t].Idle? || s.threads[t].Sweeping?
    ensures s.counters[k] == s.advances[k] % TWO_64 ==> s'.counters[k] == s'.advances[k] % TWO_64
    ensures s'.advances[k] - s'.served[k] - One(s'.threads[t], k) - PassedOn(s', k)
         == s.advances[k] - s.served[k] - One(s.threads[t], k) - PassedOn(s, k)
  {
    assert PhaseOk(c, t, s.threads[t]);
    ModAddOne(s.advances[k]);
  }

  lemma ModAddOne(x: nat)
    ensures (x % TWO_64 + 1) % TWO_64 == (x + 1) % TWO_64
  {
  }

  lemma NoCallLedger(c: Config, s: State, t: nat, choice: Choice, s': State)
    requires WellFormed(c, s) && t < |s.threads| && Step(c, s, t, choice) == Some(s')
    requires !s.threads[t].Idle? && !s.threads[t].Sweeping?
    ensures !s'.threads[t].Sweeping? && s'.failed == s.failed
    ensures s'.counters == s.counters && s'.advances == s.advances && s'.served == s.served
  {
  }

  lemma CallsStep(c: Config, s: State, t: nat, choice: Choice, s': State)
    requires WellFormed(c, s) && WellFormed(c, s') && CallsConserved(c, s)
    requires t < |s.threads| && Step(c, s, t, choice) == Some(s') && Moves(c, s, t, s')
    ensures CallsConserved(c, s')
  {
    forall k | 0 <= k < |c.groups|
      ensures s'.counters[k] == s'.advances[k] % TWO_64
      ensures s'.advances[k] == s'.served[k] + InTier(s'.threads, k) + PassedOn(s', k)
    {
      TierCallsStep(c, s, t, choice, s', k);
    }
  }

  lemma TierCallsStep(c: Config, s: State, t: nat, choice: Choice, s': State, k: nat)
    requires WellFormed(c, s) && WellFormed(c, s') && k < |c.groups|
    requires t < |s.threads| && Step(c, s, t, choice) == Some(s') && s'.threads == s.threads[t := s'.threads[t]]
    requires s.counters[k] == s.advances[k] % TWO_64
    requires s.advances[k] == s.served[k] + InTier(s.threads, k) + PassedOn(s, k)
    ensures s'.counters[k] == s'.advances[k] % TWO_64
    ensures s'.advances[k] == s'.served[k] + InTier(s'.threads, k) + PassedOn(s', k)
  {
    InTierUpdate(s.threads, t, s'.threads[t], k);
    if s.threads[t].Idle? || s.threads[t].Sweeping? {
      CallLedger(c, s, t, choice, s', k);
    } else {
      NoCallLedger(c, s, t, choice, s');
    }
  }

  // ----- All together -----

  lemma SpawnInv(c: Config, s: State)
    requires Inv(c, s)
    ensures Inv(c, Spawn(s))
  {
    var s' := Spawn(s);
    assert forall u :: 0 <= u < |s.threads| ==> s'.threads[u] == s.threads[u];
    assert s'.threads[..|s'.threads| - 1] == s.threads;
    assert Settled(s') ==> Settled(s);
  }

  lemma NextInv(c: Config, s: State, s': State)
    requires Inv(c, s) && Next(c, s, s')
    ensures Inv(c, s')
  {
    if s' == Spawn(s) {
      SpawnInv(c, s);
    } else {
      var t, choice :| 0 <= t < |s.threads| && Step(c, s, t, choice) == Some(s');
      WellFormedStep(c, s, t, choice, s');
      TracksStep(c, s, t, choice, s');
      WakeupStep(c, s, t, choice, s');
      HistoryStep(c, s, t, choice, s');
      CallsStep(c, s, t, choice, s');
    }
  }
}
