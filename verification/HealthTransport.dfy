/**
  HealthAwareTransport (pkg/client/health.go) as one thread sees it: selection, outcome
  recording, recomputing the active tier and the published gauges, and the probe delay.
  `HealthProtocol` runs the same operations interleaved.
 */
module HealthTransport {
  import opened Wrappers
  import opened Modular
  import opened NodeHealth
  import opened Selection
  import opened TierGrouping

  datatype Gauges = Gauges(total: nat, healthy: nat, disabled: int)

  datatype Interval = HealthyInterval | UnhealthyInterval | InactiveTierInterval

  datatype ConfigError = NoNodes

  function CountHealthy(healthy: seq<bool>): (n: nat)
    ensures n <= |healthy|
  {
    if healthy == [] then 0
    else CountHealthy(healthy[..|healthy| - 1]) + if healthy[|healthy| - 1] then 1 else 0
  }

  function GaugesOf(healthy: seq<bool>): Gauges {
    Gauges(|healthy|, CountHealthy(healthy), |healthy| - CountHealthy(healthy))
  }

  function HealthySet(healthy: seq<bool>): set<int> {
    set i | 0 <= i < |healthy| && healthy[i]
  }

  lemma HealthySetExtended(front: seq<bool>, last: bool)
    ensures HealthySet(front + [last]) == HealthySet(front) + if last then {|front|} else {}
  {
  }

  /** The healthy gauge is the number of healthy positions. */
  lemma {:induction false} CountHealthyIsCardinality(healthy: seq<bool>)
    ensures CountHealthy(healthy) == |HealthySet(healthy)|
  {
    if healthy != [] {
      var front, last := healthy[..|healthy| - 1], healthy[|healthy| - 1];
      CountHealthyIsCardinality(front);
      HealthySetExtended(front, last);
      assert healthy == front + [last];
      assert |front| !in HealthySet(front);
    }
  }

  /** The probe delay of a node, from the flag and the active tier it was computed from. */
  function IntervalOf(tier: int, healthy: bool, activeTier: int): Interval {
    if !healthy then UnhealthyInterval
    else if tier == activeTier then HealthyInterval
    else InactiveTierInterval
  }

  function Flags(nodes: seq<NodeState>): (f: seq<bool>)
    reads nodes
    ensures |f| == |nodes|
    ensures forall i :: 0 <= i < |nodes| ==> f[i] == nodes[i].healthy
  {
    seq(|nodes|, i requires 0 <= i < |nodes| reads nodes => nodes[i].healthy)
  }

  function GroupFlags(groups: seq<seq<nat>>, healthy: seq<bool>): (f: seq<seq<bool>>)
    requires forall t, p :: 0 <= t < |groups| && 0 <= p < |groups[t]| ==> groups[t][p] < |healthy|
    ensures |f| == |groups|
    ensures forall t :: 0 <= t < |f| ==> |f[t]| == |groups[t]|
    ensures forall t, p :: 0 <= t < |f| && 0 <= p < |f[t]| ==> f[t][p] == healthy[groups[t][p]]
  {
    seq(|groups|, t requires 0 <= t < |groups| =>
      seq(|groups[t]|, p requires 0 <= p < |groups[t]| => healthy[groups[t][p]]))
  }

  function NodeAt(groups: seq<seq<nat>>, choice: Option<(nat, nat)>): Option<nat>
    requires choice.Some? ==> choice.value.0 < |groups| && choice.value.1 < |groups[choice.value.0]|
  {
    if choice.None? then None else Some(groups[choice.value.0][choice.value.1])
  }

  function AllHealthy(n: nat): seq<bool> {
    seq(n, _ => true)
  }

  lemma OneGroupPerKey(tierOf: seq<int>, keys: seq<int>, groups: seq<seq<nat>>)
    requires Grouping(tierOf, keys, groups)
    ensures |keys| == |groups|
  {
  }

  lemma AllAreHealthy(n: nat)
    ensures |AllHealthy(n)| == n && forall i :: 0 <= i < n ==> AllHealthy(n)[i]
  {
  }

  method NewNodes(tierOf: seq<int>) returns (states: seq<NodeState>)
    ensures |states| == |tierOf| && fresh(states)
    ensures Flags(states) == AllHealthy(|tierOf|)
    ensures forall i :: 0 <= i < |states| ==>
              states[i].tier == tierOf[i] && states[i].State() == FRESH && !states[i].notified
    ensures forall i, j :: 0 <= i < j < |states| ==> states[i] != states[j]
  {
    states := [];
    for i := 0 to |tierOf|
      invariant |states| == i
      invariant forall j :: 0 <= j < i ==> fresh(states[j]) && states[j].tier == tierOf[j]
      invariant forall j :: 0 <= j < i ==> states[j].State() == FRESH && !states[j].notified
      invariant forall j, k :: 0 <= j < k < i ==> states[j] != states[k]
    {
      var n := new NodeState(tierOf[i]);
      states := states + [n];
    }
  }

  method NewTiers(tierOf: seq<int>) returns (keys: seq<int>, groups: seq<seq<nat>>, counters: array<Uint64>)
    requires tierOf != []
    ensures keys != [] && Grouping(tierOf, keys, groups)
    ensures forall t, p :: 0 <= t < |groups| && 0 <= p < |groups[t]| ==> groups[t][p] < |tierOf|
    ensures fresh(counters) && counters.Length == |groups|
    ensures forall t :: 0 <= t < counters.Length ==> counters[t] == 0
  {
    keys, groups := GroupByTier(tierOf);
    GroupedPositions(tierOf, keys, groups);
    counters := new Uint64[|keys|](_ => 0);
  }

  method CountPool(nodes: seq<NodeState>) returns (g: Gauges)
    ensures g == GaugesOf(Flags(nodes))
  {
    var total, healthy := |nodes|, 0;
    for i := 0 to |nodes|
      invariant healthy == CountHealthy(Flags(nodes)[..i])
    {
      assert Flags(nodes)[..i + 1][..i] == Flags(nodes)[..i];
      if nodes[i].healthy {
        healthy := healthy + 1;
      }
    }
    assert Flags(nodes)[..|nodes|] == Flags(nodes);
    g := Gauges(total, healthy, total - healthy);
  }

  class HealthAwareTransport {
    const thresholds: Thresholds
    const nodes: seq<NodeState>
    const tierOf: seq<int>
    const tierKeys: seq<int>
    const tiers: seq<seq<nat>>
    const counters: array<Uint64>
    const publishes: bool  // a metrics collector is configured
    var activeTier: int
    var gauges: Gauges

    ghost predicate Valid() {
      && |nodes| == |tierOf| > 0
      && (forall i :: 0 <= i < |nodes| ==> nodes[i].tier == tierOf[i])
      && (forall i, j :: 0 <= i < j < |nodes| ==> nodes[i] != nodes[j])
      && Grouping(tierOf, tierKeys, tiers)
      && counters.Length == |tiers|
      && (forall t, p :: 0 <= t < |tiers| && 0 <= p < |tiers[t]| ==> tiers[t][p] < |nodes|)
    }

    /** The published state is the true state. */
    ghost predicate Published()
      requires Valid()
      reads this, nodes
    {
      && IsActiveTier(tierOf, Flags(nodes), activeTier)
      && (publishes ==> gauges == GaugesOf(Flags(nodes)))
    }

    constructor (config: ThresholdConfig, tierOf: seq<int>, publishes: bool)
      requires tierOf != []
      ensures Valid() && fresh(nodes) && fresh(counters)
      ensures this.tierOf == tierOf && this.publishes == publishes && thresholds == WithDefaults(config)
      ensures forall i :: 0 <= i < |nodes| ==> nodes[i].State() == FRESH && !nodes[i].notified
      ensures forall t :: 0 <= t < counters.Length ==> counters[t] == 0
      ensures Published()
    {
      hide IsActiveTier, GaugesOf, Grouping, AllHealthy;
      var keys, groups, zeros := NewTiers(tierOf);
      OneGroupPerKey(tierOf, keys, groups);
      var states := NewNodes(tierOf);
      var pool := Gauges(0, 0, 0);
      if publishes {
        pool := CountPool(states);
      }
      AllAreHealthy(|tierOf|);
      LowestKeyIsActive(tierOf, keys, groups, AllHealthy(|tierOf|));
      this.thresholds := WithDefaults(config);
      this.nodes := states;
      this.tierOf := tierOf;
      this.tierKeys := keys;
      this.tiers := groups;
      this.counters := zeros;
      this.publishes := publishes;
      this.activeTier := keys[0];  // all healthy at start
      this.gauges := pool;
    }

    /** One call of `next`, while nothing else runs. */
    method Next() returns (r: Option<nat>)
      requires Valid()
      modifies counters
      ensures var (choice, after) := Select(GroupFlags(tiers, Flags(nodes)), old(counters[..]), 0);
              counters[..] == after && r == NodeAt(tiers, choice)
    {
      hide Grouping, Sweep, GroupFlags;
      ghost var flags := GroupFlags(tiers, Flags(nodes));
      for t := 0 to |tiers|
        invariant Select(flags, old(counters[..]), 0) == Select(flags, counters[..], t)
      {
        var found := SweepTier(t);
        if found.Some? {
          return Some(tiers[t][found.value]);
        }
      }
      r := None;
    }

    method SweepTier(t: nat) returns (r: Option<nat>)
      requires Valid() && t < |tiers|
      modifies counters
      ensures counters[..] == old(counters[..])[t := AddOne(old(counters[t]))]
      ensures r == Sweep(GroupFlags(tiers, Flags(nodes))[t], old(counters[t]), 0)
    {
      counters[t] := AddOne(counters[t]);
      var startIdx := (counters[t] - 1) % TWO_64;
      assert startIdx == old(counters[t]);
      r := LookThrough(t, startIdx);
    }

    /** The nodes of a tier in the order of the sweep, up to the first healthy one. */
    method LookThrough(t: nat, startIdx: Uint64) returns (r: Option<nat>)
      requires Valid() && t < |tiers|
      ensures r == Sweep(GroupFlags(tiers, Flags(nodes))[t], startIdx, 0)
    {
      hide Visit, Grouping;
      ghost var flags := GroupFlags(tiers, Flags(nodes))[t];
      var group := tiers[t];
      for i := 0 to |group|
        invariant Sweep(flags, startIdx, 0) == Sweep(flags, startIdx, i)
      {
        var p := Visit(startIdx, i, |group|);
        if nodes[group[p]].healthy {
          return Some(p);
        }
      }
      r := None;
    }

    method OnStateChange()
      requires Valid()
      modifies this`activeTier, this`gauges, nodes`notified
      ensures Flags(nodes) == old(Flags(nodes)) && Published()
      ensures activeTier != old(activeTier) ==> forall i :: 0 <= i < |nodes| ==> nodes[i].notified
      ensures activeTier == old(activeTier) ==> forall i :: 0 <= i < |nodes| ==> nodes[i].notified == old(nodes[i].notified)
    {
      var newActive := ScanActiveTier();
      var oldActive := activeTier;
      activeTier := newActive;
      PublishPoolMetrics();
      if oldActive != newActive {
        NotifyAll();
      }
    }

    method NotifyAll()
      requires Valid()
      modifies nodes`notified
      ensures forall i :: 0 <= i < |nodes| ==> nodes[i].notified
      ensures Flags(nodes) == old(Flags(nodes))
    {
      for i := 0 to |nodes|
        invariant forall j :: 0 <= j < i ==> nodes[j].notified
      {
        nodes[i].Notify();
      }
    }

    method ScanActiveTier() returns (a: int)
      requires Valid()
      ensures IsActiveTier(tierOf, Flags(nodes), a)
    {
      GroupingIsPartition(tierOf, tierKeys, tiers);
      ghost var healthy := Flags(nodes);
      for t := 0 to |tiers|
        invariant forall u, i :: 0 <= u < t && i in tiers[u] ==> !healthy[i]
      {
        for p := 0 to |tiers[t]|
          invariant forall q :: 0 <= q < p ==> !healthy[tiers[t][q]]
        {
          if nodes[tiers[t][p]].healthy {
            FirstHealthyTierIsActive(tierOf, tierKeys, tiers, healthy, t, p);
            return tierKeys[t];
          }
        }
      }
      forall i | 0 <= i < |healthy|
        ensures !healthy[i]
      {
        assert Placed(tiers, i);
      }
      a := -1;
    }

    method PublishPoolMetrics()
      requires Valid()
      modifies this`gauges
      ensures Flags(nodes) == old(Flags(nodes))
      ensures gauges == if publishes then GaugesOf(Flags(nodes)) else old(gauges)
    {
      if publishes {
        gauges := CountPool(nodes);
      }
    }

    ghost predicate Healthy(i: int)
      reads nodes
    {
      0 <= i < |nodes| && nodes[i].healthy
    }

    /** Recording an outcome moves one node and leaves the published state true. */
    method RecordOutcome(n: nat, o: Outcome)
      requires Valid() && n < |nodes| && Published()
      modifies this`activeTier, this`gauges, nodes
      ensures Published()
      ensures nodes[n].State() == Record(thresholds, old(nodes[n].State()), o)
      ensures forall i :: 0 <= i < |nodes| && i != n ==> nodes[i].State() == old(nodes[i].State())
      ensures activeTier != old(activeTier) ==> forall i :: 0 <= i < |nodes| ==> nodes[i].notified
    {
      var transition := nodes[n].RecordOutcome(thresholds, o);
      if transition {
        OnStateChange();
      } else {
        assert Flags(nodes) == old(Flags(nodes));
      }
    }

    /**
      The delay before the next probe. With the published tier true, the healthy nodes probed at the
      healthy rate are those no healthy node is preferred to, and the others stand behind one.
     */
    method IntervalFor(n: nat) returns (d: Interval)
      requires Valid() && n < |nodes|
      ensures d == UnhealthyInterval <==> !nodes[n].healthy
      ensures d == HealthyInterval <==> nodes[n].healthy && tierOf[n] == activeTier
      ensures Published() ==>
                (d == HealthyInterval <==> nodes[n].healthy && forall i :: Healthy(i) ==> tierOf[n] <= tierOf[i])
      ensures Published() ==>
                (d == InactiveTierInterval <==> nodes[n].healthy && exists i :: Healthy(i) && tierOf[i] < tierOf[n])
    {
      BestTierIsActive(tierOf, Flags(nodes), n, activeTier);
      var healthy := nodes[n].healthy;
      if !healthy {
        return UnhealthyInterval;
      }
      if nodes[n].tier == activeTier {
        return HealthyInterval;
      }
      return InactiveTierInterval;
    }
  }

  /** Refused without nodes; otherwise everything fresh and the published state true. */
  method NewHealthAwareTransport(config: ThresholdConfig, tierOf: seq<int>, publishes: bool)
    returns (r: Result<HealthAwareTransport, ConfigError>)
    ensures r == Err(NoNodes) <==> tierOf == []
    ensures r.Ok? <==> tierOf != []
    ensures r.Ok? ==>
              var h := r.value;
              && fresh(h) && h.Valid() && fresh(h.nodes) && fresh(h.counters)
              && h.tierOf == tierOf && h.publishes == publishes && h.thresholds == WithDefaults(config)
              && (forall i :: 0 <= i < |h.nodes| ==> h.nodes[i].State() == FRESH && !h.nodes[i].notified)
              && (forall t :: 0 <= t < h.counters.Length ==> h.counters[t] == 0)
              && h.Published()
  {
    if tierOf == [] {
      return Err(NoNodes);
    }
    var h := new HealthAwareTransport(config, tierOf, publishes);
    r := Ok(h);
  }

  /** A healthy node is in the active tier exactly when no healthy node is in a lower one. */
  lemma BestTierIsActive(tierOf: seq<int>, healthy: seq<bool>, n: nat, a: int)
    requires |tierOf| == |healthy| && n < |healthy|
    ensures IsActiveTier(tierOf, healthy, a) && healthy[n] ==>
              (tierOf[n] == a <==> forall i :: 0 <= i < |healthy| && healthy[i] ==> tierOf[n] <= tierOf[i])
  {
    if IsActiveTier(tierOf, healthy, a) && healthy[n] {
      assert true in healthy;
    }
  }

  lemma FirstHealthyTierIsActive(
      tierOf: seq<int>, keys: seq<int>, groups: seq<seq<nat>>, healthy: seq<bool>, t: nat, p: nat)
    requires Grouping(tierOf, keys, groups) && |healthy| == |tierOf|
    requires t < |groups| && p < |groups[t]| && groups[t][p] < |healthy| && healthy[groups[t][p]]
    requires forall u, i :: 0 <= u < t && i in groups[u] && i < |healthy| ==> !healthy[i]
    ensures IsActiveTier(tierOf, healthy, keys[t])
  {
    GroupingIsPartition(tierOf, keys, groups);
    forall i | 0 <= i < |healthy| && healthy[i]
      ensures keys[t] <= tierOf[i]
    {
      assert Placed(groups, i);
      var u :| 0 <= u < |groups| && i in groups[u];
      var q :| 0 <= q < |groups[u]| && groups[u][q] == i;
      assert tierOf[i] == keys[u];
      assert t <= u;
    }
  }

  lemma GroupedPositions(tierOf: seq<int>, keys: seq<int>, groups: seq<seq<nat>>)
    requires Grouping(tierOf, keys, groups) && tierOf != []
    ensures keys != []
    ensures forall t, p :: 0 <= t < |groups| && 0 <= p < |groups[t]| ==> groups[t][p] < |tierOf|
  {
    GroupingIsPartition(tierOf, keys, groups);
    var first := tierOf[0];
    assert first in tierOf && first in keys;
  }

  lemma LowestKeyIsActive(tierOf: seq<int>, keys: seq<int>, groups: seq<seq<nat>>, healthy: seq<bool>)
    requires Grouping(tierOf, keys, groups) && |healthy| == |tierOf| > 0
    requires forall i :: 0 <= i < |healthy| ==> healthy[i]
    ensures keys != [] && IsActiveTier(tierOf, healthy, keys[0])
  {
    GroupingIsPartition(tierOf, keys, groups);
    var lowest := tierOf[0];
    assert lowest in tierOf && lowest in keys;
    assert groups[0] != [];
    FirstHealthyTierIsActive(tierOf, keys, groups, healthy, 0, 0);
  }

  /** With no counter about to skip, `Next` serves from the lowest healthy tier and fails only when none is. */
  lemma NextServesActiveTier(
      tierOf: seq<int>, keys: seq<int>, groups: seq<seq<nat>>, healthy: seq<bool>, counters: seq<Uint64>, a: int)
    requires Grouping(tierOf, keys, groups) && |healthy| == |tierOf| <= TWO_64 && |counters| == |groups|
    requires forall t :: 0 <= t < |groups| ==> 0 < |groups[t]| <= TWO_64 && SweepDoesNotSkip(counters[t], |groups[t]|)
    requires forall t, p :: 0 <= t < |groups| && 0 <= p < |groups[t]| ==> groups[t][p] < |healthy|
    requires IsActiveTier(tierOf, healthy, a)
    ensures match Select(GroupFlags(groups, healthy), counters, 0).0
            case None => true !in healthy
            case Some((t, p)) => t < |groups| && p < |groups[t]| && healthy[groups[t][p]] && tierOf[groups[t][p]] == a
  {
    hide Select, IsActiveTier, Grouping, GroupFlags, SweepDoesNotSkip;
    var flags := GroupFlags(groups, healthy);
    SelectIsLowestHealthyTier(flags, counters, 0);
    match Select(flags, counters, 0).0
    case None =>
      forall u | 0 <= u < |groups| ensures GroupIsDown(groups[u], healthy) {
        NoneHealthyInGroup(groups, healthy, u);
      }
      EveryNodeIsDown(tierOf, keys, groups, healthy);
    case Some((t, p)) =>
      forall u | 0 <= u < t ensures GroupIsDown(groups[u], healthy) {
        NoneHealthyInGroup(groups, healthy, u);
      }
      ServedTierIsActive(tierOf, keys, groups, healthy, t, p);
      ActiveTierIsUnique(tierOf, healthy, a, keys[t]);
  }

  ghost predicate GroupIsDown(group: seq<nat>, healthy: seq<bool>) {
    forall i :: i in group && i < |healthy| ==> !healthy[i]
  }

  lemma NoneHealthyInGroup(groups: seq<seq<nat>>, healthy: seq<bool>, u: nat)
    requires forall t, p :: 0 <= t < |groups| && 0 <= p < |groups[t]| ==> groups[t][p] < |healthy|
    requires u < |groups| && NoneHealthy(GroupFlags(groups, healthy)[u])
    ensures GroupIsDown(groups[u], healthy)
  {
    forall i | i in groups[u] ensures !healthy[i] {
      var q :| 0 <= q < |groups[u]| && groups[u][q] == i;
      assert !GroupFlags(groups, healthy)[u][q];
    }
  }

  lemma EveryNodeIsDown(tierOf: seq<int>, keys: seq<int>, groups: seq<seq<nat>>, healthy: seq<bool>)
    requires Grouping(tierOf, keys, groups) && |healthy| == |tierOf|
    requires forall u :: 0 <= u < |groups| ==> GroupIsDown(groups[u], healthy)
    ensures true !in healthy
  {
    GroupingIsPartition(tierOf, keys, groups);
    hide Grouping;
    forall i | 0 <= i < |healthy| ensures !healthy[i] {
      assert Placed(groups, i);
      var u :| 0 <= u < |groups| && i in groups[u];
      assert GroupIsDown(groups[u], healthy);
    }
  }

  lemma ServedTierIsActive(
      tierOf: seq<int>, keys: seq<int>, groups: seq<seq<nat>>, healthy: seq<bool>, t: nat, p: nat)
    requires Grouping(tierOf, keys, groups) && |healthy| == |tierOf|
    requires t < |groups| && p < |groups[t]| && groups[t][p] < |healthy| && healthy[groups[t][p]]
    requires forall u :: 0 <= u < t ==> GroupIsDown(groups[u], healthy)
    ensures t < |keys| && IsActiveTier(tierOf, healthy, keys[t]) && tierOf[groups[t][p]] == keys[t]
  {
    hide IsActiveTier;
    forall u, i | 0 <= u < t && i in groups[u] && i < |healthy| ensures !healthy[i] {
      assert GroupIsDown(groups[u], healthy);
    }
    FirstHealthyTierIsActive(tierOf, keys, groups, healthy, t, p);
    assert groups[t][p] in groups[t];
    MemberOfGroup(tierOf, keys, groups, t, groups[t][p]);
  }
}
