/**
  Which node a call goes to: the cyclic sweep over one tier and the walk over the tiers of
  pkg/client/health.go `next`, and `RoundRobinTransport.next`, which it refines.
 */
module Selection {
  import opened Wrappers
  import opened Modular

  type Uint64 = x: int | 0 <= x < TWO_64

  function AddOne(x: Uint64): Uint64 {
    (x + 1) % TWO_64
  }

  /** The position looked at in step `i` of a sweep, in wrapping 64-bit arithmetic. */
  function Visit(start: Uint64, i: nat, n: nat): (p: nat)
    requires 0 < n
    ensures p < n
  {
    (start + i) % TWO_64 % n
  }

  /** The first healthy position from step `i` of the sweep on. */
  function Sweep(healthy: seq<bool>, start: Uint64, i: nat): (r: Option<nat>)
    requires i <= |healthy|
    ensures r.Some? ==> r.value < |healthy| && healthy[r.value]
    decreases |healthy| - i
  {
    if i == |healthy| then None
    else if healthy[Visit(start, i, |healthy|)] then Some(Visit(start, i, |healthy|))
    else Sweep(healthy, start, i + 1)
  }

  lemma {:induction false} SweepFindsFirst(healthy: seq<bool>, start: Uint64, i: nat)
    requires i <= |healthy|
    ensures match Sweep(healthy, start, i)
            case None => forall k :: i <= k < |healthy| ==> !healthy[Visit(start, k, |healthy|)]
            case Some(p) => exists k :: i <= k < |healthy| && p == Visit(start, k, |healthy|) && healthy[p]
                                        && forall l :: i <= l < k ==> !healthy[Visit(start, l, |healthy|)]
    decreases |healthy| - i
  {
    hide Visit;
    if i < |healthy| && !healthy[Visit(start, i, |healthy|)] {
      SweepFindsFirst(healthy, start, i + 1);
    }
  }

  // ----- Which sweeps look at every node -----

  ghost predicate Visits(start: Uint64, n: nat, p: nat)
    requires 0 < n
  {
    exists i :: 0 <= i < n && Visit(start, i, n) == p
  }

  ghost predicate Covers(start: Uint64, n: nat)
    requires 0 < n
  {
    forall p :: 0 <= p < n ==> Visits(start, n, p)
  }

  predicate SweepDoesNotSkip(start: Uint64, n: nat)
    requires 0 < n
  {
    start + n <= TWO_64 || TWO_64 % n == 0
  }

  /**
    A sweep looks at every node of its tier exactly when the counter does not wrap inside it
    or the tier's size divides 2^64; otherwise some node is skipped.
   */
  lemma SweepCoversIff(start: Uint64, n: nat)
    requires 0 < n <= TWO_64
    ensures Covers(start, n) <==> SweepDoesNotSkip(start, n)
  {
    if SweepDoesNotSkip(start, n) {
      forall p | 0 <= p < n
        ensures Visits(start, n, p)
      {
        VisitReaches(start, n, p);
      }
    } else {
      WrappedSweepSkips(start, n);
    }
  }

  lemma VisitIsCyclic(start: Uint64, i: nat, n: nat)
    requires i < n && SweepDoesNotSkip(start, n)
    ensures Visit(start, i, n) == (start + i) % n
  {
    if start + n > TWO_64 {
      ModOfDivisor(start + i, TWO_64, n);
    }
  }

  lemma VisitReaches(start: Uint64, n: nat, p: nat)
    requires p < n && SweepDoesNotSkip(start, n)
    ensures 0 <= (p - start) % n < n && Visit(start, (p - start) % n, n) == p
  {
    VisitIsCyclic(start, (p - start) % n, n);
    CyclicReaches(start, n, p);
  }

  lemma CyclicReaches(start: nat, n: nat, p: nat)
    requires p < n
    ensures (start + (p - start) % n) % n == p
  {
    var q := (p - start) / n;
    assert -q * n == -(q * n);
    ModShift(p, n, -q);
    ModIs(p, n, 0, p);
  }

  /** Before the wrap the visits end at the residue of 2^64, after it they restart at 0. */
  lemma WrappedVisit(start: Uint64, i: nat, n: nat)
    requires i < n <= TWO_64 && !SweepDoesNotSkip(start, n)
    ensures var v := TWO_64 % n - (TWO_64 - start) + i;
            Visit(start, i, n) == if start + i >= TWO_64 then start + i - TWO_64 else if v < 0 then v + n else v
  {
    if start + i < TWO_64 {
      ModIs(start + i, TWO_64, 0, start + i);
      ModStep(TWO_64, n, start + i - TWO_64);
    } else {
      ModIs(start + i, TWO_64, 1, start + i - TWO_64);
      ModIs(start + i - TWO_64, n, 0, start + i - TWO_64);
    }
  }

  lemma WrappedSweepSkips(start: Uint64, n: nat)
    requires 0 < n <= TWO_64 && !SweepDoesNotSkip(start, n)
    ensures !Covers(start, n)
  {
    var w := TWO_64 - start;  // steps before the counter wraps
    var r := TWO_64 % n;
    var skipped := if r >= w then n - 1 else n + r - w - 1;
    assert 0 < r < n;
    forall i | 0 <= i < n
      ensures Visit(start, i, n) != skipped
    {
      WrappedVisit(start, i, n);
    }
    assert !Visits(start, n, skipped);
  }

  /** With the counter at its last value, a tier of three can fail although its last node is healthy. */
  lemma WrapHidesHealthyNode()
    ensures Sweep([false, false, true], TWO_64 - 1, 0) == None
  {
    var h := [false, false, true];
    assert Visit(TWO_64 - 1, 0, 3) == 0 && Visit(TWO_64 - 1, 1, 3) == 0 && Visit(TWO_64 - 1, 2, 3) == 1;
    assert Sweep(h, TWO_64 - 1, 3) == None;
    assert Sweep(h, TWO_64 - 1, 2) == None;
    assert Sweep(h, TWO_64 - 1, 1) == None;
  }

  // ----- How one tier's picks are spread -----

  /** The position `d` places before `p`, cyclically. */
  function Behind(p: nat, d: nat, n: nat): (q: nat)
    requires 0 < n
    ensures q < n
  {
    (p - d) % n
  }

  /** The number of unhealthy positions right before `p`, cyclically, not counting the `d` nearest. */
  function Gap(healthy: seq<bool>, p: nat, d: nat): nat
    requires p < |healthy| && d <= |healthy|
    decreases |healthy| - d
  {
    if d < |healthy| && !healthy[Behind(p, d + 1, |healthy|)] then 1 + Gap(healthy, p, d + 1) else 0
  }

  /** The counter after `j` more visits. */
  function Start(s: Uint64, j: nat): Uint64 {
    (s + j) % TWO_64
  }

  /** How often the starts s, s+1, ..., s+k-1 pick position `p`. */
  function Picks(healthy: seq<bool>, s: Uint64, k: nat, p: nat): nat {
    if k == 0 then 0
    else Picks(healthy, s, k - 1, p) + if Sweep(healthy, Start(s, k - 1), 0) == Some(p) then 1 else 0
  }

  ghost predicate NoneSkips(s: Uint64, k: nat, n: nat)
    requires 0 < n
  {
    forall j :: 0 <= j < k ==> SweepDoesNotSkip(Start(s, j), n)
  }

  /**
    Over any |healthy| consecutive visits, none of which skips a node, a healthy position is picked once
    for itself and once for each unhealthy position right before it; an unhealthy one is never picked.
   */
  lemma LoadDistribution(healthy: seq<bool>, s: Uint64, p: nat)
    requires p < |healthy| <= TWO_64 && NoneSkips(s, |healthy|, |healthy|)
    ensures Picks(healthy, s, |healthy|, p) == if healthy[p] then 1 + Gap(healthy, p, 0) else 0
  {
    hide Picks, Near, Gap, NoneSkips;
    var n := |healthy|;
    if healthy[p] {
      GapStops(healthy, p, 0);
      PicksCountNear(healthy, s, n, p);
      NearCount(s, n, n, p, Gap(healthy, p, 0));
    } else {
      NeverPicked(healthy, s, n, p);
    }
  }

  /** With k further visits before 2^64 none skips; nor does any if the size divides 2^64. */
  lemma NoneSkipsWhen(s: Uint64, n: nat)
    requires 0 < n <= TWO_64 && (s + 2 * n <= TWO_64 + 1 || TWO_64 % n == 0)
    ensures NoneSkips(s, n, n)
  {
  }

  lemma {:induction false} NeverPicked(healthy: seq<bool>, s: Uint64, k: nat, p: nat)
    requires p < |healthy| && !healthy[p]
    ensures Picks(healthy, s, k, p) == 0
  {
    if k > 0 {
      NeverPicked(healthy, s, k - 1, p);
      SweepFindsFirst(healthy, Start(s, k - 1), 0);
    }
  }

  lemma BehindAllTheWay(p: nat, n: nat)
    requires p < n
    ensures Behind(p, n, n) == p
  {
    ModIs(p - n, n, -1, p);
  }

  /** The gap before a healthy position ends at that position at the latest. */
  lemma {:induction false} GapStops(healthy: seq<bool>, p: nat, d: nat)
    requires p < |healthy| && d < |healthy| && healthy[p]
    ensures var g := d + Gap(healthy, p, d);
            && g < |healthy|
            && (forall l {:trigger Behind(p, l, |healthy|)} :: d < l <= g ==> !healthy[Behind(p, l, |healthy|)])
            && healthy[Behind(p, g + 1, |healthy|)]
    decreases |healthy| - d
  {
    if !healthy[Behind(p, d + 1, |healthy|)] {
      BehindAllTheWay(p, |healthy|);
      GapStops(healthy, p, d + 1);
    }
  }

  /** The visits of a start before it reaches `p` are the positions behind `p`. */
  lemma VisitIsBehind(x: Uint64, i: nat, n: nat, p: nat)
    requires p < n && SweepDoesNotSkip(x, n) && i < (p - x) % n
    ensures Visit(x, i, n) == Behind(p, (p - x) % n - i, n) != p
  {
    VisitIsCyclic(x, i, n);
    CyclicIsBehind(x, i, n, p);
  }

  lemma CyclicIsBehind(x: nat, i: nat, n: nat, p: nat)
    requires p < n && i < (p - x) % n
    ensures (x + i) % n == Behind(p, (p - x) % n - i, n) != p
  {
    var q, e := (p - x) / n, (p - x) % n - i;
    assert p - x == q * n + (p - x) % n;
    assert x + i == p - e + -q * n by {
      assert -q * n == -(q * n);
    }
    ModShift(p - e, n, -q);
    ModIs(p, n, 0, p);
    ModStep(p, n, -e);
  }

  /** A start picks the healthy position `p` iff every position it looks at before is in the gap. */
  lemma PickIffNear(healthy: seq<bool>, x: Uint64, p: nat)
    requires p < |healthy| && healthy[p] && SweepDoesNotSkip(x, |healthy|)
    ensures Sweep(healthy, x, 0) == Some(p) <==> (p - x) % |healthy| <= Gap(healthy, p, 0)
  {
    var n := |healthy|;
    var d := (p - x) % n;
    var g := Gap(healthy, p, 0);
    VisitReaches(x, n, p);
    SweepFindsFirst(healthy, x, 0);
    GapStops(healthy, p, 0);
    forall i | 0 <= i < d
      ensures Visit(x, i, n) == Behind(p, d - i, n) != p
    {
      VisitIsBehind(x, i, n, p);
    }
    PickIffNearAux(healthy, x, p, d, g);
  }

  lemma PickIffNearAux(healthy: seq<bool>, x: Uint64, p: nat, d: nat, g: nat)
    requires p < |healthy| && healthy[p] && d < |healthy| && g < |healthy|
    requires forall i :: 0 <= i < d ==> Visit(x, i, |healthy|) == Behind(p, d - i, |healthy|) != p
    requires Visit(x, d, |healthy|) == p
    requires forall l {:trigger Behind(p, l, |healthy|)} :: 0 < l <= g ==> !healthy[Behind(p, l, |healthy|)]
    requires healthy[Behind(p, g + 1, |healthy|)]
    ensures Sweep(healthy, x, 0) == Some(p) <==> d <= g
  {
    SweepFindsFirst(healthy, x, 0);
    if d <= g {
      assert forall i :: 0 <= i < d ==> !healthy[Visit(x, i, |healthy|)];
    } else {
      assert healthy[Visit(x, d - (g + 1), |healthy|)];
    }
  }

  /** How many of s, s+1, ..., s+k-1 lie at cyclic distance at most `g` before `p`. */
  function Near(s: nat, k: nat, n: nat, p: nat, g: nat): nat
    requires 0 < n
  {
    if k == 0 then 0 else Near(s, k - 1, n, p, g) + if (p - (s + k - 1)) % n <= g then 1 else 0
  }

  /** Without a skip, wrapping does not change the distance. */
  lemma WrappedDistance(s: Uint64, j: nat, n: nat, p: nat)
    requires 0 < n <= TWO_64 && j < n && NoneSkips(s, j + 1, n)
    ensures (p - Start(s, j)) % n == (p - (s + j)) % n
  {
    if s + j >= TWO_64 {
      var last := TWO_64 - 1 - s;
      assert SweepDoesNotSkip(Start(s, last), n);
      assert n == 1 || TWO_64 % n == 0;
      ModIs(s + j, TWO_64, 1, s + j - TWO_64);
      MultipleAway(p - (s + j), n);
    }
  }

  lemma MultipleAway(x: int, n: nat)
    requires 0 < n && (n == 1 || TWO_64 % n == 0)
    ensures (x + TWO_64) % n == x % n
  {
    assert TWO_64 == TWO_64 / n * n;
    ModShift(x, n, TWO_64 / n);
  }

  lemma PicksStep(healthy: seq<bool>, s: Uint64, k: nat, p: nat)
    requires p < |healthy| <= TWO_64 && healthy[p] && 0 < k <= |healthy| && NoneSkips(s, k, |healthy|)
    ensures Picks(healthy, s, k, p)
            == Picks(healthy, s, k - 1, p) + if (p - (s + k - 1)) % |healthy| <= Gap(healthy, p, 0) then 1 else 0
  {
    hide Gap, Sweep;
    assert SweepDoesNotSkip(Start(s, k - 1), |healthy|);
    WrappedDistance(s, k - 1, |healthy|, p);
    PickIffNear(healthy, Start(s, k - 1), p);
  }

  lemma {:induction false} PicksCountNear(healthy: seq<bool>, s: Uint64, k: nat, p: nat)
    requires p < |healthy| <= TWO_64 && healthy[p] && k <= |healthy| && NoneSkips(s, k, |healthy|)
    ensures Picks(healthy, s, k, p) == Near(s, k, |healthy|, p, Gap(healthy, p, 0))
  {
    hide Gap;
    if k > 0 {
      PicksCountNear(healthy, s, k - 1, p);
      PicksStep(healthy, s, k, p);
    }
  }

  function Clamp(x: int, hi: int): int {
    if x < 0 then 0 else if x > hi then hi else x
  }

  lemma {:induction false} NearCount(s: nat, k: nat, n: nat, p: nat, g: nat)
    requires 0 < n && k <= n && g < n
    ensures var d := (p - s) % n;
            Near(s, k, n, p, g) == if k <= d + 1 then Clamp(g - d + k, k)
                                   else Clamp(g + 1, d + 1) + Clamp(g - n + k - d, k - d - 1)
  {
    if k > 0 {
      NearCount(s, k - 1, n, p, g);
      ModStep(p - s, n, -(k - 1));
    }
  }

  // ----- Walking the tiers -----

  /**
    One whole `next`, with every node's health fixed: the tier and position chosen, and the
    tier counters afterwards.
   */
  function Select(tiers: seq<seq<bool>>, counters: seq<Uint64>, t: nat): (r: (Option<(nat, nat)>, seq<Uint64>))
    requires t <= |tiers| == |counters|
    ensures |r.1| == |counters|
    ensures r.0.Some? ==> r.0.value.0 < |tiers| && r.0.value.1 < |tiers[r.0.value.0]|
    decreases |tiers| - t
  {
    if t == |tiers| then (None, counters)
    else
      var counters' := counters[t := AddOne(counters[t])];
      match Sweep(tiers[t], counters[t], 0)
      case Some(p) => (Some((t, p)), counters')
      case None => Select(tiers, counters', t + 1)
  }

  ghost predicate NoneHealthy(group: seq<bool>) {
    forall p :: 0 <= p < |group| ==> !group[p]
  }

  lemma SweepFindsAny(healthy: seq<bool>, start: Uint64)
    requires 0 < |healthy| <= TWO_64 && SweepDoesNotSkip(start, |healthy|)
    ensures Sweep(healthy, start, 0) == None <==> NoneHealthy(healthy)
  {
    SweepCoversIff(start, |healthy|);
    SweepFindsFirst(healthy, start, 0);
    forall p | 0 <= p < |healthy| && Sweep(healthy, start, 0) == None
      ensures !healthy[p]
    {
      assert Visits(start, |healthy|, p);
    }
  }

  /** The lowest tier holding a healthy node serves the call; the call fails iff there is none. */
  lemma {:induction false} SelectIsLowestHealthyTier(tiers: seq<seq<bool>>, counters: seq<Uint64>, t: nat)
    requires t <= |tiers| == |counters|
    requires forall u :: t <= u < |tiers| ==> 0 < |tiers[u]| <= TWO_64 && SweepDoesNotSkip(counters[u], |tiers[u]|)
    ensures match Select(tiers, counters, t).0
            case None => forall u :: t <= u < |tiers| ==> NoneHealthy(tiers[u])
            case Some((u, p)) => t <= u < |tiers| && p < |tiers[u]| && tiers[u][p]
                                 && forall v :: t <= v < u ==> NoneHealthy(tiers[v])
    decreases |tiers| - t
  {
    if t < |tiers| {
      SweepFindsAny(tiers[t], counters[t]);
      SweepFindsFirst(tiers[t], counters[t], 0);
      SelectIsLowestHealthyTier(tiers, counters[t := AddOne(counters[t])], t + 1);
    }
  }

  // ----- Round robin -----

  class RoundRobinTransport<T> {
    const transports: seq<T>
    var counter: Uint64

    constructor (transports: seq<T>)
      ensures this.transports == transports && counter == 0
    {
      this.transports := transports;
      counter := 0;
    }

    method Next() returns (t: T)
      requires transports != []
      modifies this`counter
      ensures counter == AddOne(old(counter))
      ensures t == transports[RoundRobin(|transports|, old(counter), 1)[0]]
    {
      counter := AddOne(counter);
      var idx := (counter - 1) % TWO_64;
      t := transports[idx % |transports|];
    }
  }

  /** The positions `k` successive calls of the plain round robin return. */
  function RoundRobin(n: nat, counter: Uint64, k: nat): (picks: seq<nat>)
    requires 0 < n
    ensures |picks| == k
    ensures forall i :: 0 <= i < k ==> picks[i] < n
    decreases k
  {
    if k == 0 then [] else [counter % n] + RoundRobin(n, AddOne(counter), k - 1)
  }

  /** The outcomes of `k` successive calls of the tiered `next` while no health changes. */
  function Selections(tiers: seq<seq<bool>>, counters: seq<Uint64>, k: nat): seq<Option<(nat, nat)>>
    requires |tiers| == |counters|
    decreases k
  {
    if k == 0 then []
    else
      var (choice, counters') := Select(tiers, counters, 0);
      [choice] + Selections(tiers, counters', k - 1)
  }

  /** One tier with every node healthy is plain round robin, call for call, across counter wrap too. */
  lemma {:induction false} OneHealthyTierIsRoundRobin(group: seq<bool>, counter: Uint64, k: nat)
    requires group != [] && forall p :: 0 <= p < |group| ==> group[p]
    ensures |Selections([group], [counter], k)| == k
    ensures forall i :: 0 <= i < k ==>
              Selections([group], [counter], k)[i] == Some((0, RoundRobin(|group|, counter, k)[i]))
    decreases k
  {
    if k > 0 {
      OneHealthyTierIsRoundRobin(group, AddOne(counter), k - 1);
      SelectFromHealthyTier(group, counter);
    }
  }

  lemma SelectFromHealthyTier(group: seq<bool>, counter: Uint64)
    requires group != [] && forall p :: 0 <= p < |group| ==> group[p]
    ensures Select([group], [counter], 0) == (Some((0, counter % |group|)), [AddOne(counter)])
  {
    assert Visit(counter, 0, |group|) == counter % |group|;
    assert [counter][0 := AddOne(counter)] == [AddOne(counter)];
  }
}
