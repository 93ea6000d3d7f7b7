/** How NewHealthAwareTransport groups its nodes into tiers (pkg/client/health.go). */
module TierGrouping {
  import opened Wrappers

  /** The positions of tier `k`, in node order. */
  function IndicesOf(tierOf: seq<int>, k: int): seq<nat> {
    if tierOf == [] then []
    else
      var last := |tierOf| - 1;
      IndicesOf(tierOf[..last], k) + if tierOf[last] == k then [last] else []
  }

  ghost predicate StrictlyIncreasing(s: seq<int>) {
    forall i, j :: 0 <= i < j < |s| ==> s[i] < s[j]
  }

  ghost predicate Placed(groups: seq<seq<nat>>, i: nat) {
    exists t :: 0 <= t < |groups| && i in groups[t]
  }

  ghost predicate Grouping(tierOf: seq<int>, keys: seq<int>, groups: seq<seq<nat>>) {
    && |keys| == |groups|
    && StrictlyIncreasing(keys)
    && (forall k :: k in keys <==> k in tierOf)
    && forall t :: 0 <= t < |groups| ==> groups[t] == IndicesOf(tierOf, keys[t])
  }

  lemma MemberOfExtended(s: seq<nat>, x: nat, i: nat)
    ensures i in s + [x] <==> i in s || i == x
  {
  }

  lemma {:induction false} IndexOfIff(tierOf: seq<int>, k: int, i: nat)
    ensures i in IndicesOf(tierOf, k) <==> i < |tierOf| && tierOf[i] == k
  {
    if tierOf != [] {
      var last := |tierOf| - 1;
      IndexOfIff(tierOf[..last], k, i);
      MemberOfExtended(IndicesOf(tierOf[..last], k), last, i);
    }
  }

  lemma IncreasingExtended(s: seq<int>, x: int)
    requires StrictlyIncreasing(s) && forall j :: 0 <= j < |s| ==> s[j] < x
    ensures StrictlyIncreasing(s + [x])
  {
  }

  lemma {:induction false} IndicesIncrease(tierOf: seq<int>, k: int)
    ensures StrictlyIncreasing(IndicesOf(tierOf, k))
    ensures forall j :: 0 <= j < |IndicesOf(tierOf, k)| ==> IndicesOf(tierOf, k)[j] < |tierOf|
  {
    if tierOf != [] {
      var last := |tierOf| - 1;
      IndicesIncrease(tierOf[..last], k);
      IncreasingExtended(IndicesOf(tierOf[..last], k), last);
    }
  }

  lemma IndicesOfSpec(tierOf: seq<int>, k: int)
    ensures StrictlyIncreasing(IndicesOf(tierOf, k))
    ensures forall i :: i in IndicesOf(tierOf, k) <==> 0 <= i < |tierOf| && tierOf[i] == k
  {
    IndicesIncrease(tierOf, k);
    forall i: nat ensures i in IndicesOf(tierOf, k) <==> i < |tierOf| && tierOf[i] == k {
      IndexOfIff(tierOf, k, i);
    }
  }

  /** Every node stands at exactly one place of exactly one tier, and no tier is empty. */
  lemma GroupingIsPartition(tierOf: seq<int>, keys: seq<int>, groups: seq<seq<nat>>)
    requires Grouping(tierOf, keys, groups)
    ensures forall t :: 0 <= t < |groups| ==> groups[t] != [] && StrictlyIncreasing(groups[t])
    ensures forall t, p :: 0 <= t < |groups| && 0 <= p < |groups[t]| ==>
              groups[t][p] < |tierOf| && tierOf[groups[t][p]] == keys[t]
    ensures forall i :: 0 <= i < |tierOf| ==> Placed(groups, i)
    ensures forall t, u, i :: 0 <= t < u < |groups| && i in groups[t] ==> i !in groups[u]
  {
    forall t | 0 <= t < |groups|
      ensures StrictlyIncreasing(groups[t]) && groups[t] != []
      ensures forall i :: i in groups[t] <==> 0 <= i < |tierOf| && tierOf[i] == keys[t]
    {
      IndicesOfSpec(tierOf, keys[t]);
      assert keys[t] in tierOf;
      var i :| 0 <= i < |tierOf| && tierOf[i] == keys[t];
      assert i in groups[t];
    }
    forall i | 0 <= i < |tierOf|
      ensures Placed(groups, i)
    {
      assert tierOf[i] in tierOf;
      var t :| 0 <= t < |keys| && keys[t] == tierOf[i];
      assert i in groups[t];
    }
    forall t, p | 0 <= t < |groups| && 0 <= p < |groups[t]|
      ensures groups[t][p] < |tierOf| && tierOf[groups[t][p]] == keys[t]
    {
      assert groups[t][p] in groups[t];
    }
  }

  lemma MemberOfGroup(tierOf: seq<int>, keys: seq<int>, groups: seq<seq<nat>>, t: nat, i: nat)
    requires Grouping(tierOf, keys, groups) && t < |groups| && i in groups[t]
    ensures i < |tierOf| && tierOf[i] == keys[t]
  {
    IndicesOfSpec(tierOf, keys[t]);
  }

  /** A node of a lower tier stands in an earlier group. */
  lemma LowerTierIsEarlier(tierOf: seq<int>, keys: seq<int>, groups: seq<seq<nat>>, t: nat, m: nat) returns (u: nat)
    requires Grouping(tierOf, keys, groups) && t < |groups| && m < |tierOf| && tierOf[m] < keys[t]
    ensures u < t && m in groups[u]
  {
    assert tierOf[m] in tierOf;
    u :| 0 <= u < |keys| && keys[u] == tierOf[m];
    IndicesOfSpec(tierOf, keys[u]);
  }

  /** Insertion into a strictly increasing list of keys. */
  method InsertKey(x: int, s: seq<int>) returns (r: seq<int>)
    requires StrictlyIncreasing(s) && x !in s
    ensures StrictlyIncreasing(r)
    ensures forall k :: k in r <==> k == x || k in s
  {
    var i := 0;
    while i < |s| && s[i] < x
      invariant i <= |s|
      invariant forall j :: 0 <= j < i ==> s[j] < x
    {
      i := i + 1;
    }
    r := s[..i] + [x] + s[i..];
    InsertedIsIncreasing(s, i, x);
    forall k ensures k in r <==> k == x || k in s {
      InsertedMember(s, i, x, k);
    }
  }

  lemma InsertedMember(s: seq<int>, i: nat, x: int, k: int)
    requires i <= |s|
    ensures k in s[..i] + [x] + s[i..] <==> k == x || k in s
  {
    assert s == s[..i] + s[i..];
  }

  lemma InsertedIsIncreasing(s: seq<int>, i: nat, x: int)
    requires StrictlyIncreasing(s) && i <= |s|
    requires forall j :: 0 <= j < i ==> s[j] < x
    requires i < |s| ==> x < s[i]
    ensures StrictlyIncreasing(s[..i] + [x] + s[i..])
  {
    assert forall j :: i <= j < |s| ==> x < s[j];
  }

  /** The keys are collected in no particular order; sorting makes the result independent of it. */
  method SortedKeys(ks: set<int>) returns (keys: seq<int>)
    ensures StrictlyIncreasing(keys)
    ensures forall k :: k in keys <==> k in ks
  {
    keys := [];
    var rest := ks;
    while rest != {}
      invariant rest <= ks
      invariant StrictlyIncreasing(keys)
      invariant forall k :: k in keys <==> k in ks && k !in rest
      decreases rest
    {
      ghost var w := Pick(rest);
      var k :| k in rest;
      keys := InsertKey(k, keys);
      rest := rest - {k};
    }
  }

  method GroupByTier(tierOf: seq<int>) returns (keys: seq<int>, groups: seq<seq<nat>>)
    ensures Grouping(tierOf, keys, groups)
  {
    var tierMap := TierMap(tierOf);
    keys := SortedKeys(tierMap.Keys);
    groups := [];
    for t := 0 to |keys|
      invariant |groups| == t
      invariant forall u :: 0 <= u < t ==> groups[u] == IndicesOf(tierOf, keys[u])
    {
      assert keys[t] in keys;
      groups := groups + [tierMap[keys[t]]];
    }
  }

  /** The map holds, for every tier in use among the first |tierOf| nodes, its nodes in order. */
  ghost predicate MapsTiers(tierMap: map<int, seq<nat>>, tierOf: seq<int>) {
    && (forall k :: k in tierMap <==> k in tierOf)
    && forall k :: k in tierMap ==> tierMap[k] == IndicesOf(tierOf, k)
  }

  method TierMap(tierOf: seq<int>) returns (tierMap: map<int, seq<nat>>)
    ensures MapsTiers(tierMap, tierOf)
  {
    hide MapsTiers, IndicesOf;
    tierMap := map[];
    NoTiers();
    assert tierOf[..0] == [];
    for i := 0 to |tierOf|
      invariant MapsTiers(tierMap, tierOf[..i])
    {
      var k := tierOf[i];
      assert tierOf[..i + 1] == tierOf[..i] + [k];
      MapsOneMore(tierMap, tierOf[..i], k);
      tierMap := tierMap[k := (if k in tierMap then tierMap[k] else []) + [i]];
    }
    assert tierOf[..|tierOf|] == tierOf;
  }

  lemma NoTiers()
    ensures MapsTiers(map[], [])
  {
  }

  lemma MapsOneMore(tierMap: map<int, seq<nat>>, tierOf: seq<int>, k: int)
    requires MapsTiers(tierMap, tierOf)
    ensures MapsTiers(tierMap[k := (if k in tierMap then tierMap[k] else []) + [|tierOf|]], tierOf + [k])
  {
    NoIndices(tierOf, k);
    hide IndicesOf;
    var longer := tierMap[k := (if k in tierMap then tierMap[k] else []) + [|tierOf|]];
    forall k' ensures (k' in longer <==> k' in tierOf + [k]) && IndicesOf(tierOf + [k], k')
        == IndicesOf(tierOf, k') + if k' == k then [|tierOf|] else []
    {
      IndicesOfExtended(tierOf, k, k');
    }
  }

  lemma IndicesOfExtended(tierOf: seq<int>, x: int, k: int)
    ensures IndicesOf(tierOf + [x], k) == IndicesOf(tierOf, k) + if x == k then [|tierOf|] else []
  {
    assert (tierOf + [x])[..|tierOf|] == tierOf;
  }

  lemma {:induction false} NoIndices(tierOf: seq<int>, k: int)
    ensures k !in tierOf ==> IndicesOf(tierOf, k) == []
  {
    if tierOf != [] {
      NoIndices(tierOf[..|tierOf| - 1], k);
    }
  }

  // ----- The active tier -----

  /** `a` is the lowest tier holding a healthy node, or -1 when there is none. */
  ghost predicate IsActiveTier(tierOf: seq<int>, healthy: seq<bool>, a: int)
    requires |tierOf| == |healthy|
  {
    if true in healthy then
      && (exists i :: 0 <= i < |healthy| && healthy[i] && tierOf[i] == a)
      && (forall i :: 0 <= i < |healthy| && healthy[i] ==> a <= tierOf[i])
    else a == -1
  }

  lemma ActiveTierIsUnique(tierOf: seq<int>, healthy: seq<bool>, a: int, b: int)
    requires |tierOf| == |healthy|
    requires IsActiveTier(tierOf, healthy, a) && IsActiveTier(tierOf, healthy, b)
    ensures a == b
  {
    if true in healthy {
      var i :| 0 <= i < |healthy| && healthy[i] && tierOf[i] == a;
      var j :| 0 <= j < |healthy| && healthy[j] && tierOf[j] == b;
      assert a <= tierOf[j] && b <= tierOf[i];
    }
  }

  /**
    -1 means "no node is healthy" in every state exactly when no node was configured with
    tier -1, which the constructor does not check.
   */
  lemma SentinelIsUnambiguousIff(tierOf: seq<int>)
    ensures (forall healthy: seq<bool> :: |healthy| == |tierOf| && IsActiveTier(tierOf, healthy, -1) ==> true !in healthy)
       <==> -1 !in tierOf
  {
    if -1 in tierOf {
      var i :| 0 <= i < |tierOf| && tierOf[i] == -1;
      var only := seq(|tierOf|, j => j == i);
      assert only[i];
      assert IsActiveTier(tierOf, only, -1);
    }
  }
}
