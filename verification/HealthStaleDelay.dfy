/**
  Loops are woken on a tier shift only (pkg/client/health.go, onStateChange). This run shows
  the consequence: a node turns unhealthy, its tier stays active thanks to another node, and
  the node's loop sleeps on with the delay of a healthy node.
 */
module HealthStaleDelay {
  import opened Wrappers
  import opened Modular
  import opened NodeHealth
  import opened Selection
  import opened TierGrouping
  import opened HealthTransport
  import opened HealthProtocol
  import opened HealthSafety
  import opened HealthRuns

  function TwoNodes(): Config {
    Config(ThresholdConfig(1, 1), [0, 0], [0], [[0, 1]], false)
  }

  lemma TwoNodesValid()
    ensures TwoNodes().Valid()
  {
    assert [0, 0][..1] == [0] && [0][..0] == [];
    assert IndicesOf([0], 0) == [0];
    assert IndicesOf([0, 0], 0) == [0, 1];
  }

  /** Some run goes on to `s`. */
  ghost predicate Reachable(c: Config, s: State) {
    exists run :: IsRun(c, run) && run[|run| - 1] == s
  }

  lemma ReachInit(c: Config)
    requires c.Valid()
    ensures c.keys != [] && Reachable(c, Init(c)) && WellFormed(c, Init(c))
  {
    InitInv(c);
    assert IsRun(c, [Init(c)]);
  }

  lemma ReachNext(c: Config, s: State, s': State)
    requires Reachable(c, s) && Next(c, s, s')
    ensures Reachable(c, s') && WellFormed(c, s')
  {
    hide WellFormed, Next;
    var run :| IsRun(c, run) && run[|run| - 1] == s;
    var longer := run + [s'];
    forall i | 0 <= i < |longer| - 1
      ensures StepAt(c, longer, i)
    {
      if i < |run| - 1 {
        assert StepAt(c, run, i);
      }
    }
    assert longer[|longer| - 1] == s';
    assert IsRun(c, longer);
    RunInv(c, longer, |longer| - 1);
  }

  /** Every state from here on: node 0 with the given health, node 1 fresh, nobody notified. */
  function Shot(h: Health, mu: Option<nat>, threads: seq<Phase>, advances: nat, told: seq<Outcome>, served: nat): State {
    State([h, FRESH], [advances % TWO_64], 0, Gauges(0, 0, 0), [false, false], mu, threads,
          [told, []], [advances], [served], 0)
  }

  const ARMED := Waiting(Some(0))
  const DOWN := Health(false, 0, 1)

  lemma ReachStep(c: Config, s: State, t: nat, choice: Choice, s': State)
    requires Reachable(c, s) && WellFormed(c, s) && t < |s.threads|
    requires Step(c, s, t, choice) == Some(s')
    ensures Reachable(c, s') && WellFormed(c, s')
  {
    ReachNext(c, s, s');
  }

  lemma CallerAppears() returns (s: State)
    ensures s == Shot(FRESH, None, [Arming, Arming, Idle], 0, [], 0)
    ensures Reachable(TwoNodes(), s) && WellFormed(TwoNodes(), s)
  {
    hide WellFormed, Reachable;
    var c := TwoNodes();
    TwoNodesValid();
    ReachInit(c);
    assert Init(c) == Shot(FRESH, None, [Arming, Arming], 0, [], 0);
    ReachNext(c, Init(c), Spawn(Init(c)));
    s := Shot(FRESH, None, [Arming, Arming, Idle], 0, [], 0);
    assert s == Spawn(Init(c));
  }

  lemma LoopArms() returns (s: State)
    ensures s == Shot(FRESH, None, [ARMED, Arming, Idle], 0, [], 0)
    ensures Reachable(TwoNodes(), s) && WellFormed(TwoNodes(), s)
  {
    hide WellFormed, Reachable;
    var c := TwoNodes();
    var s1 := CallerAppears();
    var s2 := Shot(FRESH, None, [Reading, Arming, Idle], 0, [], 0);
    assert s1.threads[0 := Reading] == s2.threads;
    ReachStep(c, s1, 0, Go, s2);
    s := Shot(FRESH, None, [ARMED, Arming, Idle], 0, [], 0);
    assert s2.threads[0 := ARMED] == s.threads;
    ReachStep(c, s2, 0, Go, s);
  }

  lemma CallerEntersNext() returns (s: State)
    ensures s == Shot(FRESH, None, [ARMED, Arming, Sweeping(0, 0, 0)], 1, [], 0)
    ensures Reachable(TwoNodes(), s) && WellFormed(TwoNodes(), s)
  {
    hide WellFormed, Reachable;
    var c := TwoNodes();
    var s3 := LoopArms();
    s := Shot(FRESH, None, [ARMED, Arming, Sweeping(0, 0, 0)], 1, [], 0);
    assert s3.threads[2 := Sweeping(0, 0, 0)] == s.threads;
    assert Advance(s3, 2, 0) == s;
    ReachStep(c, s3, 2, Go, s);
  }

  lemma CallerPicksNode0() returns (s: State)
    ensures s == Shot(FRESH, None, [ARMED, Arming, Calling(0)], 1, [], 1)
    ensures Reachable(TwoNodes(), s) && WellFormed(TwoNodes(), s)
  {
    hide WellFormed, Reachable;
    var c := TwoNodes();
    var s4 := CallerEntersNext();
    s := Shot(FRESH, None, [ARMED, Arming, Calling(0)], 1, [], 1);
    assert s4.threads[2 := Calling(0)] == s.threads;
    assert SweepStep(c, s4, 2) == s;
    ReachStep(c, s4, 2, Go, s);
  }

  lemma Node0Reports() returns (s: State)
    ensures s == Shot(DOWN, None, [ARMED, Arming, Flipped], 1, [NetworkFailure], 1)
    ensures Reachable(TwoNodes(), s) && WellFormed(TwoNodes(), s)
  {
    hide WellFormed, Reachable;
    var c := TwoNodes();
    var s5 := CallerPicksNode0();
    s := Shot(DOWN, None, [ARMED, Arming, Flipped], 1, [NetworkFailure], 1);
    assert s5.threads[2 := Flipped] == s.threads && [] + [NetworkFailure] == [NetworkFailure];
    assert OutcomeStep(c, s5, 2, NetworkFailure) == s;
    ReachStep(c, s5, 2, End(NetworkFailure), s);
  }

  lemma Node0Fails() returns (s: State)
    ensures s == Shot(DOWN, Some(2), [ARMED, Arming, Scanning(0, 0)], 1, [NetworkFailure], 1)
    ensures Reachable(TwoNodes(), s) && WellFormed(TwoNodes(), s)
  {
    hide WellFormed, Reachable;
    var s6 := Node0Reports();
    s := Shot(DOWN, Some(2), [ARMED, Arming, Scanning(0, 0)], 1, [NetworkFailure], 1);
    assert s6.threads[2 := Scanning(0, 0)] == s.threads;
    ReachStep(TwoNodes(), s6, 2, Go, s);
  }

  lemma ScanFindsNode1() returns (s: State)
    ensures s == Shot(DOWN, Some(2), [ARMED, Arming, Found(0)], 1, [NetworkFailure], 1)
    ensures Reachable(TwoNodes(), s) && WellFormed(TwoNodes(), s)
  {
    hide WellFormed, Reachable;
    var c := TwoNodes();
    var s7 := Node0Fails();
    var s8 := Shot(DOWN, Some(2), [ARMED, Arming, Scanning(0, 1)], 1, [NetworkFailure], 1);
    assert s7.threads[2 := Scanning(0, 1)] == s8.threads;
    assert ScanStep(c, s7, 2) == s8;
    ReachStep(c, s7, 2, Go, s8);
    s := Shot(DOWN, Some(2), [ARMED, Arming, Found(0)], 1, [NetworkFailure], 1);
    assert s8.threads[2 := Found(0)] == s.threads;
    assert ScanStep(c, s8, 2) == s;
    ReachStep(c, s8, 2, Go, s);
  }

  lemma NobodyIsWoken() returns (s: State)
    ensures s == Shot(DOWN, None, [ARMED, Arming, Idle], 1, [NetworkFailure], 1)
    ensures Reachable(TwoNodes(), s) && WellFormed(TwoNodes(), s)
  {
    hide WellFormed, Reachable;
    var c := TwoNodes();
    var s9 := ScanFindsNode1();
    var s10 := Shot(DOWN, Some(2), [ARMED, Arming, Notifying(false, 0)], 1, [NetworkFailure], 1);
    assert s9.threads[2 := Notifying(false, 0)] == s10.threads;
    assert SwapStep(c, s9, 2) == s10;
    ReachStep(c, s9, 2, Go, s10);
    s := Shot(DOWN, None, [ARMED, Arming, Idle], 1, [NetworkFailure], 1);
    assert s10.threads[2 := Idle] == s.threads;
    assert NotifyStep(c, s10, 2) == s;
    ReachStep(c, s10, 2, Go, s);
  }

  lemma StaleDelayIsReachable() returns (c: Config, s: State)
    ensures c.Valid() && Reachable(c, s) && Quiescent(s)
    ensures |s.health| == |s.tokens| == c.Size() == 2 <= |s.threads|
    ensures s.threads[0].Waiting? && !s.tokens[0] && !s.health[0].healthy
    ensures ArmedDelay(c.tierOf[0], s.threads[0].seen) == HealthyInterval
  {
    c := TwoNodes();
    TwoNodesValid();
    s := NobodyIsWoken();
  }
}
