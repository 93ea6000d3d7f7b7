/**
  The health-aware transport as concurrent threads (pkg/client/health.go).

  Thread n, for n below the number of nodes, is the probe loop of node n; the other threads
  are callers. A step is one atomic action of one thread: a critical section under one node's
  mutex, an atomic counter or activeTier operation, taking or releasing publishMu, one channel
  operation, or one publication of the gauges. Timers fire and calls end at any time.
 */
module HealthProtocol {
  import opened Wrappers
  import opened Modular
  import opened NodeHealth
  import opened Selection
  import opened TierGrouping
  import opened HealthTransport

  datatype Config = Config(
    thresholds: Thresholds, tierOf: seq<int>, keys: seq<int>, groups: seq<seq<nat>>, publishes: bool)
  {
    ghost predicate Valid() {
      tierOf != [] && Grouping(tierOf, keys, groups)
    }

    function Size(): nat { |tierOf| }
  }

  datatype Phase =
    | Idle                                         // a caller outside the transport
    | Sweeping(tier: nat, start: Uint64, i: nat)   // in next, `tier`'s counter already advanced
    | Failed                                       // next returned ErrNoHealthyNodes
    | Calling(node: nat)                           // a call or a probe is in flight
    | Flipped                                      // flipped a node's health, waits for publishMu
    | Scanning(k: nat, p: nat)                     // holds publishMu, looking for the active tier
    | Found(newActive: int)                        // about to swap activeTier
    | Counting(shifted: bool, next: nat, healthy: nat)  // metrics scan
    | Notifying(shifted: bool, next: nat)          // waking the loops, then releasing publishMu
    | Arming                                       // a loop about to run intervalFor
    | Reading                                      // intervalFor saw a healthy node, about to load activeTier
    | Waiting(seen: Option<int>)                   // armed; the tier the delay was computed from, if any
    | Stopped
  {
    predicate Holds() { Scanning? || Found? || Counting? || Notifying? }
  }

  datatype State = State(
    health: seq<Health>,
    counters: seq<Uint64>,
    activeTier: int,
    gauges: Gauges,
    tokens: seq<bool>,
    publishMu: Option<nat>,
    threads: seq<Phase>,
    // History: what each node was told, and how the calls of next went.
    outcomes: seq<seq<Outcome>>,
    advances: seq<nat>,
    served: seq<nat>,
    failed: nat)

  function HealthFlags(health: seq<Health>): (f: seq<bool>)
    ensures |f| == |health|
    ensures forall i :: 0 <= i < |f| ==> f[i] == health[i].healthy
  {
    seq(|health|, i requires 0 <= i < |health| => health[i].healthy)
  }

  function Init(c: Config): State
    requires c.keys != []
  {
    var n := c.Size();
    State(seq(n, _ => FRESH), seq(|c.groups|, _ => 0), c.keys[0],
          if c.publishes then Gauges(n, n, 0) else Gauges(0, 0, 0),
          seq(n, _ => false), None, seq(n, _ => Arming),
          seq(n, _ => []), seq(|c.groups|, _ => 0), seq(|c.groups|, _ => 0), 0)
  }

  // ----- Well-formed states -----

  ghost predicate PhaseOk(c: Config, t: nat, ph: Phase) {
    match ph
    case Idle | Failed => c.Size() <= t
    case Sweeping(k, _, i) => c.Size() <= t && k < |c.groups| && i <= |c.groups[k]|
    case Calling(n) => n < c.Size() && (t < c.Size() ==> n == t)
    case Scanning(k, p) => k <= |c.groups| && (k < |c.groups| ==> p <= |c.groups[k]|)
    case Counting(_, i, h) => i <= c.Size() && h <= i
    case Notifying(_, i) => i <= c.Size()
    case Arming | Reading | Waiting(_) | Stopped => t < c.Size()
    case _ => true
  }

  ghost predicate InRange(c: Config) {
    && (forall k, p :: 0 <= k < |c.groups| && 0 <= p < |c.groups[k]| ==> c.groups[k][p] < c.Size())
    && (forall k :: 0 <= k < |c.groups| ==> c.groups[k] != [])
    && 0 < |c.groups| == |c.keys|
  }

  ghost predicate WellFormed(c: Config, s: State) {
    && InRange(c)
    && |s.health| == |s.tokens| == |s.outcomes| == c.Size() <= |s.threads|
    && |s.counters| == |s.advances| == |s.served| == |c.groups|
    && (forall t :: 0 <= t < |s.threads| ==> PhaseOk(c, t, s.threads[t]))
    && (forall t :: 0 <= t < |s.threads| ==> (s.threads[t].Holds() <==> s.publishMu == Some(t)))
    && (s.publishMu.Some? ==> s.publishMu.value < |s.threads|)
  }

  // ----- The steps -----

  datatype Choice = Go | End(outcome: Outcome) | Timer | Stop

  /** Where a thread goes when it is done with a call or a probe. */
  function Home(c: Config, t: nat): Phase {
    if t < c.Size() then Arming else Idle
  }

  function Advance(s: State, t: nat, k: nat): State
    requires t < |s.threads| && k < |s.counters| == |s.advances|
  {
    s.(counters := s.counters[k := AddOne(s.counters[k])],
       advances := s.advances[k := s.advances[k] + 1],
       threads := s.threads[t := Sweeping(k, s.counters[k], 0)])
  }

  function SweepStep(c: Config, s: State, t: nat): State
    requires WellFormed(c, s) && t < |s.threads| && s.threads[t].Sweeping?
  {
    var Sweeping(k, start, i) := s.threads[t];
    var group := c.groups[k];
    if i < |group| then
      var n := group[Visit(start, i, |group|)];
      if s.health[n].healthy
      then s.(threads := s.threads[t := Calling(n)], served := s.served[k := s.served[k] + 1])
      else s.(threads := s.threads[t := Sweeping(k, start, i + 1)])
    else if k + 1 < |c.groups| then Advance(s, t, k + 1)
    else s.(threads := s.threads[t := Failed], failed := s.failed + 1)
  }

  function OutcomeStep(c: Config, s: State, t: nat, o: Outcome): State
    requires WellFormed(c, s) && t < |s.threads| && s.threads[t].Calling?
  {
    var n := s.threads[t].node;
    var h := Record(c.thresholds, s.health[n], o);
    s.(health := s.health[n := h],
       outcomes := s.outcomes[n := s.outcomes[n] + [o]],
       threads := s.threads[t := if h.healthy != s.health[n].healthy then Flipped else Home(c, t)])
  }

  function ScanStep(c: Config, s: State, t: nat): State
    requires WellFormed(c, s) && t < |s.threads| && s.threads[t].Scanning?
  {
    var Scanning(k, p) := s.threads[t];
    s.(threads := s.threads[t :=
         if k == |c.groups| then Found(-1)
         else if p == |c.groups[k]| then Scanning(k + 1, 0)
         else if s.health[c.groups[k][p]].healthy then Found(c.keys[k])
         else Scanning(k, p + 1)])
  }

  function SwapStep(c: Config, s: State, t: nat): State
    requires WellFormed(c, s) && t < |s.threads| && s.threads[t].Found?
  {
    var a := s.threads[t].newActive;
    var shifted := s.activeTier != a;
    s.(activeTier := a,
       threads := s.threads[t := if c.publishes then Counting(shifted, 0, 0) else Notifying(shifted, 0)])
  }

  function CountStep(c: Config, s: State, t: nat): State
    requires WellFormed(c, s) && t < |s.threads| && s.threads[t].Counting?
  {
    var Counting(shifted, i, h) := s.threads[t];
    var n := c.Size();
    if i < n
    then s.(threads := s.threads[t := Counting(shifted, i + 1, h + if s.health[i].healthy then 1 else 0)])
    else s.(gauges := Gauges(n, h, n - h), threads := s.threads[t := Notifying(shifted, 0)])
  }

  function NotifyStep(c: Config, s: State, t: nat): State
    requires WellFormed(c, s) && t < |s.threads| && s.threads[t].Notifying?
  {
    var Notifying(shifted, i) := s.threads[t];
    if shifted && i < c.Size()
    then s.(tokens := s.tokens[i := true], threads := s.threads[t := Notifying(shifted, i + 1)])
    else s.(publishMu := None, threads := s.threads[t := Home(c, t)])
  }

  /** The step thread `t` takes, if it can take one of this kind. */
  function Step(c: Config, s: State, t: nat, choice: Choice): Option<State>
    requires WellFormed(c, s) && t < |s.threads|
  {
    match (s.threads[t], choice)
    case (Idle, Go) => Some(Advance(s, t, 0))
    case (Sweeping(_, _, _), Go) => Some(SweepStep(c, s, t))
    case (Failed, Go) => Some(s.(threads := s.threads[t := Idle]))
    case (Calling(_), End(o)) => Some(OutcomeStep(c, s, t, o))
    case (Flipped, Go) =>
      if s.publishMu == None then Some(s.(publishMu := Some(t), threads := s.threads[t := Scanning(0, 0)]))
      else None
    case (Scanning(_, _), Go) => Some(ScanStep(c, s, t))
    case (Found(_), Go) => Some(SwapStep(c, s, t))
    case (Counting(_, _, _), Go) => Some(CountStep(c, s, t))
    case (Notifying(_, _), Go) => Some(NotifyStep(c, s, t))
    case (Arming, Go) =>
      Some(s.(threads := s.threads[t := if s.health[t].healthy then Reading else Waiting(None)]))
    case (Reading, Go) => Some(s.(threads := s.threads[t := Waiting(Some(s.activeTier))]))
    case (Waiting(_), Go) =>
      if s.tokens[t] then Some(s.(tokens := s.tokens[t := false], threads := s.threads[t := Arming])) else None
    case (Waiting(_), Timer) => Some(s.(threads := s.threads[t := Calling(t)]))
    case (Waiting(_), Stop) => Some(s.(threads := s.threads[t := Stopped]))
    case _ => None
  }

  function Spawn(s: State): State {
    s.(threads := s.threads + [Idle])
  }

  /** `HealthSafety.NextInv` shows that a run never leaves the well-formed states. */
  ghost predicate Next(c: Config, s: State, s': State) {
    WellFormed(c, s) &&
    (s' == Spawn(s) || exists t, choice :: 0 <= t < |s.threads| && Step(c, s, t, choice) == Some(s'))
  }

  // ----- What every run keeps -----

  /** No thread is between flipping a node and taking publishMu for the recompute. */
  ghost predicate Settled(s: State) {
    forall t :: 0 <= t < |s.threads| ==> !s.threads[t].Flipped?
  }

  /** No thread is between flipping a node's health and finishing its recompute. */
  ghost predicate Quiescent(s: State) {
    Settled(s) && s.publishMu == None
  }

  ghost predicate ActiveIs(c: Config, s: State, a: int)
    requires |s.health| == c.Size()
  {
    IsActiveTier(c.tierOf, HealthFlags(s.health), a)
  }

  ghost predicate GaugesTrue(c: Config, s: State) {
    c.publishes ==> s.gauges == GaugesOf(HealthFlags(s.health))
  }

  /** What the holder of publishMu has established so far, unless a flip is outstanding. */
  ghost predicate HolderKnows(c: Config, s: State, ph: Phase)
    requires WellFormed(c, s)
  {
    match ph
    case Scanning(k, p) =>
      && k <= |c.groups|
      && (k < |c.groups| ==> p <= |c.groups[k]|)
      && (forall u, i :: 0 <= u < k && i in c.groups[u] ==> !s.health[i].healthy)
      && (k < |c.groups| ==> forall q :: 0 <= q < p ==> !s.health[c.groups[k][q]].healthy)
    case Found(a) => ActiveIs(c, s, a)
    case Counting(_, i, h) =>
      ActiveIs(c, s, s.activeTier) && i <= |s.health| && h == CountHealthy(HealthFlags(s.health)[..i])
    case _ => ActiveIs(c, s, s.activeTier) && GaugesTrue(c, s)
  }

  ghost predicate Tracks(c: Config, s: State)
    requires WellFormed(c, s)
  {
    Settled(s) ==>
      HolderKnows(c, s, if s.publishMu.Some? then s.threads[s.publishMu.value] else Idle)
  }

  /** The holder of publishMu has shifted the tier and has still to send node `n` its token. */
  ghost predicate NoticeDue(s: State, n: nat)
    requires s.publishMu.Some? ==> s.publishMu.value < |s.threads|
  {
    s.publishMu.Some? &&
    match s.threads[s.publishMu.value]
    case Counting(shifted, _, _) => shifted
    case Notifying(shifted, i) => shifted && i <= n
    case _ => false
  }

  /** Loop `n` is armed with a delay computed from a tier that is not the active one now. */
  ghost predicate StaleTier(s: State, n: nat)
    requires n < |s.threads|
  {
    var ph := s.threads[n];
    ph.Waiting? && ph.seen.Some? && ph.seen.value != s.activeTier
  }

  /** A loop armed from a tier that is no longer the active one has a wake-up on its way. */
  ghost predicate NoLostWakeup(c: Config, s: State)
    requires WellFormed(c, s)
  {
    forall n :: 0 <= n < c.Size() && StaleTier(s, n) ==> s.tokens[n] || NoticeDue(s, n)
  }

  ghost predicate HealthIsReplay(c: Config, s: State)
    requires WellFormed(c, s)
  {
    forall n :: 0 <= n < c.Size() ==> s.health[n] == Replay(c.thresholds, s.outcomes[n])
  }

  /** Callers currently sweeping tier `k`. */
  function InTier(threads: seq<Phase>, k: nat): nat {
    if threads == [] then 0
    else
      var last := threads[|threads| - 1];
      InTier(threads[..|threads| - 1], k) + if last.Sweeping? && last.tier == k then 1 else 0
  }

  /** Calls that tier `k` passed on: to the next tier, or as ErrNoHealthyNodes from the last. */
  function PassedOn(s: State, k: nat): nat
    requires k < |s.advances|
  {
    if k + 1 < |s.advances| then s.advances[k + 1] else s.failed
  }

  ghost predicate CallsConserved(c: Config, s: State)
    requires WellFormed(c, s)
  {
    forall k :: 0 <= k < |c.groups| ==>
      && s.counters[k] == s.advances[k] % TWO_64
      && s.advances[k] == s.served[k] + InTier(s.threads, k) + PassedOn(s, k)
  }

  ghost predicate Inv(c: Config, s: State) {
    && c.Valid()
    && WellFormed(c, s)
    && Tracks(c, s)
    && NoLostWakeup(c, s)
    && HealthIsReplay(c, s)
    && CallsConserved(c, s)
  }
}
