/**
 Mean value analysis of a closed queueing network: what one solver iteration does to the stations.

 Arithmetic is exact (real). The solver classes in MvaSolver refine these functions.
 */
module MvaModel {
  import RealSums
  import opened Wrappers

  datatype QueueType = DelayCenter | FixedCapacity | LoadDependent

  datatype StationData = Station(kind: QueueType, serviceTime: real, visits: real, servers: nat) {
    predicate Sound() {
      serviceTime > 0.0 && visits > 0.0 && servers >= 1
    }
  }

  type Station = st: StationData | st.Sound() witness Station(DelayCenter, 1.0, 1.0, 1)

  /** The mutable part of a station: state probabilities, last response time, mean queue length. */
  datatype QueueState = QueueState(p: seq<real>, responseTime: real, queueLength: real)

  /** Service rate with j jobs present. */
  function Mu(st: Station, j: nat): (mu: real)
    requires j >= 1
    ensures mu > 0.0
  {
    if j < st.servers then j as real / st.serviceTime else st.servers as real / st.serviceTime
  }

  function ClampAtZero(x: real): real {
    if x < 0.0 then 0.0 else x
  }

  // ---- one station -----------------------------------------------------------------------------

  function ResponseTerms(st: Station, p: seq<real>, n: nat): (r: seq<real>)
    requires n <= |p|
    ensures |r| == n
  {
    seq(n, i requires 0 <= i < n => p[i] * (i + 1) as real / Mu(st, i + 1))
  }

  function ResponseTime(st: Station, q: QueueState, n: nat): real
    requires st.kind.LoadDependent? ==> n <= |q.p|
  {
    match st.kind
    case FixedCapacity => st.serviceTime * (1.0 + q.queueLength)
    case LoadDependent => RealSums.Sum(ResponseTerms(st, q.p, n))
    case DelayCenter => q.responseTime
  }

  /** Probability of j jobs after the update, before the clamp. */
  function RawEntry(st: Station, p: seq<real>, x: real, j: nat): real
    requires 1 <= j <= |p|
  {
    x / Mu(st, j) * p[j - 1]
  }

  function UpdatedTail(st: Station, p: seq<real>, x: real, n: nat): (r: seq<real>)
    requires n <= |p|
    ensures |r| == n
  {
    seq(n, i requires 0 <= i < n => ClampAtZero(RawEntry(st, p, x, i + 1)))
  }

  function UpdatedHead(st: Station, p: seq<real>, x: real, n: nat): real
    requires n <= |p| && p != []
  {
    if p[0] > 0.0 then ClampAtZero(1.0 - RealSums.Sum(UpdatedTail(st, p, x, n))) else p[0]
  }

  /** All entries 1..n are computed from the old entries 0..n-1; entries above n stay. */
  function UpdatedP(st: Station, p: seq<real>, x: real, n: nat): (r: seq<real>)
    requires n < |p|
    ensures |r| == |p|
  {
    [UpdatedHead(st, p, x, n)] + UpdatedTail(st, p, x, n) + p[n + 1..]
  }

  function UpdatedQueue(st: Station, q: QueueState, x: real, n: nat): (r: QueueState)
    requires st.kind.LoadDependent? ==> n < |q.p|
    ensures |r.p| == |q.p|
  {
    if st.kind.LoadDependent? then q.(p := UpdatedP(st, q.p, x, n))
    else q.(queueLength := x * st.visits * q.responseTime)
  }

  // ---- the network -----------------------------------------------------------------------------

  /** Every load-dependent station has room for population n. */
  ghost predicate Roomy(net: seq<Station>, qs: seq<QueueState>, n: nat) {
    |qs| == |net| && forall m :: 0 <= m < |net| && net[m].kind.LoadDependent? ==> n < |qs[m].p|
  }

  function Responded(net: seq<Station>, qs: seq<QueueState>, n: nat): (r: seq<QueueState>)
    requires Roomy(net, qs, n)
    ensures |r| == |qs| && forall m :: 0 <= m < |qs| ==> r[m].p == qs[m].p && r[m].queueLength == qs[m].queueLength
  {
    seq(|qs|, m requires 0 <= m < |qs| => qs[m].(responseTime := ResponseTime(net[m], qs[m], n)))
  }

  /** Time one cycle spends at a station: every visit takes the station's response time. */
  function PerCycle(st: Station, responseTime: real): real {
    responseTime * st.visits
  }

  function Demands(net: seq<Station>, qs: seq<QueueState>): (r: seq<real>)
    requires |qs| == |net|
    ensures |r| == |net|
  {
    seq(|qs|, m requires 0 <= m < |qs| => PerCycle(net[m], qs[m].responseTime))
  }

  /** Response time of the whole system at population n. */
  function TotalResponse(net: seq<Station>, qs: seq<QueueState>, n: nat): real
    requires Roomy(net, qs, n)
  {
    RealSums.Sum(Demands(net, Responded(net, qs, n)))
  }

  /** The zero denominator is shown below never to occur in a run. */
  function Throughput(net: seq<Station>, thinkTime: real, qs: seq<QueueState>, n: nat): real
    requires Roomy(net, qs, n)
  {
    var cycle := thinkTime + TotalResponse(net, qs, n);
    if cycle == 0.0 then 0.0 else n as real / cycle
  }

  function UpdatedAll(net: seq<Station>, qs: seq<QueueState>, x: real, n: nat): (r: seq<QueueState>)
    requires Roomy(net, qs, n)
    ensures |r| == |qs| && forall m :: 0 <= m < |qs| ==> |r[m].p| == |qs[m].p|
  {
    seq(|qs|, m requires 0 <= m < |qs| => UpdatedQueue(net[m], qs[m], x, n))
  }

  /** One iteration of the population loop. */
  function Iteration(net: seq<Station>, thinkTime: real, qs: seq<QueueState>, n: nat): (r: seq<QueueState>)
    requires Roomy(net, qs, n)
    ensures |r| == |qs| && forall m :: 0 <= m < |qs| ==> |r[m].p| == |qs[m].p|
  {
    UpdatedAll(net, Responded(net, qs, n), Throughput(net, thinkTime, qs, n), n)
  }

  function Run(net: seq<Station>, thinkTime: real, qs: seq<QueueState>, n: nat): (r: seq<QueueState>)
    requires Roomy(net, qs, n)
    ensures |r| == |qs| && forall m :: 0 <= m < |qs| ==> |r[m].p| == |qs[m].p|
  {
    if n == 0 then qs else Iteration(net, thinkTime, Run(net, thinkTime, qs, n - 1), n)
  }

  /** System throughput that the run computes for population n. */
  function RunThroughput(net: seq<Station>, thinkTime: real, qs: seq<QueueState>, n: nat): real
    requires n >= 1 && Roomy(net, qs, n)
  {
    Throughput(net, thinkTime, Run(net, thinkTime, qs, n - 1), n)
  }

  /** The time r that a client spends at the stations in a cycle, or the throughput per thousand units of time. */
  ghost predicate Numbered(throughput: real, thinkTime: real, n: real, printResponseTime: bool, r: real) {
    if printResponseTime then throughput * (thinkTime + r) == n else r == 1000.0 * throughput
  }

  // ---- the bottleneck --------------------------------------------------------------------------

  function Utilisation(st: Station, throughput: real): real {
    st.visits * throughput * st.serviceTime
  }

  /** The first station of highest utilisation, or none if no utilisation is positive. */
  ghost predicate IsBottleneck(net: seq<Station>, throughput: real, b: Option<nat>) {
    match b
    case None => forall m :: 0 <= m < |net| ==> Utilisation(net[m], throughput) <= 0.0
    case Some(k) =>
      && k < |net| && Utilisation(net[k], throughput) > 0.0
      && (forall m :: 0 <= m < |net| ==> Utilisation(net[m], throughput) <= Utilisation(net[k], throughput))
      && (forall m :: 0 <= m < k ==> Utilisation(net[m], throughput) < Utilisation(net[k], throughput))
  }

  /** Highest utilisation so far. */
  function Best(net: seq<Station>, throughput: real, b: Option<nat>): real {
    if b.Some? && b.value < |net| then Utilisation(net[b.value], throughput) else 0.0
  }

  lemma BottleneckStep(net: seq<Station>, throughput: real, b: Option<nat>, i: nat)
    requires i < |net| && IsBottleneck(net[..i], throughput, b)
    ensures var better := Utilisation(net[i], throughput) > Best(net, throughput, b);
      IsBottleneck(net[..i + 1], throughput, if better then Some(i) else b)
  {
    hide Utilisation;
    var shorter, longer := net[..i], net[..i + 1];
    assert forall m :: 0 <= m < i ==> longer[m] == shorter[m] == net[m];
  }

  lemma NoBottleneckYet(net: seq<Station>, throughput: real)
    ensures IsBottleneck(net[..0], throughput, None)
  {
  }

  lemma UtilisationScales(st: Station, throughput: real)
    requires throughput > 0.0
    ensures Utilisation(st, throughput) == throughput * (st.visits * st.serviceTime)
    ensures Utilisation(st, throughput) > 0.0 <==> st.visits * st.serviceTime > 0.0
  {
    var d := st.visits * st.serviceTime;
    assert st.visits * throughput * st.serviceTime == throughput * d;
    ScaledOrder(throughput, 0.0, d);
  }

  lemma ScaledOrder(x: real, a: real, b: real)
    requires x > 0.0
    ensures x * a < x * b <==> a < b
  {
    assert x * b - x * a == x * (b - a);
  }

  lemma UtilisationOrder(a: Station, b: Station, throughput: real)
    requires throughput > 0.0
    ensures Utilisation(a, throughput) < Utilisation(b, throughput)
       <==> a.visits * a.serviceTime < b.visits * b.serviceTime
  {
    hide Utilisation;
    UtilisationScales(a, throughput);
    UtilisationScales(b, throughput);
    ScaledOrder(throughput, a.visits * a.serviceTime, b.visits * b.serviceTime);
  }

  /**
   The bottleneck is the first station of largest visits * service time, so that every population finds the same
   one; there is none exactly if no station has a positive one.
   */
  lemma BottleneckIsLargestDemand(net: seq<Station>, throughput: real, k: nat)
    requires throughput > 0.0
    ensures IsBottleneck(net, throughput, Some(k))
       <==> k < |net| && net[k].visits * net[k].serviceTime > 0.0
            && (forall m :: 0 <= m < |net| ==>
                  net[m].visits * net[m].serviceTime <= net[k].visits * net[k].serviceTime)
            && (forall m :: 0 <= m < k ==>
                  net[m].visits * net[m].serviceTime < net[k].visits * net[k].serviceTime)
    ensures IsBottleneck(net, throughput, None)
       <==> forall m :: 0 <= m < |net| ==> net[m].visits * net[m].serviceTime <= 0.0
  {
    hide Utilisation;
    forall m | 0 <= m < |net|
      ensures Utilisation(net[m], throughput) > 0.0 <==> net[m].visits * net[m].serviceTime > 0.0
    {
      UtilisationScales(net[m], throughput);
    }
    forall m, j | 0 <= m < |net| && 0 <= j < |net|
      ensures Utilisation(net[m], throughput) < Utilisation(net[j], throughput)
         <==> net[m].visits * net[m].serviceTime < net[j].visits * net[j].serviceTime
    {
      UtilisationOrder(net[m], net[j], throughput);
    }
  }

  function FreshQueue(st: Station, size: nat): (q: QueueState)
    requires size >= 1
    ensures |q.p| == size
  {
    QueueState([1.0] + seq(size - 1, i => 0.0), st.serviceTime, 0.0)
  }

  /** The stations as their constructor leaves them, for populations up to n. */
  ghost predicate Fresh(net: seq<Station>, qs: seq<QueueState>, n: nat) {
    && Roomy(net, qs, n)
    && forall m :: 0 <= m < |net| ==> 1 <= |qs[m].p| && qs[m] == FreshQueue(net[m], |qs[m].p|)
  }

  /** Exact division by the cycle time is defined. */
  ghost predicate Solvable(net: seq<Station>, thinkTime: real) {
    thinkTime >= 0.0 && (thinkTime > 0.0 || net != [])
  }
}
