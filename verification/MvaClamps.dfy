/**
 When visit ratios at load-dependent stations differ from one, the clamp of P[0] can fire, and then the
 station may no longer limit the throughput. This says for any visits when a station limits it, and for
 the first client what that means for the network.
 */
module MvaClamps {
  import opened RealSums
  import opened MvaModel
  import opened MvaInvariants
  import MvaProductForm

  /** Service demands of one cycle. */
  function ServiceDemands(net: seq<Station>): (r: seq<real>)
    ensures |r| == |net|
  {
    seq(|net|, m requires 0 <= m < |net| => PerCycle(net[m], net[m].serviceTime))
  }

  /** Time that a single client needs for one cycle. */
  function FirstCycle(net: seq<Station>, thinkTime: real): real {
    thinkTime + Sum(ServiceDemands(net))
  }

  lemma FirstRate(st: Station)
    ensures Mu(st, 1) == 1.0 / st.serviceTime
  {
  }

  lemma FirstResponse(st: Station, size: nat)
    requires size >= 1
    ensures ResponseTime(st, FreshQueue(st, size), 1) == st.serviceTime
  {
    var p := FreshQueue(st, size).p;
    if st.kind.LoadDependent? {
      var terms := ResponseTerms(st, p, 1);
      FirstRate(st);
      Reciprocal(st.serviceTime);
      assert terms == [st.serviceTime];
      SingleSum(st.serviceTime);
    }
  }

  lemma SingleSum(x: real)
    ensures Sum([x]) == x
  {
    assert [x][..0] == [];
  }

  lemma Reciprocal(s: real)
    requires s > 0.0
    ensures 1.0 / (1.0 / s) == s
  {
    assert 1.0 / s * s == 1.0;
  }

  lemma FirstThroughput(net: seq<Station>, thinkTime: real, qs: seq<QueueState>)
    requires Solvable(net, thinkTime) && Fresh(net, qs, 1)
    ensures FirstCycle(net, thinkTime) > 0.0
    ensures RunThroughput(net, thinkTime, qs, 1) == 1.0 / FirstCycle(net, thinkTime)
  {
    hide ResponseTime, PerCycle, Sum, Distribution;
    RunStep(net, thinkTime, qs, 1);
    CyclePositive(net, thinkTime, qs, 0);
    var l, r := Demands(net, Responded(net, qs, 1)), ServiceDemands(net);
    forall m | 0 <= m < |net| ensures l[m] == r[m] { FirstResponse(net[m], |qs[m].p|); }
    assert l == r;
  }

  lemma FirstTail(st: Station, size: nat, x: real)
    requires size >= 2 && x > 0.0
    ensures var p := FreshQueue(st, size).p;
            && RawEntry(st, p, x, 1) == x * st.serviceTime
            && Sum(UpdatedTail(st, p, x, 1)) == x * st.serviceTime
  {
    var p := FreshQueue(st, size).p;
    FirstRate(st);
    QuotientOfReciprocal(x, st.serviceTime);
    ProductSign(x, st.serviceTime);
    var tail := UpdatedTail(st, p, x, 1);
    assert tail == [ClampAtZero(RawEntry(st, p, x, 1))];
    SingleSum(tail[0]);
  }

  lemma QuotientOfReciprocal(x: real, s: real)
    requires s > 0.0
    ensures x / (1.0 / s) * 1.0 == x * s
  {
    assert 1.0 / s * (x * s) == x;
  }

  /**
   For any visits: with one client a clamp fires at a load-dependent station exactly when its service
   time exceeds the whole cycle, and P[0] becomes the idle probability cut off at 0.
   */
  lemma FirstClampIff(net: seq<Station>, thinkTime: real, qs: seq<QueueState>, m: nat)
    requires Solvable(net, thinkTime) && Fresh(net, qs, 1) && m < |net| && net[m].kind.LoadDependent?
    ensures !MvaProductForm.ClampFree(net[m], qs[m].p, RunThroughput(net, thinkTime, qs, 1), 1)
       <==> net[m].serviceTime > FirstCycle(net, thinkTime)
    ensures Run(net, thinkTime, qs, 1)[m].p[0] == 0.0 <==> net[m].serviceTime >= FirstCycle(net, thinkTime)
  {
    hide ResponseTime, PerCycle, Sum, Distribution, RawEntry, UpdatedTail, Throughput;
    var x := RunThroughput(net, thinkTime, qs, 1);
    RunStep(net, thinkTime, qs, 1);
    FirstThroughput(net, thinkTime, qs);
    FirstTail(net[m], |qs[m].p|, x);
    ProductSign(x, net[m].serviceTime);
    CompareWithOne(net[m].serviceTime, FirstCycle(net, thinkTime), x);
  }

  lemma CompareWithOne(s: real, c: real, x: real)
    requires c > 0.0 && x == 1.0 / c
    ensures x * s <= 1.0 <==> s <= c
    ensures x * s < 1.0 <==> s < c
  {
    var d := c - s;
    assert x * c == 1.0;
    assert x * d == 1.0 - x * s;
    SignOfProduct(x, d);
  }

  lemma SignOfProduct(x: real, d: real)
    requires x > 0.0
    ensures x * d > 0.0 <==> d > 0.0
    ensures x * d >= 0.0 <==> d >= 0.0
  {
    if d > 0.0 {
      ProductSign(x, d);
    } else if d < 0.0 {
      ProductSign(x, -d);
      assert x * (-d) == -(x * d);
    }
  }

  /** The first client exceeds a station's capacity exactly when the service takes its servers several cycles. */
  lemma FirstExceedsIff(net: seq<Station>, thinkTime: real, qs: seq<QueueState>, m: nat)
    requires Solvable(net, thinkTime) && Fresh(net, qs, 1) && m < |net|
    ensures RunThroughput(net, thinkTime, qs, 1) > net[m].servers as real / net[m].serviceTime
       <==> net[m].serviceTime > net[m].servers as real * FirstCycle(net, thinkTime)
  {
    hide RunThroughput, FirstCycle;
    FirstThroughput(net, thinkTime, qs);
    CompareWithRate(net[m].serviceTime, net[m].servers as real, FirstCycle(net, thinkTime),
                    RunThroughput(net, thinkTime, qs, 1));
  }

  lemma CompareWithRate(s: real, c: real, cycle: real, x: real)
    requires s > 0.0 && cycle > 0.0 && x == 1.0 / cycle
    ensures x > c / s <==> s > c * cycle
  {
    var d, r := s - c * cycle, c / s;
    assert x * cycle == 1.0 && r * s == c;
    assert x * d == x * s - c * (x * cycle);
    assert s * (x - r) == x * s - c;
    QuotientSign(1.0, cycle);
    SignOfProduct(x, d);
    SignOfProduct(s, x - r);
  }

  /**
   With one client the entry for one job is the visit-weighted one, demand over cycle time, exactly when the
   station is visited once: the update leaves the visits out.
   */
  lemma FirstEntryIff(net: seq<Station>, thinkTime: real, qs: seq<QueueState>, m: nat)
    requires Solvable(net, thinkTime) && Fresh(net, qs, 1) && m < |net| && net[m].kind.LoadDependent?
    ensures FirstCycle(net, thinkTime) > 0.0
    ensures Run(net, thinkTime, qs, 1)[m].p[1] == net[m].serviceTime / FirstCycle(net, thinkTime)
    ensures Run(net, thinkTime, qs, 1)[m].p[1] == PerCycle(net[m], net[m].serviceTime) / FirstCycle(net, thinkTime)
       <==> net[m].visits == 1.0
  {
    hide ResponseTime, Sum, Distribution, RawEntry, UpdatedTail, UpdatedP, Throughput, ServiceDemands, FirstCycle;
    var x := RunThroughput(net, thinkTime, qs, 1);
    RunStep(net, thinkTime, qs, 1);
    FirstThroughput(net, thinkTime, qs);
    FirstTail(net[m], |qs[m].p|, x);
    MvaProductForm.UpdateOfStation(net, thinkTime, qs, m, 1);
    TailEntry(net[m], qs[m].p, x, 1, 1);
    CompareQuotients(net[m].serviceTime, net[m].visits, FirstCycle(net, thinkTime), x);
  }

  lemma CompareQuotients(s: real, v: real, c: real, x: real)
    requires s > 0.0 && c > 0.0 && x == 1.0 / c
    ensures x * s == s / c
    ensures s / c == s * v / c <==> v == 1.0
  {
    var a, b := s / c, s * v / c;
    assert a * c == s && b * c == s * v;
    assert (a - b) * c == s * (1.0 - v);
    SignOfProduct(s, 1.0 - v);
  }

  // ---- capacity, for any visits and population ---------------------------------------------------

  /** The last update of a run at a load-dependent station. */
  lemma LastUpdate(net: seq<Station>, z: real, qs: seq<QueueState>, m: nat, n: nat)
    requires n >= 1 && m < |net| && net[m].kind.LoadDependent? && Solvable(net, z) && Fresh(net, qs, n)
    ensures var p, x := Run(net, z, qs, n - 1)[m].p, RunThroughput(net, z, qs, n);
      && n < |p| && x > 0.0 && (forall j :: 0 <= j < |p| ==> p[j] >= 0.0) && p[n - 1] > 0.0
      && (p[0] > 0.0 ==> Sum(p[..n]) == 1.0)
      && Run(net, z, qs, n)[m].p == UpdatedP(net[m], p, x, n)
  {
    hide Run, Iteration, UpdatedP, Throughput, RunThroughput;
    RunStep(net, z, qs, n);
    MvaProductForm.UpdateOfStation(net, z, Run(net, z, qs, n - 1), m, n);
  }

  /** While P[0] has not been cut off before, the throughput is the mean rate at which the station serves. */
  lemma RunUtilisation(net: seq<Station>, z: real, qs: seq<QueueState>, m: nat, n: nat)
    requires n >= 1 && m < |net| && net[m].kind.LoadDependent? && Solvable(net, z) && Fresh(net, qs, n)
    requires Run(net, z, qs, n - 1)[m].p[0] > 0.0
    ensures RunThroughput(net, z, qs, n) == Sum(RateTerms(net[m], Run(net, z, qs, n)[m].p, n))
  {
    hide Run, UpdatedP, RunThroughput, RateTerms, Sum;
    LastUpdate(net, z, qs, m, n);
    UtilisationLaw(net[m], Run(net, z, qs, n - 1)[m].p, RunThroughput(net, z, qs, n), n);
  }

  /**
   For any visits, servers and population: as long as no clamp of P[0] has fired, the station limits the
   throughput. Conversely, throughput above its capacity makes the clamp fire.
   */
  lemma CapacityUnlessClamped(net: seq<Station>, z: real, qs: seq<QueueState>, m: nat, n: nat)
    requires n >= 1 && m < |net| && net[m].kind.LoadDependent? && Solvable(net, z) && Fresh(net, qs, n)
    requires Run(net, z, qs, n - 1)[m].p[0] > 0.0
    ensures var x := RunThroughput(net, z, qs, n);
      var r, capacity := Run(net, z, qs, n)[m].p, net[m].servers as real / net[m].serviceTime;
      && (r[0] > 0.0 ==> MvaProductForm.ClampFree(net[m], Run(net, z, qs, n - 1)[m].p, x, n))
      && (MvaProductForm.ClampFree(net[m], Run(net, z, qs, n - 1)[m].p, x, n) ==>
            x <= capacity * (1.0 - r[0]) && x <= capacity)
      && (x > capacity ==> r[0] == 0.0)
  {
    hide Run, UpdatedP, RunThroughput, MvaProductForm.ClampFree, Sum;
    LastUpdate(net, z, qs, m, n);
    var p, x := Run(net, z, qs, n - 1)[m].p, RunThroughput(net, z, qs, n);
    UpdateKeepsDistribution(net[m], p, x, n);
    UnclampedSum(net[m], p, x, n);
    if MvaProductForm.ClampFree(net[m], p, x, n) {
      CapacityBound(net[m], p, x, n);
    }
  }

  /** The clamp of P[0] is inert exactly when the updated probabilities sum to 1. */
  lemma UnclampedSum(st: Station, p: seq<real>, x: real, n: nat)
    requires 1 <= n < |p| && x > 0.0 && p[0] > 0.0 && forall j :: 0 <= j < |p| ==> p[j] >= 0.0
    ensures MvaProductForm.ClampFree(st, p, x, n) <==> Sum(UpdatedP(st, p, x, n)[..n + 1]) == 1.0
    ensures UpdatedP(st, p, x, n)[0] > 0.0 ==> MvaProductForm.ClampFree(st, p, x, n)
  {
    hide Mu, RawEntry, UpdatedTail, Sum;
    var r, tail := UpdatedP(st, p, x, n), UpdatedTail(st, p, x, n);
    forall j | 1 <= j <= n ensures RawEntry(st, p, x, j) >= 0.0 { TailEntry(st, p, x, n, j); }
    assert r[..n + 1] == [r[0]] + tail;
    SumFront([r[0]] + tail);
    assert ([r[0]] + tail)[1..] == tail;
  }

  /**
   One server, any visits and population: while P[0] has not been cut off before, the throughput exceeds the
   station's capacity exactly when the clamp of P[0] fires.
   */
  lemma CapacityExceededIff(net: seq<Station>, z: real, qs: seq<QueueState>, m: nat, n: nat)
    requires n >= 1 && m < |net| && net[m].kind.LoadDependent? && Solvable(net, z) && Fresh(net, qs, n)
    requires net[m].servers == 1 && Run(net, z, qs, n - 1)[m].p[0] > 0.0
    ensures RunThroughput(net, z, qs, n) > 1.0 / net[m].serviceTime
       <==> !MvaProductForm.ClampFree(net[m], Run(net, z, qs, n - 1)[m].p, RunThroughput(net, z, qs, n), n)
  {
    hide Run, UpdatedP, RunThroughput, Sum, UpdatedTail, RawEntry;
    LastUpdate(net, z, qs, m, n);
    var p, x := Run(net, z, qs, n - 1)[m].p, RunThroughput(net, z, qs, n);
    OneServerTail(net[m], p, x, n);
    forall j | 1 <= j <= n ensures RawEntry(net[m], p, x, j) >= 0.0 { TailEntry(net[m], p, x, n, j); }
    CompareWithReciprocal(x, net[m].serviceTime);
  }

  /**
   One server, also after the clamp has fired: the throughput exceeds the capacity exactly when more is assigned
   to the states with jobs than was assigned to all states before.
   */
  lemma CapacityExceededByMass(net: seq<Station>, z: real, qs: seq<QueueState>, m: nat, n: nat)
    requires n >= 1 && m < |net| && net[m].kind.LoadDependent? && Solvable(net, z) && Fresh(net, qs, n)
    requires net[m].servers == 1
    ensures RunThroughput(net, z, qs, n) > 1.0 / net[m].serviceTime
       <==> Sum(Run(net, z, qs, n)[m].p[1..n + 1]) > Sum(Run(net, z, qs, n - 1)[m].p[..n])
  {
    hide Run, RunThroughput, Sum, UpdatedTail;
    LastUpdate(net, z, qs, m, n);
    var p, x := Run(net, z, qs, n - 1)[m].p, RunThroughput(net, z, qs, n);
    OneServerTail(net[m], p, x, n);
    assert UpdatedP(net[m], p, x, n)[1..n + 1] == UpdatedTail(net[m], p, x, n);
    SumAtLeast(p[..n], n - 1);
    CompareWithReciprocal(x, net[m].serviceTime);
    ScaledIsMore(x * net[m].serviceTime, Sum(p[..n]), Sum(UpdatedTail(net[m], p, x, n)));
  }

  lemma ScaledIsMore(c: real, s: real, t: real)
    requires s > 0.0 && t == c * s
    ensures t > s <==> c > 1.0
  {
    var d := c - 1.0;
    assert s * d == t - s;
    SignOfProduct(s, d);
  }

  /** One server: the new entries are the old ones, shifted and scaled, so that their sum is too. */
  lemma OneServerTail(st: Station, p: seq<real>, x: real, n: nat)
    requires st.servers == 1 && 1 <= n < |p| && x > 0.0 && forall j :: 0 <= j < |p| ==> p[j] >= 0.0
    ensures Sum(UpdatedTail(st, p, x, n)) == x * st.serviceTime * Sum(p[..n])
  {
    hide Sum, UpdatedTail;
    var c := x * st.serviceTime;
    var l, r := UpdatedTail(st, p, x, n), Scaled(c, p[..n]);
    forall i | 0 <= i < n ensures l[i] == r[i] {
      TailEntry(st, p, x, n, i + 1);
      OneServerEntry(x, st.serviceTime, p[i]);
    }
    assert l == r;
    SumScaled(c, p[..n]);
  }

  lemma OneServerEntry(x: real, s: real, p: real)
    requires s > 0.0
    ensures x / (1.0 / s) * p == x * s * p
  {
    assert 1.0 / s * (x * s) == x;
  }

  lemma CompareWithReciprocal(x: real, s: real)
    requires s > 0.0
    ensures x > 1.0 / s <==> x * s > 1.0
  {
    var r := 1.0 / s;
    assert r * s == 1.0;
    var d := x - r;
    assert s * d == s * x - 1.0;
    SignOfProduct(s, d);
  }

  // ---- conservation at the first client ----------------------------------------------------------

  /** What the load-dependent stations leave out of the first client's cycle. */
  function FirstUnaccounted(net: seq<Station>): (r: seq<real>)
    ensures |r| == |net|
  {
    seq(|net|, m requires 0 <= m < |net| =>
      if net[m].kind.LoadDependent? then (1.0 - net[m].visits) * net[m].serviceTime else 0.0)
  }

  /** For any visits, also on both sides of 1: the first client is conserved exactly when these parts cancel. */
  lemma FirstConservedIff(net: seq<Station>, z: real, qs: seq<QueueState>)
    requires Solvable(net, z) && Fresh(net, qs, 1)
    ensures RunCustomers(net, z, qs, 1) == 1.0 <==> Sum(FirstUnaccounted(net)) == 0.0
  {
    hide ResponseTime, Sum, Throughput, UpdatedP, RunCustomers, Distribution;
    RunStep(net, z, qs, 1);
    ConservedIff(net, z, qs, 1);
    UnaccountedKept(net, z, qs, 1);
    var l, r := Unaccounted(net, Responded(net, qs, 1)), FirstUnaccounted(net);
    forall m | 0 <= m < |net| ensures l[m] == r[m] { FirstResponse(net[m], |qs[m].p|); }
    assert l == r;
  }

  /** A network whose throughput exceeds the station's capacity: one station, visited half the time. */
  lemma HalfVisitsExceedCapacity()
    ensures var st: Station := Station(LoadDependent, 1.0, 0.5, 1);
            var qs := [FreshQueue(st, 2)];
            && Fresh([st], qs, 1) && Solvable([st], 0.0)
            && RunThroughput([st], 0.0, qs, 1) > st.servers as real / st.serviceTime
            && Run([st], 0.0, qs, 1)[0].p[0] == 0.0
            && !MvaProductForm.ClampFree(st, qs[0].p, RunThroughput([st], 0.0, qs, 1), 1)
  {
    hide ResponseTime, Distribution, RawEntry, UpdatedTail, Throughput, Run, RunThroughput, MvaProductForm.ClampFree;
    var st: Station := Station(LoadDependent, 1.0, 0.5, 1);
    var qs := [FreshQueue(st, 2)];
    assert Fresh([st], qs, 1);
    var demands := ServiceDemands([st]);
    assert demands == [0.5];
    SingleSum(0.5);
    assert FirstCycle([st], 0.0) == 0.5;
    FirstThroughput([st], 0.0, qs);
    FirstClampIff([st], 0.0, qs, 0);
  }
}
