/**
 What every iteration of the solver keeps, for any visit ratios: the state probabilities stay a
 distribution until P[0] is clamped, Little's law holds at every load-dependent station, and customers
 are conserved up to the visit ratios that the load-dependent update leaves out.
 */
module MvaInvariants {
  import opened RealSums
  import opened MvaModel

  /** The state probabilities of a load-dependent station after n clients. */
  ghost predicate Distribution(p: seq<real>, n: nat) {
    && n < |p|
    && (forall j :: 0 <= j < |p| ==> p[j] >= 0.0)
    && (forall j :: n < j < |p| ==> p[j] == 0.0)
    && p[n] > 0.0
    && (p[0] > 0.0 ==> Sum(p[..n + 1]) == 1.0)
  }

  ghost predicate Sane(st: Station, q: QueueState, n: nat) {
    && q.queueLength >= 0.0
    && (st.kind.LoadDependent? ==> Distribution(q.p, n))
    && (st.kind.DelayCenter? ==> q.responseTime == st.serviceTime)
  }

  ghost predicate AllSane(net: seq<Station>, qs: seq<QueueState>, n: nat) {
    |qs| == |net| && forall m :: 0 <= m < |net| ==> Sane(net[m], qs[m], n)
  }

  lemma QuotientSign(a: real, b: real)
    requires b > 0.0
    ensures a >= 0.0 ==> a / b >= 0.0
    ensures a > 0.0 ==> a / b > 0.0
  {
  }

  lemma ProductSign(a: real, b: real)
    requires a > 0.0
    ensures b >= 0.0 ==> a * b >= 0.0
    ensures b > 0.0 ==> a * b > 0.0
  {
  }

  lemma RawEntrySign(st: Station, p: seq<real>, x: real, j: nat)
    requires 1 <= j <= |p| && x > 0.0 && p[j - 1] >= 0.0
    ensures RawEntry(st, p, x, j) >= 0.0
    ensures p[j - 1] > 0.0 ==> RawEntry(st, p, x, j) > 0.0
  {
    QuotientSign(x, Mu(st, j));
    ProductSign(x / Mu(st, j), p[j - 1]);
  }

  /** The clamp of a tail entry is inert. */
  lemma TailEntry(st: Station, p: seq<real>, x: real, n: nat, j: nat)
    requires 1 <= j <= n < |p| && x > 0.0 && p[j - 1] >= 0.0
    ensures UpdatedTail(st, p, x, n)[j - 1] == RawEntry(st, p, x, j) == UpdatedP(st, p, x, n)[j] >= 0.0
    ensures p[j - 1] > 0.0 ==> UpdatedP(st, p, x, n)[j] > 0.0
  {
    RawEntrySign(st, p, x, j);
    assert UpdatedTail(st, p, x, n)[j - 1] == ClampAtZero(RawEntry(st, p, x, j));
  }

  /** The update keeps the distribution invariant, and an entry P[0] = 0 stays 0. */
  lemma UpdateKeepsDistribution(st: Station, p: seq<real>, x: real, n: nat)
    requires 1 <= n < |p| && x > 0.0
    requires forall j :: 0 <= j < |p| ==> p[j] >= 0.0
    ensures var r := UpdatedP(st, p, x, n);
            && (forall j :: 0 <= j < |p| ==> r[j] >= 0.0)
            && (r[0] > 0.0 ==> Sum(r[..n + 1]) == 1.0)
            && (p[0] == 0.0 ==> r[0] == 0.0)
            && (forall j :: n < j < |p| ==> r[j] == p[j])
            && (p[n - 1] > 0.0 ==> r[n] > 0.0)
  {
    var r := UpdatedP(st, p, x, n);
    var tail := UpdatedTail(st, p, x, n);
    forall j | 0 <= j < |p| ensures r[j] >= 0.0 {
      if 1 <= j <= n {
        TailEntry(st, p, x, n, j);
      }
    }
    TailEntry(st, p, x, n, n);
    assert r[..n + 1] == [r[0]] + tail;
    SumFront([r[0]] + tail);
    assert ([r[0]] + tail)[1..] == tail;
  }

  lemma ResponseTermSign(st: Station, p: seq<real>, n: nat, i: nat)
    requires i < n <= |p| && p[i] >= 0.0
    ensures ResponseTerms(st, p, n)[i] >= 0.0
    ensures p[i] > 0.0 ==> ResponseTerms(st, p, n)[i] > 0.0
  {
    ProductSign((i + 1) as real, p[i]);
    QuotientSign(p[i] * (i + 1) as real, Mu(st, i + 1));
  }

  lemma ResponsePositive(st: Station, q: QueueState, n: nat)
    requires Sane(st, q, n)
    ensures ResponseTime(st, q, n + 1) > 0.0
  {
    match st.kind
    case DelayCenter =>
    case FixedCapacity => ProductSign(st.serviceTime, 1.0 + q.queueLength);
    case LoadDependent =>
      var terms := ResponseTerms(st, q.p, n + 1);
      forall i | 0 <= i < |terms| ensures terms[i] >= 0.0 { ResponseTermSign(st, q.p, n + 1, i); }
      ResponseTermSign(st, q.p, n + 1, n);
      SumAtLeast(terms, n);
  }

  /** The cycle time is positive, so the division by it is defined and the throughput is positive. */
  lemma CyclePositive(net: seq<Station>, thinkTime: real, qs: seq<QueueState>, n: nat)
    requires Solvable(net, thinkTime) && AllSane(net, qs, n) && Roomy(net, qs, n + 1)
    ensures thinkTime + TotalResponse(net, qs, n + 1) > 0.0
    ensures Throughput(net, thinkTime, qs, n + 1) > 0.0
    ensures var rs := Responded(net, qs, n + 1); forall m :: 0 <= m < |net| ==> rs[m].responseTime > 0.0
  {
    var rs := Responded(net, qs, n + 1);
    var demands := Demands(net, rs);
    forall m | 0 <= m < |net| ensures rs[m].responseTime > 0.0 && demands[m] > 0.0 {
      ResponsePositive(net[m], qs[m], n);
      ProductSign(rs[m].responseTime, net[m].visits);
    }
    SumNonNegative(demands);
    if net != [] {
      SumAtLeast(demands, 0);
    }
    QuotientSign((n + 1) as real, thinkTime + TotalResponse(net, qs, n + 1));
  }

  lemma UpdateKeepsSane(st: Station, q: QueueState, x: real, n: nat)
    requires Sane(st, q.(responseTime := st.serviceTime), n)
    requires (st.kind.LoadDependent? ==> n + 1 < |q.p|) && x > 0.0 && q.responseTime > 0.0
    requires st.kind.DelayCenter? ==> q.responseTime == st.serviceTime
    ensures Sane(st, UpdatedQueue(st, q, x, n + 1), n + 1)
  {
    hide Sum, UpdatedP;
    if st.kind.LoadDependent? {
      UpdateKeepsDistribution(st, q.p, x, n + 1);
    } else {
      ProductSign(x, st.visits);
      ProductSign(x * st.visits, q.responseTime);
    }
  }

  lemma IterationKeepsSane(net: seq<Station>, thinkTime: real, qs: seq<QueueState>, n: nat)
    requires Solvable(net, thinkTime) && AllSane(net, qs, n) && Roomy(net, qs, n + 1)
    ensures AllSane(net, Iteration(net, thinkTime, qs, n + 1), n + 1)
  {
    CyclePositive(net, thinkTime, qs, n);
    var rs := Responded(net, qs, n + 1);
    var x := Throughput(net, thinkTime, qs, n + 1);
    var r := Iteration(net, thinkTime, qs, n + 1);
    forall m | 0 <= m < |net| ensures Sane(net[m], r[m], n + 1) {
      UpdateKeepsSane(net[m], rs[m], x, n + 1 - 1);
    }
  }

  /** From fresh stations, whatever the visit ratios, every iteration leaves a sane state. */
  lemma {:induction false} RunKeepsDistributions(net: seq<Station>, thinkTime: real, qs: seq<QueueState>, n: nat)
    requires Solvable(net, thinkTime) && Fresh(net, qs, n)
    ensures AllSane(net, Run(net, thinkTime, qs, n), n)
  {
    hide Iteration, Distribution;
    if n == 0 {
      forall m | 0 <= m < |net| ensures Sane(net[m], qs[m], 0) {
        FreshDistribution(net[m], |qs[m].p|);
      }
    } else {
      RunKeepsDistributions(net, thinkTime, qs, n - 1);
      IterationKeepsSane(net, thinkTime, Run(net, thinkTime, qs, n - 1), n - 1);
    }
  }

  lemma FreshDistribution(st: Station, size: nat)
    requires size >= 1
    ensures Distribution(FreshQueue(st, size).p, 0)
  {
    var p := FreshQueue(st, size).p;
    assert p[..1] == [1.0] && p[..1][..0] == [];
  }

  /** Once P[0] has been clamped to 0 it is 0 for every larger population. */
  lemma {:induction false} ClampIsForever(net: seq<Station>, thinkTime: real, qs: seq<QueueState>, m: nat, i: nat,
                                          n: nat)
    requires i <= n && m < |net| && net[m].kind.LoadDependent? && Roomy(net, qs, n)
    requires Run(net, thinkTime, qs, i)[m].p[0] == 0.0
    ensures Run(net, thinkTime, qs, n)[m].p[0] == 0.0
    decreases n
  {
    hide Iteration;
    if i < n {
      ClampIsForever(net, thinkTime, qs, m, i, n - 1);
      var before := Run(net, thinkTime, qs, n - 1);
      ClampStays(net, thinkTime, before, m, n);
    }
  }

  lemma ClampStays(net: seq<Station>, thinkTime: real, qs: seq<QueueState>, m: nat, n: nat)
    requires n >= 1 && m < |net| && net[m].kind.LoadDependent? && Roomy(net, qs, n) && qs[m].p[0] == 0.0
    ensures Iteration(net, thinkTime, qs, n)[m].p[0] == 0.0
  {
    var x := Throughput(net, thinkTime, qs, n);
    assert Iteration(net, thinkTime, qs, n)[m] == UpdatedQueue(net[m], Responded(net, qs, n)[m], x, n);
    HeadStays(net[m], qs[m].p, x, n);
  }

  lemma HeadStays(st: Station, p: seq<real>, x: real, n: nat)
    requires n < |p| && p[0] == 0.0
    ensures UpdatedP(st, p, x, n)[0] == 0.0
  {
  }

  // ---- Little's law ----------------------------------------------------------------------------

  /** Mean number of jobs that the probabilities 0..n describe. */
  function JobTerms(p: seq<real>, n: nat): (r: seq<real>)
    requires n < |p|
    ensures |r| == n
  {
    seq(n, i requires 0 <= i < n => (i + 1) as real * p[i + 1])
  }

  function MeanJobs(st: Station, q: QueueState, n: nat): real
    requires st.kind.LoadDependent? ==> n < |q.p|
  {
    if st.kind.LoadDependent? then Sum(JobTerms(q.p, n)) else q.queueLength
  }

  lemma LittleTerm(x: real, mu: real, p: real, k: real)
    requires mu > 0.0
    ensures k * (x / mu * p) == x * (p * k / mu)
  {
  }

  lemma LittleTermAt(st: Station, p: seq<real>, x: real, n: nat, i: nat)
    requires i < n < |p| && x > 0.0 && p[i] >= 0.0
    ensures JobTerms(UpdatedP(st, p, x, n), n)[i] == Scaled(x, ResponseTerms(st, p, n))[i]
  {
    hide UpdatedP, UpdatedTail, Mu;
    TailEntry(st, p, x, n, i + 1);
    LittleTerm(x, Mu(st, i + 1), p[i], (i + 1) as real);
  }

  lemma LittleTerms(st: Station, p: seq<real>, x: real, n: nat)
    requires 1 <= n < |p| && x > 0.0
    requires forall j :: 0 <= j < |p| ==> p[j] >= 0.0
    ensures JobTerms(UpdatedP(st, p, x, n), n) == Scaled(x, ResponseTerms(st, p, n))
  {
    var l, r := JobTerms(UpdatedP(st, p, x, n), n), Scaled(x, ResponseTerms(st, p, n));
    forall i | 0 <= i < n ensures l[i] == r[i] { LittleTermAt(st, p, x, n, i); }
  }

  /** Mean jobs after the update equal throughput times the response time summed before it. */
  lemma LittlesLaw(st: Station, p: seq<real>, x: real, n: nat)
    requires 1 <= n < |p| && x > 0.0
    requires forall j :: 0 <= j < |p| ==> p[j] >= 0.0
    ensures Sum(JobTerms(UpdatedP(st, p, x, n), n)) == x * Sum(ResponseTerms(st, p, n))
  {
    hide *;
    LittleTerms(st, p, x, n);
    SumScaled(x, ResponseTerms(st, p, n));
  }

  // ---- conservation of customers ---------------------------------------------------------------

  function AllJobs(net: seq<Station>, qs: seq<QueueState>, n: nat): seq<real>
    requires Roomy(net, qs, n)
  {
    seq(|net|, m requires 0 <= m < |net| => MeanJobs(net[m], qs[m], n))
  }

  /** Residence time that the load-dependent updates do not account for. */
  function Unaccounted(net: seq<Station>, qs: seq<QueueState>): (r: seq<real>)
    requires |qs| == |net|
    ensures |r| == |net|
  {
    seq(|net|, m requires 0 <= m < |net| =>
      if net[m].kind.LoadDependent? then (1.0 - net[m].visits) * qs[m].responseTime else 0.0)
  }

  /** Customers thinking plus customers at the stations. */
  function Customers(net: seq<Station>, thinkTime: real, x: real, qs: seq<QueueState>, n: nat): real
    requires Roomy(net, qs, n)
  {
    x * thinkTime + Sum(AllJobs(net, qs, n))
  }

  /** Residence time per cycle: the demand, plus what the load-dependent update leaves out. */
  function Residence(st: Station, responseTime: real): real {
    PerCycle(st, responseTime) + if st.kind.LoadDependent? then (1.0 - st.visits) * responseTime else 0.0
  }

  lemma JobsOfStation(st: Station, q: QueueState, x: real, n: nat)
    requires Sane(st, q, n) && (st.kind.LoadDependent? ==> n + 1 < |q.p|) && x > 0.0
    ensures var r := q.(responseTime := ResponseTime(st, q, n + 1));
            MeanJobs(st, UpdatedQueue(st, r, x, n + 1), n + 1) == x * Residence(st, r.responseTime)
  {
    hide Sum, JobTerms, ResponseTerms, UpdatedP;
    var r := q.(responseTime := ResponseTime(st, q, n + 1));
    if st.kind.LoadDependent? {
      LittlesLaw(st, q.p, x, n + 1);
      WholeResponse(r.responseTime, st.visits);
    } else {
      Reorder(x, st.visits, r.responseTime);
    }
  }

  lemma WholeResponse(r: real, v: real)
    ensures r * v + (1.0 - v) * r == r
  {
  }

  lemma Reorder(x: real, v: real, r: real)
    ensures x * v * r == x * (r * v)
  {
  }

  function Residences(net: seq<Station>, qs: seq<QueueState>): seq<real>
    requires |qs| == |net|
  {
    seq(|net|, m requires 0 <= m < |net| => Residence(net[m], qs[m].responseTime))
  }

  lemma JobsAreResidences(net: seq<Station>, thinkTime: real, qs: seq<QueueState>, n: nat)
    requires Solvable(net, thinkTime) && AllSane(net, qs, n) && Roomy(net, qs, n + 1)
    ensures AllJobs(net, Iteration(net, thinkTime, qs, n + 1), n + 1)
         == Scaled(Throughput(net, thinkTime, qs, n + 1), Residences(net, Responded(net, qs, n + 1)))
  {
    hide MeanJobs, Residence, Throughput, UpdatedP, ResponseTime;
    CyclePositive(net, thinkTime, qs, n);
    var x := Throughput(net, thinkTime, qs, n + 1);
    var l := AllJobs(net, Iteration(net, thinkTime, qs, n + 1), n + 1);
    var r := Scaled(x, Residences(net, Responded(net, qs, n + 1)));
    forall m | 0 <= m < |net| ensures l[m] == r[m] {
      JobsOfStation(net[m], qs[m], x, n);
    }
  }

  lemma ResidenceSum(net: seq<Station>, qs: seq<QueueState>)
    requires |qs| == |net|
    ensures Sum(Residences(net, qs)) == Sum(Demands(net, qs)) + Sum(Unaccounted(net, qs))
  {
    SumAdd(Demands(net, qs), Unaccounted(net, qs), Residences(net, qs));
  }

  lemma UnaccountedKept(net: seq<Station>, thinkTime: real, qs: seq<QueueState>, n: nat)
    requires Roomy(net, qs, n)
    ensures Unaccounted(net, Iteration(net, thinkTime, qs, n)) == Unaccounted(net, Responded(net, qs, n))
  {
    hide Throughput, UpdatedP, ResponseTime;
    var l, r := Unaccounted(net, Iteration(net, thinkTime, qs, n)), Unaccounted(net, Responded(net, qs, n));
    forall m | 0 <= m < |net| ensures l[m] == r[m] {
      assert Iteration(net, thinkTime, qs, n)[m].responseTime == Responded(net, qs, n)[m].responseTime;
    }
  }

  /** For any visits: the population, corrected by what the load-dependent updates leave out. */
  lemma IterationCountsCustomers(net: seq<Station>, thinkTime: real, qs: seq<QueueState>, n: nat)
    requires Solvable(net, thinkTime) && AllSane(net, qs, n) && Roomy(net, qs, n + 1)
    ensures var x := Throughput(net, thinkTime, qs, n + 1);
            var r := Iteration(net, thinkTime, qs, n + 1);
            Customers(net, thinkTime, x, r, n + 1) == (n + 1) as real + x * Sum(Unaccounted(net, r))
  {
    hide Iteration, Residences, Demands, Unaccounted, AllJobs;
    var rs := Responded(net, qs, n + 1);
    var x := Throughput(net, thinkTime, qs, n + 1);
    CyclePositive(net, thinkTime, qs, n);
    JobsAreResidences(net, thinkTime, qs, n);
    SumScaled(x, Residences(net, rs));
    ResidenceSum(net, rs);
    UnaccountedKept(net, thinkTime, qs, n + 1);
    Balance(x, thinkTime, Sum(Demands(net, rs)), Sum(Unaccounted(net, rs)), (n + 1) as real);
  }

  lemma Balance(x: real, z: real, d: real, e: real, n: real)
    requires z + d > 0.0 && x == n / (z + d)
    ensures x * z + x * (d + e) == n + x * e
  {
    assert x * (z + d) == n;
    assert x * z + x * (d + e) == x * (z + d) + x * e;
  }

  /** Customers after the run at population n. */
  function RunCustomers(net: seq<Station>, thinkTime: real, qs: seq<QueueState>, n: nat): real
    requires n >= 1 && Roomy(net, qs, n)
  {
    Customers(net, thinkTime, RunThroughput(net, thinkTime, qs, n), Run(net, thinkTime, qs, n), n)
  }

  lemma RunStep(net: seq<Station>, thinkTime: real, qs: seq<QueueState>, n: nat)
    requires n >= 1 && Solvable(net, thinkTime) && Fresh(net, qs, n)
    ensures var before := Run(net, thinkTime, qs, n - 1);
            && AllSane(net, before, n - 1) && Roomy(net, before, n)
            && Run(net, thinkTime, qs, n) == Iteration(net, thinkTime, before, n)
            && RunThroughput(net, thinkTime, qs, n) == Throughput(net, thinkTime, before, n) > 0.0
  {
    hide Iteration, Throughput, Distribution, Sane;
    RunKeepsDistributions(net, thinkTime, qs, n - 1);
    CyclePositive(net, thinkTime, Run(net, thinkTime, qs, n - 1), n - 1);
  }

  /** At population n the run accounts for n customers and the left-out residence time. */
  lemma RunCountsCustomers(net: seq<Station>, thinkTime: real, qs: seq<QueueState>, n: nat)
    requires n >= 1 && Solvable(net, thinkTime) && Fresh(net, qs, n)
    ensures RunCustomers(net, thinkTime, qs, n)
         == n as real + RunThroughput(net, thinkTime, qs, n) * Sum(Unaccounted(net, Run(net, thinkTime, qs, n)))
  {
    hide Iteration, Throughput, Distribution, Customers, Unaccounted, Run, RunThroughput, Sum;
    RunStep(net, thinkTime, qs, n);
    IterationCountsCustomers(net, thinkTime, Run(net, thinkTime, qs, n - 1), n - 1);
  }

  /** Customers are conserved exactly when the left-out residence time is 0. */
  lemma ConservedIff(net: seq<Station>, thinkTime: real, qs: seq<QueueState>, n: nat)
    requires n >= 1 && Solvable(net, thinkTime) && Fresh(net, qs, n)
    ensures RunCustomers(net, thinkTime, qs, n) == n as real
       <==> Sum(Unaccounted(net, Run(net, thinkTime, qs, n))) == 0.0
  {
    hide RunThroughput, RunCustomers, Run, Unaccounted;
    RunStep(net, thinkTime, qs, n);
    RunCountsCustomers(net, thinkTime, qs, n);
    ZeroProduct(RunThroughput(net, thinkTime, qs, n), Sum(Unaccounted(net, Run(net, thinkTime, qs, n))));
  }

  lemma ZeroProduct(x: real, e: real)
    requires x > 0.0
    ensures x * e == 0.0 <==> e == 0.0
  {
  }

  /** Every load-dependent station is visited exactly once per cycle. */
  ghost predicate UnitVisits(net: seq<Station>) {
    forall m :: 0 <= m < |net| && net[m].kind.LoadDependent? ==> net[m].visits == 1.0
  }

  /** No load-dependent station is visited more than once per cycle. */
  ghost predicate AtMostUnitVisits(net: seq<Station>) {
    forall m :: 0 <= m < |net| && net[m].kind.LoadDependent? ==> net[m].visits <= 1.0
  }

  /** No load-dependent station is visited less than once per cycle. */
  ghost predicate AtLeastUnitVisits(net: seq<Station>) {
    forall m :: 0 <= m < |net| && net[m].kind.LoadDependent? ==> net[m].visits >= 1.0
  }

  /**
   When the visits of all load-dependent stations lie on one side of 1, the solver conserves customers at a
   population if and only if each of these stations is visited exactly once. Otherwise it counts too many of them
   when the visits are below 1, and too few when they are above.
   */
  lemma ConservationOfCustomers(net: seq<Station>, thinkTime: real, qs: seq<QueueState>, n: nat)
    requires n >= 1 && Solvable(net, thinkTime) && Fresh(net, qs, n)
    ensures UnitVisits(net) ==> RunCustomers(net, thinkTime, qs, n) == n as real
    ensures AtMostUnitVisits(net) && !UnitVisits(net) ==> RunCustomers(net, thinkTime, qs, n) > n as real
    ensures AtLeastUnitVisits(net) && !UnitVisits(net) ==> RunCustomers(net, thinkTime, qs, n) < n as real
    ensures AtMostUnitVisits(net) || AtLeastUnitVisits(net) ==>
              (RunCustomers(net, thinkTime, qs, n) == n as real <==> UnitVisits(net))
  {
    hide RunCustomers, RunThroughput, Run, Unaccounted, ExcessVisits, Sum;
    RunStep(net, thinkTime, qs, n);
    RunCountsCustomers(net, thinkTime, qs, n);
    var extra := Unaccounted(net, Run(net, thinkTime, qs, n));
    forall m | 0 <= m < |net| ensures SameSign(extra[m], ExcessVisits(net[m])) {
      UnaccountedSign(net, thinkTime, qs, n, m);
    }
    ExcessTotal(net, extra);
    SignOfFactor(RunThroughput(net, thinkTime, qs, n), Sum(extra));
  }

  lemma ExcessTotal(net: seq<Station>, extra: seq<real>)
    requires |extra| == |net| && forall m :: 0 <= m < |net| ==> SameSign(extra[m], ExcessVisits(net[m]))
    ensures UnitVisits(net) ==> Sum(extra) == 0.0
    ensures AtMostUnitVisits(net) && !UnitVisits(net) ==> Sum(extra) > 0.0
    ensures AtLeastUnitVisits(net) && !UnitVisits(net) ==> Sum(extra) < 0.0
  {
    hide Sum;
    if UnitVisits(net) {
      SumZero(extra);
    } else {
      var bad :| 0 <= bad < |net| && net[bad].kind.LoadDependent? && net[bad].visits != 1.0;
      if AtMostUnitVisits(net) {
        SumAtLeast(extra, bad);
      } else if AtLeastUnitVisits(net) {
        SumAtMost(extra, bad);
      }
    }
  }

  /** How far a station's visits stay below what its update takes them for. */
  function ExcessVisits(st: Station): real {
    if st.kind.LoadDependent? then 1.0 - st.visits else 0.0
  }

  ghost predicate SameSign(a: real, b: real) {
    (a > 0.0 <==> b > 0.0) && (a < 0.0 <==> b < 0.0)
  }

  lemma SumAtMost(s: seq<real>, k: nat)
    requires k < |s| && forall i :: 0 <= i < |s| ==> s[i] <= 0.0
    ensures Sum(s) <= s[k]
  {
    hide Sum;
    var t := Scaled(-1.0, s);
    SumScaled(-1.0, s);
    SumAtLeast(t, k);
  }

  lemma UnaccountedSign(net: seq<Station>, thinkTime: real, qs: seq<QueueState>, n: nat, m: nat)
    requires n >= 1 && Solvable(net, thinkTime) && Fresh(net, qs, n) && m < |net|
    ensures var extra := Unaccounted(net, Run(net, thinkTime, qs, n));
            |extra| == |net| && SameSign(extra[m], ExcessVisits(net[m]))
  {
    hide Iteration, Throughput, Distribution, Run, Responded;
    var before := Run(net, thinkTime, qs, n - 1);
    RunStep(net, thinkTime, qs, n);
    CyclePositive(net, thinkTime, before, n - 1);
    UnaccountedKept(net, thinkTime, before, n);
    SignOfFactor(Responded(net, before, n)[m].responseTime, 1.0 - net[m].visits);
  }

  lemma SignOfFactor(r: real, d: real)
    requires r > 0.0
    ensures SameSign(d * r, d)
  {
    if d > 0.0 {
      ProductSign(r, d);
    } else if d < 0.0 {
      ProductSign(r, -d);
      assert r * (-d) == -(d * r);
    }
  }

  // ---- utilisation -----------------------------------------------------------------------------

  function RateTerms(st: Station, p: seq<real>, n: nat): (r: seq<real>)
    requires n < |p|
    ensures |r| == n
  {
    seq(n, i requires 0 <= i < n => Mu(st, i + 1) * p[i + 1])
  }

  lemma RateTerm(x: real, mu: real, p: real)
    requires mu > 0.0
    ensures mu * (x / mu * p) == x * p
  {
  }

  lemma MuBound(st: Station, j: nat)
    requires j >= 1
    ensures Mu(st, j) <= st.servers as real / st.serviceTime
  {
    if j < st.servers {
      QuotientMono(j as real, st.servers as real, st.serviceTime);
    }
  }

  lemma QuotientMono(a: real, b: real, c: real)
    requires a <= b && c > 0.0
    ensures a / c <= b / c
  {
  }

  lemma ProductMono(a: real, b: real, p: real)
    requires a <= b && p >= 0.0
    ensures a * p <= b * p
  {
  }

  lemma RateTermAt(st: Station, p: seq<real>, x: real, n: nat, i: nat)
    requires i < n < |p| && x > 0.0 && p[i] >= 0.0
    ensures RateTerms(st, UpdatedP(st, p, x, n), n)[i] == Scaled(x, p[..n])[i]
  {
    hide UpdatedP, UpdatedTail, Mu;
    TailEntry(st, p, x, n, i + 1);
    RateTerm(x, Mu(st, i + 1), p[i]);
  }

  /** While the probabilities sum to 1 before a step, the throughput is the mean service rate after it. */
  lemma UtilisationLaw(st: Station, p: seq<real>, x: real, n: nat)
    requires 1 <= n < |p| && x > 0.0
    requires forall j :: 0 <= j < |p| ==> p[j] >= 0.0
    requires Sum(p[..n]) == 1.0
    ensures x == Sum(RateTerms(st, UpdatedP(st, p, x, n), n))
  {
    var l, r := RateTerms(st, UpdatedP(st, p, x, n), n), Scaled(x, p[..n]);
    forall i | 0 <= i < n ensures l[i] == r[i] { RateTermAt(st, p, x, n, i); }
    assert l == r;
    SumScaled(x, p[..n]);
  }

  lemma RateBound(st: Station, p: seq<real>, n: nat, i: nat)
    requires i < n < |p| && p[i + 1] >= 0.0
    ensures RateTerms(st, p, n)[i] <= Scaled(st.servers as real / st.serviceTime, p[1..n + 1])[i]
  {
    MuBound(st, i + 1);
    ProductMono(Mu(st, i + 1), st.servers as real / st.serviceTime, p[i + 1]);
  }

  /** Throughput is bounded by the capacity times the probability that the station is busy. */
  lemma CapacityBound(st: Station, p: seq<real>, x: real, n: nat)
    requires 1 <= n < |p| && x > 0.0
    requires forall j :: 0 <= j < |p| ==> p[j] >= 0.0
    requires Sum(p[..n]) == 1.0
    requires Sum(UpdatedP(st, p, x, n)[..n + 1]) == 1.0
    ensures x <= st.servers as real / st.serviceTime * (1.0 - UpdatedP(st, p, x, n)[0])
    ensures x <= st.servers as real / st.serviceTime
  {
    hide UpdatedP, RateTerms, Mu;
    var r := UpdatedP(st, p, x, n);
    var capacity := st.servers as real / st.serviceTime;
    UtilisationLaw(st, p, x, n);
    UpdateKeepsDistribution(st, p, x, n);
    var busy := r[1..n + 1];
    var rates, bound := RateTerms(st, r, n), Scaled(capacity, busy);
    forall i | 0 <= i < n ensures rates[i] <= bound[i] { RateBound(st, r, n, i); }
    SumMono(rates, bound);
    SumScaled(capacity, busy);
    SumFront(r[..n + 1]);
    assert r[..n + 1][1..] == busy;
    QuotientSign(st.servers as real, st.serviceTime);
    ProductMono(1.0 - r[0], 1.0, capacity);
  }
}
