/**
 The third solver: decimal arithmetic whose divisions round. The rounding division is a parameter, so
 what is proved here holds for every rounding; with exact division this solver and the first one agree.
 */
module LearnGanz {
  import opened RealSums
  import opened MvaModel
  import opened MvaInvariants
  import MvaProductForm

  type Division = (real, real) -> real

  datatype GanzQueue = GanzQueue(kind: QueueType, m: nat, s: real, multiplicity: nat)

  /** The average queue length and the state probabilities, per queue. */
  datatype GanzState = GanzState(q: seq<real>, p: seq<seq<real>>)

  function ServiceRate(queue: GanzQueue, n: nat, div: Division): real {
    if n * queue.multiplicity < queue.m * queue.multiplicity
    then div(n as real, queue.s) * queue.multiplicity as real
    else div(queue.m as real, queue.s) * queue.multiplicity as real
  }

  function RateTerms(queue: GanzQueue, p: seq<real>, n: nat, div: Division): (r: seq<real>)
    requires n <= |p|
    ensures |r| == n
  {
    seq(n, i requires 0 <= i < n => div(Times(p[i], (i + 1) as real), ServiceRate(queue, i + 1, div)))
  }

  function QueueResponse(queue: GanzQueue, q: real, p: seq<real>, n: nat, div: Division): real
    requires n <= |p|
  {
    match queue.kind
    case FixedCapacity => queue.s * (1.0 + q)
    case LoadDependent => Sum(RateTerms(queue, p, n, div))
    case DelayCenter => queue.s
  }

  function ShiftedTail(queue: GanzQueue, p: seq<real>, x: real, n: nat, div: Division): (r: seq<real>)
    requires n <= |p|
    ensures |r| == n
  {
    seq(n, i requires 0 <= i < n => div(Times(x, p[i]), ServiceRate(queue, i + 1, div)))
  }

  /** P[0] is one minus everything else, with no clamp. */
  function NextP(queue: GanzQueue, p: seq<real>, x: real, n: nat, div: Division): (r: seq<real>)
    requires n < |p|
    ensures |r| == |p|
  {
    var rest := ShiftedTail(queue, p, x, n, div) + p[n + 1..];
    [1.0 - Sum(rest)] + rest
  }

  ghost predicate Shaped(queues: seq<GanzQueue>, visits: seq<int>, st: GanzState, population: nat) {
    && |visits| == |st.q| == |st.p| == |queues|
    && forall i :: 0 <= i < |queues| ==> |st.p[i]| == population + 1
  }

  function Responses(queues: seq<GanzQueue>, visits: seq<int>, st: GanzState, n: nat, population: nat,
                     div: Division): (r: seq<real>)
    requires Shaped(queues, visits, st, population) && n <= population
    ensures |r| == |queues|
  {
    seq(|queues|, i requires 0 <= i < |queues| => QueueResponse(queues[i], st.q[i], st.p[i], n, div))
  }

  function Residences(visits: seq<int>, r: seq<real>): (d: seq<real>)
    requires |visits| == |r|
    ensures |d| == |r|
  {
    seq(|r|, i requires 0 <= i < |r| => r[i] * visits[i] as real)
  }

  function GanzThroughput(queues: seq<GanzQueue>, visits: seq<int>, thinkTime: int, st: GanzState, n: nat,
                          population: nat, div: Division): real
    requires Shaped(queues, visits, st, population) && n <= population
  {
    div(n as real, thinkTime as real + Sum(Residences(visits, Responses(queues, visits, st, n, population, div))))
  }

  function MeanQueue(x: real, visits: int, response: real): real {
    x * visits as real * response
  }

  function GanzIteration(queues: seq<GanzQueue>, visits: seq<int>, thinkTime: int, st: GanzState, n: nat,
                         population: nat, div: Division): (r: GanzState)
    requires Shaped(queues, visits, st, population) && n <= population
    ensures Shaped(queues, visits, r, population)
  {
    var x := GanzThroughput(queues, visits, thinkTime, st, n, population, div);
    var rs := Responses(queues, visits, st, n, population, div);
    GanzState(
      seq(|queues|, i requires 0 <= i < |queues| =>
        if queues[i].kind.LoadDependent? then st.q[i] else MeanQueue(x, visits[i], rs[i])),
      seq(|queues|, i requires 0 <= i < |queues| =>
        if queues[i].kind.LoadDependent? then NextP(queues[i], st.p[i], x, n, div) else st.p[i]))
  }

  function StartP(population: nat): (p: seq<real>)
    ensures |p| == population + 1
  {
    [1.0] + seq(population, i => 0.0)
  }

  function GanzStart(queues: seq<GanzQueue>, population: nat): GanzState {
    GanzState(seq(|queues|, i => 0.0), seq(|queues|, i => StartP(population)))
  }

  function GanzRun(queues: seq<GanzQueue>, visits: seq<int>, thinkTime: int, n: nat, population: nat,
                   div: Division): (r: GanzState)
    requires |visits| == |queues| && n <= population
    ensures Shaped(queues, visits, r, population)
  {
    if n == 0 then GanzStart(queues, population)
    else GanzIteration(queues, visits, thinkTime,
                       GanzRun(queues, visits, thinkTime, n - 1, population, div), n, population, div)
  }

  // ---- what holds whatever the division rounds to ----------------------------------------------

  lemma NextPSums(queue: GanzQueue, p: seq<real>, x: real, n: nat, div: Division)
    requires n < |p|
    ensures Sum(NextP(queue, p, x, n, div)) == 1.0
    ensures NextP(queue, p, x, n, div)[n + 1..] == p[n + 1..]
  {
    hide ShiftedTail;
    var r := NextP(queue, p, x, n, div);
    SumFront(r);
    assert r[1..] == ShiftedTail(queue, p, x, n, div) + p[n + 1..];
  }

  /** The probabilities of every queue sum to exactly 1 after every n, and those above n are still 0. */
  lemma {:induction false} ProbabilitiesSumToOne(queues: seq<GanzQueue>, visits: seq<int>, thinkTime: int, n: nat,
                                                 population: nat, div: Division, i: nat)
    requires |visits| == |queues| && n <= population && i < |queues|
    ensures var p := GanzRun(queues, visits, thinkTime, n, population, div).p[i];
            Sum(p) == 1.0 && forall j :: n < j < |p| ==> p[j] == 0.0
  {
    hide NextP, GanzThroughput, Responses;
    if n == 0 {
      var p := StartP(population);
      SumFront(p);
      SumZero(p[1..]);
    } else {
      ProbabilitiesSumToOne(queues, visits, thinkTime, n - 1, population, div, i);
      var before := GanzRun(queues, visits, thinkTime, n - 1, population, div);
      var x := GanzThroughput(queues, visits, thinkTime, before, n, population, div);
      NextPSums(queues[i], before.p[i], x, n, div);
      var p := NextP(queues[i], before.p[i], x, n, div);
      forall j | n < j < |p| ensures p[j] == before.p[i][j] {
        assert p[n + 1..][j - n - 1] == before.p[i][n + 1..][j - n - 1];
      }
    }
  }

  // ---- agreement with the first solver ---------------------------------------------------------

  /** Division without rounding, wherever the divisor is positive. */
  ghost predicate Exact(div: Division) {
    forall a, b :: b > 0.0 ==> div(a, b) == a / b
  }

  ghost predicate Proper(queue: GanzQueue) {
    queue.m >= 1 && queue.s > 0.0 && queue.multiplicity >= 1
  }

  /** The station that a queue with several instances stands for. */
  function AsStation(queue: GanzQueue, visits: int): (st: Station)
    requires Proper(queue) && visits >= 1
    ensures st.kind == queue.kind
  {
    QuotientSign(queue.s, queue.multiplicity as real);
    Station(queue.kind, queue.s / queue.multiplicity as real, visits as real, queue.m)
  }

  lemma RateAgrees(queue: GanzQueue, j: nat, div: Division)
    requires Proper(queue) && Exact(div) && j >= 1
    ensures ServiceRate(queue, j, div) == Mu(AsStation(queue, 1), j)
  {
    var c := queue.multiplicity as real;
    assert j * queue.multiplicity < queue.m * queue.multiplicity <==> j < queue.m by {
      Scaling(j, queue.m, queue.multiplicity);
    }
    MultipliedRate(j as real, queue.s, c);
    MultipliedRate(queue.m as real, queue.s, c);
  }

  lemma Scaling(a: int, b: int, c: int)
    requires c >= 1
    ensures a * c < b * c <==> a < b
  {
    var d := b - a;
    assert d * c == b * c - a * c;
    SignOfMultiple(d, c);
  }

  lemma SignOfMultiple(d: int, c: int)
    requires c >= 1
    ensures d * c > 0 <==> d > 0
  {
  }

  lemma MultipliedRate(a: real, s: real, c: real)
    requires s > 0.0 && c > 0.0
    ensures s / c > 0.0 && a / s * c == a / (s / c)
  {
    QuotientSign(s, c);
    var q := s / c;
    assert q * c == s;
    assert a / s * c * q == a by {
      assert a / s * c * q == a / s * (q * c);
    }
  }

  lemma TermAgrees(queue: GanzQueue, p: seq<real>, n: nat, div: Division, i: nat)
    requires Proper(queue) && Exact(div) && i < n <= |p|
    ensures RateTerms(queue, p, n, div)[i] == ResponseTerms(AsStation(queue, 1), p, n)[i]
  {
    hide Mu, ServiceRate, Exact;
    RateAgrees(queue, i + 1, div);
    var a, rate := Times(p[i], (i + 1) as real), ServiceRate(queue, i + 1, div);
    ExactRate(div, a, rate, Mu(AsStation(queue, 1), i + 1));
  }

  lemma ExactRate(div: Division, a: real, rate: real, mu: real)
    requires Exact(div) && rate == mu > 0.0
    ensures div(a, rate) == a / mu
  {
  }

  lemma ExactAt(div: Division, a: real, b: real)
    requires Exact(div) && b > 0.0
    ensures div(a, b) == a / b
  {
  }

  lemma ResponseAgrees(queue: GanzQueue, q: QueueState, n: nat, div: Division)
    requires Proper(queue) && Exact(div) && queue.kind.LoadDependent? && n <= |q.p|
    ensures QueueResponse(queue, 0.0, q.p, n, div) == ResponseTime(AsStation(queue, 1), q, n)
  {
    hide RateTerms, ResponseTerms, Sum, Exact;
    var l, r := RateTerms(queue, q.p, n, div), ResponseTerms(AsStation(queue, 1), q.p, n);
    forall i | 0 <= i < n ensures l[i] == r[i] { TermAgrees(queue, q.p, n, div, i); }
    assert l == r;
  }

  lemma TailAgrees(queue: GanzQueue, p: seq<real>, x: real, n: nat, div: Division)
    requires Proper(queue) && Exact(div) && queue.kind.LoadDependent? && n < |p|
    requires MvaProductForm.ClampFree(AsStation(queue, 1), p, x, n)
    ensures ShiftedTail(queue, p, x, n, div) == UpdatedTail(AsStation(queue, 1), p, x, n)
  {
    hide Mu, ServiceRate, Exact, Sum;
    var st := AsStation(queue, 1);
    var l, r := ShiftedTail(queue, p, x, n, div), UpdatedTail(st, p, x, n);
    forall i | 0 <= i < n ensures l[i] == r[i] {
      RateAgrees(queue, i + 1, div);
      ExactRate(div, Times(x, p[i]), ServiceRate(queue, i + 1, div), Mu(st, i + 1));
      assert RawEntry(st, p, x, i + 1) >= 0.0;
      ProductOfQuotient(x, Mu(st, i + 1), p[i]);
    }
  }

  lemma ProductOfQuotient(x: real, mu: real, p: real)
    requires mu > 0.0
    ensures x * p / mu == x / mu * p
  {
  }

  /** Where no clamp fires, both updates give the same probabilities. */
  lemma UpdateAgrees(queue: GanzQueue, p: seq<real>, x: real, n: nat, div: Division)
    requires Proper(queue) && Exact(div) && queue.kind.LoadDependent? && n < |p|
    requires MvaProductForm.ClampFree(AsStation(queue, 1), p, x, n) && p[0] > 0.0
    requires forall j :: n < j < |p| ==> p[j] == 0.0
    ensures NextP(queue, p, x, n, div) == UpdatedP(AsStation(queue, 1), p, x, n)
  {
    hide ShiftedTail, UpdatedTail, Exact;
    TailAgrees(queue, p, x, n, div);
    SumConcat(ShiftedTail(queue, p, x, n, div), p[n + 1..]);
    SumZero(p[n + 1..]);
  }

  /** Queues of all kinds, each visited at least once per cycle, and the load-dependent ones exactly once. */
  ghost predicate Comparable(queues: seq<GanzQueue>, visits: seq<int>) {
    && |visits| == |queues|
    && forall i :: 0 <= i < |queues| ==>
         Proper(queues[i]) && visits[i] >= 1 && (queues[i].kind.LoadDependent? ==> visits[i] == 1)
  }

  /** A queue as a station of the first solver; several instances count for load-dependent queues only. */
  function AsMember(queue: GanzQueue, visits: int): (st: Station)
    requires Proper(queue) && visits >= 1
    ensures st.kind == queue.kind && st.visits == visits as real
  {
    if queue.kind.LoadDependent? then AsStation(queue, visits)
    else Station(queue.kind, queue.s, visits as real, queue.m)
  }

  ghost function AsNetwork(queues: seq<GanzQueue>, visits: seq<int>): (net: seq<Station>)
    requires Comparable(queues, visits)
    ensures |net| == |queues| && UnitVisits(net)
    ensures forall i :: 0 <= i < |queues| ==> net[i] == AsMember(queues[i], visits[i])
  {
    seq(|queues|, i requires 0 <= i < |queues| => AsMember(queues[i], visits[i]))
  }

  ghost function FreshStates(net: seq<Station>, population: nat): (qs: seq<QueueState>)
    ensures Fresh(net, qs, population)
    ensures forall i :: 0 <= i < |net| ==> |qs[i].p| == population + 1
  {
    seq(|net|, i requires 0 <= i < |net| => FreshQueue(net[i], population + 1))
  }

  /** The same probabilities, and the same mean number of jobs where that is computed. */
  ghost predicate SameState(queues: seq<GanzQueue>, st: GanzState, qs: seq<QueueState>) {
    && |st.p| == |st.q| == |qs| == |queues|
    && forall i :: 0 <= i < |qs| ==>
         st.p[i] == qs[i].p && (!queues[i].kind.LoadDependent? ==> st.q[i] == qs[i].queueLength)
  }

  lemma MemberResponds(queue: GanzQueue, visits: int, gq: real, q: QueueState, n: nat, div: Division)
    requires Proper(queue) && visits >= 1 && Exact(div) && n <= |q.p|
    requires if queue.kind.LoadDependent? then visits == 1 else gq == q.queueLength
    requires queue.kind.DelayCenter? ==> q.responseTime == queue.s
    ensures QueueResponse(queue, gq, q.p, n, div) == ResponseTime(AsMember(queue, visits), q, n)
  {
    hide Sum, RateTerms, ResponseTerms, AsStation, Exact;
    if queue.kind.LoadDependent? {
      hide ResponseTime;
      ResponseAgrees(queue, q, n, div);
    }
  }

  lemma ThroughputAgrees(queues: seq<GanzQueue>, visits: seq<int>, thinkTime: int, st: GanzState,
                         qs: seq<QueueState>, n: nat, population: nat, div: Division)
    requires Comparable(queues, visits) && Exact(div) && Shaped(queues, visits, st, population)
    requires n + 1 <= population && SameState(queues, st, qs)
    requires Solvable(AsNetwork(queues, visits), thinkTime as real) && AllSane(AsNetwork(queues, visits), qs, n)
    ensures Roomy(AsNetwork(queues, visits), qs, n + 1)
    ensures GanzThroughput(queues, visits, thinkTime, st, n + 1, population, div)
         == Throughput(AsNetwork(queues, visits), thinkTime as real, qs, n + 1)
  {
    hide ResponseTime, QueueResponse, Exact, Sum, Distribution;
    var net := AsNetwork(queues, visits);
    assert forall i :: 0 <= i < |net| ==> Sane(net[i], qs[i], n);
    CyclePositive(net, thinkTime as real, qs, n);
    var l := Residences(visits, Responses(queues, visits, st, n + 1, population, div));
    var r := Demands(net, Responded(net, qs, n + 1));
    forall i | 0 <= i < |queues| ensures l[i] == r[i] {
      MemberResponds(queues[i], visits[i], st.q[i], qs[i], n + 1, div);
    }
    assert l == r;
    ExactAt(div, (n + 1) as real, thinkTime as real + Sum(l));
  }

  /**
   With exact division both programs compute the same probabilities and queue lengths for every population, as
   long as some customer can be elsewhere than at a single queue.
   */
  lemma {:induction false} SolversAgree(queues: seq<GanzQueue>, visits: seq<int>, thinkTime: int, n: nat,
                                        population: nat, div: Division)
    requires Comparable(queues, visits) && Exact(div) && n <= population
    requires Solvable(AsNetwork(queues, visits), thinkTime as real)
    requires !MvaProductForm.Alone(AsNetwork(queues, visits), thinkTime as real)
    ensures var net := AsNetwork(queues, visits);
            Roomy(net, FreshStates(net, population), n)
            && SameState(queues, GanzRun(queues, visits, thinkTime, n, population, div),
                                 Run(net, thinkTime as real, FreshStates(net, population), n))
  {
    hide GanzIteration, Iteration, Exact, AsStation, Solvable;
    var net, z := AsNetwork(queues, visits), thinkTime as real;
    if n > 0 {
      SolversAgree(queues, visits, thinkTime, n - 1, population, div);
      var st := GanzRun(queues, visits, thinkTime, n - 1, population, div);
      var qs := Run(net, z, FreshStates(net, population), n - 1);
      var l := GanzIteration(queues, visits, thinkTime, st, n, population, div);
      var r := Iteration(net, z, qs, n);
      forall i | 0 <= i < |net|
        ensures l.p[i] == r[i].p && (!queues[i].kind.LoadDependent? ==> l.q[i] == r[i].queueLength)
      {
        StepAgrees(queues, visits, thinkTime, n, population, div, i);
      }
    }
  }

  lemma StepAgrees(queues: seq<GanzQueue>, visits: seq<int>, thinkTime: int, n: nat,
                   population: nat, div: Division, i: nat)
    requires Comparable(queues, visits) && Exact(div) && 1 <= n <= population && i < |queues|
    requires var net := AsNetwork(queues, visits);
      && Solvable(net, thinkTime as real) && !MvaProductForm.Alone(net, thinkTime as real)
      && SameState(queues, GanzRun(queues, visits, thinkTime, n - 1, population, div),
                   Run(net, thinkTime as real, FreshStates(net, population), n - 1))
    ensures var net, z := AsNetwork(queues, visits), thinkTime as real;
      var l := GanzIteration(queues, visits, thinkTime, GanzRun(queues, visits, thinkTime, n - 1, population, div),
                             n, population, div);
      var r := Iteration(net, z, Run(net, z, FreshStates(net, population), n - 1), n)[i];
      l.p[i] == r.p && (!queues[i].kind.LoadDependent? ==> l.q[i] == r.queueLength)
  {
    hide Exact, Throughput, GanzThroughput, NextP, UpdatedP, ResponseTime, QueueResponse, MvaProductForm.ClampFree, Run,
         GanzRun, Distribution;
    var net, z := AsNetwork(queues, visits), thinkTime as real;
    var start := FreshStates(net, population);
    var st := GanzRun(queues, visits, thinkTime, n - 1, population, div);
    var qs := Run(net, z, start, n - 1);
    RunKeepsDistributions(net, z, start, n - 1);
    ThroughputAgrees(queues, visits, thinkTime, st, qs, n - 1, population, div);
    if queues[i].kind.LoadDependent? {
      MvaProductForm.NoClampFires(net, z, start, i, n);
      PositiveBefore(net, z, start, i, n);
      UpdateAgrees(queues[i], st.p[i], Throughput(net, z, qs, n), n, div);
    } else {
      assert Sane(net[i], qs[i], n - 1);
      MemberResponds(queues[i], visits[i], st.q[i], qs[i], n, div);
    }
  }

  lemma PositiveBefore(net: seq<Station>, z: real, qs: seq<QueueState>, m: nat, n: nat)
    requires n >= 1 && m < |net| && net[m].kind.LoadDependent?
    requires UnitVisits(net) && Solvable(net, z) && Fresh(net, qs, n) && !MvaProductForm.Alone(net, z)
    ensures Run(net, z, qs, n - 1)[m].p[0] > 0.0
    ensures var p := Run(net, z, qs, n - 1)[m].p; forall j :: n <= j < |p| ==> p[j] == 0.0
  {
    hide MvaProductForm.ClampFree, Iteration;
    RunKeepsDistributions(net, z, qs, n - 1);
    if n > 1 {
      MvaProductForm.NoClampFires(net, z, qs, m, n - 1);
    }
  }
}
