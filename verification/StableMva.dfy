/** The stations and the solver of the decimal version, over arrays that are null above the population so far. */
module StableMva {
  import opened RealSums
  import opened MvaModel
  import opened StableModel
  import opened Wrappers

  class StableQueue {
    const serviceTime: real
    const visits: real
    const kind: QueueType
    const numberOfServices: nat
    var responseTime: real
    var queueLength: real
    const P: array<Cell>

    ghost predicate Valid() {
      serviceTime > 0.0 && visits > 0.0 && numberOfServices >= 1
    }

    ghost function Data(): Station
      requires Valid()
    {
      Station(kind, serviceTime, visits, numberOfServices)
    }

    ghost function State(): StableState
      reads this, P
    {
      StableState(P[..], responseTime, queueLength)
    }

    constructor (serviceTime: real, visits: real, kind: QueueType, numberOfServices: nat, size: nat)
      requires serviceTime > 0.0 && visits > 0.0 && numberOfServices >= 1 && size >= 1
      ensures Valid() && Data() == Station(kind, serviceTime, visits, numberOfServices)
      ensures State() == FreshStable(Data(), size) && fresh(P)
    {
      this.serviceTime, this.visits, this.kind := serviceTime, visits, kind;
      this.numberOfServices := numberOfServices;
      responseTime, queueLength := serviceTime, 0.0;
      P := new Cell[size](i => Null);
      new;
      P[0] := Decimal(1.0);
    }

    method GetMu(i: nat, round: Rounding) returns (mu: real)
      requires Valid() && i >= 1 && KeepsSign(round)
      ensures mu == RoundedMu(Data(), i, round) > 0.0
    {
      if i < numberOfServices {
        mu := round(i as real / serviceTime);
      } else {
        mu := round(numberOfServices as real / serviceTime);
      }
    }

    /** Reads the entries below n, all of them present. */
    method UpdateResponseTime(n: nat, round: Rounding) returns (r: real)
      requires Valid() && n >= 1 && Ready(Data(), State(), n - 1) && KeepsSign(round)
      modifies this`responseTime
      ensures State() == old(State()).(responseTime := Response(Data(), old(State()), n, round))
      ensures r == responseTime
    {
      hide Sum, Mu, RoundedTerms, RoundedMu, KeepsSign;
      if kind.FixedCapacity? {
        responseTime := serviceTime * (1.0 + queueLength);
      } else if kind.LoadDependent? {
        responseTime := SumOfTerms(n, round);
      }
      r := responseTime;
    }

    method SumOfTerms(n: nat, round: Rounding) returns (sum: real)
      requires n >= 1 && Valid() && Defined(P[..], n - 1) && KeepsSign(round)
      ensures sum == Sum(RoundedTerms(Data(), Values(P[..], n), n, round)) > 0.0
    {
      hide Sum, Mu, RoundedTerm, RoundedTerms, RoundedMu, KeepsSign;
      sum := 0.0;
      ghost var values := Values(P[..], n);
      ghost var terms := RoundedTerms(Data(), values, n, round);
      SumNone(terms);
      for i := 1 to n + 1
        invariant sum == Sum(terms[..i - 1]) >= 0.0 && (i == n + 1 ==> sum > 0.0)
      {
        assert P[i - 1].value == values[i - 1];
        RoundedTermAt(Data(), values, n, i, round);
        SumStep(terms, i - 1);
        var term := ResponseTerm(i, round);
        sum := sum + term;
      }
      assert terms[..n] == terms;
    }

    method ResponseTerm(i: nat, round: Rounding) returns (term: real)
      requires Valid() && 1 <= i <= P.Length && P[i - 1].Decimal? && P[i - 1].value >= 0.0 && KeepsSign(round)
      ensures RoundedMu(Data(), i, round) > 0.0
      ensures term == RoundedTerm(Data(), P[i - 1].value, i, round) >= 0.0
      ensures P[i - 1].value > 0.0 ==> term > 0.0
    {
      hide Mu, KeepsSign, RoundedMu, Weighted;
      var mu := GetMu(i, round);
      RoundedTermSign(Data(), P[i - 1].value, i, round);
      term := Weighted(P[i - 1].value, i, mu, round);
    }

    /** Writes entry n, which was null, and reads only entries that are present. */
    method ShiftProbabilities(throughput: real, n: nat, round: Rounding)
      requires 1 <= n < P.Length && Valid() && KeepsSign(round) && throughput > 0.0
      requires Defined(P[..], n - 1)
      modifies P
      ensures P[0] == old(P[0]) && forall j :: n < j < P.Length ==> P[j] == old(P[j])
      ensures var tail := RoundedTail(Data(), old(Values(P[..], n)), throughput, n, round);
              forall j :: 1 <= j <= n ==> P[j] == Decimal(tail[j - 1])
    {
      hide Sum, RoundedTail, Times, Ratio, RoundedMu, KeepsSign;
      ghost var before := Values(P[..], n);
      ghost var tail := RoundedTail(Data(), before, throughput, n, round);
      for j := n downto 0
        invariant forall k :: 0 <= k <= j && k < n ==> P[k] == Decimal(before[k])
        invariant forall k :: j < k <= n ==> P[k] == Decimal(tail[k - 1])
        invariant P[0] == old(P[0]) && forall k :: n < k < P.Length ==> P[k] == old(P[k])
      {
        var mu := GetMu(j + 1, round);
        RoundedTailAt(Data(), before, throughput, n, j + 1, round);
        P[j + 1] := Decimal(Times(round(throughput / mu), P[j].value));
        if P[j + 1].value < 0.0 {
          P[j + 1] := Decimal(0.0);
        }
      }
    }

    method UpdateQueueLength(throughput: real, n: nat, round: Rounding)
      requires Valid() && n >= 1 && Ready(Data(), State(), n - 1) && KeepsSign(round) && throughput > 0.0
      requires kind.LoadDependent? ==> n < P.Length
      modifies this`queueLength, P
      ensures State() == Updated(Data(), old(State()), throughput, n, round)
    {
      hide Sum, RoundedTail, RoundedHead, KeepsSign;
      if kind.LoadDependent? {
        ghost var tail := TailOf(Data(), State(), throughput, n, round);
        ghost var before := P[..];
        ShiftProbabilities(throughput, n, round);
        SetHead(n, tail);
        assert P[..] == [P[0]] + Decimals(tail) + before[n + 1..];
      } else {
        queueLength := throughput * visits * responseTime;
      }
    }

    /** Gives the rest of the probability to the empty state. */
    method SetHead(n: nat, ghost tail: seq<real>)
      requires 1 <= n < P.Length && |tail| == n && P[0].Decimal?
      requires forall j :: 1 <= j <= n ==> P[j] == Decimal(tail[j - 1])
      modifies P
      ensures P[0] == Decimal(RoundedHead(old(P[0].value), tail))
      ensures forall j :: 1 <= j < P.Length ==> P[j] == old(P[j])
    {
      hide Sum;
      ghost var shifted := P[..];
      var sum := 0.0;
      SumNone(tail);
      for j := 1 to n + 1
        invariant P[..] == shifted && sum == Sum(tail[..j - 1])
      {
        assert P[j] == shifted[j] == Decimal(tail[j - 1]);
        SumStep(tail, j - 1);
        sum := sum + P[j].value;
      }
      assert tail[..n] == tail;
      if P[0].value > 0.0 {
        P[0] := Decimal(1.0 - sum);
        if P[0].value < 0.0 {
          P[0] := Decimal(0.0);
        }
      }
    }

    method Utilise(throughput: real) returns (utilisation: real)
      requires Valid()
      ensures utilisation == Utilisation(Data(), throughput)
    {
      utilisation := visits * throughput * serviceTime;
    }

    method WeightByVisits(responseTime: real) returns (demand: real)
      requires Valid()
      ensures demand == PerCycle(Data(), responseTime)
    {
      demand := responseTime * visits;
    }
  }

  lemma ResponseAt(net: seq<Station>, qs: seq<StableState>, n: nat, population: nat, round: Rounding, m: nat)
    requires n >= 1 && AllReady(net, qs, n - 1, population) && KeepsSign(round) && m < |net|
    ensures AllResponded(net, qs, n, population, round)[m] == qs[m].(responseTime := Response(net[m], qs[m], n, round))
    ensures Ready(net[m], qs[m], n - 1)
  {
  }

  lemma CycleDemandAt(net: seq<Station>, qs: seq<StableState>, m: nat)
    requires m < |net| == |qs|
    ensures CycleDemands(net, qs)[m] == PerCycle(net[m], qs[m].responseTime)
  {
  }

  lemma UpdateAt(net: seq<Station>, qs: seq<StableState>, x: real, n: nat, population: nat, round: Rounding, m: nat)
    requires 1 <= n <= population && AllReady(net, qs, n - 1, population) && KeepsSign(round) && m < |net|
    ensures Ready(net[m], qs[m], n - 1) && (net[m].kind.LoadDependent? ==> n < |qs[m].p|)
    ensures AllUpdated(net, qs, x, n, population, round)[m] == Updated(net[m], qs[m], x, n, round)
  {
  }

  /** The first m stations have got as far as target says, the others are where they started. */
  ghost predicate PartlyDone(now: seq<StableState>, target: seq<StableState>, start: seq<StableState>, m: nat) {
    && m <= |now| == |target| == |start|
    && (forall k :: 0 <= k < m ==> now[k] == target[k])
    && (forall k :: m <= k < |now| ==> now[k] == start[k])
  }

  lemma AllDone(now: seq<StableState>, target: seq<StableState>, start: seq<StableState>)
    requires PartlyDone(now, target, start, |now|)
    ensures now == target
  {
  }

  class StableAnalyzer {
    var queues: seq<StableQueue>

    constructor (queues: seq<StableQueue>)
      ensures this.queues == queues
    {
      this.queues := queues;
    }

    ghost predicate Valid()
      reads this, queues
    {
      && (forall m :: 0 <= m < |queues| ==> queues[m].Valid())
      && (forall a, b :: 0 <= a < b < |queues| ==> queues[a] != queues[b] && queues[a].P != queues[b].P)
    }

    ghost function Net(): (net: seq<Station>)
      requires Valid()
      reads this, queues
      ensures |net| == |queues|
    {
      seq(|queues|, m requires 0 <= m < |queues| && queues[m].Valid() reads this, queues => queues[m].Data())
    }

    ghost function Arrays(): set<object>
      reads this, queues
    {
      set m | 0 <= m < |queues| :: queues[m].P
    }

    ghost function States(): (qs: seq<StableState>)
      reads this, queues, Arrays()
      ensures |qs| == |queues|
    {
      seq(|queues|, m requires 0 <= m < |queues| reads this, queues, Arrays() => queues[m].State())
    }

    /** One station responds; its part of the cycle. */
    method RespondOne(m: nat, i: nat, round: Rounding) returns (demand: real)
      requires Valid() && m < |queues| && i >= 1 && KeepsSign(round)
      requires Ready(Net()[m], States()[m], i - 1)
      modifies queues[m]
      ensures Valid() && Net() == old(Net())
      ensures States() == old(States())[m := old(States())[m].(
                responseTime := Response(Net()[m], old(States())[m], i, round))]
      ensures demand == PerCycle(Net()[m], States()[m].responseTime)
    {
      hide Response, PerCycle, Ready, KeepsSign;
      ghost var before := States();
      var responseTime := queues[m].UpdateResponseTime(i, round);
      demand := queues[m].WeightByVisits(responseTime);
      ghost var after := before[m := queues[m].State()];
      forall k | 0 <= k < |queues| ensures States()[k] == after[k] {}
    }

    method UpdateOne(m: nat, throughput: real, i: nat, round: Rounding)
      requires Valid() && m < |queues| && i >= 1 && KeepsSign(round) && throughput > 0.0
      requires Ready(Net()[m], States()[m], i - 1) && (Net()[m].kind.LoadDependent? ==> i < |States()[m].p|)
      modifies queues[m], queues[m].P
      ensures Valid() && Net() == old(Net())
      ensures States() == old(States())[m := Updated(Net()[m], old(States())[m], throughput, i, round)]
    {
      hide Updated, Ready, KeepsSign;
      ghost var before := States();
      queues[m].UpdateQueueLength(throughput, i, round);
      ghost var after := before[m := queues[m].State()];
      forall k | 0 <= k < |queues| ensures States()[k] == after[k] {}
    }

    method UpdateResponseTimes(i: nat, ghost population: nat, round: Rounding) returns (total: real)
      requires Valid() && 1 <= i && AllReady(Net(), States(), i - 1, population) && KeepsSign(round)
      modifies queues
      ensures Valid() && Net() == old(Net()) && queues == old(queues)
      ensures States() == AllResponded(Net(), old(States()), i, population, round)
      ensures total == Sum(CycleDemands(Net(), States()))
    {
      hide Response, PerCycle, Sum, AllReady, AllResponded, CycleDemands, Ready, KeepsSign, Net, States;
      total := 0.0;
      ghost var net, start := Net(), States();
      ghost var target := AllResponded(net, start, i, population, round);
      ghost var demands := CycleDemands(net, target);
      SumNone(demands);
      for m := 0 to |queues|
        invariant Valid() && Net() == net && queues == old(queues)
        invariant PartlyDone(States(), target, start, m)
        invariant total == Sum(demands[..m])
      {
        ResponseAt(net, start, i, population, round, m);
        CycleDemandAt(net, target, m);
        SumStep(demands, m);
        var demand := RespondOne(m, i, round);
        total := total + demand;
      }
      assert demands[..|queues|] == demands;
      AllDone(States(), target, start);
    }

    method UpdateQueueLengths(throughput: real, i: nat, ghost population: nat, round: Rounding)
      requires Valid() && 1 <= i <= population && AllReady(Net(), States(), i - 1, population) && KeepsSign(round)
      requires throughput > 0.0
      modifies queues, Arrays()
      ensures Valid() && Net() == old(Net()) && queues == old(queues)
      ensures States() == AllUpdated(Net(), old(States()), throughput, i, population, round)
    {
      hide Updated, Sum, AllReady, AllUpdated, Ready, KeepsSign, Net, States;
      ghost var net, start := Net(), States();
      ghost var target := AllUpdated(net, start, throughput, i, population, round);
      for m := 0 to |queues|
        invariant Valid() && Net() == net && queues == old(queues)
        invariant PartlyDone(States(), target, start, m)
      {
        UpdateAt(net, start, throughput, i, population, round, m);
        UpdateOne(m, throughput, i, round);
      }
      AllDone(States(), target, start);
    }

    /** One round of the population loop. */
    method Iterate(i: nat, thinkTime: real, ghost population: nat, round: Rounding)
      returns (responseTimeTotal: real, throughput: real)
      requires Valid() && 1 <= i <= population && AllReady(Net(), States(), i - 1, population)
      requires KeepsSign(round) && Solvable(Net(), thinkTime)
      modifies queues, Arrays()
      ensures Valid() && Net() == old(Net()) && queues == old(queues)
      ensures States() == StableIteration(Net(), thinkTime, old(States()), i, population, round)
      ensures var r := AllResponded(Net(), old(States()), i, population, round);
        Positive(r) && responseTimeTotal == Sum(CycleDemands(Net(), r))
        && throughput == StableThroughput(Net(), thinkTime, r, i, round)
    {
      hide Sum, AllReady, KeepsSign, Solvable, CycleDemands;
      ghost var net, start := Net(), States();
      RespondedReady(net, start, i, population, round);
      responseTimeTotal := UpdateResponseTimes(i, population, round);
      DemandsPositive(net, States(), thinkTime);
      ThroughputPositive(net, thinkTime, States(), i, round);
      throughput := round(i as real / (thinkTime + responseTimeTotal));
      UpdateQueueLengths(throughput, i, population, round);
    }

    /**
     The printed number is the response time, or a thousand times the throughput, of the last round; the
     bottleneck, if asked for, is the one at that throughput.
     */
    method CalculateNetwork(n: nat, thinkTime: real, printBottleneck: bool, printResponseTime: bool, round: Rounding)
      returns (printed: seq<real>, bottleneck: Option<nat>)
      requires Valid() && AllReady(Net(), States(), 0, n) && KeepsSign(round) && Solvable(Net(), thinkTime)
      modifies queues, Arrays()
      ensures Valid() && Net() == old(Net()) && queues == old(queues)
      ensures States() == StableRun(Net(), thinkTime, old(States()), n, n, round)
      ensures printed == if n == 0 then []
                         else [StablePrinted(Net(), thinkTime, old(States()), n, printResponseTime, round)]
      ensures if printBottleneck && n > 0
              then IsBottleneck(Net(), LastThroughput(Net(), thinkTime, old(States()), n, round), bottleneck)
              else bottleneck == None
    {
      hide AllReady, KeepsSign, Solvable, StableIteration, Sum, CycleDemands, StableThroughput, IsBottleneck;
      printed, bottleneck := [], None;
      ghost var net, start := Net(), States();
      for i := 1 to n + 1
        invariant Valid() && Net() == net && queues == old(queues)
        invariant AllReady(net, start, 0, n)
        invariant States() == StableRun(net, thinkTime, start, i - 1, n, round)
        invariant printed == if i == n + 1 && n > 0
                             then [StablePrinted(net, thinkTime, start, n, printResponseTime, round)] else []
        invariant if i == n + 1 && n > 0 && printBottleneck
                  then IsBottleneck(net, LastThroughput(net, thinkTime, start, n, round), bottleneck)
                  else bottleneck == None
      {
        var responseTimeTotal, throughput := Iterate(i, thinkTime, n, round);
        if i == n {
          if printResponseTime {
            printed := printed + [responseTimeTotal];
          } else {
            printed := printed + [throughput * 1000.0];
          }
        }
        if printBottleneck && i == n {
          bottleneck := CalcBottleneck(throughput);
        }
      }
    }

    /** None where the source fails for want of a station. */
    method CalcBottleneck(throughput: real) returns (bottleneck: Option<nat>)
      requires Valid()
      ensures IsBottleneck(Net(), throughput, bottleneck)
    {
      hide IsBottleneck, Utilisation;
      bottleneck := None;
      var best := 0.0;
      NoBottleneckYet(Net(), throughput);
      for i := 0 to |queues|
        invariant IsBottleneck(Net()[..i], throughput, bottleneck)
        invariant best == Best(Net(), throughput, bottleneck)
      {
        BottleneckStep(Net(), throughput, bottleneck, i);
        var utilisation := queues[i].Utilise(throughput);
        if utilisation > best {
          bottleneck, best := Some(i), utilisation;
        }
      }
      assert Net()[..|queues|] == Net();
    }
  }

  /** The throughput of the last round. */
  ghost function LastThroughput(net: seq<Station>, z: real, qs: seq<StableState>, n: nat, round: Rounding): real
    requires n >= 1 && AllReady(net, qs, 0, n) && KeepsSign(round) && Solvable(net, z)
  {
    var before := StableRun(net, z, qs, n - 1, n, round);
    RespondedReady(net, before, n, n, round);
    StableThroughput(net, z, AllResponded(net, before, n, n, round), n, round)
  }

  /** What is printed for n clients. */
  ghost function StablePrinted(net: seq<Station>, z: real, qs: seq<StableState>, n: nat, printResponseTime: bool,
                               round: Rounding): real
    requires n >= 1 && AllReady(net, qs, 0, n) && KeepsSign(round) && Solvable(net, z)
  {
    var before := StableRun(net, z, qs, n - 1, n, round);
    RespondedReady(net, before, n, n, round);
    var r := AllResponded(net, before, n, n, round);
    if printResponseTime then Sum(CycleDemands(net, r)) else LastThroughput(net, z, qs, n, round) * 1000.0
  }

  /** The stations keep the response times of the last round; both numbers follow from these, whatever the rounding. */
  lemma PrintedFromStations(net: seq<Station>, z: real, qs: seq<StableState>, n: nat, printResponseTime: bool,
                            round: Rounding)
    requires n >= 1 && AllReady(net, qs, 0, n) && KeepsSign(round) && Solvable(net, z)
    ensures var r := Sum(CycleDemands(net, StableRun(net, z, qs, n, n, round)));
      && z + r > 0.0
      && LastThroughput(net, z, qs, n, round) == round(n as real / (z + r))
      && StablePrinted(net, z, qs, n, printResponseTime, round)
         == if printResponseTime then r else 1000.0 * round(n as real / (z + r))
  {
    hide Sum, Response, Updated, Ready, KeepsSign, Solvable;
    var before := StableRun(net, z, qs, n - 1, n, round);
    RespondedReady(net, before, n, n, round);
    var responded := AllResponded(net, before, n, n, round);
    DemandsPositive(net, responded, z);
    assert CycleDemands(net, StableRun(net, z, qs, n, n, round)) == CycleDemands(net, responded);
  }

  /** Without rounding it is the number of the first solver. */
  lemma PrintsSame(net: seq<Station>, z: real, qs: seq<StableState>, ss: seq<QueueState>, n: nat,
                   printResponseTime: bool, round: Rounding)
    requires n >= 1 && KeepsSign(round) && Exact(round) && Solvable(net, z) && AllMirror(net, qs, ss, 0, n)
    ensures LastThroughput(net, z, qs, n, round) == RunThroughput(net, z, ss, n)
    ensures Numbered(RunThroughput(net, z, ss, n), z, n as real, printResponseTime,
                     StablePrinted(net, z, qs, n, printResponseTime, round))
  {
    hide Sum, Mirrors, Response, Ready, KeepsSign, Solvable, StableIteration, Iteration;
    RunMirrors(net, z, qs, ss, n - 1, n, round);
    var before := StableRun(net, z, qs, n - 1, n, round);
    RespondedReady(net, before, n, n, round);
    RespondedMirrors(net, before, Run(net, z, ss, n - 1), n, n, round);
    DemandsPositive(net, AllResponded(net, before, n, n, round), z);
  }
}
