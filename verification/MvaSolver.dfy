/** The solver as the program runs it: stations updated in place by a loop over the population. */
module MvaSolver {
  import opened RealSums
  import opened MvaModel
  import opened Wrappers
  import MvaInvariants
  import MvaProductForm

  lemma ResponseTermAt(st: Station, p: seq<real>, n: nat, i: nat)
    requires 1 <= i <= n <= |p|
    ensures ResponseTerms(st, p, n)[i - 1] == p[i - 1] * i as real / Mu(st, i)
  {
  }

  lemma TailEntryAt(st: Station, p: seq<real>, x: real, n: nat, j: nat)
    requires 1 <= j <= n < |p|
    ensures UpdatedTail(st, p, x, n)[j - 1] == ClampAtZero(x / Mu(st, j) * p[j - 1])
  {
  }

  class Queue {
    const serviceTime: real
    const visits: real
    const kind: QueueType
    const numberOfServices: nat
    var responseTime: real
    var queueLength: real
    const P: array<real>

    ghost predicate Valid() {
      serviceTime > 0.0 && visits > 0.0 && numberOfServices >= 1
    }

    ghost function Data(): Station
      requires Valid()
    {
      Station(kind, serviceTime, visits, numberOfServices)
    }

    ghost function State(): QueueState
      reads this, P
    {
      QueueState(P[..], responseTime, queueLength)
    }

    constructor (serviceTime: real, visits: real, kind: QueueType, numberOfServices: nat, size: nat)
      requires serviceTime > 0.0 && visits > 0.0 && numberOfServices >= 1 && size >= 1
      ensures Valid() && Data() == Station(kind, serviceTime, visits, numberOfServices)
      ensures State() == FreshQueue(Data(), size) && fresh(P)
    {
      this.serviceTime, this.visits, this.kind := serviceTime, visits, kind;
      this.numberOfServices := numberOfServices;
      responseTime, queueLength := serviceTime, 0.0;
      P := new real[size](i => 0.0);
      new;
      P[0] := 1.0;
    }

    method GetMu(i: nat) returns (mu: real)
      requires Valid() && i >= 1
      ensures mu == Mu(Data(), i)
    {
      if i < numberOfServices {
        mu := i as real / serviceTime;
      } else {
        mu := numberOfServices as real / serviceTime;
      }
    }

    method UpdateResponseTime(n: nat) returns (r: real)
      requires Valid() && (kind.LoadDependent? ==> n <= P.Length)
      modifies this`responseTime
      ensures State() == old(State()).(responseTime := ResponseTime(Data(), old(State()), n))
      ensures r == responseTime
    {
      hide Mu, ResponseTerms, Sum;
      if kind.FixedCapacity? {
        responseTime := serviceTime * (1.0 + queueLength);
      } else if kind.LoadDependent? {
        var sum := 0.0;
        ghost var terms := ResponseTerms(Data(), P[..], n);
        SumNone(terms);
        for i := 1 to n + 1
          invariant sum == Sum(terms[..i - 1])
        {
          var mu := GetMu(i);
          SumStep(terms, i - 1);
          ResponseTermAt(Data(), P[..], n, i);
          sum := sum + P[i - 1] * i as real / mu;
        }
        assert terms[..n] == terms;
        responseTime := sum;
      }
      r := responseTime;
    }

    method Utilise(throughput: real) returns (utilisation: real)
      requires Valid()
      ensures utilisation == Utilisation(Data(), throughput)
    {
      utilisation := visits * throughput * serviceTime;
    }

    method WeightByVisits(responseTime: real) returns (demand: real)
      requires Valid()
      ensures demand == PerCycle(Data(), responseTime)
    {
      demand := responseTime * visits;
    }

    /** The descending loop reads only entries it has not overwritten yet. */
    method ShiftProbabilities(throughput: real, n: nat)
      requires Valid() && n < P.Length
      modifies P
      ensures P[..] == old([P[0]] + UpdatedTail(Data(), P[..], throughput, n) + P[n + 1..])
    {
      hide Mu, UpdatedTail;
      ghost var before := P[..];
      ghost var tail := UpdatedTail(Data(), before, throughput, n);
      for j := n downto 0
        invariant forall k :: 0 <= k <= j ==> P[k] == before[k]
        invariant forall k :: j < k <= n ==> P[k] == tail[k - 1]
        invariant forall k :: n < k < P.Length ==> P[k] == before[k]
      {
        var mu := GetMu(j + 1);
        TailEntryAt(Data(), before, throughput, n, j + 1);
        P[j + 1] := (throughput / mu) * P[j];
        if P[j + 1] < 0.0 {
          P[j + 1] := 0.0;
        }
      }
      assert P[..] == [before[0]] + tail + before[n + 1..];
    }

    method UpdateQueueLength(throughput: real, n: nat)
      requires Valid() && (kind.LoadDependent? ==> n < P.Length)
      modifies this`queueLength, P
      ensures State() == UpdatedQueue(Data(), old(State()), throughput, n)
    {
      hide Mu, RawEntry, UpdatedTail, Sum;
      if kind.LoadDependent? {
        ghost var before := P[..];
        ghost var tail := UpdatedTail(Data(), before, throughput, n);
        ShiftProbabilities(throughput, n);
        ghost var updated := P[..];
        var sum := 0.0;
        SumNone(tail);
        for j := 1 to n + 1
          invariant P[..] == updated && queueLength == old(queueLength)
          invariant sum == Sum(tail[..j - 1])
        {
          assert P[j] == updated[j] == tail[j - 1];
          SumStep(tail, j - 1);
          sum := sum + P[j];
        }
        assert tail[..n] == tail;
        assert P[0] == updated[0] == before[0];
        if P[0] > 0.0 {
          P[0] := 1.0 - sum;
          if P[0] < 0.0 {
            P[0] := 0.0;
          }
        }
        assert P[..] == [P[0]] + tail + before[n + 1..];
      } else {
        queueLength := throughput * visits * responseTime;
      }
    }
  }

  lemma RespondedAt(net: seq<Station>, qs: seq<QueueState>, n: nat, m: nat)
    requires Roomy(net, qs, n) && m < |net|
    ensures Responded(net, qs, n)[m] == qs[m].(responseTime := ResponseTime(net[m], qs[m], n))
  {
  }

  lemma DemandAt(net: seq<Station>, qs: seq<QueueState>, m: nat)
    requires m < |net| == |qs|
    ensures Demands(net, qs)[m] == PerCycle(net[m], qs[m].responseTime)
  {
  }

  lemma UpdatedAt(net: seq<Station>, qs: seq<QueueState>, x: real, n: nat, m: nat)
    requires Roomy(net, qs, n) && m < |net|
    ensures net[m].kind.LoadDependent? ==> n < |qs[m].p|
    ensures UpdatedAll(net, qs, x, n)[m] == UpdatedQueue(net[m], qs[m], x, n)
  {
    hide UpdatedQueue;
  }

  lemma RunAt(net: seq<Station>, thinkTime: real, qs: seq<QueueState>, n: nat)
    requires n >= 1 && Roomy(net, qs, n)
    ensures Roomy(net, Run(net, thinkTime, qs, n - 1), n)
    ensures Run(net, thinkTime, qs, n) == Iteration(net, thinkTime, Run(net, thinkTime, qs, n - 1), n)
    ensures RunThroughput(net, thinkTime, qs, n) == Throughput(net, thinkTime, Run(net, thinkTime, qs, n - 1), n)
  {
    hide Iteration, Throughput;
  }

  lemma RunNone(net: seq<Station>, thinkTime: real, qs: seq<QueueState>)
    requires Roomy(net, qs, 0)
    ensures Run(net, thinkTime, qs, 0) == qs
  {
  }

  lemma FreshRoomy(net: seq<Station>, qs: seq<QueueState>, n: nat)
    requires Fresh(net, qs, n)
    ensures forall i: nat :: i <= n ==> Roomy(net, qs, i) && Fresh(net, qs, i)
  {
  }

  /** The number and, if asked for, the bottleneck of the last round. */
  ghost predicate Reported(net: seq<Station>, thinkTime: real, qs: seq<QueueState>, n: nat, printBottleneck: bool,
                           printResponseTime: bool, printed: seq<real>, bottleneck: Option<nat>)
    requires n >= 1 && Roomy(net, qs, n)
  {
    && |printed| == 1
    && Numbered(RunThroughput(net, thinkTime, qs, n), thinkTime, n as real, printResponseTime, printed[0])
    && if printBottleneck then IsBottleneck(net, RunThroughput(net, thinkTime, qs, n), bottleneck)
       else bottleneck == None
  }

  lemma CycleOfRun(net: seq<Station>, z: real, qs: seq<QueueState>, n: nat)
    requires n >= 1 && Solvable(net, z) && Fresh(net, qs, n)
    ensures Roomy(net, Run(net, z, qs, n - 1), n)
    ensures RunThroughput(net, z, qs, n) * (z + TotalResponse(net, Run(net, z, qs, n - 1), n)) == n as real
  {
    hide TotalResponse, MvaInvariants.Sane;
    MvaInvariants.RunStep(net, z, qs, n);
    MvaInvariants.CyclePositive(net, z, Run(net, z, qs, n - 1), n - 1);
  }

  /**
   What is printed, by the normalisation constants alone: with load-dependent visits of 1, the response time
   n G(n) / G(n-1) - Z, or 1000 G(n-1) / G(n).
   */
  lemma PrintedInProductForm(net: seq<Station>, z: real, qs: seq<QueueState>, k: nat, n: nat, printBottleneck: bool,
                             printResponseTime: bool, printed: seq<real>, bottleneck: Option<nat>)
    requires 1 <= n < k && MvaInvariants.UnitVisits(net) && Solvable(net, z) && Fresh(net, qs, n)
    requires Reported(net, z, qs, n, printBottleneck, printResponseTime, printed, bottleneck)
    ensures var g := MvaProductForm.Constants(net, z, k);
      && g[n] > 0.0 && g[n - 1] > 0.0
      && printed == [if printResponseTime then n as real * g[n] / g[n - 1] - z else 1000.0 * g[n - 1] / g[n]]
  {
    hide Numbered, IsBottleneck, MvaProductForm.Constants, RunThroughput, MvaInvariants.UnitVisits;
    var g, x := MvaProductForm.Constants(net, z, k), RunThroughput(net, z, qs, n);
    MvaProductForm.ThroughputInRun(net, z, qs, k, n);
    ThroughputPositive(net, z, qs, n);
    NumberOfQuotient(x, z, n as real, g[n - 1], g[n], printResponseTime, printed[0]);
  }

  lemma ThroughputPositive(net: seq<Station>, z: real, qs: seq<QueueState>, n: nat)
    requires n >= 1 && Solvable(net, z) && Fresh(net, qs, n)
    ensures RunThroughput(net, z, qs, n) > 0.0
  {
    MvaInvariants.RunStep(net, z, qs, n);
  }

  lemma NumberOfQuotient(x: real, z: real, n: real, below: real, here: real, printResponseTime: bool, r: real)
    requires x > 0.0 && here > 0.0 && x == below / here && Numbered(x, z, n, printResponseTime, r)
    ensures below > 0.0 && r == if printResponseTime then n * here / below - z else 1000.0 * below / here
  {
    assert x * here == below;
    if printResponseTime {
      assert (z + r) * below == (x * (z + r)) * here;
      assert n * here / below * below == n * here;
      assert (z + r - n * here / below) * below == 0.0;
    }
  }

  /** The first m stations have got as far as target says, the others are where they started. */
  ghost predicate PartlyDone(now: seq<QueueState>, target: seq<QueueState>, start: seq<QueueState>, m: nat) {
    && m <= |now| == |target| == |start|
    && (forall k :: 0 <= k < m ==> now[k] == target[k])
    && (forall k :: m <= k < |now| ==> now[k] == start[k])
  }

  lemma AllDone(now: seq<QueueState>, target: seq<QueueState>, start: seq<QueueState>)
    requires PartlyDone(now, target, start, |now|)
    ensures now == target
  {
  }

  class MeanValueAnalyzer {
    var queues: seq<Queue>

    constructor ()
      ensures queues == []
    {
      queues := [];
    }

    method AddQueue(queue: Queue)
      modifies this
      ensures queues == old(queues) + [queue]
    {
      queues := queues + [queue];
    }

    method ClearQueues()
      modifies this
      ensures queues == []
    {
      queues := [];
    }

    /** Stations are separate objects, each with its own array. */
    ghost predicate Valid()
      reads this, queues
    {
      && (forall m :: 0 <= m < |queues| ==> queues[m].Valid())
      && (forall a, b :: 0 <= a < b < |queues| ==> queues[a] != queues[b] && queues[a].P != queues[b].P)
    }

    ghost function Net(): (net: seq<Station>)
      requires Valid()
      reads this, queues
      ensures |net| == |queues|
    {
      seq(|queues|, m requires 0 <= m < |queues| && queues[m].Valid() reads this, queues => queues[m].Data())
    }

    ghost function Arrays(): set<object>
      reads this, queues
    {
      set m | 0 <= m < |queues| :: queues[m].P
    }

    ghost function States(): (qs: seq<QueueState>)
      reads this, queues, Arrays()
      ensures |qs| == |queues|
    {
      seq(|queues|, m requires 0 <= m < |queues| reads this, queues, Arrays() => queues[m].State())
    }

    lemma RoomyArrays(n: nat)
      requires Valid() && Roomy(Net(), States(), n)
      ensures forall m :: 0 <= m < |queues| && queues[m].kind.LoadDependent? ==> n < queues[m].P.Length
    {
      forall m | 0 <= m < |queues| && queues[m].kind.LoadDependent? ensures n < queues[m].P.Length {
        assert Net()[m].kind.LoadDependent? && |States()[m].p| == queues[m].P.Length;
      }
    }

    /** One station responds; its part of the cycle. */
    method RespondOne(m: nat, n: nat) returns (demand: real)
      requires Valid() && m < |queues| && (queues[m].kind.LoadDependent? ==> n <= queues[m].P.Length)
      modifies queues[m]
      ensures Valid() && Net() == old(Net())
      ensures States() == old(States())[m := old(States())[m].(
                responseTime := ResponseTime(Net()[m], old(States())[m], n))]
      ensures demand == PerCycle(Net()[m], States()[m].responseTime)
    {
      hide ResponseTime, PerCycle;
      ghost var before := States();
      var responseTime := queues[m].UpdateResponseTime(n);
      demand := queues[m].WeightByVisits(responseTime);
      ghost var after := before[m := queues[m].State()];
      forall k | 0 <= k < |queues| ensures States()[k] == after[k] {}
    }

    method UpdateOne(m: nat, throughput: real, n: nat)
      requires Valid() && m < |queues| && (queues[m].kind.LoadDependent? ==> n < queues[m].P.Length)
      modifies queues[m], queues[m].P
      ensures Valid() && Net() == old(Net())
      ensures States() == old(States())[m := UpdatedQueue(Net()[m], old(States())[m], throughput, n)]
    {
      hide UpdatedQueue;
      ghost var before := States();
      queues[m].UpdateQueueLength(throughput, n);
      ghost var after := before[m := queues[m].State()];
      forall k | 0 <= k < |queues| ensures States()[k] == after[k] {}
    }

    /** First half of an iteration: every station computes its response time. */
    method UpdateResponseTimes(n: nat) returns (total: real)
      requires Valid() && Roomy(Net(), States(), n)
      modifies queues
      ensures Valid() && Net() == old(Net())
      ensures States() == Responded(Net(), old(States()), n)
      ensures total == TotalResponse(Net(), old(States()), n)
    {
      hide ResponseTime, PerCycle, Sum, Roomy, Demands, Responded, Net, States;
      RoomyArrays(n);
      total := 0.0;
      ghost var net, start := Net(), States();
      ghost var target := Responded(net, start, n);
      ghost var demands := Demands(net, target);
      SumNone(demands);
      for m := 0 to |queues|
        invariant Valid() && Net() == net && queues == old(queues)
        invariant PartlyDone(States(), target, start, m)
        invariant total == Sum(demands[..m])
      {
        RespondedAt(net, start, n, m);
        DemandAt(net, target, m);
        SumStep(demands, m);
        var demand := RespondOne(m, n);
        total := total + demand;
      }
      assert demands[..|queues|] == demands;
      AllDone(States(), target, start);
    }

    /** Second half: every station takes over the throughput. */
    method UpdateQueueLengths(throughput: real, n: nat)
      requires Valid() && Roomy(Net(), States(), n)
      modifies queues, Arrays()
      ensures Valid() && Net() == old(Net())
      ensures States() == UpdatedAll(Net(), old(States()), throughput, n)
    {
      hide UpdatedQueue, Roomy, Net, States;
      RoomyArrays(n);
      ghost var net, start := Net(), States();
      ghost var target := UpdatedAll(net, start, throughput, n);
      for m := 0 to |queues|
        invariant Valid() && Net() == net && queues == old(queues)
        invariant PartlyDone(States(), target, start, m)
      {
        UpdatedAt(net, start, throughput, n, m);
        UpdateOne(m, throughput, n);
      }
      AllDone(States(), target, start);
    }

    /** One round of the population loop. */
    method Iterate(i: nat, thinkTime: real) returns (responseTimeTotal: real, throughput: real)
      requires Valid() && i >= 1 && Solvable(Net(), thinkTime)
      requires MvaInvariants.AllSane(Net(), States(), i - 1) && Roomy(Net(), States(), i)
      modifies queues, Arrays()
      ensures Valid() && Net() == old(Net())
      ensures States() == Iteration(Net(), thinkTime, old(States()), i)
      ensures responseTimeTotal == TotalResponse(Net(), old(States()), i)
      ensures throughput == Throughput(Net(), thinkTime, old(States()), i)
    {
      hide Sum, MvaInvariants.Sane, ResponseTime, UpdatedQueue, TotalResponse;
      MvaInvariants.CyclePositive(Net(), thinkTime, States(), i - 1);
      responseTimeTotal := UpdateResponseTimes(i);
      throughput := i as real / (thinkTime + responseTimeTotal);
      UpdateQueueLengths(throughput, i);
    }

    /**
     The printed number is the response time or a thousand times the throughput of the last iteration; the
     bottleneck, if asked for, is the one at that throughput.
     */
    method CalculateNetwork(n: nat, thinkTime: real, printBottleneck: bool, printResponseTime: bool)
      returns (printed: seq<real>, bottleneck: Option<nat>)
      requires Valid() && Solvable(Net(), thinkTime) && Fresh(Net(), States(), n)
      modifies queues, Arrays()
      ensures Valid() && Net() == old(Net())
      ensures States() == Run(Net(), thinkTime, old(States()), n)
      ensures if n > 0
              then Reported(Net(), thinkTime, old(States()), n, printBottleneck, printResponseTime, printed, bottleneck)
              else printed == [] && bottleneck == None
    {
      hide Iteration, MvaInvariants.AllSane, Throughput, TotalResponse, Run, Reported, FreshQueue, RunThroughput;
      hide Fresh, Roomy, Solvable;
      printed, bottleneck := [], None;
      ghost var net, start := Net(), States();
      FreshRoomy(net, start, n);
      RunNone(net, thinkTime, start);
      for i := 1 to n + 1
        invariant Valid() && Net() == net && queues == old(queues) && Fresh(net, start, n)
        invariant States() == Run(net, thinkTime, start, i - 1)
        invariant if i == n + 1 && n > 0
                  then Reported(net, thinkTime, start, n, printBottleneck, printResponseTime, printed, bottleneck)
                  else printed == [] && bottleneck == None
      {
        MvaInvariants.RunKeepsDistributions(net, thinkTime, start, i - 1);
        RunAt(net, thinkTime, start, i);
        CycleOfRun(net, thinkTime, start, i);
        var responseTimeTotal, throughput := Iterate(i, thinkTime);
        if i == n {
          printed, bottleneck :=
            Report(n, thinkTime, printBottleneck, printResponseTime, responseTimeTotal, throughput, start);
        }
      }
    }

    /** What the last round prints. */
    method Report(n: nat, thinkTime: real, printBottleneck: bool, printResponseTime: bool, responseTimeTotal: real,
                  throughput: real, ghost start: seq<QueueState>)
      returns (printed: seq<real>, bottleneck: Option<nat>)
      requires Valid() && n >= 1 && Roomy(Net(), start, n)
      requires throughput == RunThroughput(Net(), thinkTime, start, n)
      requires throughput * (thinkTime + responseTimeTotal) == n as real
      ensures Reported(Net(), thinkTime, start, n, printBottleneck, printResponseTime, printed, bottleneck)
    {
      hide TotalResponse, Run, RunThroughput, IsBottleneck, Net;
      if printResponseTime {
        printed := [responseTimeTotal];
      } else {
        printed := [throughput * 1000.0];
      }
      bottleneck := None;
      if printBottleneck {
        bottleneck := CalcBottleneck(throughput);
      }
    }

    /** None where the source fails for want of a station. */
    method CalcBottleneck(throughput: real) returns (bottleneck: Option<nat>)
      requires Valid()
      ensures IsBottleneck(Net(), throughput, bottleneck)
    {
      hide IsBottleneck, Utilisation;
      bottleneck := None;
      var best := 0.0;
      NoBottleneckYet(Net(), throughput);
      for i := 0 to |queues|
        invariant IsBottleneck(Net()[..i], throughput, bottleneck)
        invariant best == Best(Net(), throughput, bottleneck)
      {
        BottleneckStep(Net(), throughput, bottleneck, i);
        var utilisation := queues[i].Utilise(throughput);
        if utilisation > best {
          bottleneck, best := Some(i), utilisation;
        }
      }
      assert Net()[..|queues|] == Net();
    }
  }
}
