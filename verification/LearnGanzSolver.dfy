/** The loops of the third solver, on one array of state probabilities per queue. */
module LearnGanzSolver {
  import opened RealSums
  import opened LearnGanz

  lemma RateTermAt(queue: GanzQueue, p: seq<real>, n: nat, div: Division, j: nat)
    requires 1 <= j <= n <= |p|
    ensures RateTerms(queue, p, n, div)[j - 1] == div(Times(p[j - 1], j as real), ServiceRate(queue, j, div))
  {
    hide Times;
  }

  lemma TailTermAt(queue: GanzQueue, p: seq<real>, x: real, n: nat, div: Division, j: nat)
    requires 1 <= j <= n <= |p|
    ensures ShiftedTail(queue, p, x, n, div)[j - 1] == div(Times(x, p[j - 1]), ServiceRate(queue, j, div))
  {
    hide Times;
  }

  method CalculateResponseTime(queue: GanzQueue, q: real, pJ: array<real>, n: nat, div: Division) returns (r: real)
    requires n <= pJ.Length
    ensures r == QueueResponse(queue, q, pJ[..], n, div)
  {
    hide RateTerms, Sum, ServiceRate, Times;
    if queue.kind.FixedCapacity? {
      r := queue.s * (1.0 + q);
    } else if queue.kind.LoadDependent? {
      r := 0.0;
      ghost var terms := RateTerms(queue, pJ[..], n, div);
      SumNone(terms);
      for j := 1 to n + 1
        invariant r == Sum(terms[..j - 1])
      {
        RateTermAt(queue, pJ[..], n, div, j);
        SumStep(terms, j - 1);
        r := r + div(Times(pJ[j - 1], j as real), ServiceRate(queue, j, div));
      }
      assert terms[..n] == terms;
    } else {
      r := queue.s;
    }
  }

  /** Descending in place, so that entry j is computed from the old entry j-1. */
  method UpdateProbabilities(queue: GanzQueue, pJ: array<real>, x: real, n: nat, div: Division)
    requires n < pJ.Length
    modifies pJ
    ensures pJ[..] == NextP(queue, old(pJ[..]), x, n, div)
  {
    hide ShiftedTail, Sum, ServiceRate, Times;
    ghost var before := pJ[..];
    ghost var tail := ShiftedTail(queue, before, x, n, div);
    for j := n downto 0
      invariant forall k :: 0 <= k <= j ==> pJ[k] == before[k]
      invariant forall k :: j < k <= n ==> pJ[k] == tail[k - 1]
      invariant forall k :: n < k < pJ.Length ==> pJ[k] == before[k]
    {
      TailTermAt(queue, before, x, n, div, j + 1);
      pJ[j + 1] := div(Times(x, pJ[j]), ServiceRate(queue, j + 1, div));
    }
    ghost var rest := tail + before[n + 1..];
    ghost var updated := pJ[..];
    assert updated[1..] == rest;
    var newP0 := 1.0;
    SumNone(rest);
    for j := 1 to pJ.Length
      invariant pJ[..] == updated
      invariant newP0 == 1.0 - Sum(rest[..j - 1])
    {
      assert pJ[j] == updated[1..][j - 1] == rest[j - 1];
      SumStep(rest, j - 1);
      newP0 := newP0 - pJ[j];
    }
    assert rest[..pJ.Length - 1] == rest;
    pJ[0] := newP0;
    assert pJ[..] == [newP0] + rest;
  }

  ghost predicate Separate(p: seq<array<real>>) {
    forall a, b :: 0 <= a < b < |p| ==> p[a] != p[b]
  }

  ghost function Contents(p: seq<array<real>>): (r: seq<seq<real>>)
    reads p
    ensures |r| == |p|
  {
    seq(|p|, i requires 0 <= i < |p| reads p => p[i][..])
  }

  method InitializeMVA(queues: seq<GanzQueue>, population: nat) returns (q: array<real>, p: seq<array<real>>)
    ensures fresh(q) && fresh(p) && Separate(p) && q !in p && q.Length == |p| == |queues|
    ensures GanzState(q[..], Contents(p)) == GanzStart(queues, population)
  {
    q := new real[|queues|];
    p := [];
    for i := 0 to |queues|
      invariant |p| == i && fresh(p) && Separate(p) && q !in p
      invariant forall k :: 0 <= k < i ==> q[k] == 0.0 && p[k][..] == StartP(population)
    {
      q[i] := 0.0;
      var list := new real[population + 1](j => 0.0);
      list[0] := 1.0;
      assert list[..] == StartP(population);
      p := p + [list];
    }
    assert q[..] == GanzStart(queues, population).q;
  }

  lemma ResidenceAt(visits: seq<int>, r: seq<real>, i: nat)
    requires i < |visits| == |r|
    ensures Residences(visits, r)[i] == Times(r[i], visits[i] as real)
  {
  }

  /** Response times of all queues and the throughput they give. */
  method Respond(queues: seq<GanzQueue>, visits: seq<int>, thinkTime: int, q: array<real>, p: seq<array<real>>,
                 n: nat, ghost population: nat, div: Division) returns (responseTimes: seq<real>, x: real)
    requires n <= population && Shaped(queues, visits, GanzState(q[..], Contents(p)), population)
    ensures responseTimes == Responses(queues, visits, GanzState(q[..], Contents(p)), n, population, div)
    ensures x == GanzThroughput(queues, visits, thinkTime, GanzState(q[..], Contents(p)), n, population, div)
  {
    hide QueueResponse, Residences, Sum, Times;
    ghost var st := GanzState(q[..], Contents(p));
    responseTimes := [];
    for i := 0 to |queues|
      invariant responseTimes == Responses(queues, visits, st, n, population, div)[..i]
    {
      assert st.p[i] == p[i][..] && st.q[i] == q[i];
      var r := CalculateResponseTime(queues[i], q[i], p[i], n, div);
      responseTimes := responseTimes + [r];
    }
    ghost var demands := Residences(visits, responseTimes);
    var rTotal := 0.0;
    SumNone(demands);
    for i := 0 to |queues|
      invariant rTotal == Sum(demands[..i])
    {
      ResidenceAt(visits, responseTimes, i);
      SumStep(demands, i);
      rTotal := rTotal + Times(responseTimes[i], visits[i] as real);
    }
    assert demands[..|queues|] == demands;
    x := div(n as real, thinkTime as real + rTotal);
  }

  /** Queue lengths and state probabilities of all queues for the new throughput. */
  method UpdateQueues(queues: seq<GanzQueue>, visits: seq<int>, thinkTime: int, q: array<real>, p: seq<array<real>>,
                      responseTimes: seq<real>, x: real, n: nat, ghost population: nat, div: Division)
    requires n <= population && Separate(p) && Shaped(queues, visits, GanzState(q[..], Contents(p)), population)
    requires q !in p
    requires responseTimes == Responses(queues, visits, GanzState(q[..], Contents(p)), n, population, div)
    requires x == GanzThroughput(queues, visits, thinkTime, GanzState(q[..], Contents(p)), n, population, div)
    modifies q, p
    ensures GanzState(q[..], Contents(p))
         == GanzIteration(queues, visits, thinkTime, old(GanzState(q[..], Contents(p))), n, population, div)
  {
    hide NextP, GanzThroughput, Responses, MeanQueue;
    ghost var st := GanzState(q[..], Contents(p));
    ghost var target := GanzIteration(queues, visits, thinkTime, st, n, population, div);
    for i := 0 to |queues|
      invariant forall k :: 0 <= k < i ==> q[k] == target.q[k] && p[k][..] == target.p[k]
      invariant forall k :: i <= k < |queues| ==> q[k] == st.q[k] && p[k][..] == st.p[k]
    {
      if queues[i].kind.LoadDependent? {
        UpdateProbabilities(queues[i], p[i], x, n, div);
      } else {
        q[i] := MeanQueue(x, visits[i], responseTimes[i]);
      }
    }
    assert q[..] == target.q;
  }

  /** After the last client the arrays hold the state of the specified run. */
  method PerformMVA(queues: seq<GanzQueue>, visits: seq<int>, thinkTime: int, population: nat, div: Division)
    returns (q: array<real>, p: seq<array<real>>)
    requires |visits| == |queues|
    ensures fresh(q) && fresh(p) && |p| == |queues|
    ensures GanzState(q[..], Contents(p)) == GanzRun(queues, visits, thinkTime, population, population, div)
    ensures forall i :: 0 <= i < |p| ==> Sum(p[i][..]) == 1.0
  {
    hide GanzIteration, Sum;
    q, p := InitializeMVA(queues, population);
    for n := 1 to population + 1
      invariant fresh(q) && fresh(p) && Separate(p) && q !in p
      invariant GanzState(q[..], Contents(p)) == GanzRun(queues, visits, thinkTime, n - 1, population, div)
    {
      var responseTimes, x := Respond(queues, visits, thinkTime, q, p, n, population, div);
      UpdateQueues(queues, visits, thinkTime, q, p, responseTimes, x, n, population, div);
    }
    forall i | 0 <= i < |p| ensures Sum(p[i][..]) == 1.0 {
      ProbabilitiesSumToOne(queues, visits, thinkTime, population, population, div, i);
      assert p[i][..] == Contents(p)[i];
    }
  }
}
