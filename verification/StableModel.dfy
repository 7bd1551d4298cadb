/**
 The decimal version of the first solver: state probabilities start out as null, and divisions round. Of the
 rounding only the sign is known; nothing here reads an entry that is null.
 */
module StableModel {
  import opened RealSums
  import opened MvaModel
  import MvaInvariants

  /** An array element that may be null. */
  datatype Cell = Null | Decimal(value: real)

  type Rounding = real -> real

  ghost predicate KeepsSign(round: Rounding) {
    forall x :: (x >= 0.0 ==> round(x) >= 0.0) && (x > 0.0 ==> round(x) > 0.0)
  }

  /** The entries below n, all of them present. */
  ghost function Values(p: seq<Cell>, n: nat): (r: seq<real>)
    requires n <= |p| && forall j :: 0 <= j < n ==> p[j].Decimal?
    ensures |r| == n
  {
    seq(n, i requires 0 <= i < n => p[i].value)
  }

  /** After n clients exactly the entries 0..n are present, and they are a distribution unless P[0] = 0. */
  ghost predicate Defined(p: seq<Cell>, n: nat) {
    && n < |p|
    && (forall j :: 0 <= j <= n ==> p[j].Decimal? && p[j].value >= 0.0)
    && (forall j :: n < j < |p| ==> p[j].Null?)
    && p[n].value > 0.0
    && (p[0].value > 0.0 ==> Sum(Values(p, n + 1)) == 1.0)
  }

  function RoundedMu(st: Station, j: nat, round: Rounding): real
    requires j >= 1
  {
    round(Mu(st, j))
  }

  /** Quotient of throughput and service rate, rounded twice. */
  function Ratio(st: Station, x: real, j: nat, round: Rounding): real
    requires j >= 1 && RoundedMu(st, j, round) != 0.0
  {
    round(x / RoundedMu(st, j, round))
  }

  /** The new entries 1..n that an update computes from the old entries 0..n-1. */
  ghost function RoundedTail(st: Station, p: seq<real>, x: real, n: nat, round: Rounding): (r: seq<real>)
    requires n <= |p| && KeepsSign(round)
    ensures |r| == n
  {
    seq(n, i requires 0 <= i < n => ClampAtZero(Times(Ratio(st, x, i + 1, round), p[i])))
  }

  /** Without rounding the update is the one of the first solver. */
  lemma ExactTail(st: Station, p: seq<real>, x: real, n: nat, round: Rounding)
    requires n <= |p| && KeepsSign(round) && Exact(round)
    ensures RoundedTail(st, p, x, n, round) == UpdatedTail(st, p, x, n)
  {
    var l, r := RoundedTail(st, p, x, n, round), UpdatedTail(st, p, x, n);
    forall i | 0 <= i < n ensures l[i] == r[i] {
      assert Ratio(st, x, i + 1, round) == x / Mu(st, i + 1);
    }
  }

  ghost predicate Exact(round: Rounding) {
    forall x :: round(x) == x
  }

  function Weighted(p: real, i: nat, mu: real, round: Rounding): real
    requires mu != 0.0
  {
    round(p * i as real / mu)
  }

  function RoundedTerm(st: Station, p: real, i: nat, round: Rounding): real
    requires i >= 1 && RoundedMu(st, i, round) != 0.0
  {
    Weighted(p, i, RoundedMu(st, i, round), round)
  }

  ghost function RoundedTerms(st: Station, p: seq<real>, n: nat, round: Rounding): (r: seq<real>)
    requires n <= |p| && KeepsSign(round)
    ensures |r| == n
  {
    seq(n, i requires 0 <= i < n => RoundedTerm(st, p[i], i + 1, round))
  }

  lemma ExactTerms(st: Station, p: seq<real>, n: nat, round: Rounding)
    requires n <= |p| && KeepsSign(round) && Exact(round)
    ensures RoundedTerms(st, p, n, round) == ResponseTerms(st, p, n)
  {
    hide RoundedTerm, Mu, Exact;
    var l, r := RoundedTerms(st, p, n, round), ResponseTerms(st, p, n);
    forall i | 0 <= i < n ensures l[i] == r[i] { ExactTerm(st, p[i], i + 1, round); }
  }

  lemma ExactTerm(st: Station, p: real, i: nat, round: Rounding)
    requires i >= 1 && KeepsSign(round) && Exact(round)
    ensures RoundedTerm(st, p, i, round) == p * i as real / Mu(st, i)
  {
  }

  /** Only service rates and the quotients by them are rounded: where these need no rounding, nothing changes. */
  lemma OnlyQuotientsAreRounded(st: Station, p: seq<real>, x: real, n: nat, round: Rounding)
    requires n <= |p| && KeepsSign(round)
    requires forall i :: 0 <= i < n ==> Unrounded(st, x, p[i], i + 1, round)
    ensures RoundedTail(st, p, x, n, round) == UpdatedTail(st, p, x, n)
    ensures RoundedTerms(st, p, n, round) == ResponseTerms(st, p, n)
  {
    hide Mu, Unrounded, RoundedTerm, Ratio;
    forall i | 0 <= i < n
      ensures RoundedTail(st, p, x, n, round)[i] == UpdatedTail(st, p, x, n)[i]
      ensures RoundedTerms(st, p, n, round)[i] == ResponseTerms(st, p, n)[i]
    {
      UnroundedAt(st, x, p[i], i + 1, round);
    }
  }

  /** The rate with j jobs and both quotients by it are already rounded. */
  ghost predicate Unrounded(st: Station, x: real, p: real, j: nat, round: Rounding)
    requires j >= 1
  {
    round(Mu(st, j)) == Mu(st, j) && round(x / Mu(st, j)) == x / Mu(st, j)
    && round(p * j as real / Mu(st, j)) == p * j as real / Mu(st, j)
  }

  lemma UnroundedAt(st: Station, x: real, p: real, j: nat, round: Rounding)
    requires j >= 1 && Unrounded(st, x, p, j, round)
    ensures RoundedMu(st, j, round) == Mu(st, j)
    ensures Ratio(st, x, j, round) == x / Mu(st, j) && RoundedTerm(st, p, j, round) == p * j as real / Mu(st, j)
  {
  }

  lemma RoundedTermSign(st: Station, p: real, i: nat, round: Rounding)
    requires i >= 1 && KeepsSign(round) && p >= 0.0
    ensures RoundedMu(st, i, round) > 0.0 && RoundedTerm(st, p, i, round) >= 0.0
    ensures p > 0.0 ==> RoundedTerm(st, p, i, round) > 0.0
  {
    MvaInvariants.ProductSign(i as real, p);
    MvaInvariants.QuotientSign(p * i as real, RoundedMu(st, i, round));
  }

  /** The new head: the probability that the tail leaves, unless the head has become 0 before. */
  ghost function RoundedHead(head: real, tail: seq<real>): real {
    if head > 0.0 then ClampAtZero(1.0 - Sum(tail)) else head
  }

  /** A tail of present entries, nulls above it and the remaining probability in front. */
  lemma DefinedFromTail(p: seq<Cell>, tail: seq<real>, n: nat)
    requires 1 <= n < |p| && |tail| == n && p[0].Decimal? && p[0].value >= 0.0
    requires forall j :: 1 <= j <= n ==> p[j] == Decimal(tail[j - 1])
    requires forall i :: 0 <= i < n ==> tail[i] >= 0.0
    requires tail[n - 1] > 0.0 && forall j :: n < j < |p| ==> p[j].Null?
    requires p[0].value > 0.0 ==> p[0].value == 1.0 - Sum(tail)
    ensures Defined(p, n) && Values(p, n + 1)[1..] == tail
  {
    var values := Values(p, n + 1);
    SumFront(values);
    assert values[1..] == tail;
  }

  lemma RoundedSign(st: Station, p: seq<real>, x: real, n: nat, i: nat, round: Rounding)
    requires i < n <= |p| && KeepsSign(round) && x > 0.0 && p[i] >= 0.0
    ensures RoundedTail(st, p, x, n, round)[i] == Times(Ratio(st, x, i + 1, round), p[i]) >= 0.0
    ensures p[i] > 0.0 ==> RoundedTail(st, p, x, n, round)[i] > 0.0
  {
    MvaInvariants.QuotientSign(x, RoundedMu(st, i + 1, round));
    MvaInvariants.ProductSign(Ratio(st, x, i + 1, round), p[i]);
  }

  /** Without rounding, a response time is the first solver's. */
  lemma MirrorResponse(st: Station, values: seq<real>, s: QueueState, n: nat, round: Rounding)
    requires KeepsSign(round) && Exact(round) && st.kind.LoadDependent?
    requires n <= |s.p| && values == s.p[..n]
    ensures Sum(RoundedTerms(st, values, n, round)) == ResponseTime(st, s, n)
  {
    hide RoundedTerms, ResponseTerms, KeepsSign, Exact, Sum;
    SameTerms(st, values, s.p, n, round);
    ExactTerms(st, s.p, n, round);
  }

  lemma SameTerms(st: Station, values: seq<real>, p: seq<real>, n: nat, round: Rounding)
    requires KeepsSign(round) && n <= |p| && values == p[..n]
    ensures RoundedTerms(st, values, n, round) == RoundedTerms(st, p, n, round)
  {
    hide RoundedTerm, KeepsSign;
    var l, r := RoundedTerms(st, values, n, round), RoundedTerms(st, p, n, round);
    forall i | 0 <= i < n ensures l[i] == r[i] {
      RoundedTermAt(st, values, n, i + 1, round);
      RoundedTermAt(st, p, n, i + 1, round);
      assert values[i] == p[i];
    }
  }

  lemma SameTail(st: Station, values: seq<real>, p: seq<real>, x: real, n: nat, round: Rounding)
    requires KeepsSign(round) && n <= |p| && values == p[..n]
    ensures RoundedTail(st, values, x, n, round) == RoundedTail(st, p, x, n, round)
  {
    hide Times, KeepsSign, RoundedTail;
    var l, r := RoundedTail(st, values, x, n, round), RoundedTail(st, p, x, n, round);
    forall i | 0 <= i < n ensures l[i] == r[i] {
      RoundedTailAt(st, values, x, n, i + 1, round);
      RoundedTailAt(st, p, x, n, i + 1, round);
      assert values[i] == p[i];
    }
  }

  /** Without rounding, the updated probabilities are the first solver's. */
  lemma MirrorUpdate(st: Station, values: seq<real>, p: seq<real>, x: real, n: nat, round: Rounding)
    requires KeepsSign(round) && Exact(round) && 1 <= n < |p| && values == p[..n]
    ensures var tail := RoundedTail(st, values, x, n, round);
      [RoundedHead(values[0], tail)] + tail == UpdatedP(st, p, x, n)[..n + 1]
  {
    hide RoundedTail, UpdatedTail, KeepsSign, Exact, Sum;
    SameTail(st, values, p, x, n, round);
    ExactTail(st, p, x, n, round);
  }

  lemma HeadSign(head: real, tail: seq<real>)
    requires head >= 0.0
    ensures RoundedHead(head, tail) >= 0.0
    ensures RoundedHead(head, tail) > 0.0 ==> RoundedHead(head, tail) == 1.0 - Sum(tail)
  {
  }

  lemma RoundedTermAt(st: Station, p: seq<real>, n: nat, i: nat, round: Rounding)
    requires 1 <= i <= n <= |p| && KeepsSign(round)
    ensures RoundedMu(st, i, round) > 0.0
    ensures RoundedTerms(st, p, n, round)[i - 1] == RoundedTerm(st, p[i - 1], i, round)
  {
    hide RoundedTerm;
  }

  lemma LengthSign(x: real, v: real, r: real)
    requires x > 0.0 && v > 0.0 && r > 0.0
    ensures x * v * r > 0.0
  {
    MvaInvariants.ProductSign(x, v);
    MvaInvariants.ProductSign(x * v, r);
  }

  lemma RoundedQuotient(a: real, b: real, round: Rounding)
    requires a >= 0.0 && b > 0.0 && KeepsSign(round)
    ensures round(a / b) >= 0.0
    ensures a > 0.0 ==> round(a / b) > 0.0
  {
    MvaInvariants.QuotientSign(a, b);
  }

  lemma RoundedTailAt(st: Station, p: seq<real>, x: real, n: nat, j: nat, round: Rounding)
    requires 1 <= j <= n <= |p| && KeepsSign(round)
    ensures RoundedMu(st, j, round) > 0.0
    ensures RoundedTail(st, p, x, n, round)[j - 1]
         == ClampAtZero(Times(round(x / RoundedMu(st, j, round)), p[j - 1]))
  {
    hide Times;
  }

  // ---- one station -----------------------------------------------------------------------------

  datatype StableState = StableState(p: seq<Cell>, responseTime: real, queueLength: real)

  /** What a station is after n clients. */
  ghost predicate Ready(st: Station, q: StableState, n: nat) {
    && q.queueLength >= 0.0
    && (st.kind.LoadDependent? ==> Defined(q.p, n))
    && (st.kind.DelayCenter? ==> q.responseTime == st.serviceTime)
  }

  ghost function Response(st: Station, q: StableState, n: nat, round: Rounding): real
    requires n >= 1 && Ready(st, q, n - 1) && KeepsSign(round)
  {
    match st.kind
    case FixedCapacity => st.serviceTime * (1.0 + q.queueLength)
    case LoadDependent => Sum(RoundedTerms(st, Values(q.p, n), n, round))
    case DelayCenter => q.responseTime
  }

  ghost function Decimals(s: seq<real>): (r: seq<Cell>)
    ensures |r| == |s|
  {
    seq(|s|, i requires 0 <= i < |s| => Decimal(s[i]))
  }

  /** Entries 1..n from the old entries 0..n-1, the rest in front, nulls above. */
  ghost function Updated(st: Station, q: StableState, x: real, n: nat, round: Rounding): (r: StableState)
    requires n >= 1 && Ready(st, q, n - 1) && KeepsSign(round) && (st.kind.LoadDependent? ==> n < |q.p|)
    ensures |r.p| == |q.p| && r.responseTime == q.responseTime
  {
    if st.kind.LoadDependent? then
      var tail := TailOf(st, q, x, n, round);
      q.(p := [Decimal(RoundedHead(q.p[0].value, tail))] + Decimals(tail) + q.p[n + 1..])
    else q.(queueLength := x * st.visits * q.responseTime)
  }

  ghost function TailOf(st: Station, q: StableState, x: real, n: nat, round: Rounding): (r: seq<real>)
    requires n >= 1 && Ready(st, q, n - 1) && KeepsSign(round) && st.kind.LoadDependent?
    ensures |r| == n
  {
    RoundedTail(st, Values(q.p, n), x, n, round)
  }

  lemma ResponsePositive(st: Station, q: StableState, n: nat, round: Rounding)
    requires n >= 1 && Ready(st, q, n - 1) && KeepsSign(round)
    ensures Response(st, q, n, round) > 0.0
  {
    hide Sum, RoundedTerm, RoundedMu, KeepsSign;
    match st.kind
    case FixedCapacity => MvaInvariants.ProductSign(st.serviceTime, 1.0 + q.queueLength);
    case DelayCenter =>
    case LoadDependent =>
      var values := Values(q.p, n);
      var terms := RoundedTerms(st, values, n, round);
      forall i | 0 <= i < n ensures terms[i] >= 0.0 && (i == n - 1 ==> terms[i] > 0.0) {
        RoundedTermAt(st, values, n, i + 1, round);
        RoundedTermSign(st, values[i], i + 1, round);
      }
      SumAtLeast(terms, n - 1);
  }

  lemma UpdatedReady(st: Station, q: StableState, x: real, n: nat, round: Rounding)
    requires n >= 1 && Ready(st, q, n - 1) && KeepsSign(round) && (st.kind.LoadDependent? ==> n < |q.p|)
    requires x > 0.0 && q.responseTime > 0.0
    ensures Ready(st, Updated(st, q, x, n, round), n)
  {
    hide Sum, RoundedTail, RoundedHead, Ratio, KeepsSign, Times;
    if st.kind.LoadDependent? {
      var before := Values(q.p, n);
      var tail := RoundedTail(st, before, x, n, round);
      forall i | 0 <= i < n ensures tail[i] >= 0.0 { RoundedSign(st, before, x, n, i, round); }
      RoundedSign(st, before, x, n, n - 1, round);
      HeadSign(q.p[0].value, tail);
      var p := Updated(st, q, x, n, round).p;
      forall j | n < j < |p| ensures p[j].Null? {
        assert p[j] == q.p[n + 1..][j - n - 1] == q.p[j];
      }
      DefinedFromTail(p, tail, n);
    } else {
      LengthSign(x, st.visits, q.responseTime);
    }
  }

  // ---- the network -----------------------------------------------------------------------------

  ghost predicate AllReady(net: seq<Station>, qs: seq<StableState>, n: nat, population: nat) {
    && |qs| == |net|
    && (forall m :: 0 <= m < |net| ==> Ready(net[m], qs[m], n))
    && (forall m :: 0 <= m < |net| && net[m].kind.LoadDependent? ==> population < |qs[m].p|)
  }

  ghost function AllResponded(net: seq<Station>, qs: seq<StableState>, n: nat, population: nat, round: Rounding)
    : (r: seq<StableState>)
    requires n >= 1 && AllReady(net, qs, n - 1, population) && KeepsSign(round)
    ensures |r| == |qs|
    ensures forall m :: 0 <= m < |qs| ==> r[m] == qs[m].(responseTime := Response(net[m], qs[m], n, round))
  {
    seq(|qs|, m requires 0 <= m < |qs| => qs[m].(responseTime := Response(net[m], qs[m], n, round)))
  }

  ghost function CycleDemands(net: seq<Station>, qs: seq<StableState>): (r: seq<real>)
    requires |qs| == |net|
    ensures |r| == |net|
  {
    seq(|qs|, m requires 0 <= m < |qs| => PerCycle(net[m], qs[m].responseTime))
  }

  ghost predicate Positive(qs: seq<StableState>) {
    forall m :: 0 <= m < |qs| ==> qs[m].responseTime > 0.0
  }

  lemma RespondedReady(net: seq<Station>, qs: seq<StableState>, n: nat, population: nat, round: Rounding)
    requires n >= 1 && AllReady(net, qs, n - 1, population) && KeepsSign(round)
    ensures var r := AllResponded(net, qs, n, population, round);
      AllReady(net, r, n - 1, population) && Positive(r)
  {
    hide Response, Defined, KeepsSign;
    var r := AllResponded(net, qs, n, population, round);
    forall m | 0 <= m < |net| ensures Ready(net[m], r[m], n - 1) && r[m].responseTime > 0.0 {
      ResponsePositive(net[m], qs[m], n, round);
      DelayResponse(net[m], qs[m], n, round);
    }
  }

  lemma DelayResponse(st: Station, q: StableState, n: nat, round: Rounding)
    requires n >= 1 && Ready(st, q, n - 1) && KeepsSign(round)
    ensures st.kind.DelayCenter? ==> Response(st, q, n, round) == st.serviceTime
  {
  }

  lemma DemandsPositive(net: seq<Station>, qs: seq<StableState>, z: real)
    requires |qs| == |net| && Positive(qs) && Solvable(net, z)
    ensures z + Sum(CycleDemands(net, qs)) > 0.0
  {
    hide Sum;
    var demands := CycleDemands(net, qs);
    forall m | 0 <= m < |demands| ensures demands[m] > 0.0 {
      MvaInvariants.ProductSign(qs[m].responseTime, net[m].visits);
    }
    if demands == [] {
      SumNonNegative(demands);
    } else {
      SumAtLeast(demands, 0);
    }
  }

  /** The throughput of responded stations, rounded once. */
  ghost function StableThroughput(net: seq<Station>, z: real, qs: seq<StableState>, n: nat, round: Rounding): real
    requires |qs| == |net| && Positive(qs) && Solvable(net, z)
  {
    DemandsPositive(net, qs, z);
    round(n as real / (z + Sum(CycleDemands(net, qs))))
  }

  ghost function AllUpdated(net: seq<Station>, qs: seq<StableState>, x: real, n: nat, population: nat, round: Rounding)
    : (r: seq<StableState>)
    requires 1 <= n <= population && AllReady(net, qs, n - 1, population) && KeepsSign(round)
    ensures |r| == |qs| && forall m :: 0 <= m < |qs| ==> r[m] == Updated(net[m], qs[m], x, n, round)
  {
    seq(|qs|, m requires 0 <= m < |qs| => Updated(net[m], qs[m], x, n, round))
  }

  ghost function StableIteration(net: seq<Station>, z: real, qs: seq<StableState>, n: nat, population: nat,
                                 round: Rounding): (r: seq<StableState>)
    requires 1 <= n <= population && AllReady(net, qs, n - 1, population) && KeepsSign(round) && Solvable(net, z)
  {
    RespondedReady(net, qs, n, population, round);
    var responded := AllResponded(net, qs, n, population, round);
    AllUpdated(net, responded, StableThroughput(net, z, responded, n, round), n, population, round)
  }

  lemma ThroughputPositive(net: seq<Station>, z: real, qs: seq<StableState>, n: nat, round: Rounding)
    requires n >= 1 && |qs| == |net| && Positive(qs) && Solvable(net, z) && KeepsSign(round)
    ensures StableThroughput(net, z, qs, n, round) > 0.0
  {
    hide Sum, KeepsSign;
    DemandsPositive(net, qs, z);
    RoundedQuotient(n as real, z + Sum(CycleDemands(net, qs)), round);
  }

  /** An iteration leaves every station ready for the next one. */
  lemma IterationReady(net: seq<Station>, z: real, qs: seq<StableState>, n: nat, population: nat, round: Rounding)
    requires 1 <= n <= population && AllReady(net, qs, n - 1, population) && KeepsSign(round) && Solvable(net, z)
    ensures AllReady(net, StableIteration(net, z, qs, n, population, round), n, population)
  {
    hide Response, Updated, Ready, KeepsSign, Solvable;
    RespondedReady(net, qs, n, population, round);
    var responded := AllResponded(net, qs, n, population, round);
    var x := StableThroughput(net, z, responded, n, round);
    ThroughputPositive(net, z, responded, n, round);
    forall m | 0 <= m < |net| ensures Ready(net[m], Updated(net[m], responded[m], x, n, round), n) {
      UpdatedReady(net[m], responded[m], x, n, round);
    }
  }

  /** From fresh stations the whole recursion is defined: no entry that is null is read, and no divisor is zero. */
  ghost function StableRun(net: seq<Station>, z: real, qs: seq<StableState>, n: nat, population: nat, round: Rounding)
    : (r: seq<StableState>)
    requires n <= population && AllReady(net, qs, 0, population) && KeepsSign(round) && Solvable(net, z)
    ensures AllReady(net, r, n, population)
  {
    if n == 0 then qs
    else
      var before := StableRun(net, z, qs, n - 1, population, round);
      IterationReady(net, z, before, n, population, round);
      StableIteration(net, z, before, n, population, round)
  }

  // ---- without rounding: the first solver ------------------------------------------------------

  /** A station as the first solver has it after n clients. */
  ghost predicate Mirrors(st: Station, q: StableState, s: QueueState, n: nat) {
    && Ready(st, q, n) && q.responseTime == s.responseTime && q.queueLength == s.queueLength
    && (st.kind.LoadDependent? ==> |q.p| == |s.p| && Values(q.p, n + 1) == s.p[..n + 1])
  }

  lemma ResponseMirrors(st: Station, q: StableState, s: QueueState, n: nat, round: Rounding)
    requires n >= 1 && KeepsSign(round) && Exact(round) && Mirrors(st, q, s, n - 1)
    ensures Response(st, q, n, round) == ResponseTime(st, s, n)
  {
    hide RoundedTerms, ResponseTerms, KeepsSign, Exact, Sum;
    if st.kind.LoadDependent? {
      MirrorResponse(st, Values(q.p, n), s, n, round);
    }
  }

  lemma UpdateMirrors(st: Station, q: StableState, s: QueueState, x: real, n: nat, round: Rounding)
    requires n >= 1 && KeepsSign(round) && Exact(round) && Mirrors(st, q, s, n - 1)
    requires (st.kind.LoadDependent? ==> n < |q.p|) && x > 0.0 && q.responseTime > 0.0
    ensures Mirrors(st, Updated(st, q, x, n, round), UpdatedQueue(st, s, x, n), n)
  {
    hide RoundedTail, RoundedHead, UpdatedTail, UpdatedHead, KeepsSign, Exact, Sum;
    UpdatedReady(st, q, x, n, round);
    if st.kind.LoadDependent? {
      MirrorUpdate(st, Values(q.p, n), s.p, x, n, round);
      var tail := RoundedTail(st, Values(q.p, n), x, n, round);
      var r := Updated(st, q, x, n, round);
      assert Values(r.p, n + 1) == [RoundedHead(q.p[0].value, tail)] + tail;
    }
  }

  ghost predicate AllMirror(net: seq<Station>, qs: seq<StableState>, ss: seq<QueueState>, n: nat, population: nat) {
    && AllReady(net, qs, n, population) && Roomy(net, ss, population)
    && forall m :: 0 <= m < |net| ==> Mirrors(net[m], qs[m], ss[m], n)
  }

  lemma RespondedMirrors(net: seq<Station>, qs: seq<StableState>, ss: seq<QueueState>, n: nat, population: nat,
                         round: Rounding)
    requires 1 <= n <= population && KeepsSign(round) && Exact(round) && AllMirror(net, qs, ss, n - 1, population)
    ensures var r := AllResponded(net, qs, n, population, round);
      AllMirror(net, r, Responded(net, ss, n), n - 1, population)
      && CycleDemands(net, r) == Demands(net, Responded(net, ss, n))
  {
    hide Response, ResponseTime, Defined, KeepsSign, Exact;
    var r := AllResponded(net, qs, n, population, round);
    RespondedReady(net, qs, n, population, round);
    var l := Responded(net, ss, n);
    forall m | 0 <= m < |net| ensures Mirrors(net[m], r[m], l[m], n - 1) {
      ResponseMirrors(net[m], qs[m], ss[m], n, round);
    }
    var a, b := CycleDemands(net, r), Demands(net, l);
    forall m | 0 <= m < |net| ensures a[m] == b[m] {
      assert Mirrors(net[m], r[m], l[m], n - 1);
    }
  }

  lemma IterationMirrors(net: seq<Station>, z: real, qs: seq<StableState>, ss: seq<QueueState>, n: nat,
                         population: nat, round: Rounding)
    requires 1 <= n <= population && KeepsSign(round) && Exact(round) && Solvable(net, z)
    requires AllMirror(net, qs, ss, n - 1, population)
    ensures AllMirror(net, StableIteration(net, z, qs, n, population, round), Iteration(net, z, ss, n), n, population)
  {
    hide Mirrors, Ready, Response, Updated, UpdatedQueue, Sum, KeepsSign, Solvable, Demands, CycleDemands;
    RespondedMirrors(net, qs, ss, n, population, round);
    RespondedReady(net, qs, n, population, round);
    IterationReady(net, z, qs, n, population, round);
    var r, l := AllResponded(net, qs, n, population, round), Responded(net, ss, n);
    var x := StableThroughput(net, z, r, n, round);
    DemandsPositive(net, r, z);
    ThroughputPositive(net, z, r, n, round);
    assert x == Throughput(net, z, ss, n);
    forall m | 0 <= m < |net|
      ensures Mirrors(net[m], Updated(net[m], r[m], x, n, round), UpdatedQueue(net[m], l[m], x, n), n)
    {
      UpdateMirrors(net[m], r[m], l[m], x, n, round);
    }
  }

  /** Without rounding, every population leaves the stations as the first solver has them; what is above is null. */
  lemma {:induction false} RunMirrors(net: seq<Station>, z: real, qs: seq<StableState>, ss: seq<QueueState>, n: nat,
                                      population: nat, round: Rounding)
    requires n <= population && KeepsSign(round) && Exact(round) && Solvable(net, z)
    requires AllMirror(net, qs, ss, 0, population)
    ensures AllMirror(net, StableRun(net, z, qs, n, population, round), Run(net, z, ss, n), n, population)
  {
    hide Mirrors, AllReady, StableIteration, Iteration, KeepsSign, Exact, Solvable;
    if n > 0 {
      RunMirrors(net, z, qs, ss, n - 1, population, round);
      IterationMirrors(net, z, StableRun(net, z, qs, n - 1, population, round), Run(net, z, ss, n - 1), n,
                       population, round);
    }
  }

  /** A new station: one entry, and nulls. */
  function FreshStable(st: Station, size: nat): (q: StableState)
    requires size >= 1
    ensures |q.p| == size
  {
    StableState([Decimal(1.0)] + seq(size - 1, i => Null), st.serviceTime, 0.0)
  }

  /** New stations are ready, and as in the first solver. */
  lemma FreshMirrors(st: Station, size: nat)
    requires size >= 1
    ensures Ready(st, FreshStable(st, size), 0) && Mirrors(st, FreshStable(st, size), FreshQueue(st, size), 0)
  {
    var q := FreshStable(st, size);
    var one := Values(q.p, 1);
    assert one == [1.0];
    SumFront(one);
    assert one[1..] == [];
    SumNone([]);
    assert FreshQueue(st, size).p[..1] == [1.0];
  }
}
