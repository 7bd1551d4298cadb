/**
 Closed-form multi-server queues, with unbounded room (M/M/m) and with room for B jobs (M/M/m/B).

 The identities hold with the factorial as coded, which is not the factorial.
 */
module ClosedForm {
  import opened RealSums

  function Pow(x: real, n: nat): real {
    if n == 0 then 1.0 else x * Pow(x, n - 1)
  }

  lemma {:induction false} PowPositive(x: real, n: nat)
    requires x > 0.0
    ensures Pow(x, n) > 0.0
  {
    if n > 0 {
      PowPositive(x, n - 1);
      PositiveProduct(x, Pow(x, n - 1));
    }
  }

  lemma PositiveProduct(x: real, y: real)
    requires x > 0.0 && y > 0.0
    ensures x * y > 0.0
  {
  }

  lemma PositiveQuotient(x: real, y: real)
    requires y > 0.0
    ensures x > 0.0 ==> x / y > 0.0
    ensures x >= 0.0 ==> x / y >= 0.0
  {
  }

  lemma {:induction false} PowProduct(z: real, x: real, y: real, n: nat)
    requires z == x * y
    ensures Pow(z, n) == Pow(x, n) * Pow(y, n)
  {
    if n > 0 {
      PowProduct(z, x, y, n - 1);
      var a, b := Pow(x, n - 1), Pow(y, n - 1);
      assert z * (a * b) == (x * a) * (y * b);
    }
  }

  lemma {:induction false} PowSum(x: real, a: nat, b: nat)
    ensures Pow(x, a + b) == Pow(x, a) * Pow(x, b)
  {
    if a > 0 {
      PowSum(x, a - 1, b);
      var p, q := Pow(x, a - 1), Pow(x, b);
      assert x * (p * q) == x * p * q;
    }
  }

  // ---- the factorial as coded ------------------------------------------------------------------

  function CodedFactorial(m: nat): real {
    if m <= 1 then 1.0 else Pow(m as real, m - 1)
  }

  /** Multiplies by m in every round, not by the round's number. */
  method Factorial(m: nat) returns (result: real)
    ensures result == CodedFactorial(m) == (if m == 0 then 1.0 else Pow(m as real, m - 1)) > 0.0
  {
    result := 1.0;
    var i := 2;
    while i <= m
      invariant 2 <= i && (if m >= 1 then i <= m + 1 else i == 2)
      invariant result == Pow(m as real, i - 2)
    {
      result := result * m as real;
      i := i + 1;
    }
    CodedFactorialPositive(m);
    assert result == CodedFactorial(m);
  }

  lemma CodedFactorialPositive(m: nat)
    ensures CodedFactorial(m) > 0.0
  {
    if m > 1 {
      PowPositive(m as real, m - 1);
    }
  }

  function TrueFactorial(m: nat): real {
    if m == 0 then 1.0 else m as real * TrueFactorial(m - 1)
  }

  lemma {:induction false} FactorialBelowPower(k: nat, m: nat)
    requires 1 <= k <= m
    ensures 0.0 < TrueFactorial(k) <= Pow(m as real, k - 1)
    ensures 2 <= k < m ==> TrueFactorial(k) < Pow(m as real, k - 1)
  {
    if k > 1 {
      FactorialBelowPower(k - 1, m);
      var f, p := TrueFactorial(k - 1), Pow(m as real, k - 2);
      PositiveProduct(k as real, f);
      assert Pow(m as real, k - 1) == m as real * p;
      ProductBelow(k as real, m as real, f, p);
    }
  }

  lemma ProductBelow(a: real, b: real, f: real, p: real)
    requires 0.0 < a <= b && 0.0 < f <= p
    ensures a * f <= b * p
    ensures a < b ==> a * f < b * p
    ensures f < p ==> a * f < b * p
  {
    assert b * p - a * f == (b - a) * p + a * (p - f);
    if a < b {
      PositiveProduct(b - a, p);
    }
    if f < p {
      PositiveProduct(a, p - f);
    }
  }

  /** The coded factorial is the factorial exactly up to 2. */
  lemma CodedFactorialIff(m: nat)
    ensures CodedFactorial(m) == TrueFactorial(m) <==> m <= 2
  {
    if m <= 2 {
      assert TrueFactorial(1) == 1.0 * TrueFactorial(0);
      assert m == 2 ==> Pow(2.0, 1) == 2.0 * Pow(2.0, 0);
    } else {
      FactorialBelowPower(m - 1, m);
      var f, p := TrueFactorial(m - 1), Pow(m as real, m - 2);
      ProductBelow(m as real, m as real, f, p);
      assert Pow(m as real, m - 1) == m as real * p;
    }
  }

  // ---- the queues ------------------------------------------------------------------------------

  /** m servers, arrival rate lambda, service time s, and room for B jobs if bounded. */
  datatype QueueData = MMm(lambda: real, s: real, m: nat) | MMmB(lambda: real, s: real, m: nat, B: nat) {
    /** Arrival rate over the service rate of all servers. */
    function Rho(): real
      requires s > 0.0 && m >= 1
    {
      lambda / (m as real * (1.0 / s))
    }

    /** The parameters for which the formulas divide by no zero. */
    predicate Sound() {
      && lambda > 0.0 && s > 0.0 && m >= 1
      && (if MMm? then Rho() < 1.0 else B >= m && Rho() != 1.0)
    }
  }

  lemma RhoPositive(q: QueueData)
    requires q.Sound()
    ensures q.Rho() > 0.0
  {
    PositiveQuotient(1.0, q.s);
    PositiveProduct(q.m as real, 1.0 / q.s);
    PositiveQuotient(q.lambda, q.m as real * (1.0 / q.s));
  }

  /** Offered load. */
  function Load(q: QueueData): real
    requires q.Sound()
  {
    q.Rho() * q.m as real
  }

  function LoadTerm(q: QueueData, n: nat): real
    requires q.Sound()
  {
    CodedFactorialPositive(n);
    Pow(Load(q), n) / CodedFactorial(n)
  }

  /** The accumulated summands for fewer than m jobs. */
  function LoadTerms(q: QueueData, n: nat): (r: seq<real>)
    requires q.Sound()
    ensures |r| == n
  {
    seq(n, i requires 0 <= i < n => LoadTerm(q, i + 1))
  }

  /** What the bounded queue cuts off, relative to unbounded room. */
  function CutOff(q: QueueData): real
    requires q.Sound()
  {
    if q.MMm? then 0.0 else Pow(q.Rho(), q.B - q.m + 1)
  }

  function GeometricWeight(t: real, cut: real, rho: real): real
    requires rho != 1.0
  {
    t * (1.0 - cut) / (1.0 - rho)
  }

  /** Weight of all states with at least m jobs, relative to the empty state. */
  function FullWeight(q: QueueData): real
    requires q.Sound()
  {
    GeometricWeight(LoadTerm(q, q.m), CutOff(q), q.Rho())
  }

  function Denominator(q: QueueData): real
    requires q.Sound()
  {
    1.0 + FullWeight(q) + Sum(LoadTerms(q, q.m - 1))
  }

  lemma {:induction false} PowAgainstOne(x: real, k: nat)
    requires x > 0.0 && k >= 1
    ensures x < 1.0 ==> Pow(x, k) < 1.0
    ensures x > 1.0 ==> Pow(x, k) > 1.0
  {
    if k == 1 {
      assert Pow(x, 1) == x * Pow(x, 0);
    } else {
      PowAgainstOne(x, k - 1);
      PowPositive(x, k - 1);
      TimesAgainstOne(x, Pow(x, k - 1));
    }
  }

  lemma TimesAgainstOne(x: real, y: real)
    requires x > 0.0 && y > 0.0
    ensures x < 1.0 && y < 1.0 ==> x * y < 1.0
    ensures x > 1.0 && y > 1.0 ==> x * y > 1.0
  {
    assert x * y - 1.0 == (x - 1.0) * y + (y - 1.0);
    PositiveProduct(y, if x < 1.0 then 1.0 - x else 1.0);
    PositiveProduct(y, if x > 1.0 then x - 1.0 else 1.0);
  }

  lemma QuotientOfDifferences(a: real, b: real)
    requires (a > 0.0 && b > 0.0) || (a < 0.0 && b < 0.0)
    ensures a / b > 0.0
  {
    assert a / b == (-a) / (-b);
  }

  lemma FullWeightPositive(q: QueueData)
    requires q.Sound()
    ensures LoadTerm(q, q.m) > 0.0 && FullWeight(q) > 0.0
  {
    hide Pow, QueueData.Rho;
    LoadTermPositive(q, q.m);
    RhoPositive(q);
    var rho := q.Rho();
    var a, b := 1.0 - CutOff(q), 1.0 - rho;
    if q.MMmB? {
      PowAgainstOne(rho, q.B - q.m + 1);
    }
    QuotientOfDifferences(a, b);
    PositiveProduct(LoadTerm(q, q.m), a / b);
    MoveQuotient(LoadTerm(q, q.m), a, b);
  }

  lemma MoveQuotient(t: real, a: real, b: real)
    requires b != 0.0
    ensures t * a / b == t * (a / b) == t / b * a
  {
  }

  lemma LoadTermPositive(q: QueueData, n: nat)
    requires q.Sound()
    ensures LoadTerm(q, n) > 0.0
  {
    hide QueueData.Rho;
    RhoPositive(q);
    PositiveProduct(q.Rho(), q.m as real);
    PowPositive(Load(q), n);
    CodedFactorialPositive(n);
    PositiveQuotient(Pow(Load(q), n), CodedFactorial(n));
  }

  /** The denominator of p_0 is greater than 1, also when rho is greater than 1. */
  lemma DenominatorPositive(q: QueueData)
    requires q.Sound()
    ensures Denominator(q) > 1.0
  {
    hide LoadTerm, FullWeight, QueueData.Rho, Sum;
    FullWeightPositive(q);
    var terms := LoadTerms(q, q.m - 1);
    forall i | 0 <= i < |terms| ensures terms[i] >= 0.0 { LoadTermPositive(q, i + 1); }
    SumNonNegative(terms);
  }

  // ---- the probabilities as coded --------------------------------------------------------------

  function GeneralZero(q: QueueData): real
    requires q.Sound()
  {
    DenominatorPositive(q);
    1.0 / Denominator(q)
  }

  /** The bounded queue with one server has its own formula. */
  function ProbabilityZero(q: QueueData): real
    requires q.Sound()
  {
    if q.MMmB? && q.m == 1 then
      SingleServerDivisor(q);
      (1.0 - q.Rho()) / (1.0 - Pow(q.Rho(), q.B + 1))
    else GeneralZero(q)
  }

  lemma SingleServerDivisor(q: QueueData)
    requires q.Sound() && q.MMmB?
    ensures Pow(q.Rho(), q.B + 1) != 1.0
  {
    RhoPositive(q);
    PowAgainstOne(q.Rho(), q.B + 1);
  }

  function FullTerm(x: real, b: real, p0: real, f: real): real
    requires f != 0.0
  {
    x * b * p0 / f
  }

  function WaitingTerm(l: real, p0: real, r: real, f: real): real
    requires r != 0.0 && f != 0.0
  {
    l * p0 / r / f
  }

  function Probability(q: QueueData, n: nat): real
    requires q.Sound()
  {
    CodedFactorialPositive(q.m);
    if n == 0 then ProbabilityZero(q)
    else if n < q.m then LoadTerm(q, n) * ProbabilityZero(q)
    else FullTerm(Pow(q.Rho(), n), Pow(q.m as real, q.m), ProbabilityZero(q), CodedFactorial(q.m))
  }

  function ProbabilityOfQueueing(q: QueueData): real
    requires q.Sound()
  {
    CodedFactorialPositive(q.m);
    WaitingTerm(Pow(Load(q), q.m), ProbabilityZero(q), 1.0 - q.Rho(), CodedFactorial(q.m))
  }

  function Probabilities(q: QueueData, n: nat): (r: seq<real>)
    requires q.Sound()
    ensures |r| == n
  {
    seq(n, i requires 0 <= i < n => Probability(q, i))
  }

  /** The loop that accumulates the summands for 1..m-1 jobs. */
  method GetProbabilityZeroJobsInSystemGeneral(q: QueueData) returns (p0: real)
    requires q.Sound()
    ensures p0 == GeneralZero(q) == Probability(q, 0)
  {
    GeneralIsZero(q);
    hide Sum, LoadTerm, Pow, QueueData.Rho, GeometricWeight, Probability;
    var rho := q.Rho();
    var cut := if q.MMm? then 0.0 else Pow(rho, q.B - q.m + 1);
    var full := GeometricWeight(LoadTerm(q, q.m), cut, rho);
    ghost var terms := LoadTerms(q, q.m - 1);
    var below := 0.0;
    SumNone(terms);
    for n := 1 to q.m
      invariant below == Sum(terms[..n - 1])
    {
      SumStep(terms, n - 1);
      below := below + LoadTerm(q, n);
    }
    assert terms[..q.m - 1] == terms;
    DenominatorPositive(q);
    p0 := 1.0 / (1.0 + full + below);
  }

  /** Both formulas of the bounded queue agree for one server. */
  lemma SingleServerFormula(q: QueueData)
    requires q.Sound()
    ensures ProbabilityZero(q) * Denominator(q) == 1.0
  {
    hide QueueData.Rho, Denominator, Pow, GeometricWeight;
    DenominatorPositive(q);
    if q.MMmB? && q.m == 1 {
      SingleServerDivisor(q);
      SingleServerDenominator(q);
      SingleServerAlgebra(q.Rho(), Pow(q.Rho(), q.B), Pow(q.Rho(), q.B + 1), Denominator(q));
    } else {
      QuotientTimes(1.0, Denominator(q));
    }
  }

  lemma GeneralIsZero(q: QueueData)
    requires q.Sound()
    ensures GeneralZero(q) == Probability(q, 0)
  {
    hide QueueData.Rho, Denominator, ProbabilityZero;
    DenominatorPositive(q);
    SingleServerFormula(q);
    QuotientTimes(1.0, Denominator(q));
    CancelFactor(GeneralZero(q), ProbabilityZero(q), Denominator(q));
  }

  lemma SingleServerDenominator(q: QueueData)
    requires q.Sound() && q.MMmB? && q.m == 1
    ensures Denominator(q) == 1.0 + GeometricWeight(q.Rho(), Pow(q.Rho(), q.B), q.Rho())
    ensures Pow(q.Rho(), q.B + 1) == q.Rho() * Pow(q.Rho(), q.B)
  {
    hide QueueData.Rho, LoadTerm, GeometricWeight, Pow;
    PowStep(q.Rho(), q.B);
    assert LoadTerms(q, 0) == [];
    SumNone(LoadTerms(q, 0));
    LoadOfOne(q);
  }

  lemma LoadOfOne(q: QueueData)
    requires q.Sound() && q.m == 1
    ensures LoadTerm(q, 1) == q.Rho()
  {
    hide QueueData.Rho;
    assert Pow(Load(q), 1) == Load(q) * Pow(Load(q), 0);
  }

  lemma QuotientTimes(x: real, y: real)
    requires y != 0.0
    ensures x / y * y == x
  {
  }

  lemma SingleServerAlgebra(rho: real, p: real, p1: real, d: real)
    requires rho != 1.0 && p1 == rho * p && p1 != 1.0
    requires d == 1.0 + GeometricWeight(rho, p, rho)
    ensures (1.0 - rho) / (1.0 - p1) * d == 1.0
  {
    var r, q := 1.0 - rho, 1.0 - p1;
    var t, u := r / q, rho * (1.0 - p) / r;
    QuotientTimes(r, q);
    QuotientTimes(rho * (1.0 - p), r);
    assert u * r == rho - p1;
    Cancel(t, d, r, q, u);
  }

  lemma Cancel(t: real, d: real, r: real, q: real, u: real)
    requires r != 0.0 && q != 0.0 && t * q == r && d == 1.0 + u && u * r == q - r
    ensures t * d == 1.0
  {
    assert d * r == q;
    assert t * d * r == t * q;
    CancelFactor(t * d, 1.0, r);
  }

  lemma CancelFactor(x: real, y: real, r: real)
    requires r != 0.0 && x * r == y * r
    ensures x == y
  {
    assert (x - y) * r == 0.0;
  }

  // ---- the probabilities relative to p_0, in arrival rate, service time and powers alone -----------

  lemma LoadIsArrivals(q: QueueData)
    requires q.Sound()
    ensures Load(q) == q.lambda * q.s
  {
    var a := q.m as real * (1.0 / q.s);
    assert a * q.s == q.m as real * (1.0 / q.s * q.s) == q.m as real;
    QuotientTimes(q.lambda, a);
    assert q.lambda / a * q.m as real == q.lambda / a * a * q.s;
  }

  lemma FactorialIsPower(n: nat)
    requires n >= 1
    ensures CodedFactorial(n) == Pow(n as real, n - 1) > 0.0
  {
    CodedFactorialPositive(n);
  }

  /** Fewer than m jobs: p_n = (lambda s)^n / n^(n-1) * p_0, n^(n-1) being the factorial as coded. */
  lemma BelowFullRatio(q: QueueData, n: nat)
    requires q.Sound() && 1 <= n < q.m
    ensures Probability(q, n) * Pow(n as real, n - 1) == Pow(q.lambda * q.s, n) * Probability(q, 0)
  {
    hide Pow, CodedFactorial, ProbabilityZero, Load;
    LoadIsArrivals(q);
    FactorialIsPower(n);
    QuotientTimes(Pow(q.lambda * q.s, n), CodedFactorial(n));
    Reorder(LoadTerm(q, n), ProbabilityZero(q), CodedFactorial(n));
  }

  lemma Reorder(t: real, p0: real, f: real)
    ensures t * p0 * f == t * f * p0
  {
  }

  /** At least m jobs: p_n = (lambda s)^n / (m^(m-1) * m^(n-m)) * p_0. */
  lemma FullRatio(q: QueueData, n: nat)
    requires q.Sound() && n >= q.m
    ensures Probability(q, n) * (Pow(q.m as real, q.m - 1) * Pow(q.m as real, n - q.m))
         == Pow(q.lambda * q.s, n) * Probability(q, 0)
  {
    hide Pow, CodedFactorial, ProbabilityZero, Load, QueueData.Rho, FullTerm;
    var m, rho, p0 := q.m as real, q.Rho(), ProbabilityZero(q);
    LoadIsArrivals(q);
    FactorialIsPower(q.m);
    LoadFactors(q);
    PowProduct(Load(q), rho, m, n);
    PowSum(m, n - q.m, q.m);
    assert n - q.m + q.m == n;
    FullTermTimes(Pow(rho, n), Pow(m, q.m), p0, CodedFactorial(q.m), Pow(m, n - q.m));
  }

  lemma LoadFactors(q: QueueData)
    requires q.Sound()
    ensures Load(q) == q.Rho() * q.m as real
  {
  }

  lemma FullTermTimes(x: real, b: real, p0: real, f: real, r: real)
    requires f != 0.0
    ensures FullTerm(x, b, p0, f) * (f * r) == x * (r * b) * p0
  {
    QuotientTimes(x * b * p0, f);
    assert FullTerm(x, b, p0, f) * f * r == x * b * p0 * r;
  }

  // ---- normalisation ---------------------------------------------------------------------------

  /** With n >= m jobs the probability falls off geometrically. */
  lemma GeometricTail(q: QueueData, n: nat)
    requires q.Sound() && n >= q.m
    ensures Probability(q, n) == ProbabilityOfQueueing(q) * (Pow(q.Rho(), n - q.m) - Pow(q.Rho(), n + 1 - q.m))
  {
    hide QueueData.Rho, ProbabilityZero, Pow, FullTerm, WaitingTerm;
    var rho, p0 := q.Rho(), ProbabilityZero(q);
    var r, a, b := Pow(rho, n - q.m), Pow(rho, q.m), Pow(q.m as real, q.m);
    CodedFactorialPositive(q.m);
    LoadPower(q);
    PowSum(rho, n - q.m, q.m);
    assert n - q.m + q.m == n;
    PowStep(rho, n - q.m);
    TailTerm(Pow(rho, n), Pow(Load(q), q.m), r, a, b, p0, CodedFactorial(q.m), rho);
  }

  lemma LoadPower(q: QueueData)
    requires q.Sound()
    ensures Pow(Load(q), q.m) == Pow(q.Rho(), q.m) * Pow(q.m as real, q.m)
  {
    hide QueueData.Rho, Pow;
    PowProduct(Load(q), q.Rho(), q.m as real, q.m);
  }

  lemma PowStep(x: real, n: nat)
    ensures Pow(x, n + 1) == x * Pow(x, n)
  {
  }

  lemma TailTerm(x: real, l: real, r: real, a: real, b: real, p0: real, f: real, rho: real)
    requires f > 0.0 && rho != 1.0 && x == r * a && l == a * b
    ensures FullTerm(x, b, p0, f) == WaitingTerm(l, p0, 1.0 - rho, f) * (r - rho * r)
  {
    var w := l * p0;
    var c := w / (1.0 - rho);
    QuotientTimes(w, 1.0 - rho);
    var d := c / f;
    QuotientTimes(c, f);
    assert x * b * p0 == r * w;
    assert d * (r - rho * r) * f == d * f * (r - rho * r) == c * (1.0 - rho) * r;
    QuotientTimes(x * b * p0, f);
    CancelFactor(FullTerm(x, b, p0, f), d * (r - rho * r), f);
  }

  lemma BelowTerm(q: QueueData, i: nat)
    requires q.Sound() && 1 <= i < q.m
    ensures Probability(q, i) == Scaled(ProbabilityZero(q), LoadTerms(q, q.m - 1))[i - 1]
  {
    hide ProbabilityZero, LoadTerm;
  }

  /** Probability of fewer than m jobs. */
  lemma BelowFull(q: QueueData)
    requires q.Sound()
    ensures Sum(Probabilities(q, q.m)) == 1.0 - ProbabilityOfQueueing(q) * (1.0 - CutOff(q))
  {
    hide ProbabilityZero, LoadTerm, FullWeight, CutOff, Sum, QueueData.Rho, ProbabilityOfQueueing, Scaled;
    var p0, terms := ProbabilityZero(q), LoadTerms(q, q.m - 1);
    var ps := Probabilities(q, q.m);
    SumFront(ps);
    forall i | 0 <= i < q.m - 1 ensures ps[1..][i] == Scaled(p0, terms)[i] { BelowTerm(q, i + 1); }
    assert ps[1..] == Scaled(p0, terms);
    SumScaled(p0, terms);
    SingleServerFormula(q);
    QueueingWeight(q);
    Normalise(p0, FullWeight(q), Sum(terms), Denominator(q));
  }

  lemma Normalise(p0: real, w: real, t: real, d: real)
    requires d == 1.0 + w + t && p0 * d == 1.0
    ensures p0 + p0 * t == 1.0 - p0 * w
  {
    assert p0 * d == p0 + p0 * w + p0 * t;
  }

  lemma QueueingWeight(q: QueueData)
    requires q.Sound()
    ensures ProbabilityZero(q) * FullWeight(q) == ProbabilityOfQueueing(q) * (1.0 - CutOff(q))
  {
    hide ProbabilityZero, CutOff, QueueData.Rho, Pow, WaitingTerm, CodedFactorial;
    CodedFactorialPositive(q.m);
    QueueingAlgebra(Pow(Load(q), q.m), CodedFactorial(q.m), ProbabilityZero(q), 1.0 - q.Rho(), 1.0 - CutOff(q));
  }

  lemma QueueingAlgebra(a: real, f: real, p0: real, r: real, c: real)
    requires f > 0.0 && r != 0.0
    ensures p0 * (a / f * c / r) == WaitingTerm(a, p0, r, f) * c
  {
    var t := a / f;
    QuotientTimes(a, f);
    var u := a * p0 / r;
    QuotientTimes(a * p0, r);
    var v := u / f;
    QuotientTimes(u, f);
    var w := t * c / r;
    QuotientTimes(t * c, r);
    assert p0 * w * r == p0 * (t * c);
    assert v * f * r == t * f * p0;
    assert v * r * f == t * p0 * f;
    CancelFactor(v * r, t * p0, f);
    assert v * c * r == v * r * c;
    CancelFactor(p0 * w, v * c, r);
  }

  /** Partial sums from m-1 jobs on: what is missing to 1 is the geometric rest. */
  lemma {:induction false} PartialSums(q: QueueData, n: nat)
    requires q.Sound() && n + 1 >= q.m
    ensures Sum(Probabilities(q, n + 1))
         == 1.0 - ProbabilityOfQueueing(q) * (Pow(q.Rho(), n + 1 - q.m) - CutOff(q))
    decreases n
  {
    hide ProbabilityOfQueueing, CutOff, Sum, QueueData.Rho, Probability;
    if n + 1 == q.m {
      BelowFull(q);
    } else {
      PartialSums(q, n - 1);
      GeometricTail(q, n);
      var ps := Probabilities(q, n + 1);
      SumStep(ps, n);
      assert ps[..n] == Probabilities(q, n) && ps[..n + 1] == ps;
      Telescope(ProbabilityOfQueueing(q), Pow(q.Rho(), n - q.m), Pow(q.Rho(), n + 1 - q.m), CutOff(q));
    }
  }

  lemma Telescope(c: real, a: real, b: real, e: real)
    ensures 1.0 - c * (a - e) + c * (a - b) == 1.0 - c * (b - e)
  {
  }

  /** M/M/m: the tail beyond n jobs, and the probability of queueing as the complement of free servers. */
  lemma UnboundedTail(q: QueueData, n: nat)
    requires q.Sound() && q.MMm? && n + 1 >= q.m
    ensures Sum(Probabilities(q, n + 1)) == 1.0 - Pow(q.Rho(), n + 1 - q.m) * ProbabilityOfQueueing(q)
    ensures ProbabilityOfQueueing(q) == 1.0 - Sum(Probabilities(q, q.m))
  {
    hide ProbabilityOfQueueing, Sum, QueueData.Rho, Probability;
    PartialSums(q, n);
    BelowFull(q);
  }

  /** M/M/m/B: the probabilities of 0..B jobs sum to exactly 1, across both branches. */
  lemma BoundedNormalisation(q: QueueData)
    requires q.Sound() && q.MMmB?
    ensures Denominator(q) > 1.0
    ensures Sum(Probabilities(q, q.B + 1)) == 1.0
  {
    hide ProbabilityOfQueueing, Sum, QueueData.Rho, Probability, Denominator;
    DenominatorPositive(q);
    PartialSums(q, q.B);
  }

  /** The total that the evaluation prints sums only up to B-1 jobs and misses the last probability. */
  lemma EvaluatedTotal(q: QueueData)
    requires q.Sound() && q.MMmB?
    ensures Sum(Probabilities(q, q.B)) == 1.0 - Probability(q, q.B) < 1.0
  {
    hide ProbabilityOfQueueing, Sum, QueueData.Rho, Probability, Denominator;
    BoundedNormalisation(q);
    var ps := Probabilities(q, q.B + 1);
    SumStep(ps, q.B);
    assert ps[..q.B] == Probabilities(q, q.B) && ps[..q.B + 1] == ps;
    ProbabilityPositive(q, q.B);
  }

  lemma ProbabilityPositive(q: QueueData, n: nat)
    requires q.Sound()
    ensures Probability(q, n) > 0.0
  {
    hide ProbabilityZero, QueueData.Rho, Pow, LoadTerm;
    DenominatorPositive(q);
    SingleServerFormula(q);
    PositiveFactor(ProbabilityZero(q), Denominator(q));
    RhoPositive(q);
    if 0 < n < q.m {
      LoadTermPositive(q, n);
      PositiveProduct(LoadTerm(q, n), ProbabilityZero(q));
    } else if n > 0 {
      PowPositive(q.Rho(), n);
      PowPositive(q.m as real, q.m);
      CodedFactorialPositive(q.m);
      PositiveProduct(Pow(q.Rho(), n), Pow(q.m as real, q.m));
      PositiveProduct(Pow(q.Rho(), n) * Pow(q.m as real, q.m), ProbabilityZero(q));
      PositiveQuotient(Pow(q.Rho(), n) * Pow(q.m as real, q.m) * ProbabilityZero(q), CodedFactorial(q.m));
    }
  }

  lemma PositiveFactor(x: real, y: real)
    requires y > 0.0 && x * y == 1.0
    ensures x > 0.0
  {
  }
}
