/**
 The theorem behind the solver: with every load-dependent station visited once per cycle, the recursion
 computes the product-form distribution of the closed network.

 Each station, and the think time, has a series of weights. The normalisation constants are the
 coefficients of the product of all these series.
 */
module MvaProductForm {
  import opened RealSums
  import opened Series
  import opened MvaModel
  import opened MvaInvariants

  // ---- weights and normalisation constants -----------------------------------------------------

  /** Service demand of one cycle. */
  function Demand(st: Station): (r: real)
    ensures r > 0.0
  {
    ProductSign(st.visits, st.serviceTime);
    st.visits * st.serviceTime
  }

  /** Mean time the j-th job adds: the reciprocal of the station's effective service rate. */
  function Factor(st: Station, j: nat): (r: real)
    requires j >= 1
    ensures r > 0.0
  {
    QuotientSign(1.0, Mu(st, j));
    QuotientSign(Demand(st), j as real);
    match st.kind
    case LoadDependent => 1.0 / Mu(st, j)
    case DelayCenter => Demand(st) / j as real
    case FixedCapacity => Demand(st)
  }

  function Weight(st: Station, j: nat): (r: real)
    ensures r > 0.0
  {
    if j == 0 then 1.0 else (ProductSign(Factor(st, j), Weight(st, j - 1)); Factor(st, j) * Weight(st, j - 1))
  }

  function ThinkWeight(z: real, j: nat): (r: real) {
    if j == 0 then 1.0 else z / j as real * ThinkWeight(z, j - 1)
  }

  function Weights(st: Station, k: nat): (r: seq<real>)
    ensures |r| == k
  {
    seq(k, j requires 0 <= j < k => Weight(st, j))
  }

  function ThinkWeights(z: real, k: nat): (r: seq<real>)
    ensures |r| == k
  {
    seq(k, j requires 0 <= j < k => ThinkWeight(z, j))
  }

  function Factors(net: seq<Station>, z: real, k: nat): (r: seq<seq<real>>)
    ensures |r| == |net| + 1 && r[0] == ThinkWeights(z, k)
    ensures forall m :: 0 <= m < |net| ==> r[m + 1] == Weights(net[m], k)
  {
    [ThinkWeights(z, k)] + seq(|net|, m requires 0 <= m < |net| => Weights(net[m], k))
  }

  /** Normalisation constants for the populations below k. */
  function Constants(net: seq<Station>, z: real, k: nat): (r: seq<real>)
    ensures |r| == k
  {
    Product(Factors(net, z, k), k)
  }

  /** Normalisation constants of the network without station m. */
  function ConstantsWithout(net: seq<Station>, z: real, m: nat, k: nat): (r: seq<real>)
    requires m < |net|
    ensures |r| == k
  {
    Product(Without(Factors(net, z, k), m + 1), k)
  }

  /** The constants are the convolution of one station's weights with the constants of the rest. */
  lemma ConstantsConvolve(net: seq<Station>, z: real, m: nat, k: nat, n: nat)
    requires m < |net| && n < k
    ensures Constants(net, z, k) == Conv(Weights(net[m], k), ConstantsWithout(net, z, m, k))
    ensures Constants(net, z, k)[n]
         == Sum(ConvTerms(Weights(net[m], k), ConstantsWithout(net, z, m, k), n))
  {
    hide Conv, Without, Product;
    ProductSplits(Factors(net, z, k), m + 1, k);
    ConvIsConvolution(Weights(net[m], k), ConstantsWithout(net, z, m, k), n);
  }

  // ---- signs -----------------------------------------------------------------------------------

  lemma {:induction false} ThinkWeightSign(z: real, j: nat)
    requires z >= 0.0
    ensures ThinkWeight(z, j) >= 0.0
    ensures z > 0.0 ==> ThinkWeight(z, j) > 0.0
  {
    if j > 0 {
      ThinkWeightSign(z, j - 1);
      QuotientSign(z, j as real);
      NonNegativeProduct(z / j as real, ThinkWeight(z, j - 1));
      if z > 0.0 {
        ProductSign(z / j as real, ThinkWeight(z, j - 1));
      }
    }
  }

  lemma FactorsNormal(net: seq<Station>, z: real, k: nat)
    requires z >= 0.0
    ensures var fs := Factors(net, z, k); AllOfLength(fs, k) && forall i :: 0 <= i < |fs| ==> Normal(fs[i], k)
  {
    hide Weight, ThinkWeight;
    var fs := Factors(net, z, k);
    forall i | 0 <= i < |fs| ensures Normal(fs[i], k) {
      if i == 0 {
        ThinkNormal(z, k);
      } else {
        WeightsNormal(net[i - 1], k);
        assert fs[i] == Weights(net[i - 1], k);
      }
    }
  }

  lemma ThinkNormal(z: real, k: nat)
    requires z >= 0.0
    ensures Normal(ThinkWeights(z, k), k)
  {
    forall j | 0 <= j < k ensures ThinkWeight(z, j) >= 0.0 { ThinkWeightSign(z, j); }
  }

  lemma WeightsNormal(st: Station, k: nat)
    ensures Normal(Weights(st, k), k)
  {
  }

  lemma ConstantsPositive(net: seq<Station>, z: real, k: nat, n: nat)
    requires Solvable(net, z) && n < k
    ensures Constants(net, z, k)[n] > 0.0
  {
    hide Product;
    FactorsNormal(net, z, k);
    var fs := Factors(net, z, k);
    ProductNormal(fs, k);
    if z > 0.0 {
      ThinkWeightSign(z, n);
      assert Product(fs, k)[n] >= fs[0][n];
    } else {
      assert Product(fs, k)[n] >= fs[1][n] == Weight(net[0], n);
    }
  }

  /** A station is alone when the network holds nothing else that could hold a customer. */
  predicate Alone(net: seq<Station>, z: real) {
    |net| == 1 && z == 0.0
  }

  lemma ConstantsWithoutSign(net: seq<Station>, z: real, m: nat, k: nat, n: nat)
    requires Solvable(net, z) && m < |net| && n < k
    ensures ConstantsWithout(net, z, m, k)[n] >= 0.0
    ensures n == 0 ==> ConstantsWithout(net, z, m, k)[n] == 1.0
    ensures n > 0 ==> (ConstantsWithout(net, z, m, k)[n] == 0.0 <==> Alone(net, z))
  {
    hide Product;
    FactorsNormal(net, z, k);
    var fs := Factors(net, z, k);
    var rest := Without(fs, m + 1);
    ProductNormal(rest, k);
    if z > 0.0 {
      ThinkWeightSign(z, n);
      assert Product(rest, k)[n] >= rest[0][n];
    } else if |net| > 1 {
      var other := if m == 0 then 1 else 0;
      assert 1 < |rest| && rest[1] == fs[other + 1];
      assert fs[other + 1][n] == Weight(net[other], n) > 0.0;
      assert Product(rest, k)[n] >= rest[1][n];
    } else {
      ThinkOnly(rest, k, n);
    }
  }

  lemma ThinkOnly(rest: seq<seq<real>>, k: nat, n: nat)
    requires rest == [ThinkWeights(0.0, k)] && n < k
    ensures Product(rest, k)[n] == if n == 0 then 1.0 else 0.0
  {
    assert forall j :: 1 <= j < k ==> ThinkWeight(0.0, j) == 0.0;
    assert ThinkWeights(0.0, k) == One(k);
    assert rest[1..] == [];
    ConvOne(One(k), k, n);
  }

  lemma ConvOne(f: seq<real>, k: nat, n: nat)
    requires |f| == k && n < k
    ensures Conv(f, One(k))[n] == f[n]
  {
    hide Conv;
    ConvIsConvolution(f, One(k), n);
    var terms := ConvTerms(f, One(k), n);
    assert forall j :: 0 <= j < n ==> terms[j] == 0.0;
    assert terms[n] == f[n];
    SumZero(terms[..n]);
    SumStep(terms, n);
    assert terms[..n + 1] == terms;
  }

  // ---- response times --------------------------------------------------------------------------

  /** What the solver state of one station means at population n, given the constants. */
  ghost predicate InProductForm(st: Station, q: QueueState, g: seq<real>, rest: seq<real>, n: nat)
    requires n < |g| && |rest| == |g|
  {
    var f := Weights(st, |g|);
    if st.kind.LoadDependent? then
      n < |q.p| && forall j :: 0 <= j <= n ==> q.p[j] * g[n] == ConvTerms(f, rest, n)[j]
    else
      q.queueLength * g[n] == Conv(Derive(f), rest)[n]
  }

  /** A derived convolution loses its constant term. */
  lemma DerivedConvolution(f: seq<real>, rest: seq<real>, n: nat)
    requires n + 1 < |f| == |rest|
    ensures Conv(Derive(f), rest)[n + 1] == Sum(ConvTerms(Derive(f), rest, n + 1)[1..])
    ensures |ConvTerms(Derive(f), rest, n + 1)[1..]| == n + 1
  {
    hide Conv;
    ConvIsConvolution(Derive(f), rest, n + 1);
    var terms := ConvTerms(Derive(f), rest, n + 1);
    SumFront(terms);
    FirstDerivedTerm(f, rest, n);
  }

  lemma FirstDerivedTerm(f: seq<real>, rest: seq<real>, n: nat)
    requires n + 1 < |f| == |rest|
    ensures ConvTerms(Derive(f), rest, n + 1)[0] == 0.0
  {
    assert Derive(f)[0] == 0.0;
  }

  lemma DerivedTerm(f: seq<real>, rest: seq<real>, n: nat, i: nat)
    requires n + 1 < |f| == |rest| && i <= n
    ensures ConvTerms(Derive(f), rest, n + 1)[1..][i] == (i + 1) as real * f[i + 1] * rest[n - i]
  {
    assert Derive(f)[i + 1] == (i + 1) as real * f[i + 1];
  }

  /** The first n+1 steps of the series for a delay c, and of the one for a single server with demand c. */
  ghost predicate Exponential(f: seq<real>, c: real, n: nat)
    requires n + 1 < |f|
  {
    forall i :: 0 <= i <= n ==> (i + 1) as real * f[i + 1] == c * f[i]
  }

  ghost predicate Geometric(f: seq<real>, c: real, n: nat)
    requires n + 1 < |f|
  {
    forall i :: 0 <= i <= n ==> f[i + 1] == c * f[i]
  }

  /** A delay: the response is the constant c. */
  lemma DelayResponse(f: seq<real>, rest: seq<real>, c: real, n: nat)
    requires n + 1 < |f| == |rest|
    requires Exponential(f, c, n)
    ensures Conv(Derive(f), rest)[n + 1] == Times(c, Conv(f, rest)[n])
  {
    hide *;
    DerivedConvolution(f, rest, n);
    DelayTerms(f, rest, c, n);
    ConvIsConvolution(f, rest, n);
    SumScaledTimes(c, ConvTerms(f, rest, n));
  }

  lemma DelayTerms(f: seq<real>, rest: seq<real>, c: real, n: nat)
    requires n + 1 < |f| == |rest|
    requires Exponential(f, c, n)
    ensures ConvTerms(Derive(f), rest, n + 1)[1..] == Scaled(c, ConvTerms(f, rest, n))
  {
    hide Conv, Derive;
    var l, r := ConvTerms(Derive(f), rest, n + 1)[1..], Scaled(c, ConvTerms(f, rest, n));
    forall i | 0 <= i <= n ensures l[i] == r[i] { DelayTerm(f, rest, c, n, i); }
  }

  lemma DelayTerm(f: seq<real>, rest: seq<real>, c: real, n: nat, i: nat)
    requires n + 1 < |f| == |rest| && i <= n
    requires (i + 1) as real * f[i + 1] == c * f[i]
    ensures ConvTerms(Derive(f), rest, n + 1)[1..][i] == Scaled(c, ConvTerms(f, rest, n))[i]
  {
    DerivedTerm(f, rest, n, i);
    Associate(c, f[i], rest[n - i]);
  }

  lemma Associate(x: real, y: real, z: real)
    ensures x * y * z == x * (y * z)
  {
  }

  lemma DelayWeight(st: Station, i: nat)
    requires st.kind.DelayCenter?
    ensures (i + 1) as real * Weight(st, i + 1) == Demand(st) * Weight(st, i)
  {
    CancelQuotient((i + 1) as real, Demand(st), Weight(st, i));
  }

  lemma ThinkStep(z: real, i: nat)
    ensures (i + 1) as real * ThinkWeight(z, i + 1) == z * ThinkWeight(z, i)
  {
    CancelQuotient((i + 1) as real, z, ThinkWeight(z, i));
  }

  lemma CancelQuotient(d: real, c: real, w: real)
    requires d != 0.0
    ensures d * (c / d * w) == c * w
  {
    assert d * (c / d) == c;
    Associate(d, c / d, w);
  }

  /** Geometric series, as for a fixed-capacity station: the response grows with the queue. */
  lemma FixedResponse(f: seq<real>, rest: seq<real>, c: real, n: nat)
    requires n + 1 < |f| == |rest|
    requires Geometric(f, c, n)
    ensures Conv(Derive(f), rest)[n + 1] == Times(c, Conv(f, rest)[n] + Conv(Derive(f), rest)[n])
  {
    hide *;
    var both := Add(ConvTerms(f, rest, n), ConvTerms(Derive(f), rest, n));
    DerivedConvolution(f, rest, n);
    FixedTerms(f, rest, c, n);
    SumOfAdd(ConvTerms(f, rest, n), ConvTerms(Derive(f), rest, n));
    ConvIsConvolution(f, rest, n);
    ConvIsConvolution(Derive(f), rest, n);
    SumScaledTimes(c, both);
  }

  lemma FixedTerms(f: seq<real>, rest: seq<real>, c: real, n: nat)
    requires n + 1 < |f| == |rest|
    requires Geometric(f, c, n)
    ensures ConvTerms(Derive(f), rest, n + 1)[1..]
         == Scaled(c, Add(ConvTerms(f, rest, n), ConvTerms(Derive(f), rest, n)))
  {
    hide Conv, Derive;
    var both := Add(ConvTerms(f, rest, n), ConvTerms(Derive(f), rest, n));
    var l, r := ConvTerms(Derive(f), rest, n + 1)[1..], Scaled(c, both);
    forall i | 0 <= i <= n ensures l[i] == r[i] { FixedTerm(f, rest, c, n, i); }
  }

  lemma FixedTerm(f: seq<real>, rest: seq<real>, c: real, n: nat, i: nat)
    requires n + 1 < |f| == |rest| && i <= n
    requires f[i + 1] == c * f[i]
    ensures ConvTerms(Derive(f), rest, n + 1)[1..][i]
         == c * (ConvTerms(f, rest, n)[i] + ConvTerms(Derive(f), rest, n)[i])
  {
    DerivedTerm(f, rest, n, i);
    FixedAlgebra(c, f[i], f[i + 1], i as real, rest[n - i]);
    assert Derive(f)[i] == i as real * f[i];
  }

  lemma FixedWeight(st: Station, i: nat)
    requires st.kind.FixedCapacity?
    ensures Weight(st, i + 1) == Demand(st) * Weight(st, i)
  {
  }

  lemma FixedAlgebra(c: real, a: real, b: real, i: real, o: real)
    requires b == c * a
    ensures (i + 1.0) * b * o == c * (a * o + i * a * o)
  {
    assert (i + 1.0) * b == i * b + b;
    assert (i + 1.0) * b * o == (i * b + b) * o == i * b * o + b * o;
    assert b * o == c * (a * o);
    assert i * b == c * (i * a);
    assert i * b * o == c * (i * a * o);
  }

  /** Load-dependent rates: the probabilities weight the reciprocal rates. */
  lemma LoadDependentResponse(st: Station, q: QueueState, g: seq<real>, rest: seq<real>, n: nat)
    requires st.kind.LoadDependent? && n + 1 < |g| == |rest|
    requires InProductForm(st, q, g, rest, n)
    ensures Times(Sum(ResponseTerms(st, q.p, n + 1)), g[n]) == Conv(Derive(Weights(st, |g|)), rest)[n + 1]
  {
    hide Conv, Weights, ConvTerms, Derive, Scaled, Sum, ResponseTerms;
    DerivedConvolution(Weights(st, |g|), rest, n);
    LoadDependentTerms(st, q, g, rest, n);
    SumScaled(g[n], ResponseTerms(st, q.p, n + 1));
  }

  lemma LoadDependentTerms(st: Station, q: QueueState, g: seq<real>, rest: seq<real>, n: nat)
    requires st.kind.LoadDependent? && n + 1 < |g| == |rest|
    requires InProductForm(st, q, g, rest, n)
    ensures ConvTerms(Derive(Weights(st, |g|)), rest, n + 1)[1..] == Scaled(g[n], ResponseTerms(st, q.p, n + 1))
  {
    hide Conv, Weights, Derive, InProductForm, Mu;
    var f := Weights(st, |g|);
    InProductFormRoom(st, q, g, rest, n);
    var l, r := ConvTerms(Derive(f), rest, n + 1)[1..], Scaled(g[n], ResponseTerms(st, q.p, n + 1));
    forall i | 0 <= i <= n ensures l[i] == r[i] { LoadDependentTerm(st, q, g, rest, n, i); }
  }

  lemma InProductFormRoom(st: Station, q: QueueState, g: seq<real>, rest: seq<real>, n: nat)
    requires st.kind.LoadDependent? && n < |g| == |rest| && InProductForm(st, q, g, rest, n)
    ensures n < |q.p|
  {
  }

  lemma LoadDependentTerm(st: Station, q: QueueState, g: seq<real>, rest: seq<real>, n: nat, i: nat)
    requires st.kind.LoadDependent? && n + 1 < |g| == |rest| && i <= n
    requires InProductForm(st, q, g, rest, n)
    ensures ConvTerms(Derive(Weights(st, |g|)), rest, n + 1)[1..][i] == Scaled(g[n], ResponseTerms(st, q.p, n + 1))[i]
  {
    hide Weight, Mu, Conv;
    var f := Weights(st, |g|);
    DerivedTerm(f, rest, n, i);
    LoadDependentWeight(st, i);
    assert q.p[i] * g[n] == ConvTerms(f, rest, n)[i] == f[i] * rest[n - i];
    LoadDependentAlgebra((i + 1) as real, Mu(st, i + 1), f[i], f[i + 1], rest[n - i], q.p[i], g[n]);
  }

  lemma LoadDependentWeight(st: Station, i: nat)
    requires st.kind.LoadDependent?
    ensures Weight(st, i + 1) * Mu(st, i + 1) == Weight(st, i)
  {
    hide Mu;
    CancelReciprocal(Mu(st, i + 1), Weight(st, i));
  }

  lemma CancelReciprocal(mu: real, w: real)
    requires mu > 0.0
    ensures 1.0 / mu * w * mu == w
  {
  }

  lemma LoadDependentAlgebra(k: real, mu: real, a: real, b: real, o: real, p: real, g: real)
    requires mu > 0.0 && b * mu == a && p * g == a * o
    ensures k * b * o == g * (p * k / mu)
  {
    assert p * g == b * mu * o;
    assert g * (p * k) == (k * b * o) * mu by {
      assert g * (p * k) == k * (p * g);
      assert k * (b * mu * o) == (k * b * o) * mu;
    }
    assert g * (p * k / mu) == g * (p * k) / mu;
  }

  /** What a station contributes to the cycle time, scaled by the constant of the population before. */
  lemma ResponseInProductForm(st: Station, q: QueueState, g: seq<real>, rest: seq<real>, n: nat)
    requires n + 1 < |g| == |rest| && g == Conv(Weights(st, |g|), rest)
    requires Sane(st, q, n) && InProductForm(st, q, g, rest, n)
    requires st.kind.LoadDependent? ==> st.visits == 1.0
    ensures Times(PerCycle(st, ResponseTime(st, q, n + 1)), g[n]) == Conv(Derive(Weights(st, |g|)), rest)[n + 1]
  {
    hide Conv, Weights, ResponseTime, InProductForm, Derive, Times, Distribution;
    if st.kind.LoadDependent? {
      RateResponse(st, q, g, rest, n);
    } else if st.kind.DelayCenter? {
      ConstantResponse(st, q, g, rest, n);
    } else {
      GrowingResponse(st, q, g, rest, n);
    }
  }

  lemma RateResponse(st: Station, q: QueueState, g: seq<real>, rest: seq<real>, n: nat)
    requires n + 1 < |g| == |rest| && st.kind.LoadDependent? && st.visits == 1.0
    requires InProductForm(st, q, g, rest, n)
    ensures Times(PerCycle(st, ResponseTime(st, q, n + 1)), g[n]) == Conv(Derive(Weights(st, |g|)), rest)[n + 1]
  {
    hide *;
    InProductFormRoom(st, q, g, rest, n);
    LoadDependentResponse(st, q, g, rest, n);
    RateDemand(st, q, n + 1, g[n]);
  }

  lemma ConstantResponse(st: Station, q: QueueState, g: seq<real>, rest: seq<real>, n: nat)
    requires n + 1 < |g| == |rest| && g == Conv(Weights(st, |g|), rest) && st.kind.DelayCenter?
    requires q.responseTime == st.serviceTime
    ensures Times(PerCycle(st, ResponseTime(st, q, n + 1)), g[n]) == Conv(Derive(Weights(st, |g|)), rest)[n + 1]
  {
    hide *;
    DelayWeights(st, |g|, n);
    DelayResponse(Weights(st, |g|), rest, Demand(st), n);
    DelayDemand(st, q, n + 1, g[n]);
  }

  lemma GrowingResponse(st: Station, q: QueueState, g: seq<real>, rest: seq<real>, n: nat)
    requires n + 1 < |g| == |rest| && g == Conv(Weights(st, |g|), rest) && st.kind.FixedCapacity?
    requires InProductForm(st, q, g, rest, n)
    ensures Times(PerCycle(st, ResponseTime(st, q, n + 1)), g[n]) == Conv(Derive(Weights(st, |g|)), rest)[n + 1]
  {
    hide *;
    FixedWeights(st, |g|, n);
    FixedResponse(Weights(st, |g|), rest, Demand(st), n);
    FixedDemand(st, q, g, rest, n);
  }

  lemma RateDemand(st: Station, q: QueueState, n: nat, x: real)
    requires st.kind.LoadDependent? && st.visits == 1.0 && n <= |q.p|
    ensures Times(PerCycle(st, ResponseTime(st, q, n)), x) == Times(Sum(ResponseTerms(st, q.p, n)), x)
  {
    hide Sum, ResponseTerms;
  }

  lemma DelayDemand(st: Station, q: QueueState, n: nat, x: real)
    requires st.kind.DelayCenter? && q.responseTime == st.serviceTime
    ensures Times(PerCycle(st, ResponseTime(st, q, n)), x) == Times(Demand(st), x)
  {
  }

  lemma FixedDemand(st: Station, q: QueueState, g: seq<real>, rest: seq<real>, n: nat)
    requires n < |g| == |rest| && st.kind.FixedCapacity? && InProductForm(st, q, g, rest, n)
    ensures Times(PerCycle(st, ResponseTime(st, q, n + 1)), g[n])
         == Times(Demand(st), g[n] + Conv(Derive(Weights(st, |g|)), rest)[n])
  {
    hide Conv, Weights, Derive;
    assert (1.0 + q.queueLength) * g[n] == g[n] + Conv(Derive(Weights(st, |g|)), rest)[n];
    Regroup(st.serviceTime, 1.0 + q.queueLength, st.visits, g[n]);
  }

  lemma Regroup(s: real, t: real, v: real, g: real)
    ensures s * t * v * g == v * s * (t * g)
  {
  }

  lemma DelayWeights(st: Station, k: nat, n: nat)
    requires st.kind.DelayCenter? && n + 1 < k
    ensures Exponential(Weights(st, k), Demand(st), n)
  {
    hide Weight, Demand;
    var f := Weights(st, k);
    forall i | 0 <= i <= n ensures (i + 1) as real * f[i + 1] == Demand(st) * f[i] { DelayWeight(st, i); }
  }

  lemma FixedWeights(st: Station, k: nat, n: nat)
    requires st.kind.FixedCapacity? && n + 1 < k
    ensures Geometric(Weights(st, k), Demand(st), n)
  {
    hide Weight, Demand;
    var f := Weights(st, k);
    forall i | 0 <= i <= n ensures f[i + 1] == Demand(st) * f[i] { FixedWeight(st, i); }
  }

  lemma ThinkExponential(z: real, k: nat, n: nat)
    requires n + 1 < k
    ensures Exponential(ThinkWeights(z, k), z, n)
  {
    hide ThinkWeight;
    var f := ThinkWeights(z, k);
    forall i | 0 <= i <= n ensures (i + 1) as real * f[i + 1] == z * f[i] { ThinkStep(z, i); }
  }

  // ---- throughput ------------------------------------------------------------------------------

  ghost predicate AllInProductForm(net: seq<Station>, z: real, qs: seq<QueueState>, k: nat, n: nat)
    requires n < k
  {
    && |qs| == |net|
    && forall m :: 0 <= m < |net| ==>
         InProductForm(net[m], qs[m], Constants(net, z, k), ConstantsWithout(net, z, m, k), n)
  }

  lemma StationShare(net: seq<Station>, z: real, qs: seq<QueueState>, k: nat, n: nat, m: nat)
    requires n + 1 < k && m < |net| && UnitVisits(net) && Roomy(net, qs, n + 1)
    requires AllSane(net, qs, n) && AllInProductForm(net, z, qs, k, n)
    ensures Demands(net, Responded(net, qs, n + 1))[m] * Constants(net, z, k)[n]
         == DerivedAt(Factors(net, z, k), m + 1, k)[n + 1]
  {
    hide Conv, Weights, InProductForm, Product, Without, Sane, ResponseTime;
    ConstantsConvolve(net, z, m, k, n);
    ResponseInProductForm(net[m], qs[m], Constants(net, z, k), ConstantsWithout(net, z, m, k), n);
  }

  lemma ThinkShare(net: seq<Station>, z: real, k: nat, n: nat)
    requires n + 1 < k
    ensures DerivedAt(Factors(net, z, k), 0, k)[n + 1] == Times(z, Constants(net, z, k)[n])
  {
    hide Conv, Product, Without, ThinkWeights, Times;
    var fs := Factors(net, z, k);
    ProductSplits(fs, 0, k);
    ThinkExponential(z, k, n);
    DelayResponse(ThinkWeights(z, k), Product(Without(fs, 0), k), z, n);
  }

  lemma StationShares(net: seq<Station>, z: real, qs: seq<QueueState>, k: nat, n: nat)
    requires n + 1 < k && UnitVisits(net) && Roomy(net, qs, n + 1)
    requires AllSane(net, qs, n) && AllInProductForm(net, z, qs, k, n)
    ensures Coefficients(DerivedParts(Factors(net, z, k), k), k, n + 1)
         == [DerivedAt(Factors(net, z, k), 0, k)[n + 1]]
            + Scaled(Constants(net, z, k)[n], Demands(net, Responded(net, qs, n + 1)))
  {
    hide DerivedAt, Constants, Demands, Responded, AllInProductForm, AllSane, Factors;
    var fs := Factors(net, z, k);
    var demands := Demands(net, Responded(net, qs, n + 1));
    var l := Coefficients(DerivedParts(fs, k), k, n + 1);
    var r := [DerivedAt(fs, 0, k)[n + 1]] + Scaled(Constants(net, z, k)[n], demands);
    forall i | 0 <= i < |l| ensures l[i] == r[i] {
      if i > 0 { StationShare(net, z, qs, k, n, i - 1); }
    }
  }

  /** Throughput is the quotient of successive normalisation constants. */
  lemma ThroughputIsQuotient(net: seq<Station>, z: real, qs: seq<QueueState>, k: nat, n: nat)
    requires n + 1 < k && UnitVisits(net) && Solvable(net, z) && Roomy(net, qs, n + 1)
    requires AllSane(net, qs, n) && AllInProductForm(net, z, qs, k, n)
    ensures Throughput(net, z, qs, n + 1) * Constants(net, z, k)[n + 1] == Constants(net, z, k)[n]
  {
    hide Constants, Demands, Responded, AllInProductForm, AllSane, Factors, Scaled, DerivedParts, DerivedAt;
    var g := Constants(net, z, k);
    CycleTimesConstant(net, z, qs, k, n);
    CyclePositive(net, z, qs, n);
    QuotientOfConstants((n + 1) as real, z + TotalResponse(net, qs, n + 1), g[n], g[n + 1]);
  }

  lemma CycleTimesConstant(net: seq<Station>, z: real, qs: seq<QueueState>, k: nat, n: nat)
    requires n + 1 < k && UnitVisits(net) && Roomy(net, qs, n + 1)
    requires AllSane(net, qs, n) && AllInProductForm(net, z, qs, k, n)
    ensures (z + TotalResponse(net, qs, n + 1)) * Constants(net, z, k)[n]
         == (n + 1) as real * Constants(net, z, k)[n + 1]
  {
    hide AllInProductForm, AllSane, Factors, Scaled, DerivedParts, DerivedAt, Product, Demands, Responded;
    var fs := Factors(net, z, k);
    var demands := Demands(net, Responded(net, qs, n + 1));
    var g := Constants(net, z, k);
    ProductRuleAt(fs, k, n + 1);
    DeriveAt(g, n + 1);
    StationShares(net, z, qs, k, n);
    ThinkShare(net, z, k, n);
    var shares := Scaled(g[n], demands);
    SumFront([DerivedAt(fs, 0, k)[n + 1]] + shares);
    assert ([DerivedAt(fs, 0, k)[n + 1]] + shares)[1..] == shares;
    SumScaled(g[n], demands);
  }

  lemma QuotientOfConstants(n: real, cycle: real, g: real, g': real)
    requires cycle > 0.0 && n > 0.0 && cycle * g == n * g'
    ensures n / cycle * g' == g
  {
    assert n / cycle * g' == n * g' / cycle;
    assert cycle * g / cycle == g;
  }

  // ---- the update ------------------------------------------------------------------------------

  /** Neither clamp of the update changes a value. */
  ghost predicate ClampFree(st: Station, p: seq<real>, x: real, n: nat)
    requires n < |p|
  {
    && (forall j :: 1 <= j <= n ==> RawEntry(st, p, x, j) >= 0.0)
    && (p[0] > 0.0 ==> Sum(UpdatedTail(st, p, x, n)) <= 1.0)
  }

  /** What the update needs to know about the constants around population n. */
  ghost predicate Neighbours(st: Station, g: seq<real>, rest: seq<real>, x: real, n: nat)
    requires n + 1 < |g| == |rest|
  {
    && x > 0.0 && g[n] > 0.0 && g[n + 1] > 0.0
    && x * g[n + 1] == g[n]
    && g == Conv(Weights(st, |g|), rest)
    && rest[n + 1] >= 0.0
    && (rest[n] == 0.0 ==> rest[n + 1] == 0.0)
  }

  lemma TailInProductForm(st: Station, q: QueueState, g: seq<real>, rest: seq<real>, x: real, n: nat, j: nat)
    requires st.kind.LoadDependent? && n + 1 < |g| == |rest| && 1 <= j <= n + 1 < |q.p|
    requires Neighbours(st, g, rest, x, n) && Distribution(q.p, n) && InProductForm(st, q, g, rest, n)
    ensures UpdatedP(st, q.p, x, n + 1)[j] * g[n + 1] == ConvTerms(Weights(st, |g|), rest, n + 1)[j]
  {
    hide Weight, Mu, Conv, UpdatedP, UpdatedTail;
    var f := Weights(st, |g|);
    TailEntry(st, q.p, x, n + 1, j);
    LoadDependentWeight(st, j - 1);
    assert q.p[j - 1] * g[n] == ConvTerms(f, rest, n)[j - 1] == f[j - 1] * rest[n - (j - 1)];
    TailAlgebra(x, Mu(st, j), q.p[j - 1], g[n], g[n + 1], f[j - 1], f[j], rest[n + 1 - j]);
    assert ConvTerms(f, rest, n + 1)[j] == f[j] * rest[n + 1 - j];
  }

  lemma TailAlgebra(x: real, mu: real, p: real, g: real, g': real, a: real, b: real, o: real)
    requires mu > 0.0 && x * g' == g && p * g == a * o && b * mu == a
    ensures x / mu * p * g' == b * o
  {
    assert x / mu * p * g' == (x * g') * p / mu;
    assert g * p == b * o * mu by { assert b * mu * o == b * o * mu; }
    assert b * o * mu / mu == b * o;
  }

  lemma TailSum(st: Station, q: QueueState, g: seq<real>, rest: seq<real>, x: real, n: nat)
    requires st.kind.LoadDependent? && n + 1 < |g| == |rest| && n + 1 < |q.p|
    requires Neighbours(st, g, rest, x, n) && Distribution(q.p, n) && InProductForm(st, q, g, rest, n)
    ensures Sum(UpdatedTail(st, q.p, x, n + 1)) * g[n + 1] == g[n + 1] - rest[n + 1]
  {
    hide Conv, Weights, Mu, Scaled, Sum, ConvTerms, UpdatedP, UpdatedTail, RawEntry, Distribution, InProductForm;
    var f := Weights(st, |g|);
    var tail := UpdatedTail(st, q.p, x, n + 1);
    var terms := ConvTerms(f, rest, n + 1);
    ScaledTail(st, q, g, rest, x, n);
    SumScaled(g[n + 1], tail);
    SumFront(terms);
    ConvIsConvolution(f, rest, n + 1);
    FirstConvTerm(st, |g|, rest, n + 1);
  }

  lemma FirstConvTerm(st: Station, k: nat, rest: seq<real>, n: nat)
    requires n < k == |rest|
    ensures ConvTerms(Weights(st, k), rest, n)[0] == rest[n]
  {
    assert Weights(st, k)[0] == 1.0;
  }

  lemma ScaledTail(st: Station, q: QueueState, g: seq<real>, rest: seq<real>, x: real, n: nat)
    requires st.kind.LoadDependent? && n + 1 < |g| == |rest| && n + 1 < |q.p|
    requires Neighbours(st, g, rest, x, n) && Distribution(q.p, n) && InProductForm(st, q, g, rest, n)
    ensures Scaled(g[n + 1], UpdatedTail(st, q.p, x, n + 1)) == ConvTerms(Weights(st, |g|), rest, n + 1)[1..]
  {
    hide Conv, Weights, Mu, ConvTerms, UpdatedP, RawEntry, InProductForm;
    var tail := UpdatedTail(st, q.p, x, n + 1);
    var l, r := Scaled(g[n + 1], tail), ConvTerms(Weights(st, |g|), rest, n + 1)[1..];
    forall i | 0 <= i <= n ensures l[i] == r[i] {
      TailEntry(st, q.p, x, n + 1, i + 1);
      TailInProductForm(st, q, g, rest, x, n, i + 1);
      assert l[i] == g[n + 1] * tail[i];
    }
  }

  lemma HeadInProductForm(st: Station, q: QueueState, g: seq<real>, rest: seq<real>, x: real, n: nat)
    requires st.kind.LoadDependent? && n + 1 < |g| == |rest| && n + 1 < |q.p|
    requires Neighbours(st, g, rest, x, n) && Distribution(q.p, n) && InProductForm(st, q, g, rest, n)
    ensures UpdatedHead(st, q.p, x, n + 1) * g[n + 1] == rest[n + 1]
    ensures q.p[0] > 0.0 ==> Sum(UpdatedTail(st, q.p, x, n + 1)) <= 1.0
  {
    hide Conv, Weights, Mu, ConvTerms, UpdatedTail, Distribution;
    TailSum(st, q, g, rest, x, n);
    HeadAlgebra(Sum(UpdatedTail(st, q.p, x, n + 1)), g[n + 1], rest[n + 1]);
    if q.p[0] <= 0.0 {
      FirstConvTerm(st, |g|, rest, n);
      assert q.p[0] * g[n] == rest[n];
      EmptyHead(st, q.p, n);
    }
  }

  lemma EmptyHead(st: Station, p: seq<real>, n: nat)
    requires Distribution(p, n) && p[0] <= 0.0
    ensures p[0] == 0.0
  {
  }

  lemma HeadAlgebra(s: real, g: real, o: real)
    requires g > 0.0 && o >= 0.0 && s * g == g - o
    ensures (1.0 - s) * g == o && s <= 1.0
  {
    assert (1.0 - s) * g == o;
    FactorSign(1.0 - s, g);
  }

  lemma FactorSign(t: real, g: real)
    requires g > 0.0 && t * g >= 0.0
    ensures t >= 0.0
  {
  }

  lemma UpdateInProductForm(st: Station, q: QueueState, g: seq<real>, rest: seq<real>, x: real, n: nat)
    requires st.kind.LoadDependent? && n + 1 < |g| == |rest| && n + 1 < |q.p|
    requires Neighbours(st, g, rest, x, n) && Distribution(q.p, n) && InProductForm(st, q, g, rest, n)
    ensures InProductForm(st, UpdatedQueue(st, q, x, n + 1), g, rest, n + 1)
    ensures ClampFree(st, q.p, x, n + 1)
  {
    hide Conv, Weights, Mu, ConvTerms, UpdatedTail, UpdatedHead, RawEntry, UpdatedP;
    HeadInProductForm(st, q, g, rest, x, n);
    FirstConvTerm(st, |g|, rest, n + 1);
    UpdatedFirst(st, q.p, x, n + 1);
    var r := UpdatedP(st, q.p, x, n + 1);
    var terms := ConvTerms(Weights(st, |g|), rest, n + 1);
    forall j | 0 <= j <= n + 1 ensures r[j] * g[n + 1] == terms[j] {
      if j > 0 { TailInProductForm(st, q, g, rest, x, n, j); }
    }
    forall j | 1 <= j <= n + 1 ensures RawEntry(st, q.p, x, j) >= 0.0 { TailEntry(st, q.p, x, n + 1, j); }
  }

  lemma UpdatedFirst(st: Station, p: seq<real>, x: real, n: nat)
    requires n < |p|
    ensures UpdatedP(st, p, x, n)[0] == UpdatedHead(st, p, x, n)
  {
  }

  lemma QueueInProductForm(x: real, v: real, r: real, g: real, g': real, d: real)
    requires x * g' == g && r * v * g == d
    ensures x * v * r * g' == d
  {
    assert x * v * r * g' == r * v * (x * g');
  }

  lemma StationKeepsProductForm(net: seq<Station>, z: real, qs: seq<QueueState>, k: nat, n: nat, m: nat)
    requires n + 1 < k && m < |net| && UnitVisits(net) && Solvable(net, z) && Roomy(net, qs, n + 1)
    requires AllSane(net, qs, n) && AllInProductForm(net, z, qs, k, n)
    ensures InProductForm(net[m], Iteration(net, z, qs, n + 1)[m],
                          Constants(net, z, k), ConstantsWithout(net, z, m, k), n + 1)
    ensures net[m].kind.LoadDependent? ==> ClampFree(net[m], qs[m].p, Throughput(net, z, qs, n + 1), n + 1)
  {
    hide Conv, Weights, Product, Without, Constants, ConstantsWithout, Throughput, ResponseTime, UpdatedP, ClampFree,
         Distribution;
    var g, rest := Constants(net, z, k), ConstantsWithout(net, z, m, k);
    var x := Throughput(net, z, qs, n + 1);
    var q := Responded(net, qs, n + 1)[m];
    ConstantsConvolve(net, z, m, k, n);
    ThroughputIsQuotient(net, z, qs, k, n);
    if net[m].kind.LoadDependent? {
      NeighboursHold(net, z, qs, k, n, m);
      assert InProductForm(net[m], q, g, rest, n);
      UpdateInProductForm(net[m], q, g, rest, x, n);
    } else {
      ResponseInProductForm(net[m], qs[m], g, rest, n);
      var derived := Conv(Derive(Weights(net[m], k)), rest);
      QueueInProductForm(x, net[m].visits, q.responseTime, g[n], g[n + 1], derived[n + 1]);
    }
  }

  lemma NeighboursHold(net: seq<Station>, z: real, qs: seq<QueueState>, k: nat, n: nat, m: nat)
    requires n + 1 < k && m < |net| && UnitVisits(net) && Solvable(net, z) && Roomy(net, qs, n + 1)
    requires AllSane(net, qs, n) && AllInProductForm(net, z, qs, k, n)
    ensures Neighbours(net[m], Constants(net, z, k), ConstantsWithout(net, z, m, k), Throughput(net, z, qs, n + 1), n)
  {
    hide Conv, Weights, Product, Without, Constants, ConstantsWithout, Throughput, AllSane, AllInProductForm;
    ConstantsConvolve(net, z, m, k, n);
    ThroughputIsQuotient(net, z, qs, k, n);
    CyclePositive(net, z, qs, n);
    ConstantsPositive(net, z, k, n);
    ConstantsPositive(net, z, k, n + 1);
    ConstantsWithoutSign(net, z, m, k, n);
    ConstantsWithoutSign(net, z, m, k, n + 1);
  }

  // ---- the theorem -----------------------------------------------------------------------------

  lemma {:induction false} RunInProductForm(net: seq<Station>, z: real, qs: seq<QueueState>, k: nat, n: nat)
    requires n < k && UnitVisits(net) && Solvable(net, z) && Fresh(net, qs, n)
    ensures AllInProductForm(net, z, Run(net, z, qs, n), k, n)
  {
    hide InProductForm, Constants, ConstantsWithout, Iteration;
    if n == 0 {
      forall m | 0 <= m < |net|
        ensures InProductForm(net[m], qs[m], Constants(net, z, k), ConstantsWithout(net, z, m, k), 0)
      {
        StartInProductForm(net, z, m, |qs[m].p|, k);
      }
    } else {
      RunInProductForm(net, z, qs, k, n - 1);
      RunKeepsDistributions(net, z, qs, n - 1);
      IterationKeepsProductForm(net, z, Run(net, z, qs, n - 1), k, n - 1);
    }
  }

  lemma IterationKeepsProductForm(net: seq<Station>, z: real, qs: seq<QueueState>, k: nat, n: nat)
    requires n + 1 < k && UnitVisits(net) && Solvable(net, z) && Roomy(net, qs, n + 1)
    requires AllSane(net, qs, n) && AllInProductForm(net, z, qs, k, n)
    ensures AllInProductForm(net, z, Iteration(net, z, qs, n + 1), k, n + 1)
  {
    hide InProductForm, Constants, ConstantsWithout, Iteration;
    forall m | 0 <= m < |net|
      ensures InProductForm(net[m], Iteration(net, z, qs, n + 1)[m], Constants(net, z, k), ConstantsWithout(net, z,
              m, k), n + 1)
    {
      StationKeepsProductForm(net, z, qs, k, n, m);
    }
  }

  lemma StartInProductForm(net: seq<Station>, z: real, m: nat, size: nat, k: nat)
    requires 0 < k && m < |net| && Solvable(net, z) && size >= 1
    ensures InProductForm(net[m], FreshQueue(net[m], size), Constants(net, z, k), ConstantsWithout(net, z, m, k), 0)
  {
    hide Conv, Weights, Product, Without, Constants, ConstantsWithout;
    var f, rest := Weights(net[m], k), ConstantsWithout(net, z, m, k);
    ConstantsWithoutSign(net, z, m, k, 0);
    ConstantsConvolve(net, z, m, k, 0);
    FirstConvTerm(net[m], k, rest, 0);
    SingleTerm(f, rest);
    ConvIsConvolution(Derive(f), rest, 0);
    SingleTerm(Derive(f), rest);
    DeriveAt(f, 0);
  }

  lemma SingleTerm(f: seq<real>, rest: seq<real>)
    requires 0 < |f| == |rest|
    ensures Sum(ConvTerms(f, rest, 0)) == f[0] * rest[0]
  {
    assert ConvTerms(f, rest, 0)[..0] == [];
  }

  // The product-form theorem, for every network whose load-dependent stations are visited once per cycle
  // and every population n: the throughput is G(n-1)/G(n); a load-dependent station holds j jobs with
  // probability F(j) G'(n-j) / G(n), where F are the station's weights and G' the constants without it;
  // and the mean queue length of any other station is the mean of that distribution.

  lemma ThroughputInRun(net: seq<Station>, z: real, qs: seq<QueueState>, k: nat, n: nat)
    requires 1 <= n < k && UnitVisits(net) && Solvable(net, z) && Fresh(net, qs, n)
    ensures Constants(net, z, k)[n] > 0.0
    ensures RunThroughput(net, z, qs, n) == Constants(net, z, k)[n - 1] / Constants(net, z, k)[n]
  {
    hide Constants, RunThroughput;
    ConstantsPositive(net, z, k, n);
    RunQuotient(net, z, qs, k, n);
    Divide(RunThroughput(net, z, qs, n), Constants(net, z, k)[n], Constants(net, z, k)[n - 1]);
  }

  lemma ProbabilityInRun(net: seq<Station>, z: real, qs: seq<QueueState>, k: nat, n: nat, m: nat, j: nat)
    requires n < k && UnitVisits(net) && Solvable(net, z) && Fresh(net, qs, n)
    requires m < |net| && net[m].kind.LoadDependent? && j <= n
    ensures Constants(net, z, k)[n] > 0.0
    ensures Run(net, z, qs, n)[m].p[j]
         == Weight(net[m], j) * ConstantsWithout(net, z, m, k)[n - j] / Constants(net, z, k)[n]
  {
    hide Constants, ConstantsWithout, Run, Weight;
    var rest := ConstantsWithout(net, z, m, k);
    ConstantsPositive(net, z, k, n);
    RunInProductForm(net, z, qs, k, n);
    assert ConvTerms(Weights(net[m], k), rest, n)[j] == Weight(net[m], j) * rest[n - j];
    Divide(Run(net, z, qs, n)[m].p[j], Constants(net, z, k)[n], Weight(net[m], j) * rest[n - j]);
  }

  lemma QueueLengthInRun(net: seq<Station>, z: real, qs: seq<QueueState>, k: nat, n: nat, m: nat)
    requires n < k && UnitVisits(net) && Solvable(net, z) && Fresh(net, qs, n)
    requires m < |net| && !net[m].kind.LoadDependent?
    ensures Constants(net, z, k)[n] > 0.0
    ensures Run(net, z, qs, n)[m].queueLength
         == Conv(Derive(Weights(net[m], k)), ConstantsWithout(net, z, m, k))[n] / Constants(net, z, k)[n]
  {
    hide Constants, ConstantsWithout, Run, Conv, Derive, Weights;
    ConstantsPositive(net, z, k, n);
    RunInProductForm(net, z, qs, k, n);
    Divide(Run(net, z, qs, n)[m].queueLength, Constants(net, z, k)[n],
           Conv(Derive(Weights(net[m], k)), ConstantsWithout(net, z, m, k))[n]);
  }

  lemma Divide(a: real, b: real, c: real)
    requires b > 0.0 && a * b == c
    ensures a == c / b
  {
  }

  lemma RunQuotient(net: seq<Station>, z: real, qs: seq<QueueState>, k: nat, n: nat)
    requires 1 <= n < k && UnitVisits(net) && Solvable(net, z) && Fresh(net, qs, n)
    ensures RunThroughput(net, z, qs, n) * Constants(net, z, k)[n] == Constants(net, z, k)[n - 1]
  {
    hide Constants, Throughput, AllInProductForm, AllSane;
    RunInProductForm(net, z, qs, k, n - 1);
    RunKeepsDistributions(net, z, qs, n - 1);
    ThroughputIsQuotient(net, z, Run(net, z, qs, n - 1), k, n - 1);
  }

  /** In such a network no clamp ever fires, and P[0] stays positive unless the station is alone. */
  lemma NoClampFires(net: seq<Station>, z: real, qs: seq<QueueState>, m: nat, n: nat)
    requires n >= 1 && m < |net| && net[m].kind.LoadDependent?
    requires UnitVisits(net) && Solvable(net, z) && Fresh(net, qs, n)
    ensures ClampFree(net[m], Run(net, z, qs, n - 1)[m].p, RunThroughput(net, z, qs, n), n)
    ensures Run(net, z, qs, n)[m].p[0] > 0.0 <==> !Alone(net, z)
    ensures Run(net, z, qs, n)[m].p[0] == 0.0 <==> Alone(net, z)
  {
    hide Constants, ConstantsWithout, Throughput, ClampFree, Iteration, Run;
    var k := n + 1;
    RunInProductForm(net, z, qs, k, n - 1);
    RunKeepsDistributions(net, z, qs, n - 1);
    StationKeepsProductForm(net, z, Run(net, z, qs, n - 1), k, n - 1, m);
    HeadOfRun(net, z, qs, m, n);
  }

  lemma HeadOfRun(net: seq<Station>, z: real, qs: seq<QueueState>, m: nat, n: nat)
    requires n >= 1 && m < |net| && net[m].kind.LoadDependent?
    requires UnitVisits(net) && Solvable(net, z) && Fresh(net, qs, n)
    ensures Run(net, z, qs, n)[m].p[0] > 0.0 <==> !Alone(net, z)
    ensures Run(net, z, qs, n)[m].p[0] == 0.0 <==> Alone(net, z)
  {
    hide Constants, ConstantsWithout, Run;
    var k := n + 1;
    RunInProductForm(net, z, qs, k, n);
    FirstConvTerm(net[m], k, ConstantsWithout(net, z, m, k), n);
    ConstantsPositive(net, z, k, n);
    ConstantsWithoutSign(net, z, m, k, n);
    HeadSign(Run(net, z, qs, n)[m].p[0], Constants(net, z, k)[n], ConstantsWithout(net, z, m, k)[n]);
  }

  lemma HeadSign(p: real, g: real, o: real)
    requires g > 0.0 && o >= 0.0 && p * g == o
    ensures p > 0.0 <==> o > 0.0
    ensures p == 0.0 <==> o == 0.0
  {
  }

  /** Each load-dependent station bounds the system throughput by its capacity, at every population. */
  lemma ThroughputWithinCapacity(net: seq<Station>, z: real, qs: seq<QueueState>, m: nat, n: nat)
    requires n >= 1 && m < |net| && net[m].kind.LoadDependent?
    requires UnitVisits(net) && Solvable(net, z) && Fresh(net, qs, n)
    ensures RunThroughput(net, z, qs, n)
         <= net[m].servers as real / net[m].serviceTime * (1.0 - Run(net, z, qs, n)[m].p[0])
    ensures RunThroughput(net, z, qs, n) <= net[m].servers as real / net[m].serviceTime
  {
    hide Run, Iteration, UpdatedP, Throughput, RunThroughput, AllSane;
    RunStep(net, z, qs, n);
    RunProbabilitiesSum(net, z, qs, m, n - 1);
    RunProbabilitiesSum(net, z, qs, m, n);
    var before := Run(net, z, qs, n - 1);
    UpdateOfStation(net, z, before, m, n);
    SaneEntries(net, before, m, n - 1);
    CapacityBound(net[m], before[m].p, RunThroughput(net, z, qs, n), n);
  }

  lemma SaneEntries(net: seq<Station>, qs: seq<QueueState>, m: nat, n: nat)
    requires AllSane(net, qs, n) && m < |net| && net[m].kind.LoadDependent?
    ensures forall j :: 0 <= j < |qs[m].p| ==> qs[m].p[j] >= 0.0
  {
  }

  lemma UpdateOfStation(net: seq<Station>, z: real, qs: seq<QueueState>, m: nat, n: nat)
    requires m < |net| && net[m].kind.LoadDependent? && Roomy(net, qs, n)
    ensures Iteration(net, z, qs, n)[m].p == UpdatedP(net[m], qs[m].p, Throughput(net, z, qs, n), n)
    ensures n < |qs[m].p|
  {
    hide Throughput, UpdatedP, ResponseTime;
  }

  /** The probabilities of a load-dependent station sum to 1, also when the station is alone. */
  lemma RunProbabilitiesSum(net: seq<Station>, z: real, qs: seq<QueueState>, m: nat, n: nat)
    requires m < |net| && net[m].kind.LoadDependent?
    requires UnitVisits(net) && Solvable(net, z) && Fresh(net, qs, n)
    ensures Sum(Run(net, z, qs, n)[m].p[..n + 1]) == 1.0
  {
    hide Constants, ConstantsWithout, Run, Conv, Weights, Scaled, ConvTerms;
    var k := n + 1;
    var g, rest := Constants(net, z, k)[n], ConstantsWithout(net, z, m, k);
    ConstantsPositive(net, z, k, n);
    RunInProductForm(net, z, qs, k, n);
    ConstantsConvolve(net, z, m, k, n);
    var p := Run(net, z, qs, n)[m].p[..n + 1];
    ScaledIs(g, p, ConvTerms(Weights(net[m], k), rest, n));
    SumScaled(g, p);
    UnitFactor(g, Sum(p), Sum(Scaled(g, p)));
  }

  lemma UnitFactor(g: real, s: real, r: real)
    requires g > 0.0 && r == g && r == g * s
    ensures s == 1.0
  {
  }

  lemma ScaledIs(c: real, s: seq<real>, t: seq<real>)
    requires |s| == |t| && forall j :: 0 <= j < |s| ==> s[j] * c == t[j]
    ensures Scaled(c, s) == t
  {
    var r := Scaled(c, s);
    forall j | 0 <= j < |s| ensures r[j] == t[j] {}
  }
}
