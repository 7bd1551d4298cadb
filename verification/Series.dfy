/**
 Power series truncated to a fixed number of coefficients, and their products.

 The normalisation constants of a closed queueing network are the coefficients of a product of such
 series, one per station.
 */
module Series {
  import opened RealSums

  function Zero(k: nat): (r: seq<real>) {
    seq(k, i => 0.0)
  }

  function One(k: nat): (r: seq<real>) {
    seq(k, i => if i == 0 then 1.0 else 0.0)
  }

  function Add(a: seq<real>, b: seq<real>): (r: seq<real>)
    requires |a| == |b|
    ensures |r| == |a|
  {
    seq(|a|, i requires 0 <= i < |a| => a[i] + b[i])
  }

  /** Multiplication by the indeterminate; the highest coefficient falls off. */
  function Shift(a: seq<real>): (r: seq<real>)
    ensures |r| == |a|
  {
    if a == [] then [] else [0.0] + a[..|a| - 1]
  }

  /** Product, truncated to the length of g. */
  function Conv(f: seq<real>, g: seq<real>): (r: seq<real>)
    ensures |r| == |g|
  {
    if f == [] then Zero(|g|) else Add(Scaled(f[0], g), Shift(Conv(f[1..], g)))
  }

  /** The derivation that multiplies the coefficient of order j by j. */
  function Derive(f: seq<real>): (r: seq<real>)
    ensures |r| == |f|
  {
    seq(|f|, j requires 0 <= j < |f| => j as real * f[j])
  }

  function ConvTerms(f: seq<real>, g: seq<real>, n: nat): (r: seq<real>)
    requires n < |f| && n < |g|
    ensures |r| == n + 1
  {
    seq(n + 1, j requires 0 <= j <= n => f[j] * g[n - j])
  }

  /** The product is the convolution of the coefficients. */
  lemma {:induction false} ConvIsConvolution(f: seq<real>, g: seq<real>, n: nat)
    requires n < |f| && n < |g|
    ensures Conv(f, g)[n] == Sum(ConvTerms(f, g, n))
  {
    var terms := ConvTerms(f, g, n);
    SumFront(terms);
    if n == 0 {
      assert terms[1..] == [];
    } else {
      ConvIsConvolution(f[1..], g, n - 1);
      ConvTermsTail(f, g, n);
    }
    ConvAt(f, g, n);
  }

  lemma ConvTermsTail(f: seq<real>, g: seq<real>, n: nat)
    requires 0 < n < |f| && n < |g|
    ensures ConvTerms(f, g, n)[1..] == ConvTerms(f[1..], g, n - 1)
  {
    var l, r := ConvTerms(f, g, n)[1..], ConvTerms(f[1..], g, n - 1);
    forall j | 0 <= j < n ensures l[j] == r[j] {}
  }

  lemma ConvAt(f: seq<real>, g: seq<real>, n: nat)
    requires n < |f| && n < |g|
    ensures Conv(f, g)[n] == ConvTerms(f, g, n)[0] + (if n == 0 then 0.0 else Conv(f[1..], g)[n - 1])
  {
    var a, b := Scaled(f[0], g), Shift(Conv(f[1..], g));
    assert Add(a, b)[n] == a[n] + b[n];
    FirstTerm(f, g, n);
  }

  lemma FirstTerm(f: seq<real>, g: seq<real>, n: nat)
    requires n < |f| && n < |g|
    ensures ConvTerms(f, g, n)[0] == Scaled(f[0], g)[n]
  {
    assert ConvTerms(f, g, n)[0] == f[0] * g[n - 0];
    assert Scaled(f[0], g)[n] == f[0] * g[n];
  }

  lemma Distribute(c: real, x: real, y: real)
    ensures c * (x + y) == c * x + c * y && (x + y) * c == x * c + y * c
  {
  }

  lemma Exchange(c: real, d: real, x: real)
    ensures c * (d * x) == d * (c * x)
  {
  }

  lemma {:induction false} ConvZero(f: seq<real>, k: nat)
    ensures Conv(f, Zero(k)) == Zero(k)
  {
    if f != [] {
      ConvZero(f[1..], k);
      ScaledZero(f[0], k);
    }
  }

  lemma ScaledZero(c: real, k: nat)
    ensures Scaled(c, Zero(k)) == Zero(k)
  {
    var l, r := Scaled(c, Zero(k)), Zero(k);
    forall i | 0 <= i < k ensures l[i] == r[i] {}
  }

  lemma {:induction false} ConvShift(f: seq<real>, g: seq<real>)
    ensures Conv(f, Shift(g)) == Shift(Conv(f, g))
  {
    if f == [] {
      assert Shift(Zero(|g|)) == Zero(|g|);
    } else {
      ConvShift(f[1..], g);
      ScaledShift(f[0], g);
      ShiftAdd(Scaled(f[0], g), Shift(Conv(f[1..], g)));
    }
  }

  lemma {:induction false} ConvScaled(f: seq<real>, c: real, g: seq<real>)
    ensures Conv(f, Scaled(c, g)) == Scaled(c, Conv(f, g))
  {
    if f == [] {
      assert Scaled(c, Zero(|g|)) == Zero(|g|);
    } else {
      ConvScaled(f[1..], c, g);
      var r := Conv(f[1..], g);
      ScaledShift(c, r);
      ScaledAdd(c, Scaled(f[0], g), Shift(r));
      ScaledSwap(f[0], c, g);
    }
  }

  lemma ScaledShift(c: real, a: seq<real>)
    ensures Scaled(c, Shift(a)) == Shift(Scaled(c, a))
  {
    var l, r := Scaled(c, Shift(a)), Shift(Scaled(c, a));
    forall i | 0 <= i < |a| ensures l[i] == r[i] {}
  }

  lemma ScaledAdd(c: real, a: seq<real>, b: seq<real>)
    requires |a| == |b|
    ensures Scaled(c, Add(a, b)) == Add(Scaled(c, a), Scaled(c, b))
  {
    var l, r := Scaled(c, Add(a, b)), Add(Scaled(c, a), Scaled(c, b));
    forall i | 0 <= i < |a| ensures l[i] == r[i] { Distribute(c, a[i], b[i]); }
  }

  lemma ScaledSplit(c: real, d: real, a: seq<real>)
    ensures Scaled(c + d, a) == Add(Scaled(c, a), Scaled(d, a))
  {
    var l, r := Scaled(c + d, a), Add(Scaled(c, a), Scaled(d, a));
    forall i | 0 <= i < |a| ensures l[i] == r[i] { Distribute(a[i], c, d); }
  }

  lemma ScaledSwap(c: real, d: real, a: seq<real>)
    ensures Scaled(c, Scaled(d, a)) == Scaled(d, Scaled(c, a))
  {
    var l, r := Scaled(c, Scaled(d, a)), Scaled(d, Scaled(c, a));
    forall i | 0 <= i < |a| ensures l[i] == r[i] { Exchange(c, d, a[i]); }
  }

  lemma {:induction false} ConvAdd(f: seq<real>, g: seq<real>, h: seq<real>)
    requires |g| == |h|
    ensures Conv(f, Add(g, h)) == Add(Conv(f, g), Conv(f, h))
  {
    if f == [] {
      assert Add(Zero(|g|), Zero(|g|)) == Zero(|g|);
    } else {
      ConvAdd(f[1..], g, h);
      ScaledAdd(f[0], g, h);
      ShiftAdd(Conv(f[1..], g), Conv(f[1..], h));
      AddSwap(Scaled(f[0], g), Scaled(f[0], h), Shift(Conv(f[1..], g)), Shift(Conv(f[1..], h)));
    }
  }

  lemma SumOfAdd(a: seq<real>, b: seq<real>)
    requires |a| == |b|
    ensures Sum(Add(a, b)) == Sum(a) + Sum(b)
  {
    SumAdd(a, b, Add(a, b));
  }

  lemma ShiftAdd(a: seq<real>, b: seq<real>)
    requires |a| == |b|
    ensures Shift(Add(a, b)) == Add(Shift(a), Shift(b))
  {
  }

  lemma AddSwap(a: seq<real>, b: seq<real>, c: seq<real>, d: seq<real>)
    requires |a| == |b| == |c| == |d|
    ensures Add(Add(a, b), Add(c, d)) == Add(Add(a, c), Add(b, d))
  {
  }

  lemma AddFront(f: seq<real>, g: seq<real>)
    requires |f| == |g| && f != []
    ensures Add(f, g)[0] == f[0] + g[0] && Add(f, g)[1..] == Add(f[1..], g[1..])
  {
  }

  lemma ConvFront(f: seq<real>, g: seq<real>)
    requires f != []
    ensures Conv(f, g) == Add(Scaled(f[0], g), Shift(Conv(f[1..], g)))
  {
  }

  lemma {:induction false} ConvAddLeft(f: seq<real>, g: seq<real>, h: seq<real>)
    requires |f| == |g|
    ensures Conv(Add(f, g), h) == Add(Conv(f, h), Conv(g, h))
  {
    if f == [] {
      assert Add(Zero(|h|), Zero(|h|)) == Zero(|h|);
    } else {
      hide Conv, Add, Scaled, Shift;
      AddFront(f, g);
      ConvFront(f, h);
      ConvFront(g, h);
      ConvFront(Add(f, g), h);
      ConvAddLeft(f[1..], g[1..], h);
      ScaledSplit(f[0], g[0], h);
      ShiftAdd(Conv(f[1..], h), Conv(g[1..], h));
      AddSwap(Scaled(f[0], h), Scaled(g[0], h), Shift(Conv(f[1..], h)), Shift(Conv(g[1..], h)));
    }
  }

  /** Multiplying by two series in either order gives the same product. */
  lemma {:induction false} ConvLeftCommutes(a: seq<real>, b: seq<real>, c: seq<real>)
    ensures Conv(a, Conv(b, c)) == Conv(b, Conv(a, c))
  {
    if a == [] {
      ConvZero(b, |c|);
    } else {
      ConvLeftCommutes(a[1..], b, c);
      ConvAdd(b, Scaled(a[0], c), Shift(Conv(a[1..], c)));
      ConvScaled(b, a[0], c);
      ConvShift(b, Conv(a[1..], c));
    }
  }

  /** The product rule. */
  lemma {:induction false} Leibniz(f: seq<real>, g: seq<real>)
    ensures Derive(Conv(f, g)) == Add(Conv(Derive(f), g), Conv(f, Derive(g)))
  {
    if f == [] {
      assert Derive(Zero(|g|)) == Zero(|g|) == Add(Zero(|g|), Zero(|g|));
    } else {
      var rest := f[1..];
      var c := Conv(rest, g);
      Leibniz(rest, g);
      DeriveShift(c);
      DeriveTail(f);
      ConvAddLeft(Derive(rest), rest, g);
      var d := Conv(Derive(rest), g);
      var e := Conv(rest, Derive(g));
      ConvDerived(f, g);
      DeriveScaled(f[0], g);
      DeriveAdd(Scaled(f[0], g), Shift(c));
      RearrangeLeibniz(Scaled(f[0], Derive(g)), d, e, c);
    }
  }

  lemma DeriveTail(f: seq<real>)
    requires f != []
    ensures Derive(f)[1..] == Add(Derive(f[1..]), f[1..])
  {
    var rest := f[1..];
    var l, r := Derive(f)[1..], Add(Derive(rest), rest);
    forall j | 0 <= j < |rest| ensures l[j] == r[j] { Distribute(rest[j], j as real, 1.0); }
  }

  lemma DeriveScaled(c: real, g: seq<real>)
    ensures Derive(Scaled(c, g)) == Scaled(c, Derive(g))
  {
    var l, r := Derive(Scaled(c, g)), Scaled(c, Derive(g));
    forall j | 0 <= j < |g| ensures l[j] == r[j] { Exchange(j as real, c, g[j]); }
  }

  /** The constant term of a derived series is 0. */
  lemma ConvDerived(f: seq<real>, g: seq<real>)
    requires f != []
    ensures Conv(Derive(f), g) == Shift(Conv(Derive(f)[1..], g))
  {
    var l, r := Conv(Derive(f), g), Shift(Conv(Derive(f)[1..], g));
    assert Derive(f)[0] == 0.0;
    forall i | 0 <= i < |g| ensures l[i] == r[i] {}
  }

  lemma RearrangeLeibniz(a: seq<real>, d: seq<real>, e: seq<real>, c: seq<real>)
    requires |a| == |d| == |e| == |c|
    ensures Add(a, Shift(Add(Add(d, e), c))) == Add(Shift(Add(d, c)), Add(a, Shift(e)))
  {
  }

  lemma DeriveShift(c: seq<real>)
    ensures Derive(Shift(c)) == Shift(Add(Derive(c), c))
  {
    var l, r := Derive(Shift(c)), Shift(Add(Derive(c), c));
    forall j | 0 <= j < |c| ensures l[j] == r[j] {
      if j > 0 { Distribute(c[j - 1], (j - 1) as real, 1.0); }
    }
  }

  lemma DeriveAdd(a: seq<real>, b: seq<real>)
    requires |a| == |b|
    ensures Derive(Add(a, b)) == Add(Derive(a), Derive(b))
  {
    var l, r := Derive(Add(a, b)), Add(Derive(a), Derive(b));
    forall j | 0 <= j < |a| ensures l[j] == r[j] { Distribute(j as real, a[j], b[j]); }
  }

  // ---- products of several series --------------------------------------------------------------

  ghost predicate AllOfLength(fs: seq<seq<real>>, k: nat) {
    forall i :: 0 <= i < |fs| ==> |fs[i]| == k
  }

  function Product(fs: seq<seq<real>>, k: nat): (r: seq<real>)
    ensures |r| == k
  {
    if fs == [] then One(k) else Conv(fs[0], Product(fs[1..], k))
  }

  function Without(fs: seq<seq<real>>, i: nat): seq<seq<real>>
    requires i < |fs|
  {
    fs[..i] + fs[i + 1..]
  }

  lemma WithoutTail(fs: seq<seq<real>>, i: nat)
    requires 0 < i < |fs|
    ensures Without(fs, i) != [] && Without(fs, i)[0] == fs[0]
    ensures Without(fs, i)[1..] == Without(fs[1..], i - 1)
  {
  }

  /** Any one factor can be split off. */
  lemma {:induction false} ProductSplits(fs: seq<seq<real>>, i: nat, k: nat)
    requires i < |fs|
    ensures Product(fs, k) == Conv(fs[i], Product(Without(fs, i), k))
  {
    if i == 0 {
      assert Without(fs, 0) == fs[1..];
    } else {
      ProductSplits(fs[1..], i - 1, k);
      WithoutTail(fs, i);
      ConvLeftCommutes(fs[0], fs[i], Product(Without(fs[1..], i - 1), k));
    }
  }

  /** What factor i contributes to the derived product. */
  function DerivedAt(fs: seq<seq<real>>, i: nat, k: nat): (r: seq<real>)
    requires i < |fs|
    ensures |r| == k
  {
    Conv(Derive(fs[i]), Product(Without(fs, i), k))
  }

  function DerivedParts(fs: seq<seq<real>>, k: nat): (r: seq<seq<real>>)
    ensures |r| == |fs| && AllOfLength(r, k)
  {
    seq(|fs|, i requires 0 <= i < |fs| => DerivedAt(fs, i, k))
  }

  function SumAll(ss: seq<seq<real>>, k: nat): (r: seq<real>)
    requires AllOfLength(ss, k)
    ensures |r| == k
  {
    if ss == [] then Zero(k) else Add(ss[0], SumAll(ss[1..], k))
  }

  function Coefficients(ss: seq<seq<real>>, k: nat, n: nat): (r: seq<real>)
    requires AllOfLength(ss, k) && n < k
    ensures |r| == |ss|
  {
    seq(|ss|, i requires 0 <= i < |ss| => ss[i][n])
  }

  function ConvEach(f: seq<real>, ss: seq<seq<real>>, k: nat): (r: seq<seq<real>>)
    requires AllOfLength(ss, k)
    ensures AllOfLength(r, k)
  {
    seq(|ss|, i requires 0 <= i < |ss| => Conv(f, ss[i]))
  }

  lemma {:induction false} SumAllCoefficient(ss: seq<seq<real>>, k: nat, n: nat)
    requires AllOfLength(ss, k) && n < k
    ensures SumAll(ss, k)[n] == Sum(Coefficients(ss, k, n))
  {
    if ss != [] {
      SumAllCoefficient(ss[1..], k, n);
      SumFront(Coefficients(ss, k, n));
      assert Coefficients(ss, k, n)[1..] == Coefficients(ss[1..], k, n);
    }
  }

  lemma {:induction false} ConvSumAll(f: seq<real>, ss: seq<seq<real>>, k: nat)
    requires AllOfLength(ss, k)
    ensures Conv(f, SumAll(ss, k)) == SumAll(ConvEach(f, ss, k), k)
  {
    if ss == [] {
      ConvZero(f, k);
    } else {
      ConvSumAll(f, ss[1..], k);
      ConvAdd(f, ss[0], SumAll(ss[1..], k));
      assert ConvEach(f, ss, k)[1..] == ConvEach(f, ss[1..], k);
    }
  }

  lemma DeriveOne(k: nat)
    ensures Derive(One(k)) == Zero(k)
  {
  }

  /** Splitting off the first factor, in every contribution. */
  lemma DerivedPartsStep(fs: seq<seq<real>>, k: nat)
    requires fs != []
    ensures DerivedParts(fs, k)
         == [Conv(Derive(fs[0]), Product(fs[1..], k))] + ConvEach(fs[0], DerivedParts(fs[1..], k), k)
  {
    hide Conv, Derive;
    var tail := fs[1..];
    assert Without(fs, 0) == tail;
    var l := DerivedParts(fs, k);
    var r := [Conv(Derive(fs[0]), Product(tail, k))] + ConvEach(fs[0], DerivedParts(tail, k), k);
    forall i | 0 <= i < |fs| ensures l[i] == r[i] {
      if i > 0 {
        WithoutTail(fs, i);
        ConvLeftCommutes(fs[0], Derive(fs[i]), Product(Without(tail, i - 1), k));
      }
    }
  }

  /** The product rule for any number of factors. */
  lemma {:induction false} ProductRule(fs: seq<seq<real>>, k: nat)
    ensures Derive(Product(fs, k)) == SumAll(DerivedParts(fs, k), k)
  {
    hide Scaled, Derive, Conv, Add, DerivedParts, ConvEach;
    if fs == [] {
      DeriveOne(k);
    } else {
      var tail := fs[1..];
      var parts := ConvEach(fs[0], DerivedParts(tail, k), k);
      ProductRule(tail, k);
      Leibniz(fs[0], Product(tail, k));
      ConvSumAll(fs[0], DerivedParts(tail, k), k);
      DerivedPartsStep(fs, k);
      assert ([Conv(Derive(fs[0]), Product(tail, k))] + parts)[1..] == parts;
    }
  }

  lemma DeriveAt(f: seq<real>, n: nat)
    requires n < |f|
    ensures Derive(f)[n] == n as real * f[n]
  {
  }

  /** Product rule, read off at order n. */
  lemma ProductRuleAt(fs: seq<seq<real>>, k: nat, n: nat)
    requires n < k
    ensures Derive(Product(fs, k))[n] == Sum(Coefficients(DerivedParts(fs, k), k, n))
  {
    ProductRule(fs, k);
    SumAllCoefficient(DerivedParts(fs, k), k, n);
  }

  // ---- signs -----------------------------------------------------------------------------------

  /** A series whose constant term is 1 and which has no negative coefficient. */
  ghost predicate Normal(f: seq<real>, k: nat) {
    |f| == k && (k > 0 ==> f[0] == 1.0) && forall j :: 0 <= j < k ==> f[j] >= 0.0
  }

  lemma {:induction false} ConvNormal(f: seq<real>, g: seq<real>, k: nat)
    requires Normal(f, k) && Normal(g, k)
    ensures Normal(Conv(f, g), k)
    ensures forall j :: 0 <= j < k ==> Conv(f, g)[j] >= f[j] && Conv(f, g)[j] >= g[j]
  {
    forall n | 0 <= n < k
      ensures Conv(f, g)[n] >= f[n] && Conv(f, g)[n] >= g[n] && (n == 0 ==> Conv(f, g)[n] == 1.0)
    {
      ConvNormalAt(f, g, k, n);
    }
  }

  lemma ConvNormalAt(f: seq<real>, g: seq<real>, k: nat, n: nat)
    requires Normal(f, k) && Normal(g, k) && n < k
    ensures Conv(f, g)[n] >= f[n] && Conv(f, g)[n] >= g[n] && (n == 0 ==> Conv(f, g)[n] == 1.0)
  {
    ConvIsConvolution(f, g, n);
    var terms := ConvTerms(f, g, n);
    ConvTermsNormal(f, g, k, n);
    SumAtLeast(terms, 0);
    SumAtLeast(terms, n);
    if n == 0 {
      assert terms[..0] == [];
    }
  }

  lemma ConvTermsNormal(f: seq<real>, g: seq<real>, k: nat, n: nat)
    requires Normal(f, k) && Normal(g, k) && n < k
    ensures var terms := ConvTerms(f, g, n);
            && (forall j :: 0 <= j < |terms| ==> terms[j] >= 0.0)
            && terms[0] == g[n] && terms[n] == f[n]
  {
    var terms := ConvTerms(f, g, n);
    forall j | 0 <= j < |terms| ensures terms[j] >= 0.0 { NonNegativeProduct(f[j], g[n - j]); }
  }

  lemma NonNegativeProduct(x: real, y: real)
    requires x >= 0.0 && y >= 0.0
    ensures x * y >= 0.0
  {
  }

  lemma {:induction false} ProductNormal(fs: seq<seq<real>>, k: nat)
    requires AllOfLength(fs, k) && forall i :: 0 <= i < |fs| ==> Normal(fs[i], k)
    ensures Normal(Product(fs, k), k)
    ensures forall i, j :: 0 <= i < |fs| && 0 <= j < k ==> Product(fs, k)[j] >= fs[i][j]
  {
    if fs != [] {
      ProductNormal(fs[1..], k);
      ConvNormal(fs[0], Product(fs[1..], k), k);
      forall i, j | 0 <= i < |fs| && 0 <= j < k ensures Product(fs, k)[j] >= fs[i][j] {
        if i > 0 { assert fs[i] == fs[1..][i - 1]; }
      }
    }
  }
}
