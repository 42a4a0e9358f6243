/** Semantic similarity of class histograms. */
module Affinity {
  import opened Basics

  function Dot(a: seq<real>, b: seq<real>): real
    requires |a| == |b|
  {
    if a == [] then 0.0 else Dot(a[..|a| - 1], b[..|b| - 1]) + a[|a| - 1] * b[|b| - 1]
  }

  function NormProduct(a: seq<real>, b: seq<real>): real { Dot(a, a) * Dot(b, b) }

  predicate NonNegative(a: seq<real>) { forall i | 0 <= i < |a| :: a[i] >= 0.0 }

  /** An exact square root. */
  ghost predicate IsSqrt(sqrt: real -> real) {
    forall x | x >= 0.0 :: sqrt(x) >= 0.0 && sqrt(x) * sqrt(x) == x
  }

  lemma {:induction false} DotNonNegative(a: seq<real>, b: seq<real>)
    requires |a| == |b| && NonNegative(a) && NonNegative(b)
    ensures Dot(a, b) >= 0.0
    decreases |a|
  {
    if a != [] {
      DotNonNegative(a[..|a| - 1], b[..|b| - 1]);
      assert a[|a| - 1] * b[|b| - 1] >= 0.0;
    }
  }

  lemma {:induction false} SquaresNonNegative(a: seq<real>)
    ensures Dot(a, a) >= 0.0
    decreases |a|
  {
    if a != [] { SquaresNonNegative(a[..|a| - 1]); }
  }

  /** One step of Cauchy-Schwarz: d*d <= n*m survives adding one coordinate to both vectors. */
  lemma CauchyStep(d: real, n: real, m: real, x: real, y: real)
    requires n >= 0.0 && m >= 0.0 && d * d <= n * m
    ensures (d + x * y) * (d + x * y) <= (n + x * x) * (m + y * y)
  {
    var p, q := n * (y * y), m * (x * x);
    var c := d * (x * y);
    assert c * c <= p * q by {
      assert c * c == (d * d) * ((x * y) * (x * y));
      assert p * q == (n * m) * ((x * y) * (x * y));
      MulMono(d * d, n * m, (x * y) * (x * y));
    }
    TwiceRoot(c, p, q);
    assert (d + x * y) * (d + x * y) == d * d + 2.0 * c + (x * y) * (x * y);
    assert (n + x * x) * (m + y * y) == n * m + p + q + (x * y) * (x * y);
  }

  lemma MulMono(a: real, b: real, k: real)
    requires a <= b && k >= 0.0
    ensures a * k <= b * k
  {
  }

  /** c*c <= p*q with p, q >= 0 gives 2c <= p + q. */
  lemma TwiceRoot(c: real, p: real, q: real)
    requires p >= 0.0 && q >= 0.0 && c * c <= p * q
    ensures 2.0 * c <= p + q
  {
    assert (p + q) * (p + q) - 4.0 * (p * q) == (p - q) * (p - q);
    assert (2.0 * c) * (2.0 * c) == 4.0 * (c * c);
    BySquares(2.0 * c, p + q);
  }

  lemma BySquares(a: real, b: real)
    requires b >= 0.0 && a * a <= b * b
    ensures a <= b
  {
    if a > b {
      assert a * a - b * b == (a - b) * (a + b);
      Positive(a - b, a + b);
    }
  }

  lemma {:induction false} CauchySchwarz(a: seq<real>, b: seq<real>)
    requires |a| == |b|
    ensures Dot(a, b) * Dot(a, b) <= NormProduct(a, b)
    decreases |a|
  {
    if a != [] {
      var n := |a| - 1;
      CauchySchwarz(a[..n], b[..n]);
      SquaresNonNegative(a[..n]);
      SquaresNonNegative(b[..n]);
      CauchyStep(Dot(a[..n], b[..n]), Dot(a[..n], a[..n]), Dot(b[..n], b[..n]), a[n], b[n]);
    }
  }

  ghost function CosineOf(sqrt: real -> real, a: seq<real>, b: seq<real>): real {
    if |a| == 0 || |a| != |b| || Dot(a, a) <= 0.0 || Dot(b, b) <= 0.0 then 0.0
    else Ratio(Dot(a, b), sqrt(NormProduct(a, b)))
  }

  /** Cosine of two equal-length vectors; 0 when either is empty or null. */
  method Cosine(sqrt: real -> real, a: seq<real>, b: seq<real>) returns (r: real)
    requires IsSqrt(sqrt)
    ensures |a| == 0 || |a| != |b| ==> r == 0.0
    ensures |a| == |b| > 0 ==>
              if Dot(a, a) <= 0.0 || Dot(b, b) <= 0.0 then r == 0.0
              else r * sqrt(NormProduct(a, b)) == Dot(a, b)
    ensures NonNegative(a) && NonNegative(b) ==> 0.0 <= r <= 1.0
    ensures r == CosineOf(sqrt, a, b)
  {
    hide Dot, Ratio;
    if |a| == 0 || |a| != |b| { return 0.0; }
    NoDots();
    var dot, na, nb := 0.0, 0.0, 0.0;
    assert a[..0] == [] && b[..0] == [];
    for i := 0 to |a|
      invariant dot == Dot(a[..i], b[..i]) && na == Dot(a[..i], a[..i]) && nb == Dot(b[..i], b[..i])
    {
      DotStep(a, b, i);
      DotStep(a, a, i);
      DotStep(b, b, i);
      dot, na, nb := dot + a[i] * b[i], na + a[i] * a[i], nb + b[i] * b[i];
    }
    assert a[..|a|] == a && b[..|b|] == b;
    if na <= 0.0 || nb <= 0.0 { return 0.0; }
    CosineBounds(sqrt, a, b);
    assert na * nb == NormProduct(a, b);
    r := Ratio(dot, sqrt(na * nb));
  }

  function Ratio(d: real, s: real): real { if s == 0.0 then 0.0 else d / s }

  lemma NormPositive(a: seq<real>, b: seq<real>)
    requires Dot(a, a) > 0.0 && Dot(b, b) > 0.0
    ensures NormProduct(a, b) > 0.0
  {
    Positive(Dot(a, a), Dot(b, b));
  }

  lemma CosineBounds(sqrt: real -> real, a: seq<real>, b: seq<real>)
    requires IsSqrt(sqrt) && |a| == |b| && Dot(a, a) > 0.0 && Dot(b, b) > 0.0
    ensures sqrt(NormProduct(a, b)) > 0.0
    ensures Ratio(Dot(a, b), sqrt(NormProduct(a, b))) * sqrt(NormProduct(a, b)) == Dot(a, b)
    ensures NonNegative(a) && NonNegative(b) ==> 0.0 <= Ratio(Dot(a, b), sqrt(NormProduct(a, b))) <= 1.0
  {
    hide Dot, Ratio, NormProduct;
    NormPositive(a, b);
    CauchySchwarz(a, b);
    Positive(Dot(a, a), Dot(b, b));
    if NonNegative(a) && NonNegative(b) { DotNonNegative(a, b); }
    RootBound(Dot(a, b), NormProduct(a, b), sqrt(NormProduct(a, b)));
  }

  lemma RootBound(d: real, p: real, s: real)
    requires p > 0.0 && s >= 0.0 && s * s == p && d * d <= p
    ensures s > 0.0 && Ratio(d, s) * s == d
    ensures 0.0 <= d ==> 0.0 <= Ratio(d, s) <= 1.0
  {
    hide Ratio;
    BySquares(d, s);
    Quotient(d, s);
  }

  lemma Quotient(d: real, s: real)
    requires s > 0.0
    ensures Ratio(d, s) * s == d
    ensures 0.0 <= d <= s ==> 0.0 <= Ratio(d, s) <= 1.0
  {
  }

  lemma NoDots()
    ensures Dot([], []) == 0.0
  {
  }

  lemma DotStep(a: seq<real>, b: seq<real>, i: nat)
    requires i < |a| == |b|
    ensures Dot(a[..i + 1], b[..i + 1]) == Dot(a[..i], b[..i]) + a[i] * b[i]
  {
    assert a[..i + 1][..i] == a[..i] && b[..i + 1][..i] == b[..i];
  }
}
