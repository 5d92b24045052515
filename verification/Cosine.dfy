/** Cosine similarity (`EmbeddingsClient.cosine`) over the reals. `sqrt` stands for the
    square root; what a property needs of it is stated at the points where it is used. */
module Cosine {

  function Dot(a: seq<real>, b: seq<real>): real
    requires |a| == |b|
  {
    if a == [] then 0.0 else Dot(a[..|a| - 1], b[..|b| - 1]) + a[|a| - 1] * b[|b| - 1]
  }

  function Norm2(a: seq<real>): real {
    Dot(a, a)
  }

  function Cosine(sqrt: real -> real, a: seq<real>, b: seq<real>): real {
    if a == [] || b == [] || |a| != |b| then 0.0
    else
      var na, nb := sqrt(Norm2(a)), sqrt(Norm2(b));
      if na == 0.0 || nb == 0.0 then 0.0 else Dot(a, b) / (na * nb)
  }

  predicate RootAt(sqrt: real -> real, x: real) {
    sqrt(x) >= 0.0 && sqrt(x) * sqrt(x) == x
  }

  /** p * b - q * a, component by component. */
  function Combine(p: real, b: seq<real>, q: real, a: seq<real>): (r: seq<real>)
    requires |a| == |b|
    ensures |r| == |a| && forall k :: 0 <= k < |a| ==> r[k] == p * b[k] - q * a[k]
  {
    seq(|a|, k requires 0 <= k < |a| => p * b[k] - q * a[k])
  }

  function Scaled(k: real, a: seq<real>): (r: seq<real>)
    ensures |r| == |a| && forall i :: 0 <= i < |a| ==> r[i] == k * a[i]
  {
    seq(|a|, i requires 0 <= i < |a| => k * a[i])
  }

  // ------------------------------------------------------------------ sums of products

  lemma {:induction false} DotSymmetric(a: seq<real>, b: seq<real>)
    requires |a| == |b|
    ensures Dot(a, b) == Dot(b, a)
  {
    if a != [] { DotSymmetric(a[..|a| - 1], b[..|b| - 1]); }
  }

  lemma {:induction false} DotScaled(k: real, a: seq<real>, b: seq<real>)
    requires |a| == |b|
    ensures Dot(Scaled(k, a), b) == k * Dot(a, b)
  {
    if a != [] {
      var n := |a| - 1;
      DotScaled(k, a[..n], b[..n]);
      ScaledFront(k, a, n);
      Distribute(k, Dot(a[..n], b[..n]), a[n], b[n]);
    }
  }

  lemma ScaledFront(k: real, a: seq<real>, n: nat)
    requires n <= |a|
    ensures Scaled(k, a)[..n] == Scaled(k, a[..n])
  {
    forall i | 0 <= i < n ensures Scaled(k, a)[i] == Scaled(k, a[..n])[i] { assert a[..n][i] == a[i]; }
  }

  lemma CombineFront(p: real, b: seq<real>, q: real, a: seq<real>, n: nat)
    requires |a| == |b| && n <= |a|
    ensures Combine(p, b, q, a)[..n] == Combine(p, b[..n], q, a[..n])
  {
    forall i | 0 <= i < n ensures Combine(p, b, q, a)[i] == Combine(p, b[..n], q, a[..n])[i] {
      assert a[..n][i] == a[i] && b[..n][i] == b[i];
    }
  }

  lemma Distribute(k: real, d: real, x: real, y: real)
    ensures k * d + (k * x) * y == k * (d + x * y)
  {}

  /** Each component's square is a part of the squared norm. */
  lemma {:induction false} NormDominates(a: seq<real>, k: nat)
    requires k < |a|
    ensures Norm2(a) >= a[k] * a[k]
  {
    var n := |a| - 1;
    NormIsNonNegative(a[..n]);
    SquareSign(a[n], a[n] * a[n]);
    Unroll(a, a);
    if k < n { NormDominates(a[..n], k); }
  }

  lemma {:induction false} NormIsNonNegative(a: seq<real>)
    ensures Norm2(a) >= 0.0
  {
    if a != [] {
      NormIsNonNegative(a[..|a| - 1]);
      SquareSign(a[|a| - 1], a[|a| - 1] * a[|a| - 1]);
    }
  }

  lemma NormIsZero(a: seq<real>)
    ensures Norm2(a) <= 0.0 ==> forall k :: 0 <= k < |a| ==> a[k] == 0.0
  {
    forall k | 0 <= k < |a| && Norm2(a) <= 0.0 ensures a[k] == 0.0 {
      NormDominates(a, k);
      if a[k] != 0.0 { SameSign(a[k], a[k], Norm2(a)); }
    }
  }

  lemma SquareSign(x: real, m: real)
    requires x * x == m
    ensures m >= 0.0
    ensures x != 0.0 ==> m > 0.0
    ensures x == 0.0 ==> m == 0.0
  {
    if x != 0.0 { SameSign(x, x, m); }
  }

  /** Two factors of one sign; naming them apart keeps the product linear for the solver. */
  lemma SameSign(x: real, z: real, m: real)
    requires (x > 0.0 && z > 0.0) || (x < 0.0 && z < 0.0)
    ensures x * z <= m ==> m > 0.0
  {
    if x > 0.0 { assert x * z > 0.0; } else { assert x * z > 0.0; }
  }

  lemma {:induction false} NormOfCombine(p: real, b: seq<real>, q: real, a: seq<real>)
    requires |a| == |b|
    ensures Norm2(Combine(p, b, q, a)) == Expanded(p, Norm2(b), q, Norm2(a), Dot(a, b))
  {
    if a == [] {
      assert Combine(p, b, q, a) == [] && b == [];
      assert Norm2(a) == 0.0 && Norm2(b) == 0.0 && Dot(a, b) == 0.0;
      Zeros(p, q);
    } else {
      var n := |a| - 1;
      NormOfCombine(p, b[..n], q, a[..n]);
      CombineFront(p, b, q, a, n);
      var c := Combine(p, b, q, a);
      Unroll(c, c);
      Unroll(a, a);
      Unroll(b, b);
      Unroll(a, b);
      Grow(p, Norm2(b[..n]), q, Norm2(a[..n]), Dot(a[..n], b[..n]), b[n], a[n], c[n],
           Norm2(c[..n]), Norm2(b), Norm2(a), Dot(a, b), Norm2(c));
    }
  }

  lemma {:induction false} Unroll(a: seq<real>, b: seq<real>)
    requires |a| == |b| && a != []
    ensures Dot(a, b) == Dot(a[..|a| - 1], b[..|b| - 1]) + a[|a| - 1] * b[|b| - 1]
  {}

  /** |p * b - q * a| squared, from the squared norms nb and na and the dot product d. */
  function Expanded(p: real, nb: real, q: real, na: real, d: real): real {
    p * (p * nb) - 2.0 * (p * (q * d)) + q * (q * na)
  }

  lemma Zeros(p: real, q: real)
    ensures Expanded(p, 0.0, q, 0.0, 0.0) == 0.0
  {}

  lemma Grow(p: real, nb: real, q: real, na: real, d: real, y: real, x: real, w: real,
             nc: real, nb': real, na': real, d': real, nc': real)
    requires nc == Expanded(p, nb, q, na, d) && w == p * y - q * x
    requires nb' == nb + y * y && na' == na + x * x && d' == d + x * y && nc' == nc + w * w
    ensures nc' == Expanded(p, nb', q, na', d')
  {
    var u, v := p * y, q * x;
    assert w * w == u * u - 2.0 * (u * v) + v * v;
    assert u * u == p * (p * (y * y)) && v * v == q * (q * (x * x)) && u * v == p * (q * (x * y));
    assert p * (p * nb') == p * (p * nb) + p * (p * (y * y));
    assert q * (q * na') == q * (q * na) + q * (q * (x * x));
    assert p * (q * d') == p * (q * d) + p * (q * (x * y));
  }

  // ------------------------------------------------------------------ Cauchy-Schwarz

  /** The squared dot product is at most the product of the squared norms; when they are
      equal, the vectors are proportional. */
  lemma CauchySchwarz(a: seq<real>, b: seq<real>, p: real, q: real, n: real)
    requires |a| == |b| && p == Norm2(a) && q == Dot(a, b) && n == Norm2(b)
    ensures q * q <= p * n
    ensures q * q == p * n ==> forall k :: 0 <= k < |a| ==> p * b[k] == q * a[k]
  {
    var g := GapIsANorm(a, b, p, q, n);
    Gap(p, q, n, g);
  }

  lemma GapIsANorm(a: seq<real>, b: seq<real>, p: real, q: real, n: real) returns (g: real)
    requires |a| == |b| && p == Norm2(a) && q == Dot(a, b) && n == Norm2(b)
    ensures p >= 0.0 && g >= 0.0 && g == Expanded(p, n, q, p, q)
    ensures p == 0.0 ==> q == 0.0
    ensures g == 0.0 ==> forall k :: 0 <= k < |a| ==> p * b[k] == q * a[k]
  {
    g := Norm2(Combine(p, b, q, a));
    NormOfCombine(p, b, q, a);
    NormIsNonNegative(Combine(p, b, q, a));
    NormIsNonNegative(a);
    NormIsZero(a);
    if p == 0.0 { ZeroDot(a, b); }
    GapCloses(a, b, p, q);
  }

  /** No gap between q * q and p * n leaves nothing of p * b - q * a. */
  lemma Gap(p: real, q: real, n: real, g: real)
    requires p >= 0.0 && g >= 0.0 && g == Expanded(p, n, q, p, q)
    requires p == 0.0 ==> q == 0.0
    ensures q * q <= p * n
    ensures q * q == p * n ==> g == 0.0
  {
    var x, y := p * n, q * q;
    assert q * (q * p) == p * y;
    assert g == p * (x - y);
    BothPositive(p, y - x);
    assert p * (y - x) == -(p * (x - y));
  }

  lemma BothPositive(p: real, z: real)
    ensures p > 0.0 && z > 0.0 ==> p * z > 0.0
  {}

  lemma GapCloses(a: seq<real>, b: seq<real>, p: real, q: real)
    requires |a| == |b|
    ensures Norm2(Combine(p, b, q, a)) == 0.0 ==> forall k :: 0 <= k < |a| ==> p * b[k] == q * a[k]
  {
    var c := Combine(p, b, q, a);
    NormIsZero(c);
    forall k | 0 <= k < |a| && Norm2(c) == 0.0 ensures p * b[k] == q * a[k] {
      assert c[k] == p * b[k] - q * a[k];
    }
  }

  lemma {:induction false} ZeroDot(a: seq<real>, b: seq<real>)
    requires |a| == |b| && forall k :: 0 <= k < |a| ==> a[k] == 0.0
    ensures Dot(a, b) == 0.0
  {
    if a != [] { ZeroDot(a[..|a| - 1], b[..|b| - 1]); }
  }

  // ------------------------------------------------------------------ the similarity

  lemma RootSign(sqrt: real -> real, x: real)
    requires RootAt(sqrt, x)
    ensures sqrt(x) == 0.0 <==> x == 0.0
    ensures sqrt(x) != 0.0 ==> sqrt(x) > 0.0
  {
    SquareSign(sqrt(x), x);
  }

  lemma Quotient(d: real, m: real, c: real)
    requires m > 0.0 && c == d / m
    ensures c * m == d
  {}

  lemma UnitSquare(c: real, m2: real, d2: real)
    requires m2 > 0.0 && c * c * m2 == d2 && d2 <= m2
    ensures -1.0 <= c <= 1.0
    ensures c == 1.0 ==> d2 == m2
  {
    BigSquare(c);
    MoreThanOnce(c * c, m2);
  }

  lemma BigSquare(c: real)
    ensures c > 1.0 || c < -1.0 ==> c * c > 1.0
  {
    if c > 1.0 { assert c * c > c; }
    if c < -1.0 { assert (-c) * (-c) > -c; }
  }

  lemma MoreThanOnce(x: real, m: real)
    requires m > 0.0
    ensures x > 1.0 ==> x * m > m
  {
    if x > 1.0 { assert (x - 1.0) * m > 0.0; }
  }

  lemma ProductOfRoots(x: real, y: real, c: real)
    ensures (c * (x * y)) * (c * (x * y)) == c * c * ((x * x) * (y * y))
  {
    var m := x * y;
    assert (c * m) * (c * m) == c * c * (m * m);
    assert m * m == (x * x) * (y * y);
  }

  /** The similarity is in [-1, 1] for all vectors of all lengths. */
  lemma Bounded(sqrt: real -> real, a: seq<real>, b: seq<real>)
    requires RootAt(sqrt, Norm2(a)) && RootAt(sqrt, Norm2(b))
    ensures -1.0 <= Cosine(sqrt, a, b) <= 1.0
  {
    if a != [] && |a| == |b| {
      var na, nb := sqrt(Norm2(a)), sqrt(Norm2(b));
      RootSign(sqrt, Norm2(a));
      RootSign(sqrt, Norm2(b));
      if na != 0.0 && nb != 0.0 {
        var c := Cosine(sqrt, a, b);
        CosineEquation(sqrt, a, b, c);
        CauchySchwarz(a, b, Norm2(a), Dot(a, b), Norm2(b));
        UnitSquare(c, Norm2(a) * Norm2(b), Dot(a, b) * Dot(a, b));
      }
    }
  }

  /** c * |a| * |b| is the dot product. */
  lemma {:induction false} CosineEquation(sqrt: real -> real, a: seq<real>, b: seq<real>, c: real)
    requires a != [] && |a| == |b| && RootAt(sqrt, Norm2(a)) && RootAt(sqrt, Norm2(b))
    requires sqrt(Norm2(a)) != 0.0 && sqrt(Norm2(b)) != 0.0
    requires c == Cosine(sqrt, a, b)
    ensures sqrt(Norm2(a)) * sqrt(Norm2(b)) > 0.0 && Norm2(a) * Norm2(b) > 0.0
    ensures c * (sqrt(Norm2(a)) * sqrt(Norm2(b))) == Dot(a, b)
    ensures c * c * (Norm2(a) * Norm2(b)) == Dot(a, b) * Dot(a, b)
  {
    hide Dot, Norm2;
    var na, nb := sqrt(Norm2(a)), sqrt(Norm2(b));
    assert na * nb > 0.0;
    Quotient(Dot(a, b), na * nb, c);
    ProductOfRoots(na, nb, c);
    Positive(na, nb);
  }

  lemma Positive(x: real, y: real)
    requires x > 0.0 && y > 0.0
    ensures (x * x) * (y * y) > 0.0
  {
    assert x * x > 0.0 && y * y > 0.0;
  }

  lemma Symmetric(sqrt: real -> real, a: seq<real>, b: seq<real>)
    ensures Cosine(sqrt, a, b) == Cosine(sqrt, b, a)
  {
    if |a| == |b| {
      DotSymmetric(a, b);
      var na, nb := sqrt(Norm2(a)), sqrt(Norm2(b));
      assert na * nb == nb * na;
    }
  }

  lemma UniqueRoot(x: real, y: real)
    requires x >= 0.0 && y >= 0.0 && x * x == y * y
    ensures x == y
  {
    SquareGrows(x, y);
    SquareGrows(y, x);
  }

  lemma SquareGrows(x: real, y: real)
    requires x >= 0.0 && y >= 0.0
    ensures x < y ==> x * x < y * y
  {
    if x < y {
      var d := y - x;
      assert d * d > 0.0 && x * d >= 0.0;
      assert y * y == x * x + 2.0 * (x * d) + d * d;
    }
  }

  /** Stretching a vector by a positive factor changes nothing. */
  lemma {:induction false} ScaleInvariant(sqrt: real -> real, k: real, a: seq<real>, b: seq<real>)
    requires k > 0.0 && RootAt(sqrt, Norm2(a)) && RootAt(sqrt, Norm2(Scaled(k, a))) && RootAt(sqrt, Norm2(b))
    ensures Cosine(sqrt, Scaled(k, a), b) == Cosine(sqrt, a, b)
  {
    if a != [] && |a| == |b| {
      var ka := Scaled(k, a);
      var na, nk, nb := sqrt(Norm2(a)), sqrt(Norm2(ka)), sqrt(Norm2(b));
      DotScaled(k, a, b);
      NormScaled(k, a);
      assert (k * na) * (k * na) == k * k * (na * na);
      assert k * na >= 0.0;
      UniqueRoot(nk, k * na);
      RootSign(sqrt, Norm2(a));
      RootSign(sqrt, Norm2(b));
      assert k * na == 0.0 <==> na == 0.0;
      if na != 0.0 && nb != 0.0 {
        Cancel(k, Dot(a, b), na * nb);
        assert (k * na) * nb == k * (na * nb);
      }
    }
  }

  lemma NormScaled(k: real, a: seq<real>)
    ensures Norm2(Scaled(k, a)) == k * k * Norm2(a)
  {
    var ka := Scaled(k, a);
    DotScaled(k, a, ka);
    DotSymmetric(a, ka);
    DotScaled(k, a, a);
    assert k * (k * Norm2(a)) == k * k * Norm2(a);
  }

  lemma Cancel(k: real, d: real, m: real)
    requires k > 0.0 && m > 0.0
    ensures k * m > 0.0 && (k * d) / (k * m) == d / m
  {
    var c := d / m;
    assert k * m > 0.0;
    assert c * m == d;
    assert c * (k * m) == k * d;
    assert (k * d) / (k * m) == c by { Divided(c, k * m, k * d); }
  }

  lemma Divided(c: real, m: real, d: real)
    requires m > 0.0 && c * m == d
    ensures d / m == c
  {
    var e := d / m;
    assert e * m == d;
    assert (e - c) * m == 0.0;
  }

  /** The similarity is 1 exactly for non-zero vectors that are positive multiples of each
      other; in particular for a non-zero vector and itself. */
  lemma OneIffParallel(sqrt: real -> real, a: seq<real>, b: seq<real>)
    requires RootAt(sqrt, Norm2(a)) && RootAt(sqrt, Norm2(b))
    ensures Cosine(sqrt, a, b) == 1.0
            <==> |a| == |b| && Norm2(a) != 0.0 && exists k :: k > 0.0 && b == Scaled(k, a)
  {
    RootSign(sqrt, Norm2(a));
    RootSign(sqrt, Norm2(b));
    if Cosine(sqrt, a, b) == 1.0 {
      OneIsParallel(sqrt, a, b);
    }
    if |a| == |b| && Norm2(a) != 0.0 {
      forall k | k > 0.0 && b == Scaled(k, a) ensures Cosine(sqrt, a, b) == 1.0 {
        ParallelIsOne(sqrt, a, b, k);
      }
    }
  }

  lemma OneIsParallel(sqrt: real -> real, a: seq<real>, b: seq<real>)
    requires RootAt(sqrt, Norm2(a)) && RootAt(sqrt, Norm2(b)) && Cosine(sqrt, a, b) == 1.0
    ensures |a| == |b| && Norm2(a) != 0.0 && exists k :: k > 0.0 && b == Scaled(k, a)
  {
    RootSign(sqrt, Norm2(a));
    CosineEquation(sqrt, a, b, 1.0);
    CauchySchwarz(a, b, Norm2(a), Dot(a, b), Norm2(b));
    NormIsNonNegative(a);
    var p, q := Norm2(a), Dot(a, b);
    assert q > 0.0;
    var k := q / p;
    Proportion(p, q, k);
    forall i | 0 <= i < |a| ensures b[i] == Scaled(k, a)[i] { Solve(p, q, k, b[i], a[i]); }
    assert b == Scaled(k, a);
  }

  lemma Proportion(p: real, q: real, k: real)
    requires p > 0.0 && q > 0.0 && k == q / p
    ensures k > 0.0 && k * p == q
  {}

  lemma Solve(p: real, q: real, k: real, y: real, x: real)
    requires p > 0.0 && k * p == q && p * y == q * x
    ensures y == k * x
  {
    assert p * (k * x) == q * x;
    assert p * (y - k * x) == 0.0;
  }

  lemma ParallelIsOne(sqrt: real -> real, a: seq<real>, b: seq<real>, k: real)
    requires RootAt(sqrt, Norm2(a)) && RootAt(sqrt, Norm2(b))
    requires Norm2(a) != 0.0 && k > 0.0 && b == Scaled(k, a)
    ensures Cosine(sqrt, a, b) == 1.0
  {
    ScaleInvariant(sqrt, k, a, a);
    Symmetric(sqrt, a, b);
    RootSign(sqrt, Norm2(a));
    var na := sqrt(Norm2(a));
    Divided(1.0, na * na, Norm2(a));
  }

  /** The similarity is 0 exactly for vectors of different lengths or with dot product 0. */
  lemma {:induction false} ZeroIff(sqrt: real -> real, a: seq<real>, b: seq<real>)
    requires RootAt(sqrt, Norm2(a)) && RootAt(sqrt, Norm2(b))
    ensures Cosine(sqrt, a, b) == 0.0 <==> |a| != |b| || Dot(a, b) == 0.0
  {
    if a != [] && |a| == |b| {
      RootSign(sqrt, Norm2(a));
      RootSign(sqrt, Norm2(b));
      NormIsZero(a);
      NormIsZero(b);
      if Norm2(a) == 0.0 {
        ZeroDot(a, b);
      } else if Norm2(b) == 0.0 {
        ZeroDot(b, a);
        DotSymmetric(a, b);
      } else {
        var c := Cosine(sqrt, a, b);
        CosineEquation(sqrt, a, b, c);
      }
    }
  }
}
