/** Powers and geometric series: the arithmetic behind the segment counts and
    the per-level length and thickness of the fractal tree. */
module Series {

  /** n^k over the naturals. */
  function Pow(n: nat, k: nat): nat
  {
    if k == 0 then 1 else n * Pow(n, k - 1)
  }

  /** x^k over the reals. */
  function RealPow(x: real, k: nat): real
  {
    if k == 0 then 1.0 else x * RealPow(x, k - 1)
  }

  /** Number of nodes of a complete n-ary tree with L levels, counted the way
      the renderer produces them: one node, then n subtrees of L - 1 levels. */
  function TreeSize(n: nat, L: nat): nat
  {
    if L == 0 then 0 else 1 + n * TreeSize(n, L - 1)
  }

  /** The geometric series n^0 + n^1 + ... + n^(L-1). */
  function GeometricSum(n: nat, L: nat): nat
  {
    if L == 0 then 0 else GeometricSum(n, L - 1) + Pow(n, L - 1)
  }

  /** Adding one level at the root of the series is the same as adding it at the leaves. */
  lemma {:induction false} GeometricSumRootStep(n: nat, L: nat)
    ensures 1 + n * GeometricSum(n, L) == GeometricSum(n, L + 1)
  {
    if L > 0 {
      GeometricSumRootStep(n, L - 1);
      calc {
        1 + n * GeometricSum(n, L);
        1 + n * (GeometricSum(n, L - 1) + Pow(n, L - 1));
        1 + n * GeometricSum(n, L - 1) + n * Pow(n, L - 1);
        GeometricSum(n, L) + Pow(n, L);
        GeometricSum(n, L + 1);
      }
    }
  }

  /** A complete n-ary tree with L levels has n^0 + ... + n^(L-1) nodes. */
  lemma {:induction false} TreeSizeIsGeometricSum(n: nat, L: nat)
    ensures TreeSize(n, L) == GeometricSum(n, L)
  {
    if L > 0 {
      TreeSizeIsGeometricSum(n, L - 1);
      GeometricSumRootStep(n, L - 1);
    }
  }

  /** Closed form of the series: (n - 1) * (n^0 + ... + n^(L-1)) == n^L - 1. For n > 1
      this is (n^L - 1) / (n - 1); for n == 1 the series is L. */
  lemma {:induction false} GeometricSumClosedForm(n: nat, L: nat)
    ensures (n - 1) * GeometricSum(n, L) == Pow(n, L) - 1
    ensures n == 1 ==> GeometricSum(n, L) == L
  {
    if L > 0 {
      GeometricSumClosedForm(n, L - 1);
      ClosedFormStep(n, GeometricSum(n, L - 1), Pow(n, L - 1));
    }
  }

  /** The inductive step of the closed form, on plain integers. */
  lemma ClosedFormStep(n: int, g: int, q: int)
    requires (n - 1) * g == q - 1
    ensures (n - 1) * (g + q) == n * q - 1
    ensures n == 1 ==> g + q == g + 1
  {
  }
}
