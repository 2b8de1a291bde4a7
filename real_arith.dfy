/** Facts about multiplying exact reals by a positive factor, used by the pixel-to-cell proofs. */
module RealArith {

  lemma ProductNonNegative(a: real, g: real)
    requires a >= 0.0 && g > 0.0
    ensures a * g >= 0.0
  {
  }

  lemma ProductPositive(a: real, g: real)
    requires a > 0.0 && g > 0.0
    ensures a * g > 0.0
  {
  }

  lemma MulAddOne(a: real, g: real)
    ensures (a + 1.0) * g == a * g + g
  {
  }

  /** Multiplying by a positive factor keeps `<=`. */
  lemma MulMonotone(a: real, b: real, g: real)
    requires a <= b && g > 0.0
    ensures a * g <= b * g
  {
    Distribute(a, b - a, g);
    ProductNonNegative(b - a, g);
  }

  lemma Distribute(a: real, d: real, g: real)
    ensures (a + d) * g == a * g + d * g
  {
  }

  /** Scaling `k <= q < k + 1` by a positive `g` with `q * g == v`. */
  lemma ScaleInterval(q: real, k: real, g: real, v: real)
    requires q * g == v && g > 0.0
    requires k <= q < k + 1.0
    ensures k * g <= v < k * g + g
  {
    ScaleLower(q, k, g, v);
    ScaleUpper(q, k, g, v);
  }

  lemma ScaleLower(q: real, k: real, g: real, v: real)
    requires q * g == v && g > 0.0
    requires k <= q
    ensures k * g <= v
  {
    MulMonotone(k, q, g);
  }

  lemma ScaleUpper(q: real, k: real, g: real, v: real)
    requires q * g == v && g > 0.0
    requires q < k + 1.0
    ensures v < k * g + g
  {
    ProductPositive(k + 1.0 - q, g);
    assert (k + 1.0 - q) * g == k * g + g - q * g;
  }

  /** Two whole-number multiples of `g` less than `g` apart are the same multiple. */
  lemma SameMultiple(a: int, b: int, gridSize: int, v: real)
    requires gridSize >= 1
    requires a as real * gridSize as real <= v < a as real * gridSize as real + gridSize as real
    requires b as real * gridSize as real <= v < b as real * gridSize as real + gridSize as real
    ensures a == b
  {
    NotBelow(a, b, gridSize, v);
    NotBelow(b, a, gridSize, v);
  }

  /** A multiple of `g` that is at most `v` is no further along than one whose square holds `v`. */
  lemma NotBelow(a: int, b: int, gridSize: int, v: real)
    requires gridSize >= 1
    requires v < a as real * gridSize as real + gridSize as real
    requires b as real * gridSize as real <= v
    ensures b <= a
  {
    var g := gridSize as real;
    if a < b {
      MulAddOne(a as real, g);
      MulMonotone(a as real + 1.0, b as real, g);
    }
  }
}
