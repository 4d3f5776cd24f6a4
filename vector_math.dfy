/** `EmbeddingService.cosineSimilarity` (src/lib/embeddingService.js:153-167).

    The source accumulates a dot product and two squared norms in one loop and
    returns `dotProduct / (Math.sqrt(normA) * Math.sqrt(normB))` as an IEEE
    double. Here the accumulation is exact `real` arithmetic, and the final
    square-root quotient is a parameter `quot` (the host's evaluation of that
    expression), because Dafny has no square root. A zero norm is kept as the
    source has it: the quotient is then 0/0, which is NaN. */
module VectorMath {
  import opened Common

  /** An embedding: the provider's fixed-length list of numbers. */
  type Vector = seq<real>

  /** `sum over i < n of a[i] * b[i]`, added in index order as the loop does. */
  function DotTo(a: Vector, b: Vector, n: nat): real
    requires n <= |a| && n <= |b|
  {
    if n == 0 then 0.0 else DotTo(a, b, n - 1) + a[n - 1] * b[n - 1]
  }

  /** `normA` after the loop: the sum of squares of `a`. */
  function SquaredNorm(a: Vector): real {
    DotTo(a, a, |a|)
  }

  /** What the loop has accumulated when it returns, or the early return for
      a missing argument or a length mismatch. */
  datatype Cosine = Mismatch | Ratio(dot: real, normA: real, normB: real)

  function CosineOf(a: Option<Vector>, b: Option<Vector>): Cosine {
    if a.None? || b.None? || |a.value| != |b.value| then Mismatch
    else Ratio(DotTo(a.value, b.value, |a.value|), SquaredNorm(a.value), SquaredNorm(b.value))
  }

  /** A JavaScript number as far as this model needs one: a real, or NaN. */
  datatype Score = Number(value: real) | NaN

  /** The host's value of `dot / (Math.sqrt(normA) * Math.sqrt(normB))`
      for positive norms. */
  type Quotient = (real, real, real) -> real

  /** The value `cosineSimilarity` returns. A zero norm means every component
      is 0 (see `ZeroNormZeroDot`), so the quotient is 0/0: NaN. */
  function ScoreOf(c: Cosine, quot: Quotient): (s: Score)
    ensures s.NaN? <==> c.Ratio? && (c.normA == 0.0 || c.normB == 0.0)
    ensures c.Mismatch? ==> s == Number(0.0)
  {
    match c
    case Mismatch => Number(0.0)
    case Ratio(d, na, nb) => if na == 0.0 || nb == 0.0 then NaN else Number(quot(d, na, nb))
  }

  /** `similarity > threshold` in JavaScript: false for NaN. */
  predicate Exceeds(s: Score, threshold: real) {
    s.Number? && s.value > threshold
  }

  /** `quot` is the exact mathematical quotient `d / (sqrt(x) * sqrt(y))`
      on positive norms: the denominator does not depend on the order of the
      norms, and for equal norms it is `sqrt(x) * sqrt(x) == x`. */
  ghost predicate ExactQuotient(quot: Quotient) {
    && (forall d: real, x: real, y: real :: 0.0 < x && 0.0 < y ==> quot(d, x, y) == quot(d, y, x))
    && (forall d: real, x: real :: 0.0 < x ==> quot(d, x, x) == d / x)
  }

  /** The loop of `cosineSimilarity`, returning the score it computes. */
  method CosineSimilarity(a: Option<Vector>, b: Option<Vector>, quot: Quotient) returns (s: Score)
    ensures s == ScoreOf(CosineOf(a, b), quot)
    ensures (a.None? || b.None? || |a.value| != |b.value|) ==> s == Number(0.0)
  {
    if a.None? || b.None? || |a.value| != |b.value| {
      return Number(0.0);
    }
    var x, y := a.value, b.value;
    var dotProduct, normA, normB := 0.0, 0.0, 0.0;
    for i := 0 to |x|
      invariant dotProduct == DotTo(x, y, i)
      invariant normA == DotTo(x, x, i)
      invariant normB == DotTo(y, y, i)
    {
      dotProduct := dotProduct + x[i] * y[i];
      normA := normA + x[i] * x[i];
      normB := normB + y[i] * y[i];
    }
    s := ScoreOf(Ratio(dotProduct, normA, normB), quot);
  }

  // ---------------------------------------------------------------------
  // Properties of the accumulated sums

  lemma {:induction false} SquaredNormNonNegative(a: Vector, n: nat)
    requires n <= |a|
    ensures DotTo(a, a, n) >= 0.0
  {
    if n > 0 {
      SquaredNormNonNegative(a, n - 1);
      assert a[n - 1] * a[n - 1] >= 0.0;
    }
  }

  lemma {:induction false} DotSymmetric(a: Vector, b: Vector, n: nat)
    requires n <= |a| && n <= |b|
    ensures DotTo(a, b, n) == DotTo(b, a, n)
  {
    if n > 0 {
      DotSymmetric(a, b, n - 1);
    }
  }

  lemma PositiveSquare(x: real)
    requires x != 0.0
    ensures x * x > 0.0
  {
  }

  /** A zero squared norm means a zero vector, so the dot product is 0 too. */
  lemma {:induction false} ZeroNormZeroDot(a: Vector, b: Vector, n: nat)
    requires n <= |a| && n <= |b|
    requires DotTo(a, a, n) == 0.0
    ensures DotTo(a, b, n) == 0.0
  {
    if n > 0 {
      SquaredNormNonNegative(a, n - 1);
      if a[n - 1] != 0.0 {
        PositiveSquare(a[n - 1]);
      }
      ZeroNormZeroDot(a, b, n - 1);
    }
  }

  /** The accumulated norms are never negative, and a returned ratio with a
      zero norm also has a zero dot product (the 0/0 case). */
  lemma CosineComponents(a: Option<Vector>, b: Option<Vector>)
    ensures CosineOf(a, b).Mismatch? <==> (a.None? || b.None? || |a.value| != |b.value|)
    ensures CosineOf(a, b).Ratio? ==> CosineOf(a, b).normA >= 0.0 && CosineOf(a, b).normB >= 0.0
    ensures CosineOf(a, b).Ratio? && (CosineOf(a, b).normA == 0.0 || CosineOf(a, b).normB == 0.0) ==>
      CosineOf(a, b).dot == 0.0
  {
    if CosineOf(a, b).Ratio? {
      var x, y := a.value, b.value;
      SquaredNormNonNegative(x, |x|);
      SquaredNormNonNegative(y, |y|);
      if SquaredNorm(x) == 0.0 {
        ZeroNormZeroDot(x, y, |x|);
      } else if SquaredNorm(y) == 0.0 {
        ZeroNormZeroDot(y, x, |y|);
        DotSymmetric(x, y, |x|);
      }
    }
  }

  /** The dot product is symmetric, so swapping the arguments swaps the norms
      and keeps the dot product; with an exact quotient the score is the same. */
  lemma CosineSymmetric(a: Option<Vector>, b: Option<Vector>, quot: Quotient)
    ensures CosineOf(a, b).Ratio? ==>
      CosineOf(b, a) == Ratio(CosineOf(a, b).dot, CosineOf(a, b).normB, CosineOf(a, b).normA)
    ensures ExactQuotient(quot) ==> ScoreOf(CosineOf(a, b), quot) == ScoreOf(CosineOf(b, a), quot)
  {
    if CosineOf(a, b).Ratio? {
      var x, y := a.value, b.value;
      DotSymmetric(x, y, |x|);
      var d, na, nb := DotTo(x, y, |x|), SquaredNorm(x), SquaredNorm(y);
      if ExactQuotient(quot) && na != 0.0 && nb != 0.0 {
        SquaredNormNonNegative(x, |x|);
        SquaredNormNonNegative(y, |y|);
        assert quot(d, na, nb) == quot(d, nb, na);
      }
    }
  }

  /** A vector with a nonzero norm is fully similar to itself. */
  lemma SelfSimilarity(a: Vector, quot: Quotient)
    requires ExactQuotient(quot)
    requires SquaredNorm(a) != 0.0
    ensures ScoreOf(CosineOf(Some(a), Some(a)), quot) == Number(1.0)
  {
    SquaredNormNonNegative(a, |a|);
    assert quot(SquaredNorm(a), SquaredNorm(a), SquaredNorm(a)) == SquaredNorm(a) / SquaredNorm(a);
  }

  function Negate(a: Vector): (r: Vector)
    ensures |r| == |a|
    ensures forall i :: 0 <= i < |a| ==> r[i] == -a[i]
  {
    seq(|a|, i requires 0 <= i < |a| => -a[i])
  }

  lemma {:induction false} NegateSums(a: Vector, n: nat)
    requires n <= |a|
    ensures DotTo(a, Negate(a), n) == -DotTo(a, a, n)
    ensures DotTo(Negate(a), Negate(a), n) == DotTo(a, a, n)
  {
    if n > 0 {
      NegateSums(a, n - 1);
    }
  }

  lemma NegatedCosine(a: Vector)
    ensures CosineOf(Some(a), Some(Negate(a))) == Ratio(-SquaredNorm(a), SquaredNorm(a), SquaredNorm(a))
  {
    NegateSums(a, |a|);
  }

  /** A vector with a nonzero norm scores -1 against its negation. */
  lemma OppositeSimilarity(a: Vector, quot: Quotient)
    requires ExactQuotient(quot)
    requires SquaredNorm(a) != 0.0
    ensures ScoreOf(CosineOf(Some(a), Some(Negate(a))), quot) == Number(-1.0)
  {
    var n := SquaredNorm(a);
    SquaredNormNonNegative(a, |a|);
    NegatedCosine(a);
    assert quot(-n, n, n) == (-n) / n;
  }
}
