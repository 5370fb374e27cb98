/** Text embeddings and cosine similarity, `app/utils/embedding.py`.
    The embedding service is a parameter; the square root is a parameter
    that every lemma needing it requires to be the real square root. */
module Embedding {
  import opened Wrappers
  import Text

  /** `sum(a * b for a, b in zip(u, v))`. */
  function Dot(u: seq<real>, v: seq<real>): real
    requires |u| == |v|
  {
    if u == [] then 0.0 else u[0] * v[0] + Dot(u[1..], v[1..])
  }

  /** `sum(a * a for a in u)`. */
  function SumSquares(u: seq<real>): (r: real)
    ensures r >= 0.0
  {
    if u == [] then 0.0 else u[0] * u[0] + SumSquares(u[1..])
  }

  /** `sqrt` is `math.sqrt` over the non-negative reals: the non-negative
      root, which is 0 exactly at 0. */
  ghost predicate IsSqrt(sqrt: real -> real) {
    sqrt(0.0) == 0.0
    && forall x :: 0.0 <= x ==> 0.0 <= sqrt(x) && sqrt(x) * sqrt(x) == x && (0.0 < x ==> 0.0 < sqrt(x))
  }

  /** `calculate_cosine_similarity`. */
  function CosineSimilarity(u: seq<real>, v: seq<real>, sqrt: real -> real): (r: real)
    ensures u == [] || v == [] || |u| != |v| ==> r == 0.0
  {
    if u == [] || v == [] || |u| != |v| then 0.0
    else
      var m1 := sqrt(SumSquares(u));
      var m2 := sqrt(SumSquares(v));
      if m1 == 0.0 || m2 == 0.0 then 0.0
      else Dot(u, v) / (m1 * m2)
  }

  /** `generate_text_embedding`: blank text is refused without asking the
      service; otherwise the stripped text is sent, and a failed call
      (an exception) is `None`. */
  function GenerateTextEmbedding(text: string, embed: string -> Option<seq<real>>): (r: Option<seq<real>>)
    ensures Text.AllSpace(text) ==> r == None
    ensures !Text.AllSpace(text) ==> r == embed(Text.Strip(text))
  {
    if text == "" || Text.Strip(text) == "" then None else embed(Text.Strip(text))
  }

  /** For blank text the service is not consulted: any two services give
      the same answer. */
  lemma BlankTextIgnoresService(text: string, e1: string -> Option<seq<real>>, e2: string -> Option<seq<real>>)
    requires Text.AllSpace(text)
    ensures GenerateTextEmbedding(text, e1) == GenerateTextEmbedding(text, e2) == None
  {
  }

  // ---------------------------------------------------------------------
  // Algebra of Dot and SumSquares.

  lemma {:induction false} DotSymmetric(u: seq<real>, v: seq<real>)
    requires |u| == |v|
    ensures Dot(u, v) == Dot(v, u)
  {
    if u != [] {
      DotSymmetric(u[1..], v[1..]);
    }
  }

  lemma {:induction false} DotSelf(u: seq<real>)
    ensures Dot(u, u) == SumSquares(u)
  {
    if u != [] {
      DotSelf(u[1..]);
    }
  }

  /** `w` is `[-x for x in u]`. */
  predicate IsNegation(u: seq<real>, w: seq<real>) {
    |w| == |u| && forall i | 0 <= i < |u| :: w[i] == -u[i]
  }

  lemma {:induction false} DotNeg(u: seq<real>, w: seq<real>)
    requires IsNegation(u, w)
    ensures Dot(u, w) == -SumSquares(u)
    ensures SumSquares(w) == SumSquares(u)
  {
    if u != [] {
      assert IsNegation(u[1..], w[1..]);
      DotNeg(u[1..], w[1..]);
    }
  }

  /** `sum((x*v[i] - y*u[i])**2)`, a sum of squares. */
  function DiffSquares(u: seq<real>, v: seq<real>, x: real, y: real): (r: real)
    requires |u| == |v|
    ensures r >= 0.0
  {
    if u == [] then 0.0
    else
      var d := x * v[0] - y * u[0];
      d * d + DiffSquares(u[1..], v[1..], x, y)
  }

  lemma {:induction false} DiffSquaresExpand(u: seq<real>, v: seq<real>, x: real, y: real)
    requires |u| == |v|
    ensures DiffSquares(u, v, x, y)
         == x * x * SumSquares(v) - 2.0 * x * y * Dot(u, v) + y * y * SumSquares(u)
  {
    if u != [] {
      DiffSquaresExpand(u[1..], v[1..], x, y);
      var a, b := u[0], v[0];
      var d := x * b - y * a;
      assert d * d == x * x * (b * b) - 2.0 * x * y * (a * b) + y * y * (a * a);
    }
  }

  lemma ExpandGap(x: real, y: real, a: real, b: real, d: real)
    ensures (x * x + a) * (y * y + b) - (x * y + d) * (x * y + d)
         == (a * b - d * d) + (x * x * b - 2.0 * x * y * d + y * y * a)
  {
  }

  /** One step of Cauchy-Schwarz, over plain numbers: `p`, `s`, `t` are the
      dot product and the two squared norms after prepending `x` and `y`. */
  lemma GapStep(p: real, s: real, t: real, x: real, y: real, a: real, b: real, d: real, g: real)
    requires p == x * y + d && s == x * x + a && t == y * y + b
    requires d * d <= a * b
    requires g >= 0.0 && g == x * x * b - 2.0 * x * y * d + y * y * a
    ensures p * p <= s * t
  {
    ExpandGap(x, y, a, b, d);
  }

  /** Cauchy-Schwarz: `dot(u, v)^2 <= |u|^2 * |v|^2`. */
  lemma {:induction false} CauchySchwarz(u: seq<real>, v: seq<real>)
    requires |u| == |v|
    ensures Dot(u, v) * Dot(u, v) <= SumSquares(u) * SumSquares(v)
  {
    if u != [] {
      var u', v' := u[1..], v[1..];
      CauchySchwarz(u', v');
      DiffSquaresExpand(u', v', u[0], v[0]);
      GapStep(Dot(u, v), SumSquares(u), SumSquares(v), u[0], v[0],
              SumSquares(u'), SumSquares(v'), Dot(u', v'), DiffSquares(u', v', u[0], v[0]));
    }
  }

  lemma ProductSign(p: real, q: real)
    requires q > 0.0 && p * q <= 0.0
    ensures p <= 0.0
  {
  }

  /** From `d^2 <= m^2` with `m > 0` follows `|d| <= m`. */
  lemma AbsBound(d: real, m: real)
    requires m > 0.0 && d * d <= m * m
    ensures -m <= d <= m
  {
    if d >= 0.0 {
      assert (d - m) * (d + m) == d * d - m * m;
      ProductSign(d - m, d + m);
    } else {
      assert (-d - m) * (-d + m) == d * d - m * m;
      ProductSign(-d - m, -d + m);
    }
  }

  /** `q / m` lies in [-1, 1] when `|q| <= m`. */
  lemma QuotientBound(q: real, m: real)
    requires m > 0.0 && -m <= q <= m
    ensures -1.0 <= q / m <= 1.0
  {
  }

  // ---------------------------------------------------------------------
  // Properties of the similarity.

  lemma CosineSymmetric(u: seq<real>, v: seq<real>, sqrt: real -> real)
    ensures CosineSimilarity(u, v, sqrt) == CosineSimilarity(v, u, sqrt)
  {
    if |u| == |v| {
      DotSymmetric(u, v);
    }
  }

  /** A vector of zero magnitude is similar to nothing. */
  lemma CosineZeroMagnitude(u: seq<real>, v: seq<real>, sqrt: real -> real)
    requires IsSqrt(sqrt)
    requires SumSquares(u) == 0.0 || SumSquares(v) == 0.0
    ensures CosineSimilarity(u, v, sqrt) == 0.0
  {
  }

  /** Otherwise the similarity is the normalised dot product. */
  lemma CosineFormula(u: seq<real>, v: seq<real>, sqrt: real -> real)
    requires IsSqrt(sqrt)
    requires |u| == |v| && SumSquares(u) > 0.0 && SumSquares(v) > 0.0
    ensures sqrt(SumSquares(u)) > 0.0 && sqrt(SumSquares(v)) > 0.0
    ensures CosineSimilarity(u, v, sqrt)
         == Dot(u, v) / (sqrt(SumSquares(u)) * sqrt(SumSquares(v)))
  {
    assert u != [];
    CosineNonZero(u, v, sqrt);
  }

  lemma CosineNonZero(u: seq<real>, v: seq<real>, sqrt: real -> real)
    requires u != [] && |u| == |v|
    requires sqrt(SumSquares(u)) != 0.0 && sqrt(SumSquares(v)) != 0.0
    ensures CosineSimilarity(u, v, sqrt)
         == Dot(u, v) / (sqrt(SumSquares(u)) * sqrt(SumSquares(v)))
  {
  }

  lemma CosineZeroRoot(u: seq<real>, v: seq<real>, sqrt: real -> real)
    requires sqrt(SumSquares(u)) == 0.0 || sqrt(SumSquares(v)) == 0.0
    ensures CosineSimilarity(u, v, sqrt) == 0.0
  {
  }

  /** The similarity lies between -1 and 1. */
  lemma CosineBounded(u: seq<real>, v: seq<real>, sqrt: real -> real)
    requires IsSqrt(sqrt)
    ensures -1.0 <= CosineSimilarity(u, v, sqrt) <= 1.0
  {
    if u != [] && v != [] && |u| == |v| {
      RootFacts(sqrt, SumSquares(u));
      RootFacts(sqrt, SumSquares(v));
      CosineBoundedAt(u, v, sqrt);
    }
  }

  lemma RootFacts(sqrt: real -> real, x: real)
    requires IsSqrt(sqrt) && x >= 0.0
    ensures sqrt(x) >= 0.0 && sqrt(x) * sqrt(x) == x
    ensures x > 0.0 ==> sqrt(x) > 0.0
  {
  }

  lemma CosineBoundedAt(u: seq<real>, v: seq<real>, sqrt: real -> real)
    requires u != [] && |u| == |v|
    requires sqrt(SumSquares(u)) >= 0.0 && sqrt(SumSquares(u)) * sqrt(SumSquares(u)) == SumSquares(u)
    requires sqrt(SumSquares(v)) >= 0.0 && sqrt(SumSquares(v)) * sqrt(SumSquares(v)) == SumSquares(v)
    ensures -1.0 <= CosineSimilarity(u, v, sqrt) <= 1.0
  {
    var m1, m2 := sqrt(SumSquares(u)), sqrt(SumSquares(v));
    if m1 != 0.0 && m2 != 0.0 {
      CauchySchwarz(u, v);
      RatioBound(Dot(u, v), m1, m2, SumSquares(u), SumSquares(v));
      CosineNonZero(u, v, sqrt);
      var c := CosineSimilarity(u, v, sqrt);
      assert c == Dot(u, v) / (m1 * m2);
      assert -1.0 <= c && c <= 1.0;
    } else {
      CosineZeroRoot(u, v, sqrt);
    }
  }

  lemma ProductOfRoots(m1: real, m2: real, a: real, b: real, d: real)
    requires m1 >= 0.0 && m2 >= 0.0 && m1 != 0.0 && m2 != 0.0
    requires m1 * m1 == a && m2 * m2 == b && d * d <= a * b
    ensures m1 * m2 > 0.0 && d * d <= (m1 * m2) * (m1 * m2)
  {
    assert (m1 * m2) * (m1 * m2) == (m1 * m1) * (m2 * m2);
  }

  lemma RatioBound(d: real, m1: real, m2: real, a: real, b: real)
    requires m1 >= 0.0 && m2 >= 0.0 && m1 != 0.0 && m2 != 0.0
    requires m1 * m1 == a && m2 * m2 == b && d * d <= a * b
    ensures -1.0 <= d / (m1 * m2) <= 1.0
  {
    ProductOfRoots(m1, m2, a, b, d);
    AbsBound(d, m1 * m2);
    QuotientBound(d, m1 * m2);
  }

  lemma DivSelf(a: real, b: real, c: real)
    requires a == c && b == c && c > 0.0
    ensures a / b == 1.0 && -a / b == -1.0
  {
  }

  /** A vector of non-zero magnitude is perfectly similar to itself. */
  lemma CosineSelf(u: seq<real>, sqrt: real -> real)
    requires IsSqrt(sqrt)
    requires SumSquares(u) > 0.0
    ensures CosineSimilarity(u, u, sqrt) == 1.0
  {
    DotSelf(u);
    CosineFormula(u, u, sqrt);
    var m := sqrt(SumSquares(u));
    DivSelf(Dot(u, u), m * m, SumSquares(u));
  }

  /** ... and perfectly dissimilar to its negation. */
  lemma CosineOpposite(u: seq<real>, w: seq<real>, sqrt: real -> real)
    requires IsSqrt(sqrt)
    requires SumSquares(u) > 0.0 && IsNegation(u, w)
    ensures CosineSimilarity(u, w, sqrt) == -1.0
  {
    DotNeg(u, w);
    RootFacts(sqrt, SumSquares(u));
    assert u != [];
    CosineScaled(u, w, sqrt);
    Cancel(CosineSimilarity(u, w, sqrt), sqrt(SumSquares(u)) * sqrt(SumSquares(w)), SumSquares(u));
  }

  lemma CosineScaled(u: seq<real>, v: seq<real>, sqrt: real -> real)
    requires u != [] && |u| == |v|
    requires sqrt(SumSquares(u)) != 0.0 && sqrt(SumSquares(v)) != 0.0
    ensures CosineSimilarity(u, v, sqrt) * (sqrt(SumSquares(u)) * sqrt(SumSquares(v))) == Dot(u, v)
  {
  }

  lemma Cancel(c: real, p: real, a: real)
    requires p == a && a > 0.0 && c * p == -a
    ensures c == -1.0
  {
    assert (c + 1.0) * a == 0.0;
  }
}
