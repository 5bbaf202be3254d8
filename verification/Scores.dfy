/** The similarity and combined scores of the reranker, over the reals, and their range. */
module Scores {
  import opened Prelude

  function Dot(a: seq<real>, b: seq<real>): real
    requires |a| == |b|
  {
    if a == [] then 0.0 else Dot(a[1..], b[1..]) + a[0] * b[0]
  }

  function SquareSum(a: seq<real>): real {
    Dot(a, a)
  }

  /** r is the square root of x. */
  ghost predicate IsRoot(r: real, x: real) {
    r >= 0.0 && r * r == x
  }

  /** The norms are passed in, as the square roots of the square sums. A missing vector, an empty one, one of
      another length or a zero vector gives 0. */
  function CosineSimilarity(left: seq<real>, right: Option<seq<real>>, leftNorm: real, rightNorm: real): real {
    if right.None? || |left| != |right.value| || left == [] then 0.0
    else if leftNorm == 0.0 || rightNorm == 0.0 || leftNorm * rightNorm == 0.0 then 0.0
    else Dot(left, right.value) / (leftNorm * rightNorm)
  }

  /** Dot adds up the products of equal places, squares included. */
  lemma {:induction false} DotAddsProducts(a: seq<real>, b: seq<real>, x: real, y: real)
    requires |a| == |b|
    ensures Dot([], []) == 0.0
    ensures Dot(a + [x], b + [y]) == Dot(a, b) + x * y
    ensures SquareSum(a + [x]) == SquareSum(a) + x * x
    decreases |a|
  {
    if a != [] {
      DotAddsProducts(a[1..], b[1..], x, y);
      assert (a + [x])[1..] == a[1..] + [x] && (b + [y])[1..] == b[1..] + [y];
    }
    DotLast(a, x);
  }

  lemma {:induction false} DotLast(a: seq<real>, x: real)
    ensures Dot(a + [x], a + [x]) == Dot(a, a) + x * x
  {
    if a != [] {
      DotLast(a[1..], x);
      assert (a + [x])[1..] == a[1..] + [x];
    }
  }

  /** Two vectors of one length that are not zero have the cosine of their angle; everything else has 0. */
  lemma SimilarityIsTheCosine(left: seq<real>, right: Option<seq<real>>, leftNorm: real, rightNorm: real)
    requires IsRoot(leftNorm, SquareSum(left)) && (right.Some? ==> IsRoot(rightNorm, SquareSum(right.value)))
    ensures var similarity := CosineSimilarity(left, right, leftNorm, rightNorm);
            if right.Some? && |left| == |right.value| && SquareSum(left) != 0.0 && SquareSum(right.value) != 0.0
            then similarity * (leftNorm * rightNorm) == Dot(left, right.value)
            else similarity == 0.0
  {
    if right.Some? && |left| == |right.value| && leftNorm * rightNorm != 0.0 {
      var d, n := Dot(left, right.value), leftNorm * rightNorm;
      assert leftNorm * leftNorm != 0.0 && rightNorm * rightNorm != 0.0;
      assert left != [];
      assert (d / n) * n == d;
    }
  }

  /** A vector other than zero is completely similar to itself. */
  lemma SimilarToItself(a: seq<real>, norm: real)
    requires IsRoot(norm, SquareSum(a)) && SquareSum(a) != 0.0
    ensures CosineSimilarity(a, Some(a), norm, norm) == 1.0
  {
    SimilarityIsTheCosine(a, Some(a), norm, norm);
    OnlyOne(CosineSimilarity(a, Some(a), norm, norm), norm * norm, SquareSum(a));
  }

  lemma OnlyOne(x: real, p: real, q: real)
    requires x * p == q && p == q && p != 0.0
    ensures x == 1.0
  {
    assert x == (x * p) / p;
  }

  lemma Expand(x: real, y: real, t: real, u: real)
    ensures x * x * t * t - 2.0 * (x * y) * t * u + y * y * u * u >= 0.0
  {
    var d := x * t - y * u;
    assert d * d == x * x * t * t - 2.0 * (x * y) * t * u + y * y * u * u;
  }

  /** The sum of the squares (a[i] t - b[i] u)^2 is not negative. */
  lemma {:induction false} QuadraticForm(a: seq<real>, b: seq<real>, t: real, u: real)
    requires |a| == |b|
    ensures SquareSum(a) * t * t - 2.0 * Dot(a, b) * t * u + SquareSum(b) * u * u >= 0.0
    decreases |a|
  {
    if a != [] {
      QuadraticForm(a[1..], b[1..], t, u);
      Expand(a[0], b[0], t, u);
      OneMorePlace(SquareSum(a[1..]), Dot(a[1..], b[1..]), SquareSum(b[1..]), a[0], b[0], t, u);
    }
  }

  lemma OneMorePlace(p: real, q: real, r: real, x: real, y: real, t: real, u: real)
    ensures (p + x * x) * t * t - 2.0 * (q + x * y) * t * u + (r + y * y) * u * u
            == (p * t * t - 2.0 * q * t * u + r * u * u) + (x * x * t * t - 2.0 * (x * y) * t * u + y * y * u * u)
  {
    Distribute(p, x * x, t, t);
    Distribute(q, x * y, t, u);
    Distribute(r, y * y, u, u);
  }

  lemma Distribute(a: real, b: real, t: real, u: real)
    ensures (a + b) * t * u == a * t * u + b * t * u
  {}

  lemma {:induction false} SquareSumNotNegative(a: seq<real>)
    ensures SquareSum(a) >= 0.0
  {
    if a != [] {
      SquareSumNotNegative(a[1..]);
      SquareOf(a[0], a[0] * a[0]);
    }
  }

  lemma {:induction false} ZeroSquareSum(a: seq<real>, i: nat)
    requires SquareSum(a) == 0.0 && i < |a|
    ensures a[i] == 0.0
    decreases |a|
  {
    SquareSumNotNegative(a[1..]);
    var first := a[0] * a[0];
    assert SquareSum(a) == SquareSum(a[1..]) + first;
    SquareOf(a[0], first);
    if i > 0 { ZeroSquareSum(a[1..], i - 1); }
  }

  lemma PositiveProduct(x: real, y: real, p: real)
    requires x > 0.0 && y > 0.0 && p == x * y
    ensures p > 0.0
  {}

  lemma SquareOf(x: real, p: real)
    requires p == x * x
    ensures p >= 0.0 && (x != 0.0 ==> p > 0.0)
  {
    if x > 0.0 {
      PositiveProduct(x, x, p);
    } else if x < 0.0 {
      PositiveProduct(-x, -x, p);
    }
  }

  lemma {:induction false} ZeroDot(a: seq<real>, b: seq<real>)
    requires |a| == |b| && forall i :: 0 <= i < |a| ==> a[i] == 0.0
    ensures Dot(a, b) == 0.0
    decreases |a|
  {
    if a != [] { ZeroDot(a[1..], b[1..]); }
  }

  lemma CauchySchwarz(a: seq<real>, b: seq<real>)
    requires |a| == |b|
    ensures Dot(a, b) * Dot(a, b) <= SquareSum(a) * SquareSum(b)
  {
    hide Dot, SquareSum;
    SquareSumNotNegative(a);
    if SquareSum(a) == 0.0 {
      forall i: nat | i < |a| ensures a[i] == 0.0 { ZeroSquareSum(a, i); }
      ZeroDot(a, b);
    } else {
      QuadraticForm(a, b, Dot(a, b), SquareSum(a));
      Discriminant(SquareSum(a), Dot(a, b), SquareSum(b));
    }
  }

  lemma Discriminant(p: real, d: real, q: real)
    requires p > 0.0 && p * d * d - 2.0 * d * d * p + q * p * p >= 0.0
    ensures d * d <= p * q
  {
    Factor(p, d, q);
    Positive(p, p * q - d * d);
  }

  lemma Factor(p: real, d: real, q: real)
    ensures p * d * d - 2.0 * d * d * p + q * p * p == p * (p * q - d * d)
  {
    var e, f := d * d, p * q;
    assert p * d * d == p * e && 2.0 * d * d * p == 2.0 * (p * e) && q * p * p == p * f;
    assert p * (f - e) == p * f - p * e;
  }

  lemma Positive(p: real, x: real)
    requires p > 0.0 && p * x >= 0.0
    ensures x >= 0.0
  {}

  lemma SquareGrows(y: real, x: real)
    requires 0.0 < y < x
    ensures y * y < x * x
  {
    var d := x - y;
    assert x * x == y * y + 2.0 * (y * d) + d * d;
    assert y * d > 0.0 && d * d > 0.0;
  }

  lemma RootOrder(x: real, y: real)
    requires y > 0.0 && x * x <= y * y
    ensures -y <= x <= y
  {
    if x > y { SquareGrows(y, x); }
    if x < -y { SquareGrows(y, -x); }
  }

  /** A query score: a negative similarity counts as none. */
  function QueryScore(similarity: real): real {
    if similarity < 0.0 then 0.0 else similarity
  }

  /** For all vectors and their norms, every query score lies between 0 and 1. */
  lemma QueryScoreInUnitInterval(left: seq<real>, right: Option<seq<real>>, leftNorm: real, rightNorm: real)
    requires IsRoot(leftNorm, SquareSum(left)) && (right.Some? ==> IsRoot(rightNorm, SquareSum(right.value)))
    ensures -1.0 <= CosineSimilarity(left, right, leftNorm, rightNorm) <= 1.0
    ensures 0.0 <= QueryScore(CosineSimilarity(left, right, leftNorm, rightNorm)) <= 1.0
    ensures CosineSimilarity(left, right, leftNorm, rightNorm) >= 0.0 ==>
              QueryScore(CosineSimilarity(left, right, leftNorm, rightNorm))
              == CosineSimilarity(left, right, leftNorm, rightNorm)
    ensures CosineSimilarity(left, right, leftNorm, rightNorm) < 0.0 ==>
              QueryScore(CosineSimilarity(left, right, leftNorm, rightNorm)) == 0.0
  {
    if right.Some? && |left| == |right.value| && left != [] && leftNorm * rightNorm != 0.0 {
      var d, n := Dot(left, right.value), leftNorm * rightNorm;
      CauchySchwarz(left, right.value);
      assert n > 0.0;
      assert n * n == (leftNorm * leftNorm) * (rightNorm * rightNorm);
      RootOrder(d, n);
      Quotient(d, n);
    }
  }

  lemma Quotient(d: real, n: real)
    requires n > 0.0 && -n <= d <= n
    ensures -1.0 <= d / n <= 1.0
  {
    assert (d / n) * n == d;
  }

  // ---- the combined score ----

  function Maximum(scores: seq<real>): (m: real)
    requires scores != []
    ensures m in scores
    ensures forall s :: s in scores ==> s <= m
  {
    if |scores| == 1 then scores[0]
    else
      var rest := Maximum(scores[1..]);
      assert scores == [scores[0]] + scores[1..];
      if scores[0] >= rest then scores[0] else rest
  }

  /** The original question counts 0.7 and the best other query 0.3. */
  function SemanticScore(scores: seq<real>): real
    requires scores != []
  {
    if |scores| == 1 then scores[0] else 0.7 * scores[0] + 0.3 * Maximum(scores[1..])
  }

  function RankScore(rank: nat, rows: nat): real
    requires 1 <= rank <= rows
  {
    if rows == 1 then 1.0 else 1.0 - (rank - 1) as real / (rows - 1) as real
  }

  function CombinedScore(scores: seq<real>, rank: nat, rows: nat): real
    requires scores != [] && 1 <= rank <= rows
  {
    0.8 * SemanticScore(scores) + 0.2 * RankScore(rank, rows)
  }

  /** Mixing scores of the unit interval stays in it. */
  lemma CombinedScoreInUnitInterval(scores: seq<real>, rank: nat, rows: nat)
    requires scores != [] && 1 <= rank <= rows
    requires forall s :: s in scores ==> 0.0 <= s <= 1.0
    ensures 0.0 <= CombinedScore(scores, rank, rows) <= 1.0
  {
    assert scores[0] in scores;
    if |scores| > 1 { assert Maximum(scores[1..]) in scores; }
    if rows > 1 {
      var x, y := (rank - 1) as real, (rows - 1) as real;
      assert (x / y) * y == x && 0.0 <= x <= y;
      Quotient(x, y);
      assert x / y >= 0.0;
    }
  }

  /** The first row has rank score 1, the last of several 0, and it falls in equal steps. */
  lemma RankScoreFallsEvenly(rank: nat, rows: nat)
    requires 1 <= rank <= rows
    ensures RankScore(1, rows) == 1.0
    ensures rows > 1 ==> RankScore(rows, rows) == 0.0
    ensures rank < rows ==> (RankScore(rank, rows) - RankScore(rank + 1, rows)) * (rows - 1) as real == 1.0
  {
    if rows > 1 {
      var steps := (rows - 1) as real;
      assert 0.0 / steps == 0.0 && steps / steps == 1.0;
      if rank < rows {
        var x, y := (rank - 1) as real / steps, rank as real / steps;
        assert x * steps == (rank - 1) as real && y * steps == rank as real;
        assert (y - x) * steps == y * steps - x * steps == 1.0;
        assert RankScore(rank, rows) - RankScore(rank + 1, rows) == y - x;
      }
    }
  }

  /** What a row's score is made of: the original question, the best of the other queries, and the rank. */
  lemma ScoreWeighsQueriesAndRank(scores: seq<real>, rank: nat, rows: nat)
    requires scores != [] && 1 <= rank <= rows
    ensures |scores| == 1 ==> CombinedScore(scores, rank, rows) == 0.8 * scores[0] + 0.2 * RankScore(rank, rows)
    ensures |scores| > 1 ==>
              exists best :: best in scores[1..] && (forall s :: s in scores[1..] ==> s <= best)
                && CombinedScore(scores, rank, rows) == 0.56 * scores[0] + 0.24 * best + 0.2 * RankScore(rank, rows)
  {
    if |scores| > 1 {
      var best, place := Maximum(scores[1..]), RankScore(rank, rows);
      assert CombinedScore(scores, rank, rows) == 0.8 * (0.7 * scores[0] + 0.3 * best) + 0.2 * place
             == 0.56 * scores[0] + 0.24 * best + 0.2 * place;
    }
  }

  /** A row that is at least as similar to every query and was retrieved earlier scores higher. */
  lemma BetterRowScoresHigher(better: seq<real>, worse: seq<real>, i: nat, j: nat, rows: nat)
    requires |better| == |worse| > 0 && 1 <= i < j <= rows
    requires forall k :: 0 <= k < |better| ==> worse[k] <= better[k]
    ensures CombinedScore(worse, j, rows) < CombinedScore(better, i, rows)
  {
    if |better| > 1 {
      var k :| 0 <= k < |worse[1..]| && worse[1..][k] == Maximum(worse[1..]);
      assert worse[1 + k] <= better[1 + k] && better[1..][k] == better[1 + k];
      assert better[1..][k] in better[1..];
    }
    var steps, x, y := (rows - 1) as real, (i - 1) as real, (j - 1) as real;
    Smaller(x, y, steps);
  }

  lemma Smaller(x: real, y: real, n: real)
    requires x < y && n > 0.0
    ensures x / n < y / n
  {
    var gap := (y - x) / n;
    assert gap * n == y - x;
    assert gap == y / n - x / n;
    Positive(n, gap);
  }
}
