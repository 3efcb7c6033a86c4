/** `calculateCosineSimilarity` of src/libs/Diff.js, whose line numbers the
    comments below cite: the cosine of two 0/1 presence vectors built over the
    union vocabulary of two token sequences.

    The tokenizer is not modelled: the two token sequences are the inputs.
    Everything up to the final division is integer arithmetic, and the result
    is kept as the integer triple of that division, `dot / (sqrt(n1) * sqrt(n2))`;
    its real value is taken through a square-root function given as a parameter. */
module Similarity {

  type Token = string

  /** The set of elements of a sequence. */
  function Elems<T>(s: seq<T>): set<T>
  {
    set x | x in s
  }

  predicate Distinct<T(==)>(s: seq<T>)
  {
    forall i, j :: 0 <= i < j < |s| ==> s[i] != s[j]
  }

  lemma {:induction false} DistinctCard<T>(s: seq<T>)
    requires Distinct(s)
    ensures |Elems(s)| == |s|
  {
    if s != [] {
      var last := s[|s| - 1];
      var init := s[..|s| - 1];
      DistinctCard(init);
      assert Elems(s) == Elems(init) + {last};
      assert last !in Elems(init);
    }
  }

  /** The elements of `s` in order of first occurrence, each once: what
      `Array.from(new Set(s))` yields. */
  function Dedup(s: seq<Token>): (r: seq<Token>)
    ensures Distinct(r)
    ensures Elems(r) == Elems(s)
  {
    if s == [] then []
    else
      var init := s[..|s| - 1];
      var last := s[|s| - 1];
      var d := Dedup(init);
      assert Elems(s) == Elems(init) + {last};
      if last in d then d else d + [last]
  }

  /** The union vocabulary of lines 28 and 30: every distinct token of either
      side once, so its length is the number of distinct tokens in the union. */
  function Vocabulary(tokens1: seq<Token>, tokens2: seq<Token>): (v: seq<Token>)
    ensures Distinct(v)
    ensures Elems(v) == Elems(tokens1) + Elems(tokens2)
    ensures |v| == |Elems(tokens1) + Elems(tokens2)|
  {
    var v := Dedup(tokens1 + tokens2);
    assert Elems(tokens1 + tokens2) == Elems(tokens1) + Elems(tokens2);
    DistinctCard(v);
    v
  }

  /** The presence vector of `tokens` over `vocab`: entry i is 1 when the i-th
      vocabulary token occurs in `tokens` and 0 otherwise. */
  function PresenceVector(vocab: seq<Token>, tokens: seq<Token>): (r: seq<int>)
    ensures |r| == |vocab|
    ensures forall i :: 0 <= i < |r| ==> r[i] == 0 || r[i] == 1
    ensures forall i :: 0 <= i < |r| ==> (r[i] == 1 <==> vocab[i] in tokens)
  {
    seq(|vocab|, i requires 0 <= i < |vocab| => if vocab[i] in tokens then 1 else 0)
  }

  /** The dot product, summed from the first index up as the loop at line 40 does. */
  function Dot(v1: seq<int>, v2: seq<int>): int
    requires |v1| == |v2|
  {
    if v1 == [] then 0
    else Dot(v1[..|v1| - 1], v2[..|v2| - 1]) + v1[|v1| - 1] * v2[|v2| - 1]
  }

  /** The squared magnitude: the `reduce` of lines 46 and 49. */
  function SumOfSquares(v: seq<int>): int
  {
    if v == [] then 0 else SumOfSquares(v[..|v| - 1]) + v[|v| - 1] * v[|v| - 1]
  }

  lemma {:induction false} SumOfSquaresIsDot(v: seq<int>)
    ensures SumOfSquares(v) == Dot(v, v)
  {
    if v != [] {
      SumOfSquaresIsDot(v[..|v| - 1]);
    }
  }

  lemma PresenceOfPrefix(vocab: seq<Token>, tokens: seq<Token>, k: nat)
    requires k <= |vocab|
    ensures PresenceVector(vocab[..k], tokens) == PresenceVector(vocab, tokens)[..k]
  {
  }

  /** Adding an element that is not yet in a set adds one to its size. */
  lemma CardAddOne<T>(a: set<T>, x: T)
    requires x !in a
    ensures |a + {x}| == |a| + 1
  {
  }

  /** Dropping the last element keeps a sequence repetition-free, and that
      element occurs nowhere before. */
  lemma DistinctInit<T>(s: seq<T>)
    requires Distinct(s) && s != []
    ensures Distinct(s[..|s| - 1]) && s[|s| - 1] !in Elems(s[..|s| - 1])
  {
    assert forall j :: 0 <= j < |s| - 1 ==> s[..|s| - 1][j] == s[j];
  }

  lemma ProductOfBits(a: int, b: int)
    requires (a == 0 || a == 1) && (b == 0 || b == 1)
    ensures a * b == if a == 1 && b == 1 then 1 else 0
  {
  }

  /** The vocabulary's last token adds one to the shared tokens seen so far
      exactly when it occurs on both sides. */
  lemma SharedWithLast(init: seq<Token>, last: Token, shared: set<Token>)
    requires last !in Elems(init)
    ensures |Elems(init + [last]) * shared| == |Elems(init) * shared| + if last in shared then 1 else 0
  {
    var before := Elems(init) * shared;
    assert Elems(init + [last]) == Elems(init) + {last};
    if last in shared {
      assert Elems(init + [last]) * shared == before + {last};
      CardAddOne(before, last);
    } else {
      assert Elems(init + [last]) * shared == before;
    }
  }

  /** Over a vocabulary without repetitions, the dot product of two presence
      vectors counts the vocabulary tokens present on both sides. */
  lemma {:induction false} DotOfPresence(vocab: seq<Token>, tokens1: seq<Token>, tokens2: seq<Token>)
    requires Distinct(vocab)
    ensures Dot(PresenceVector(vocab, tokens1), PresenceVector(vocab, tokens2))
         == |Elems(vocab) * (Elems(tokens1) * Elems(tokens2))|
  {
    var v1, v2 := PresenceVector(vocab, tokens1), PresenceVector(vocab, tokens2);
    if vocab != [] {
      var n := |vocab|;
      var init, last := vocab[..n - 1], vocab[n - 1];
      DistinctInit(vocab);
      PresenceOfPrefix(vocab, tokens1, n - 1);
      PresenceOfPrefix(vocab, tokens2, n - 1);
      DotOfPresence(init, tokens1, tokens2);
      ProductOfBits(v1[n - 1], v2[n - 1]);
      assert vocab == init + [last];
      assert Dot(v1, v2) == Dot(v1[..n - 1], v2[..n - 1]) + v1[n - 1] * v2[n - 1];
      SharedWithLast(init, last, Elems(tokens1) * Elems(tokens2));
    }
  }

  lemma SubsetCard<T>(a: set<T>, b: set<T>)
    requires a <= b
    ensures |a| <= |b|
  {
    assert b == a + (b - a);
  }

  /** Over the union vocabulary, the dot product of the two presence vectors is
      the number of distinct tokens present on both sides, and the squared
      magnitude of each vector is the number of distinct tokens on its side. */
  lemma {:induction false} PresenceVectorCounts(tokens1: seq<Token>, tokens2: seq<Token>)
    ensures var vocab := Vocabulary(tokens1, tokens2);
      && Dot(PresenceVector(vocab, tokens1), PresenceVector(vocab, tokens2)) == |Elems(tokens1) * Elems(tokens2)|
      && SumOfSquares(PresenceVector(vocab, tokens1)) == |Elems(tokens1)|
      && SumOfSquares(PresenceVector(vocab, tokens2)) == |Elems(tokens2)|
  {
    var vocab := Vocabulary(tokens1, tokens2);
    var e1, e2 := Elems(tokens1), Elems(tokens2);
    DotOfPresence(vocab, tokens1, tokens2);
    assert Elems(vocab) * (e1 * e2) == e1 * e2;
    SumOfSquaresIsDot(PresenceVector(vocab, tokens1));
    DotOfPresence(vocab, tokens1, tokens1);
    assert Elems(vocab) * (e1 * e1) == e1;
    SumOfSquaresIsDot(PresenceVector(vocab, tokens2));
    DotOfPresence(vocab, tokens2, tokens2);
    assert Elems(vocab) * (e2 * e2) == e2;
  }

  /** The three integers of the division at line 53: the dot product and the two
      squared magnitudes. */
  datatype Cosine = Cosine(dot: nat, n1: nat, n2: nat)
  {
    /** The bounds every pair of presence vectors meets. */
    predicate Valid()
    {
      dot <= n1 && dot <= n2
    }

    /** The division is 0/0 and yields NaN. */
    predicate IsNaN()
    {
      n1 == 0 || n2 == 0
    }
  }

  /** The reference definition: distinct tokens shared by both sides, and the
      number of distinct tokens on each side. */
  function PresenceCounts(tokens1: seq<Token>, tokens2: seq<Token>): (c: Cosine)
    ensures c.Valid()
    ensures c.IsNaN() <==> tokens1 == [] || tokens2 == []
  {
    var e1, e2 := Elems(tokens1), Elems(tokens2);
    SubsetCard(e1 * e2, e1);
    SubsetCard(e1 * e2, e2);
    assert tokens1 != [] ==> tokens1[0] in e1;
    assert tokens2 != [] ==> tokens2[0] in e2;
    Cosine(|e1 * e2|, |e1|, |e2|)
  }

  /** Lines 24-56 up to the division: build the vocabulary and both presence
      vectors, accumulate the dot product index by index, and sum the squares. */
  method CalculateCosineCounts(tokens1: seq<Token>, tokens2: seq<Token>) returns (c: Cosine)
    ensures c == PresenceCounts(tokens1, tokens2)
  {
    var vocab := Vocabulary(tokens1, tokens2);
    var vector1 := PresenceVector(vocab, tokens1);
    var vector2 := PresenceVector(vocab, tokens2);

    var dotProduct := 0;
    var i := 0;
    while i < |vector1|
      invariant 0 <= i <= |vector1|
      invariant dotProduct == Dot(vector1[..i], vector2[..i])
    {
      assert vector1[..i + 1][..i] == vector1[..i];
      assert vector2[..i + 1][..i] == vector2[..i];
      dotProduct := dotProduct + vector1[i] * vector2[i];
      i := i + 1;
    }
    assert vector1[..i] == vector1 && vector2[..i] == vector2;

    var squares1 := SumOfSquares(vector1);
    var squares2 := SumOfSquares(vector2);

    PresenceVectorCounts(tokens1, tokens2);
    c := Cosine(dotProduct, squares1, squares2);
  }

  /** What a square root promises on the non-negative reals. */
  ghost predicate IsSqrt(sqrt: real -> real)
  {
    forall x :: 0.0 <= x ==> 0.0 <= sqrt(x) && sqrt(x) * sqrt(x) == x
  }

  lemma SqrtOfPositive(sqrt: real -> real, x: real)
    requires IsSqrt(sqrt) && 0.0 < x
    ensures 0.0 < sqrt(x)
  {
    assert sqrt(x) * sqrt(x) == x;
  }

  /** The denominator of line 53: the product of the two magnitudes, which is
      positive and whose square is n1 * n2. */
  function Magnitudes(c: Cosine, sqrt: real -> real): (m: real)
    requires IsSqrt(sqrt) && !c.IsNaN()
    ensures 0.0 < m
    ensures m * m == c.n1 as real * c.n2 as real
  {
    var s1, s2 := sqrt(c.n1 as real), sqrt(c.n2 as real);
    SqrtOfPositive(sqrt, c.n1 as real);
    SqrtOfPositive(sqrt, c.n2 as real);
    MulPositive(s1, s2);
    ProductSquare(s1, s2, c.n1 as real, c.n2 as real);
    s1 * s2
  }

  /** Line 53 and the fallback of line 55: the cosine, or 1 when the division
      is 0/0. Either way the value lies between 0 and 1. */
  function Value(c: Cosine, sqrt: real -> real): (r: real)
    requires IsSqrt(sqrt) && c.Valid()
    ensures 0.0 <= r <= 1.0
  {
    if c.IsNaN() then 1.0
    else
      CosineQuotient(c, sqrt);
      c.dot as real / Magnitudes(c, sqrt)
  }

  /** The similarity of two token sequences, between 0 and 1. */
  function CosineSimilarity(tokens1: seq<Token>, tokens2: seq<Token>, sqrt: real -> real): (r: real)
    requires IsSqrt(sqrt)
    ensures 0.0 <= r <= 1.0
  {
    Value(PresenceCounts(tokens1, tokens2), sqrt)
  }

  lemma MulPositive(x: real, y: real)
    requires 0.0 < x && 0.0 < y
    ensures 0.0 < x * y
  {
  }

  /** For a non-negative numerator and a positive denominator. */
  lemma {:induction false} QuotientFacts(d: real, m: real)
    requires 0.0 <= d && 0.0 < m
    ensures 0.0 <= d / m
    ensures d / m <= 1.0 <==> d <= m
    ensures d / m == 1.0 <==> d == m
    ensures d / m == 0.0 <==> d == 0.0
  {
    var q := d / m;
    assert q * m == d;
    if q < 0.0 {
      MulPositive(-q, m);
    }
    if q < 1.0 {
      MulPositive(1.0 - q, m);
      assert (1.0 - q) * m == m - q * m;
    } else if q > 1.0 {
      MulPositive(q - 1.0, m);
      assert (q - 1.0) * m == q * m - m;
    }
    if q > 0.0 {
      MulPositive(q, m);
    }
  }

  /** On the non-negative reals, squaring keeps order and equality. */
  lemma {:induction false} SquareMonotone(a: real, b: real)
    requires 0.0 <= a && 0.0 <= b
    ensures a <= b <==> a * a <= b * b
    ensures a == b <==> a * a == b * b
  {
    if a < b {
      MulPositive(b - a, b + a);
      assert b * b - a * a == (b - a) * (b + a);
    } else if b < a {
      MulPositive(a - b, a + b);
      assert a * a - b * b == (a - b) * (a + b);
    }
  }

  /** The square of a product of square roots is the product of the squares. */
  lemma ProductSquare(s1: real, s2: real, x1: real, x2: real)
    requires s1 * s1 == x1 && s2 * s2 == x2
    ensures (s1 * s2) * (s1 * s2) == x1 * x2
  {
    assert (s1 * s2) * (s1 * s2) == (s1 * s1) * (s2 * s2);
  }

  lemma {:induction false} NatProductBound(d: nat, n1: nat, n2: nat)
    requires d <= n1 && d <= n2
    ensures d * d <= n1 * n2
  {
    assert n1 * d - d * d == (n1 - d) * d;
    assert n1 * n2 - n1 * d == n1 * (n2 - d);
  }

  /** The quotient of line 53 lies in [0, 1]; it is 1 exactly when
      dot * dot == n1 * n2, and 0 exactly when dot is 0. */
  lemma {:induction false} CosineQuotient(c: Cosine, sqrt: real -> real)
    requires IsSqrt(sqrt) && c.Valid() && !c.IsNaN()
    ensures var q := c.dot as real / Magnitudes(c, sqrt);
      && 0.0 <= q <= 1.0
      && (q == 1.0 <==> c.dot * c.dot == c.n1 * c.n2)
      && (q == 0.0 <==> c.dot == 0)
  {
    var d, m := c.dot as real, Magnitudes(c, sqrt);
    NatProductBound(c.dot, c.n1, c.n2);
    assert d * d == (c.dot * c.dot) as real;
    assert m * m == (c.n1 * c.n2) as real;
    SquareMonotone(d, m);
    QuotientFacts(d, m);
  }

  /** The result is 1 exactly on the fallback or when dot * dot == n1 * n2,
      and 0 exactly when both sides have tokens and share none. */
  lemma ValueRange(c: Cosine, sqrt: real -> real)
    requires IsSqrt(sqrt) && c.Valid()
    ensures Value(c, sqrt) == 1.0 <==> c.IsNaN() || c.dot * c.dot == c.n1 * c.n2
    ensures Value(c, sqrt) == 0.0 <==> !c.IsNaN() && c.dot == 0
  {
    if !c.IsNaN() {
      CosineQuotient(c, sqrt);
    }
  }

  /** If either side has no tokens the result is exactly 1, even when the other
      side is not empty. */
  lemma {:induction false} EmptyIsFallback(tokens1: seq<Token>, tokens2: seq<Token>, sqrt: real -> real)
    requires IsSqrt(sqrt)
    requires tokens1 == [] || tokens2 == []
    ensures CosineSimilarity(tokens1, tokens2, sqrt) == 1.0
  {
    assert PresenceCounts(tokens1, tokens2).IsNaN();
  }

  /** Two sides with the same set of tokens are fully similar, whatever the
      order and the repetitions. */
  lemma {:induction false} SameTokenSetIsOne(tokens1: seq<Token>, tokens2: seq<Token>, sqrt: real -> real)
    requires IsSqrt(sqrt)
    requires Elems(tokens1) == Elems(tokens2)
    ensures CosineSimilarity(tokens1, tokens2, sqrt) == 1.0
  {
    var c := PresenceCounts(tokens1, tokens2);
    assert Elems(tokens1) * Elems(tokens2) == Elems(tokens1);
    assert c.dot == c.n1 == c.n2;
    ValueRange(c, sqrt);
  }

  /** Two non-empty sides without a shared token have similarity 0. */
  lemma {:induction false} DisjointIsZero(tokens1: seq<Token>, tokens2: seq<Token>, sqrt: real -> real)
    requires IsSqrt(sqrt)
    requires tokens1 != [] && tokens2 != []
    requires Elems(tokens1) !! Elems(tokens2)
    ensures CosineSimilarity(tokens1, tokens2, sqrt) == 0.0
  {
    var c := PresenceCounts(tokens1, tokens2);
    assert Elems(tokens1) * Elems(tokens2) == {};
    ValueRange(c, sqrt);
  }

  /** Swapping the two arguments does not change the result. */
  lemma {:induction false} SimilaritySymmetric(tokens1: seq<Token>, tokens2: seq<Token>, sqrt: real -> real)
    requires IsSqrt(sqrt)
    ensures CosineSimilarity(tokens1, tokens2, sqrt) == CosineSimilarity(tokens2, tokens1, sqrt)
  {
    assert Elems(tokens1) * Elems(tokens2) == Elems(tokens2) * Elems(tokens1);
    var c, d := PresenceCounts(tokens1, tokens2), PresenceCounts(tokens2, tokens1);
    assert d == Cosine(c.dot, c.n2, c.n1);
    if !c.IsNaN() {
      var s1, s2 := sqrt(c.n1 as real), sqrt(c.n2 as real);
      assert s1 * s2 == s2 * s1;
    }
  }
}
