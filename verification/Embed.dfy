// The bag-of-words embedding and cosine similarity
// (src/geonexus/gaag/embed.py), over exact reals.
module Embed {
  import opened Text
  import Filters

  // ---------------------------------------------------------------------
  // Sums of products
  // ---------------------------------------------------------------------

  function Dot(a: seq<real>, b: seq<real>): real
    requires |a| == |b|
  {
    if a == [] then 0.0 else a[0] * b[0] + Dot(a[1..], b[1..])
  }

  /** Multiplication under a name: the solver rewrites comparisons of a square
      with zero, and does not rewrite this. */
  function Mul(x: real, y: real): real {
    x * y
  }

  lemma Product(x: real, y: real)
    requires x > 0.0 && y > 0.0
    ensures Mul(x, y) > 0.0 && x * y > 0.0
  {
  }

  lemma Negated(x: real)
    ensures Mul(0.0 - x, 0.0 - x) == Mul(x, x)
  {
  }

  lemma SquarePositive(x: real)
    ensures Mul(x, x) >= 0.0 && (x != 0.0 ==> Mul(x, x) > 0.0)
  {
    if x > 0.0 {
      Product(x, x);
    } else if x < 0.0 {
      Product(0.0 - x, 0.0 - x);
      Negated(x);
    }
  }

  lemma {:induction false} SquaresNonNegative(a: seq<real>)
    ensures Dot(a, a) >= 0.0
    ensures Dot(a, a) == 0.0 ==> forall i :: 0 <= i < |a| ==> a[i] == 0.0
  {
    if a != [] {
      SquaresNonNegative(a[1..]);
      SquarePositive(a[0]);
      assert Dot(a, a) == Mul(a[0], a[0]) + Dot(a[1..], a[1..]);
      if Dot(a, a) == 0.0 {
        forall i | 0 <= i < |a| ensures a[i] == 0.0 {
          assert i > 0 ==> a[i] == a[1..][i - 1];
        }
      }
    }
  }

  lemma {:induction false} ZeroDot(a: seq<real>, b: seq<real>)
    requires |a| == |b| && forall i :: 0 <= i < |a| ==> a[i] == 0.0
    ensures Dot(a, b) == 0.0 && Dot(b, a) == 0.0
  {
    if a != [] {
      assert forall i :: 0 <= i < |a| - 1 ==> a[1..][i] == a[i + 1];
      ZeroDot(a[1..], b[1..]);
    }
  }

  lemma {:induction false} DotCommutes(a: seq<real>, b: seq<real>)
    requires |a| == |b|
    ensures Dot(a, b) == Dot(b, a)
  {
    if a != [] {
      DotCommutes(a[1..], b[1..]);
    }
  }

  /** The squared length of `s * a - t * b` is not negative. */
  lemma {:induction false} CombinedSquare(a: seq<real>, b: seq<real>, s: real, t: real)
    requires |a| == |b|
    ensures s * s * Dot(a, a) - 2.0 * (s * t) * Dot(a, b) + t * t * Dot(b, b) >= 0.0
  {
    if a != [] {
      CombinedSquare(a[1..], b[1..], s, t);
      var x, y := a[0], b[0];
      var aa, ab, bb := Dot(a[1..], a[1..]), Dot(a[1..], b[1..]), Dot(b[1..], b[1..]);
      SquareOfDifference(s, t, x, y);
      Expand(s * s, x * x, aa);
      Expand(2.0 * (s * t), x * y, ab);
      Expand(t * t, y * y, bb);
    }
  }

  lemma Expand(k: real, x: real, rest: real)
    ensures k * (x + rest) == k * x + k * rest
  {
  }

  lemma SquareOfDifference(s: real, t: real, x: real, y: real)
    ensures s * s * (x * x) - 2.0 * (s * t) * (x * y) + t * t * (y * y) >= 0.0
  {
    var d := s * x - t * y;
    assert d * d >= 0.0;
    calc {
      d * d;
      (s * x) * (s * x) - 2.0 * ((s * x) * (t * y)) + (t * y) * (t * y);
      { assert (s * x) * (s * x) == s * s * (x * x); assert (s * x) * (t * y) == (s * t) * (x * y);
        assert (t * y) * (t * y) == t * t * (y * y); }
      s * s * (x * x) - 2.0 * ((s * t) * (x * y)) + t * t * (y * y);
    }
  }

  // ---------------------------------------------------------------------
  // Cosine similarity
  // ---------------------------------------------------------------------

  /** `root` is the square root on what it is asked for. */
  ghost predicate IsRoot(root: real -> real) {
    forall x: real :: x >= 0.0 ==> RootOf(root(x), x)
  }

  predicate RootOf(r: real, x: real) {
    r >= 0.0 && r * r == x
  }

  /** `sum(...) ** 0.5 or 1.0`. */
  function Norm(a: seq<real>, root: real -> real): (n: real)
    ensures n != 0.0
  {
    var r := root(Dot(a, a));
    if r == 0.0 then 1.0 else r
  }

  lemma NormPositive(a: seq<real>, root: real -> real)
    requires IsRoot(root)
    ensures Norm(a, root) > 0.0
    ensures Dot(a, a) > 0.0 ==> Norm(a, root) * Norm(a, root) == Dot(a, a)
    ensures Dot(a, a) == 0.0 ==> Norm(a, root) == 1.0
  {
    SquaresNonNegative(a);
    var r := root(Dot(a, a));
    assert RootOf(r, Dot(a, a));
    SquarePositive(r);
    assert Mul(r, r) == Dot(a, a);
  }

  function Cosine(a: seq<real>, b: seq<real>, root: real -> real): real {
    if a == [] || b == [] || |a| != |b| then 0.0
    else
      var norms := Norm(a, root) * Norm(b, root);
      if norms == 0.0 then 0.0 else Dot(a, b) / norms
  }

  lemma BoundFromSquare(d: real, x: real, y: real)
    requires x > 0.0 && y > 0.0
    requires y * y * (x * x) - 2.0 * (y * x) * d + x * x * (y * y) >= 0.0
    ensures d <= x * y
  {
    var k := x * y;
    Product(x, y);
    Fourth(x, y);
    assert 2.0 * (k * k) - 2.0 * (k * d) >= 0.0;
    assert k * (d - k) == k * d - k * k;
    if d > k {
      Product(k, d - k);
    }
  }

  lemma Fourth(x: real, y: real)
    ensures y * y * (x * x) == (x * y) * (x * y) && x * x * (y * y) == (x * y) * (x * y) && y * x == x * y
  {
    assert y * y * (x * x) == y * (y * x) * x;
    assert y * (y * x) * x == (x * y) * (x * y);
  }

  lemma BothBounds(d: real, x: real, y: real, aa: real, bb: real)
    requires x > 0.0 && y > 0.0 && x * x == aa && y * y == bb
    requires y * y * aa - 2.0 * (y * x) * d + x * x * bb >= 0.0
    requires y * y * aa - 2.0 * (y * -x) * d + -x * -x * bb >= 0.0
    ensures -(x * y) <= d <= x * y
  {
    BoundFromSquare(d, x, y);
    assert -x * -x == x * x && (y * -x) * d == (y * x) * -d;
    BoundFromSquare(-d, x, y);
  }

  lemma NonZeroBounded(a: seq<real>, b: seq<real>, x: real, y: real)
    requires |a| == |b| && x > 0.0 && y > 0.0 && x * x == Dot(a, a) && y * y == Dot(b, b)
    ensures -(x * y) <= Dot(a, b) <= x * y
  {
    hide Dot;
    CombinedSquare(a, b, y, x);
    CombinedSquare(a, b, y, -x);
    BothBounds(Dot(a, b), x, y, Dot(a, a), Dot(b, b));
  }

  /** Cauchy-Schwarz: the product of two vectors is bounded by that of their
      norms, as computed. */
  lemma CauchySchwarz(a: seq<real>, b: seq<real>, root: real -> real)
    requires IsRoot(root) && |a| == |b|
    ensures Norm(a, root) * Norm(b, root) > 0.0
    ensures -(Norm(a, root) * Norm(b, root)) <= Dot(a, b) <= Norm(a, root) * Norm(b, root)
  {
    hide Norm, IsRoot, Dot;
    NormPositive(a, root);
    NormPositive(b, root);
    Product(Norm(a, root), Norm(b, root));
    SquaresNonNegative(a);
    SquaresNonNegative(b);
    if Dot(a, a) == 0.0 {
      ZeroDot(a, b);
    } else if Dot(b, b) == 0.0 {
      ZeroDot(b, a);
    } else {
      NonZeroBounded(a, b, Norm(a, root), Norm(b, root));
    }
  }

  lemma QuotientBounded(d: real, p: real)
    requires p > 0.0 && -p <= d <= p
    ensures -1.0 <= d / p <= 1.0
  {
    var q := d / p;
    assert q * p == d;
    if q > 1.0 {
      Product(q - 1.0, p);
    } else if q < -1.0 {
      Product(-1.0 - q, p);
    }
  }

  /** The similarity of any two vectors lies in [-1, 1]. */
  lemma CosineBounded(a: seq<real>, b: seq<real>, root: real -> real)
    requires IsRoot(root)
    ensures -1.0 <= Cosine(a, b, root) <= 1.0
  {
    hide IsRoot, Norm, Dot;
    if a != [] && |a| == |b| {
      CauchySchwarz(a, b, root);
      QuotientBounded(Dot(a, b), Norm(a, root) * Norm(b, root));
    }
  }

  /** The similarity without a root: its square is the squared product over the
      product of the squares, and its sign is that of the product. */
  ghost predicate CosineOf(c: real, ab: real, aa: real, bb: real) {
    c * c * (aa * bb) == ab * ab && (c > 0.0 <==> ab > 0.0) && (c < 0.0 <==> ab < 0.0)
  }

  /** The similarity of two vectors of the same length is determined by their
      products; other vectors, or those without components, have none. */
  lemma CosineExactly(a: seq<real>, b: seq<real>, root: real -> real)
    requires IsRoot(root)
    ensures |a| != |b| || a == [] ==> Cosine(a, b, root) == 0.0
    ensures |a| == |b| ==> CosineOf(Cosine(a, b, root), Dot(a, b), Dot(a, a), Dot(b, b))
  {
    if |a| == |b| && a != [] {
      CosineOfParts(a, b, root);
    } else if |a| == |b| {
      EmptyCosine(a, b, root);
    }
  }

  lemma CosineOfParts(a: seq<real>, b: seq<real>, root: real -> real)
    requires IsRoot(root) && a != [] && |a| == |b|
    ensures CosineOf(Cosine(a, b, root), Dot(a, b), Dot(a, a), Dot(b, b))
  {
    hide Dot, Norm, Cosine, IsRoot, CosineOf;
    CosineIs(a, b, root);
    NormPositive(a, root);
    NormPositive(b, root);
    SquaresNonNegative(a);
    SquaresNonNegative(b);
    if Dot(a, a) == 0.0 || Dot(b, b) == 0.0 {
      NullDot(a, b);
    }
    PartsOfCosine(Cosine(a, b, root), Dot(a, b), Dot(a, a), Dot(b, b), Norm(a, root), Norm(b, root));
  }

  lemma PartsOfCosine(c: real, ab: real, aa: real, bb: real, n: real, m: real)
    requires n * m > 0.0 && c == ab / (n * m)
    requires if aa == 0.0 || bb == 0.0 then ab == 0.0 else n * n == aa && m * m == bb
    ensures CosineOf(c, ab, aa, bb)
  {
    QuotientSigns(c, ab, n * m);
    if aa == 0.0 || bb == 0.0 {
      assert c == 0.0;
    } else {
      SquareOfQuotient(c, ab, n, m);
    }
  }

  lemma QuotientSigns(c: real, d: real, p: real)
    requires p > 0.0 && c == d / p
    ensures c * p == d && (c > 0.0 <==> d > 0.0) && (c < 0.0 <==> d < 0.0)
  {
    if c > 0.0 {
      Product(c, p);
    } else if c < 0.0 {
      Product(-c, p);
    }
  }

  lemma SquareOfQuotient(c: real, d: real, n: real, m: real)
    requires c * (n * m) == d
    ensures c * c * ((n * n) * (m * m)) == d * d
  {
    var p := n * m;
    assert (n * n) * (m * m) == p * p;
    assert c * c * (p * p) == (c * p) * (c * p);
  }

  /** The product of two vectors grows by the product of their next components. */
  lemma {:induction false} DotNext(a: seq<real>, b: seq<real>, x: real, y: real)
    requires |a| == |b|
    ensures Dot(a + [x], b + [y]) == Dot(a, b) + x * y
  {
    if a != [] {
      assert (a + [x])[1..] == a[1..] + [x] && (b + [y])[1..] == b[1..] + [y];
      DotNext(a[1..], b[1..], x, y);
    }
  }

  // ---------------------------------------------------------------------
  // Scaling does not change the similarity
  // ---------------------------------------------------------------------

  lemma RootUnique(r: real, s: real)
    requires r >= 0.0 && s >= 0.0 && Mul(r, r) == Mul(s, s)
    ensures r == s
  {
    if r > s {
      Grows(s, r);
    } else if s > r {
      Grows(r, s);
    }
  }

  lemma Grows(small: real, large: real)
    requires 0.0 <= small < large
    ensures Mul(small, small) < Mul(large, large)
  {
    var d := large - small;
    Product(d, d);
    assert Mul(large, large) == Mul(small, small) + 2.0 * Mul(small, d) + Mul(d, d);
    assert Mul(small, d) >= 0.0;
  }

  /** A vector whose squared length is `p * p` times another's has `p` times
      its norm. */
  lemma NormScales(a: seq<real>, b: seq<real>, p: real, root: real -> real)
    requires IsRoot(root) && p > 0.0 && Dot(b, b) == Mul(p, p) * Dot(a, a) && Dot(a, a) > 0.0
    ensures Norm(b, root) == p * Norm(a, root)
  {
    hide Dot;
    Product(p, p);
    assert Dot(b, b) > 0.0 by { Product(Mul(p, p), Dot(a, a)); }
    NormPositive(a, root);
    NormPositive(b, root);
    hide Norm;
    var n, m := Norm(a, root), Norm(b, root);
    Product(p, n);
    assert (p * n) * (p * n) == (p * p) * (n * n);
    RootUnique(m, p * n);
  }

  lemma ScaledQuotient(d: real, n: real, m: real, p: real, q: real)
    requires n > 0.0 && m > 0.0 && p > 0.0 && q > 0.0
    ensures n * m > 0.0 && (p * n) * (q * m) > 0.0
    ensures (p * q) * d / ((p * n) * (q * m)) == d / (n * m)
  {
    Product(n, m);
    Product(p, q);
    Product(p * q, n * m);
    assert (p * n) * (q * m) == (p * q) * (n * m);
    Cancel(d, p * q, n * m);
  }

  lemma Cancel(d: real, k: real, e: real)
    requires k > 0.0 && e > 0.0
    ensures k * e > 0.0 && k * d / (k * e) == d / e
  {
    Product(k, e);
    var x := d / e;
    assert x * e == d;
    assert x * (k * e) == k * (x * e);
    QuotientIs(k * d, k * e, x);
  }

  lemma QuotientIs(num: real, den: real, x: real)
    requires den > 0.0 && x * den == num
    ensures num / den == x
  {
    var y := num / den;
    assert y * den == num;
    if y > x {
      Product(y - x, den);
    } else if y < x {
      Product(x - y, den);
    }
  }

  lemma ZeroCosine(a: seq<real>, b: seq<real>, root: real -> real)
    requires IsRoot(root) && a != [] && |a| == |b| && Dot(a, b) == 0.0
    ensures Cosine(a, b, root) == 0.0
  {
    hide Dot, Norm, Cosine;
    CosineIs(a, b, root);
    QuotientIs(0.0, Norm(a, root) * Norm(b, root), 0.0);
  }

  /** `c` is the quotient of `d` by the product of `n` and `m`. */
  predicate IsRatio(c: real, d: real, n: real, m: real) {
    n * m > 0.0 && c == d / (n * m)
  }

  predicate IsProduct(x: real, p: real, y: real) {
    x == p * y
  }

  /** All products of `c` and `d` are those of `a` and `b`, scaled by `p` and
      `q`. */
  ghost predicate Scales(a: seq<real>, b: seq<real>, c: seq<real>, d: seq<real>, p: real, q: real)
    requires |a| == |b| && |c| == |d|
  {
    && IsProduct(Dot(c, d), p * q, Dot(a, b))
    && Dot(c, c) == Mul(p, p) * Dot(a, a) && Dot(d, d) == Mul(q, q) * Dot(b, b)
  }

  lemma NonZeroScales(a: seq<real>, b: seq<real>, c: seq<real>, d: seq<real>, p: real, q: real, root: real -> real)
    requires IsRoot(root) && p > 0.0 && q > 0.0
    requires |a| == |b| && |c| == |d| && a != [] && c != []
    requires Scales(a, b, c, d, p, q)
    requires Dot(a, a) > 0.0 && Dot(b, b) > 0.0
    ensures Cosine(c, d, root) == Cosine(a, b, root)
  {
    hide Dot, Norm, Cosine, Mul, IsProduct, IsRatio, Scales;
    CosineRatio(a, b, root);
    CosineRatio(c, d, root);
    FirstNorm(a, b, c, d, p, q, root);
    SecondNorm(a, b, c, d, p, q, root);
    DotScales(a, b, c, d, p, q);
    assert Norm(a, root) > 0.0 && Norm(b, root) > 0.0 by { NormPositive(a, root); NormPositive(b, root); }
    SameRatio(Dot(a, b), Norm(a, root), Norm(b, root), p, q, Dot(c, d), Norm(c, root), Norm(d, root),
              Cosine(a, b, root), Cosine(c, d, root));
  }

  lemma CosineRatio(a: seq<real>, b: seq<real>, root: real -> real)
    requires IsRoot(root) && a != [] && |a| == |b|
    ensures IsRatio(Cosine(a, b, root), Dot(a, b), Norm(a, root), Norm(b, root))
  {
    hide Cosine, Dot, Norm;
    CosineIs(a, b, root);
  }

  lemma NormProduct(a: seq<real>, b: seq<real>, p: real, root: real -> real)
    requires IsRoot(root) && p > 0.0 && Dot(b, b) == Mul(p, p) * Dot(a, a) && Dot(a, a) > 0.0
    ensures IsProduct(Norm(b, root), p, Norm(a, root))
  {
    hide Dot, Norm, Mul;
    NormScales(a, b, p, root);
  }

  lemma FirstNorm(a: seq<real>, b: seq<real>, c: seq<real>, d: seq<real>, p: real, q: real, root: real -> real)
    requires IsRoot(root) && p > 0.0 && |a| == |b| && |c| == |d| && Scales(a, b, c, d, p, q) && Dot(a, a) > 0.0
    ensures IsProduct(Norm(c, root), p, Norm(a, root))
  {
    hide Dot, Norm, Mul, IsProduct, IsRoot;
    NormProduct(a, c, p, root);
  }

  lemma SecondNorm(a: seq<real>, b: seq<real>, c: seq<real>, d: seq<real>, p: real, q: real, root: real -> real)
    requires IsRoot(root) && q > 0.0 && |a| == |b| && |c| == |d| && Scales(a, b, c, d, p, q) && Dot(b, b) > 0.0
    ensures IsProduct(Norm(d, root), q, Norm(b, root))
  {
    hide Dot, Norm, Mul, IsProduct, IsRoot;
    NormProduct(b, d, q, root);
  }

  lemma DotScales(a: seq<real>, b: seq<real>, c: seq<real>, d: seq<real>, p: real, q: real)
    requires |a| == |b| && |c| == |d| && Scales(a, b, c, d, p, q)
    ensures IsProduct(Dot(c, d), p * q, Dot(a, b))
  {
    hide Dot, Mul, IsProduct;
  }

  lemma ScaledNull(a: seq<real>, b: seq<real>, c: seq<real>, d: seq<real>, p: real, q: real)
    requires |a| == |b| && |c| == |d| && Scales(a, b, c, d, p, q) && Dot(a, b) == 0.0
    ensures Dot(c, d) == 0.0
  {
    hide Dot, Mul;
  }

  lemma SameRatio(ab: real, na: real, nb: real, p: real, q: real, cd: real, nc: real, nd: real, x: real, y: real)
    requires na > 0.0 && nb > 0.0 && p > 0.0 && q > 0.0
    requires IsProduct(cd, p * q, ab) && IsProduct(nc, p, na) && IsProduct(nd, q, nb)
    requires IsRatio(x, ab, na, nb) && IsRatio(y, cd, nc, nd)
    ensures x == y
  {
    ScaledQuotient(ab, na, nb, p, q);
  }

  /** Vectors that scale by `p` and `q` have the same similarity. */
  lemma CosineScales(a: seq<real>, b: seq<real>, c: seq<real>, d: seq<real>, p: real, q: real, root: real -> real)
    requires IsRoot(root) && p > 0.0 && q > 0.0
    requires |a| == |b| && |c| == |d| && (a == [] <==> c == [])
    requires Scales(a, b, c, d, p, q)
    ensures Cosine(c, d, root) == Cosine(a, b, root)
  {
    if a == [] {
      EmptyCosine(a, b, root);
      EmptyCosine(c, d, root);
    } else {
      hide Dot, Norm, Cosine, Mul, Scales;
      SquaresNonNegative(a);
      SquaresNonNegative(b);
      if Dot(a, a) > 0.0 && Dot(b, b) > 0.0 {
        NonZeroScales(a, b, c, d, p, q, root);
      } else {
        NullDot(a, b);
        ScaledNull(a, b, c, d, p, q);
        ZeroCosine(a, b, root);
        ZeroCosine(c, d, root);
      }
    }
  }

  lemma EmptyCosine(a: seq<real>, b: seq<real>, root: real -> real)
    requires a == []
    ensures Cosine(a, b, root) == 0.0
  {
  }

  lemma NullDot(a: seq<real>, b: seq<real>)
    requires |a| == |b| && (Dot(a, a) == 0.0 || Dot(b, b) == 0.0)
    ensures Dot(a, b) == 0.0
  {
    hide Dot;
    SquaresNonNegative(a);
    SquaresNonNegative(b);
    if Dot(a, a) == 0.0 {
      ZeroDot(a, b);
    } else {
      ZeroDot(b, a);
    }
  }

  lemma CosineIs(a: seq<real>, b: seq<real>, root: real -> real)
    requires IsRoot(root) && a != [] && |a| == |b|
    ensures Norm(a, root) * Norm(b, root) > 0.0
    ensures Cosine(a, b, root) == Dot(a, b) / (Norm(a, root) * Norm(b, root))
  {
    hide Dot, Norm;
    CauchySchwarz(a, b, root);
  }

  // ---------------------------------------------------------------------
  // Tokens and their directions
  // ---------------------------------------------------------------------

  predicate IsToken(c: char) {
    IsDigit(c) || 'a' <= c <= 'z' || c == '_'
  }

  /** The maximal runs of token characters. */
  function Words(s: string): seq<string>
    decreases |s|
  {
    if s == "" then []
    else if IsToken(s[0]) then
      var j := Run(s, 0, IsToken);
      assert j > 0;
      [s[..j]] + Words(s[j..])
    else Words(s[1..])
  }

  /** What separates: every character but small letters, digits and underscores. */
  predicate Separates(c: char) {
    !('a' <= c <= 'z' || '0' <= c <= '9' || c == '_')
  }

  /** The words of two phrases with a separator between them are the words of one
      and then of the other. */
  lemma {:induction false} WordsOfPhrases(a: string, c: char, b: string)
    requires Separates(c)
    ensures Words(a + [c] + b) == Words(a) + Words(b)
    decreases |a|
  {
    var s := a + [c] + b;
    if a == "" {
      assert s[1..] == b;
    } else if IsToken(a[0]) {
      var j := Run(a, 0, IsToken);
      hide Words, Run;
      RunOfPhrases(a, c, b);
      FirstWord(a);
      FirstWord(s);
      assert s[..j] == a[..j] && s[j..] == a[j..] + [c] + b;
      WordsOfPhrases(a[j..], c, b);
    } else {
      assert s[1..] == a[1..] + [c] + b;
      WordsOfPhrases(a[1..], c, b);
    }
  }

  /** Text without a separator is one word. */
  lemma OneWord(s: string)
    requires s != "" && forall k :: 0 <= k < |s| ==> !Separates(s[k])
    ensures Words(s) == [s]
  {
    RunIs(s, 0, |s|, IsToken);
    assert s[..|s|] == s && Words(s[|s|..]) == [];
  }

  lemma FirstWord(s: string)
    requires s != "" && IsToken(s[0])
    ensures var j := Run(s, 0, IsToken); 0 < j <= |s| && Words(s) == [s[..j]] + Words(s[j..])
  {
  }

  lemma RunOfPhrases(a: string, c: char, b: string)
    requires Separates(c)
    ensures Run(a + [c] + b, 0, IsToken) == Run(a, 0, IsToken)
  {
    var s, j := a + [c] + b, Run(a, 0, IsToken);
    hide Run;
    assert j < |a| ==> s[j] == a[j];
    assert s[0..j] == a[0..j];
    RunIs(s, 0, j, IsToken);
  }

  function Tokens(text: string): seq<string> {
    Words(Lower(text))
  }

  /** SHA-256, as far as the embedding relies on it: 32 bytes. */
  ghost predicate IsDigest(digest: string -> seq<bv8>) {
    forall t: string :: |digest(t)| == 32
  }

  /** Entry `i` of a token's direction: the bit `i % 8` of byte `i % 32`. */
  function Sign(d: seq<bv8>, i: nat): (x: int)
    requires |d| == 32
    ensures x == 1 || x == -1
  {
    if d[i % 32] & ((1 as bv8) << (i % 8)) != 0 then 1 else -1
  }

  /** The bit of the byte, counted from the lowest. */
  lemma SignOfBit(d: seq<bv8>, i: nat)
    requires |d| == 32
    ensures Sign(d, i) == 1 <==> (d[i % 32] >> (i % 8)) & 1 == 1
  {
    BitShifted(d[i % 32], i % 8);
  }

  lemma BitShifted(x: bv8, k: nat)
    requires k < 8
    ensures x & ((1 as bv8) << k) != 0 <==> (x >> k) & 1 == 1
  {
    if k == 0 {
    } else if k == 1 {
    } else if k == 2 {
    } else if k == 3 {
    } else if k == 4 {
    } else if k == 5 {
    } else if k == 6 {
    } else {
    }
  }

  lemma SignRepeats(d: seq<bv8>, i: nat)
    requires |d| == 32
    ensures Sign(d, i + 32) == Sign(d, i)
  {
    assert (i + 32) % 32 == i % 32 && (i + 32) % 8 == i % 8;
  }

  function Component(tokens: seq<string>, i: nat, digest: string -> seq<bv8>): int
    requires IsDigest(digest)
  {
    if tokens == [] then 0 else Sign(digest(tokens[0]), i) + Component(tokens[1..], i, digest)
  }

  function Vector(tokens: seq<string>, dim: nat, digest: string -> seq<bv8>): (v: seq<real>)
    requires IsDigest(digest)
    ensures |v| == dim && forall i :: 0 <= i < dim ==> v[i] == Component(tokens, i, digest) as real
  {
    seq(dim, i requires 0 <= i < dim && IsDigest(digest) => Component(tokens, i, digest) as real)
  }

  function Divide(v: seq<real>, n: real): (r: seq<real>)
    requires n != 0.0
    ensures |r| == |v| && forall i :: 0 <= i < |v| ==> r[i] == v[i] / n
  {
    if v == [] then [] else [v[0] / n] + Divide(v[1..], n)
  }

  /** The embedding of a list of tokens. */
  function Embedding(tokens: seq<string>, dim: nat, digest: string -> seq<bv8>, root: real -> real): (v: seq<real>)
    requires IsDigest(digest)
    ensures |v| == dim
  {
    Divide(Vector(tokens, dim, digest), Norm(Vector(tokens, dim, digest), root))
  }

  // ---------------------------------------------------------------------
  // What the embedding does not see
  // ---------------------------------------------------------------------

  lemma {:induction false} ComponentConcat(s: seq<string>, t: seq<string>, i: nat, digest: string -> seq<bv8>)
    requires IsDigest(digest)
    ensures Component(s + t, i, digest) == Component(s, i, digest) + Component(t, i, digest)
  {
    if s == [] {
      assert s + t == t;
    } else {
      assert (s + t)[1..] == s[1..] + t;
      ComponentConcat(s[1..], t, i, digest);
    }
  }

  lemma ComponentWithout(s: seq<string>, k: nat, i: nat, digest: string -> seq<bv8>)
    requires IsDigest(digest) && k < |s|
    ensures Component(s, i, digest) == Sign(digest(s[k]), i) + Component(Filters.Without(s, k), i, digest)
  {
    hide Sign;
    assert s == s[..k] + ([s[k]] + s[k + 1..]);
    ComponentConcat(s[..k], [s[k]] + s[k + 1..], i, digest);
    ComponentConcat([s[k]], s[k + 1..], i, digest);
    ComponentConcat(s[..k], s[k + 1..], i, digest);
    assert Component([s[k]], i, digest) == Sign(digest(s[k]), i) + Component([], i, digest);
  }

  lemma {:induction false} ComponentPermutes(s: seq<string>, t: seq<string>, i: nat, digest: string -> seq<bv8>)
    requires IsDigest(digest) && multiset(s) == multiset(t)
    ensures Component(s, i, digest) == Component(t, i, digest)
    decreases |s|
  {
    if s == [] {
      assert |multiset(t)| == 0;
    } else {
      hide Sign, Filters.Without, Component;
      assert s[0] in multiset(t);
      var k :| 0 <= k < |t| && t[k] == s[0];
      Filters.WithoutSplits(s, 0);
      Filters.WithoutSplits(t, k);
      assert multiset(Filters.Without(s, 0)) == multiset(s) - multiset{s[0]};
      assert multiset(Filters.Without(t, k)) == multiset(t) - multiset{s[0]};
      ComponentPermutes(Filters.Without(s, 0), Filters.Without(t, k), i, digest);
      ComponentWithout(s, 0, i, digest);
      ComponentWithout(t, k, i, digest);
    }
  }

  /** The embedding depends only on which tokens occur how often. */
  lemma OrderIrrelevant(s: seq<string>, t: seq<string>, dim: nat, digest: string -> seq<bv8>, root: real -> real)
    requires IsDigest(digest) && multiset(s) == multiset(t)
    ensures Embedding(s, dim, digest, root) == Embedding(t, dim, digest, root)
  {
    forall i | 0 <= i < dim ensures Component(s, i, digest) == Component(t, i, digest) {
      ComponentPermutes(s, t, i, digest);
    }
    assert Vector(s, dim, digest) == Vector(t, dim, digest);
  }

  /** An odd number of tokens never cancels out: no component is zero. */
  lemma {:induction false} OddNeverZero(tokens: seq<string>, i: nat, digest: string -> seq<bv8>)
    requires IsDigest(digest)
    ensures Component(tokens, i, digest) % 2 == |tokens| % 2
    ensures -|tokens| <= Component(tokens, i, digest) <= |tokens|
  {
    hide Sign;
    if tokens != [] {
      OddNeverZero(tokens[1..], i, digest);
    }
  }

  // ---------------------------------------------------------------------
  // The embedding as it is computed
  // ---------------------------------------------------------------------

  /** `_token_unit`: the list of a token's signs, filled entry by entry. */
  method TokenUnit(token: string, dim: nat, digest: string -> seq<bv8>) returns (out: array<int>)
    requires IsDigest(digest)
    ensures fresh(out) && out.Length == dim
    ensures forall i :: 0 <= i < dim ==> out[i] == Sign(digest(token), i)
  {
    hide Sign;
    var d := digest(token);
    out := new int[dim](_ => 0);
    for i := 0 to dim
      invariant forall j :: 0 <= j < i ==> out[j] == Sign(d, j)
    {
      out[i] := Sign(d, i);
    }
  }

  /** Adding a token's direction to the sums, in place. */
  method AddUnit(vec: array<int>, unit: array<int>)
    requires vec.Length == unit.Length && vec != unit
    modifies vec
    ensures forall i :: 0 <= i < vec.Length ==> vec[i] == old(vec[i]) + unit[i]
  {
    for i := 0 to vec.Length
      invariant forall j :: 0 <= j < i ==> vec[j] == old(vec[j]) + unit[j]
      invariant forall j :: i <= j < vec.Length ==> vec[j] == old(vec[j])
    {
      vec[i] := vec[i] + unit[i];
    }
  }

  lemma ComponentNext(tokens: seq<string>, k: nat, i: nat, digest: string -> seq<bv8>)
    requires IsDigest(digest) && k < |tokens|
    ensures Component(tokens[..k + 1], i, digest) == Component(tokens[..k], i, digest) + Sign(digest(tokens[k]), i)
  {
    hide Sign;
    assert tokens[..k + 1] == tokens[..k] + [tokens[k]];
    ComponentConcat(tokens[..k], [tokens[k]], i, digest);
  }

  /** The loops of `embed_text` over tokens and components. */
  method SumUnits(tokens: seq<string>, dim: nat, digest: string -> seq<bv8>) returns (vec: array<int>)
    requires IsDigest(digest)
    ensures fresh(vec) && vec.Length == dim
    ensures forall i :: 0 <= i < dim ==> vec[i] == Component(tokens, i, digest)
  {
    hide Sign;
    vec := new int[dim](_ => 0);
    for k := 0 to |tokens|
      invariant forall i :: 0 <= i < dim ==> vec[i] == Component(tokens[..k], i, digest)
    {
      var unit := TokenUnit(tokens[k], dim, digest);
      AddUnit(vec, unit);
      forall i | 0 <= i < dim ensures vec[i] == Component(tokens[..k + 1], i, digest) {
        ComponentNext(tokens, k, i, digest);
      }
    }
    assert tokens[..|tokens|] == tokens;
  }

  /** `embed_text`. */
  method EmbedText(text: string, dim: nat, digest: string -> seq<bv8>, root: real -> real) returns (v: seq<real>)
    requires IsDigest(digest) && IsRoot(root)
    ensures v == Embedding(Tokens(text), dim, digest, root)
  {
    hide Sign, Norm, IsRoot, Words;
    var tokens := Tokens(text);
    if tokens == [] {
      v := seq(dim, _ => 0.0);
      NormPositive(Vector(tokens, dim, digest), root);
      assert v == Embedding(tokens, dim, digest, root);
      return;
    }
    var vec := SumUnits(tokens, dim, digest);
    var sums := seq(dim, i requires 0 <= i < vec.Length reads vec => vec[i] as real);
    assert sums == Vector(tokens, dim, digest);
    v := Divide(sums, Norm(sums, root));
  }

  // ---------------------------------------------------------------------
  // Half of a 64-dimensional embedding is enough
  // ---------------------------------------------------------------------

  lemma {:induction false} ComponentRepeats(tokens: seq<string>, i: nat, digest: string -> seq<bv8>)
    requires IsDigest(digest)
    ensures Component(tokens, i + 32, digest) == Component(tokens, i, digest)
  {
    hide Sign;
    if tokens != [] {
      SignRepeats(digest(tokens[0]), i);
      ComponentRepeats(tokens[1..], i, digest);
    }
  }

  lemma HalvesEqual(tokens: seq<string>, digest: string -> seq<bv8>, root: real -> real)
    requires IsDigest(digest)
    ensures var e := Embedding(tokens, 64, digest, root); e == e[..32] + e[..32]
  {
    hide Norm;
    var v := Vector(tokens, 64, digest);
    var e := Embedding(tokens, 64, digest, root);
    forall i | 0 <= i < 32 ensures e[32..][i] == e[..32][i] {
      ComponentRepeats(tokens, i, digest);
      assert v[i + 32] == v[i];
    }
    assert e[32..] == e[..32];
  }

  lemma {:induction false} DotConcat(a: seq<real>, b: seq<real>, c: seq<real>, d: seq<real>)
    requires |a| == |b| && |c| == |d|
    ensures Dot(a + c, b + d) == Dot(a, b) + Dot(c, d)
  {
    if a == [] {
      assert a + c == c && b + d == d;
    } else {
      assert (a + c)[1..] == a[1..] + c && (b + d)[1..] == b[1..] + d;
      DotConcat(a[1..], b[1..], c, d);
    }
  }

  /** Repeating both vectors leaves their similarity as it is. */
  lemma DoublingKeepsCosine(a: seq<real>, b: seq<real>, root: real -> real)
    requires IsRoot(root) && |a| == |b|
    ensures Cosine(a + a, b + b, root) == Cosine(a, b, root)
  {
    DotConcat(a, b, a, b);
    DotConcat(a, a, a, a);
    DotConcat(b, b, b, b);
    var p := root(2.0);
    assert RootOf(p, 2.0);
    assert p > 0.0;
    assert Scales(a, b, a + a, b + b, p, p) by { hide Dot; }
    hide Dot, Cosine, Scales;
    CosineScales(a, b, a + a, b + b, p, p, root);
  }

  /** The similarity of two embeddings is that of their first 32 components. */
  lemma FirstHalfSuffices(s: seq<string>, t: seq<string>, digest: string -> seq<bv8>, root: real -> real)
    requires IsDigest(digest) && IsRoot(root)
    ensures var e, f := Embedding(s, 64, digest, root), Embedding(t, 64, digest, root);
      Cosine(e, f, root) == Cosine(e[..32], f[..32], root)
  {
    hide Embedding, Cosine;
    var e, f := Embedding(s, 64, digest, root), Embedding(t, 64, digest, root);
    HalvesEqual(s, digest, root);
    HalvesEqual(t, digest, root);
    DoublingKeepsCosine(e[..32], f[..32], root);
  }

  // ---------------------------------------------------------------------
  // Normalising does not change the similarity
  // ---------------------------------------------------------------------

  lemma ElementDivide(x: real, y: real, n: real, m: real)
    requires n > 0.0 && m > 0.0
    ensures x / n * (y / m) == Mul(1.0 / n * (1.0 / m), x * y)
  {
    var p, q := 1.0 / n, 1.0 / m;
    assert x / n == x * p && y / m == y * q;
    assert (x * p) * (y * q) == (p * q) * (x * y);
  }

  lemma MulExpand(k: real, x: real, rest: real)
    ensures Mul(k, x + rest) == Mul(k, x) + Mul(k, rest)
  {
    Expand(k, x, rest);
  }

  lemma {:induction false} DotDivide(a: seq<real>, b: seq<real>, n: real, m: real)
    requires |a| == |b| && n > 0.0 && m > 0.0
    ensures Dot(Divide(a, n), Divide(b, m)) == Mul(1.0 / n * (1.0 / m), Dot(a, b))
  {
    var k := 1.0 / n * (1.0 / m);
    if a != [] {
      DotDivide(a[1..], b[1..], n, m);
      ElementDivide(a[0], b[0], n, m);
      MulExpand(k, a[0] * b[0], Dot(a[1..], b[1..]));
      hide Mul;
    }
  }

  lemma DividedScales(v: seq<real>, w: seq<real>, n: real, m: real)
    requires |v| == |w| && n > 0.0 && m > 0.0
    ensures 1.0 / n > 0.0 && 1.0 / m > 0.0
    ensures Scales(v, w, Divide(v, n), Divide(w, m), 1.0 / n, 1.0 / m)
  {
    hide Dot, Divide;
    DotDivide(v, w, n, m);
    DotDivide(v, v, n, n);
    DotDivide(w, w, m, m);
  }

  /** The similarity of two embeddings is that of the plain token sums. */
  lemma NormalisingKeepsCosine(s: seq<string>, t: seq<string>, dim: nat, digest: string -> seq<bv8>, root: real -> real)
    requires IsDigest(digest) && IsRoot(root)
    ensures Cosine(Embedding(s, dim, digest, root), Embedding(t, dim, digest, root), root)
         == Cosine(Vector(s, dim, digest), Vector(t, dim, digest), root)
  {
    hide Dot, Cosine, Scales, Divide, Norm, Vector, IsRoot;
    var v, w := Vector(s, dim, digest), Vector(t, dim, digest);
    var n, m := Norm(v, root), Norm(w, root);
    NormPositive(v, root);
    NormPositive(w, root);
    DividedScales(v, w, n, m);
    CosineScales(v, w, Divide(v, n), Divide(w, m), 1.0 / n, 1.0 / m, root);
  }
}
