// The two chi-square statistics of the wetland example, over exact reals and
// before rounding (examples/flightway_wetland/rfi_skills.py).
module ChiSquare {

  // ---------------------------------------------------------------------
  // Real arithmetic under names
  // ---------------------------------------------------------------------

  function Mul(x: real, y: real): real {
    x * y
  }

  function Square(x: real): real {
    x * x
  }

  lemma PositiveProduct(x: real, y: real)
    requires x > 0.0 && y > 0.0
    ensures Mul(x, y) > 0.0
  {
  }

  lemma SquareSign(x: real)
    ensures Square(x) >= 0.0 && (x != 0.0 ==> Square(x) > 0.0)
  {
    if x > 0.0 {
      PositiveProduct(x, x);
      assert Mul(x, x) == Square(x);
    } else if x < 0.0 {
      var y := 0.0 - x;
      PositiveProduct(y, y);
      assert Mul(y, y) == Square(x);
    }
  }

  lemma SquareOfZero(x: real)
    requires x == 0.0
    ensures Square(x) == 0.0
  {
  }

  /** A quotient is determined by its product with the divisor. */
  lemma QuotientIs(num: real, den: real, x: real)
    requires den != 0.0 && x * den == num
    ensures num / den == x
  {
    var y := num / den;
    assert y * den == num;
    assert (y - x) * den == 0.0;
    NoZeroDivisors(y - x, den);
  }

  lemma NoZeroDivisors(x: real, y: real)
    requires x * y == 0.0 && y != 0.0
    ensures x == 0.0
  {
  }

  // ---------------------------------------------------------------------
  // Goodness of fit with equal expectations
  // ---------------------------------------------------------------------

  function Sum(xs: seq<real>): real {
    if xs == [] then 0.0 else xs[0] + Sum(xs[1..])
  }

  function SumOfSquares(xs: seq<real>): real {
    if xs == [] then 0.0 else Square(xs[0]) + SumOfSquares(xs[1..])
  }

  /** The sum of `(o - e)^2 / e`. */
  function Deviations(xs: seq<real>, e: real): real
    requires e != 0.0
  {
    if xs == [] then 0.0 else Square(xs[0] - e) / e + Deviations(xs[1..], e)
  }

  function Expected(observed: seq<real>): real {
    if observed == [] then 0.0 else Sum(observed) / |observed| as real
  }

  datatype Statistic = Statistic(chi2: real, df: int)

  /** `chi_square_gof` before rounding. */
  function Gof(observed: seq<real>): Statistic {
    if Expected(observed) == 0.0 then Statistic(0.0, |observed| - 1)
    else Statistic(Deviations(observed, Expected(observed)), |observed| - 1)
  }

  lemma OneDeviation(o: real, e: real)
    requires e != 0.0
    ensures Square(o - e) / e == Square(o) / e - 2.0 * o + e
  {
    var q := Square(o) / e;
    assert q * e == Square(o);
    assert Square(o - e) == Square(o) - 2.0 * o * e + e * e;
    assert (q - 2.0 * o + e) * e == q * e - 2.0 * o * e + e * e;
    QuotientIs(Square(o - e), e, q - 2.0 * o + e);
  }

  lemma SumQuotient(x: real, y: real, e: real)
    requires e != 0.0
    ensures (x + y) / e == x / e + y / e
  {
  }

  /** `dev` written out from the sum of squares `q`, the sum `n` and the count
      `k`. */
  predicate Expands(dev: real, q: real, n: real, k: real, e: real) {
    e != 0.0 && dev == q / e - 2.0 * n + k * e
  }

  lemma DeviationsExpanded(xs: seq<real>, e: real)
    requires e != 0.0
    ensures Expands(Deviations(xs, e), SumOfSquares(xs), Sum(xs), |xs| as real, e)
  {
    DeviationsExpand(xs, e);
  }

  lemma {:induction false} DeviationsExpand(xs: seq<real>, e: real)
    requires e != 0.0
    ensures Deviations(xs, e) == SumOfSquares(xs) / e - 2.0 * Sum(xs) + |xs| as real * e
  {
    hide Square;
    if xs == [] {
    } else {
      DeviationsExpand(xs[1..], e);
      OneDeviation(xs[0], e);
      SumQuotient(Square(xs[0]), SumOfSquares(xs[1..]), e);
    }
  }

  predicate IsProduct(x: real, a: real, b: real) {
    x == a * b
  }

  /** `dev` is k times the sum of squares `q` over the total `n`, less the
      total. */
  predicate IsClosed(dev: real, q: real, k: real, n: real) {
    n != 0.0 && dev == k * q / n - n
  }

  lemma ExpectedTimes(observed: seq<real>)
    requires observed != []
    ensures IsProduct(Sum(observed), |observed| as real, Expected(observed))
  {
  }

  lemma ExpectedZero(observed: seq<real>)
    ensures Expected(observed) == 0.0 <==> Sum(observed) == 0.0
  {
    if observed != [] {
      ExpectedTimes(observed);
      if Sum(observed) == 0.0 {
        NoZeroDivisors(Expected(observed), |observed| as real);
      }
    }
  }

  /** The statistic is k times the sum of squares over the total, less the
      total; with no observations, or a total of zero, it is zero. */
  lemma GofClosedForm(observed: seq<real>)
    ensures Sum(observed) == 0.0 ==> Gof(observed).chi2 == 0.0
    ensures Sum(observed) != 0.0 ==>
      IsClosed(Gof(observed).chi2, SumOfSquares(observed), |observed| as real, Sum(observed))
    ensures Gof(observed).df == |observed| - 1
  {
    hide Sum, SumOfSquares, Expected, Deviations, IsClosed;
    ExpectedZero(observed);
    if Sum(observed) != 0.0 {
      GofClosed(observed);
    }
  }

  lemma GofClosed(observed: seq<real>)
    requires Sum(observed) != 0.0
    ensures IsClosed(Gof(observed).chi2, SumOfSquares(observed), |observed| as real, Sum(observed))
  {
    assert observed != [];
    hide Sum, SumOfSquares, Expected, Deviations, Expands, IsProduct, IsClosed;
    ExpectedZero(observed);
    ExpectedTimes(observed);
    DeviationsExpanded(observed, Expected(observed));
    Closed(Gof(observed).chi2, SumOfSquares(observed), Expected(observed), |observed| as real, Sum(observed));
  }

  lemma Closed(dev: real, q: real, e: real, k: real, n: real)
    requires n != 0.0 && IsProduct(n, k, e) && Expands(dev, q, n, k, e)
    ensures IsClosed(dev, q, k, n)
  {
    var r := q / e;
    assert r * e == q;
    assert r * n == k * (r * e);
    QuotientIs(k * q, n, r);
  }

  ghost predicate AllAre(xs: seq<real>, e: real) {
    forall i :: 0 <= i < |xs| ==> xs[i] == e
  }

  lemma QuotientSign(x: real, e: real)
    requires x >= 0.0 && e > 0.0
    ensures x / e >= 0.0 && (x > 0.0 ==> x / e > 0.0)
  {
    var q := x / e;
    assert q * e == x;
    if q < 0.0 {
      PositiveProduct(0.0 - q, e);
    }
  }

  lemma {:induction false} DeviationsSign(xs: seq<real>, e: real)
    requires e > 0.0
    ensures Deviations(xs, e) >= 0.0
    ensures Deviations(xs, e) == 0.0 <==> AllAre(xs, e)
  {
    hide Square;
    if xs != [] {
      DeviationsSign(xs[1..], e);
      SquareSign(xs[0] - e);
      QuotientSign(Square(xs[0] - e), e);
      assert AllAre(xs, e) <==> xs[0] == e && AllAre(xs[1..], e) by {
        assert forall i :: 1 <= i < |xs| ==> xs[i] == xs[1..][i - 1];
      }
      if xs[0] == e {
        SquareOfZero(xs[0] - e);
        assert Square(xs[0] - e) / e == 0.0;
      }
    }
  }

  /** With a positive total the statistic is not negative, and it is zero
      exactly if all counts are equal. */
  lemma GofSign(observed: seq<real>)
    requires Sum(observed) > 0.0
    ensures Gof(observed).chi2 >= 0.0
    ensures Gof(observed).chi2 == 0.0 <==>
      forall i, j :: 0 <= i < |observed| && 0 <= j < |observed| ==> observed[i] == observed[j]
  {
    var e := Expected(observed);
    ExpectedTimes(observed);
    QuotientSign(Sum(observed), |observed| as real);
    DeviationsSign(observed, e);
    if forall i, j :: 0 <= i < |observed| && 0 <= j < |observed| ==> observed[i] == observed[j] {
      EqualAreExpected(observed, observed[0]);
    }
  }

  lemma EqualAreExpected(xs: seq<real>, x: real)
    requires xs != [] && AllAre(xs, x)
    ensures Expected(xs) == x
  {
    SumOfEqual(xs, x);
    QuotientIs(Sum(xs), |xs| as real, x);
  }

  lemma {:induction false} SumOfEqual(xs: seq<real>, x: real)
    requires AllAre(xs, x)
    ensures Sum(xs) == x * |xs| as real
  {
    if xs != [] {
      assert forall i :: 0 <= i < |xs| - 1 ==> xs[1..][i] == xs[i + 1];
      SumOfEqual(xs[1..], x);
    }
  }

  /** The published figures, from the totals of the published table: 91 coastal
      against 56 inland sites round to 8.33, 108 protected against 39
      unprotected ones to 32.39, and 18, 97 and 32 sites in the three tiers of
      human development to 72.53. */
  lemma PublishedFigures()
    ensures 8.325 <= Gof([91.0, 56.0]).chi2 < 8.335
    ensures 32.385 <= Gof([108.0, 39.0]).chi2 < 32.395
    ensures 72.525 <= Gof([18.0, 97.0, 32.0]).chi2 < 72.535
  {
    TwoCounts(91.0, 56.0);
    TwoCounts(108.0, 39.0);
    ThreeCounts(18.0, 97.0, 32.0);
  }

  lemma TwoCounts(a: real, b: real)
    requires a + b != 0.0
    ensures Gof([a, b]).chi2 == 2.0 * (a * a + b * b) / (a + b) - (a + b)
  {
    var xs, ys := [a, b], [b];
    assert xs[1..] == ys && ys[1..] == [];
    assert Sum(ys) == b && SumOfSquares(ys) == b * b;
    assert Sum(xs) == a + b && SumOfSquares(xs) == a * a + b * b;
    GofClosedForm(xs);
  }

  lemma ThreeCounts(a: real, b: real, c: real)
    requires a + b + c != 0.0
    ensures Gof([a, b, c]).chi2 == 3.0 * (a * a + b * b + c * c) / (a + b + c) - (a + b + c)
  {
    var xs, ys, zs := [a, b, c], [b, c], [c];
    assert xs[1..] == ys && ys[1..] == zs && zs[1..] == [];
    assert Sum(zs) == c && SumOfSquares(zs) == c * c;
    assert Sum(ys) == b + c && SumOfSquares(ys) == b * b + c * c;
    assert Sum(xs) == a + b + c && SumOfSquares(xs) == a * a + b * b + c * c;
    GofClosedForm(xs);
  }

  // ---------------------------------------------------------------------
  // Two by two tables
  // ---------------------------------------------------------------------

  datatype Table = Table(a: real, b: real, c: real, d: real) {
    function Total(): real { a + b + c + d }
    function Row1(): real { a + b }
    function Row2(): real { c + d }
    function Col1(): real { a + c }
    function Col2(): real { b + d }

    /** Neither the total nor a margin is zero. */
    predicate Proper() {
      Total() != 0.0 && Row1() != 0.0 && Row2() != 0.0 && Col1() != 0.0 && Col2() != 0.0
    }
  }

  /** One cell's part of the statistic. */
  function Cell(o: real, row: real, col: real, n: real): real
    requires n != 0.0 && row * col / n != 0.0
  {
    Square(o - row * col / n) / (row * col / n)
  }

  lemma ExpectedNonZero(row: real, col: real, n: real)
    requires row != 0.0 && col != 0.0 && n != 0.0
    ensures row * col != 0.0 && row * col / n != 0.0
  {
    var p := row * col;
    if p == 0.0 {
      NoZeroDivisors(row, col);
    }
    var e := p / n;
    assert e * n == p;
  }

  /** `chi_square_2x2` before rounding. */
  function TwoByTwo(t: Table): Statistic {
    if !t.Proper() then Statistic(0.0, 1)
    else
      var n := t.Total();
      ExpectedNonZero(t.Row1(), t.Col1(), n);
      ExpectedNonZero(t.Row1(), t.Col2(), n);
      ExpectedNonZero(t.Row2(), t.Col1(), n);
      ExpectedNonZero(t.Row2(), t.Col2(), n);
      Statistic(Cell(t.a, t.Row1(), t.Col1(), n) + Cell(t.b, t.Row1(), t.Col2(), n)
                + Cell(t.c, t.Row2(), t.Col1(), n) + Cell(t.d, t.Row2(), t.Col2(), n), 1)
  }

  function Determinant(t: Table): real {
    t.a * t.d - t.b * t.c
  }

  function Margins(t: Table): real {
    t.Row1() * t.Row2() * (t.Col1() * t.Col2())
  }

  lemma CellTimes(o: real, row: real, col: real, n: real, d: real)
    requires n != 0.0 && row != 0.0 && col != 0.0 && row * col / n != 0.0
    requires o * n - row * col == d
    ensures Cell(o, row, col, n) * (n * (row * col)) == Square(d)
  {
    var e := row * col / n;
    assert e * n == row * col;
    var x := o - e;
    assert x * n == d;
    var q := Square(x) / e;
    assert q * e == Square(x);
    assert q * (n * (e * n)) == q * e * (n * n);
    assert Square(x) * (n * n) == (x * n) * (x * n);
  }

  predicate IsQuotient(x: real, num: real, den: real) {
    den != 0.0 && x == num / den
  }

  function Mul3(x: real, y: real, z: real): real {
    x * (y * z)
  }

  /** `den` is the total times the product of the four margins. */
  predicate IsDenominator(den: real, n: real, row: real, col: real, row2: real, col2: real) {
    den != 0.0 && den == n * ((row * col) * (row2 * col2))
  }

  predicate IsDifference(d: real, o: real, n: real, row: real, col: real) {
    d == o * n - row * col
  }

  /** One cell over the common denominator; `row2` and `col2` are the other
      row and column. */
  lemma CellScaled(o: real, row: real, col: real, row2: real, col2: real, n: real, d: real, den: real)
    requires n != 0.0 && row != 0.0 && col != 0.0 && row * col / n != 0.0
    requires IsDifference(d, o, n, row, col) && IsDenominator(den, n, row, col, row2, col2)
    ensures IsQuotient(Cell(o, row, col, n), Mul3(Square(d), row2, col2), den)
  {
    CellTimes(o, row, col, n, d);
    var q := Cell(o, row, col, n);
    assert q * den == q * (n * (row * col)) * (row2 * col2) by { Regroup(q, n, row * col, row2 * col2); }
    QuotientIs(Square(d) * (row2 * col2), den, q);
  }

  lemma Regroup(q: real, n: real, x: real, y: real)
    ensures q * (n * (x * y)) == q * (n * x) * y
  {
  }

  lemma SquareOfNegative(d: real)
    ensures Square(0.0 - d) == Square(d)
  {
  }

  /** Each cell differs from its expectation by the determinant over the
      total, up to sign. */
  lemma CellDifferences(t: Table)
    ensures IsDifference(Determinant(t), t.a, t.Total(), t.Row1(), t.Col1())
    ensures IsDifference(0.0 - Determinant(t), t.b, t.Total(), t.Row1(), t.Col2())
    ensures IsDifference(0.0 - Determinant(t), t.c, t.Total(), t.Row2(), t.Col1())
    ensures IsDifference(Determinant(t), t.d, t.Total(), t.Row2(), t.Col2())
  {
  }

  lemma NonZeroProduct(x: real, y: real)
    requires x != 0.0 && y != 0.0
    ensures Mul(x, y) != 0.0
  {
    if x * y == 0.0 {
      NoZeroDivisors(x, y);
    }
  }

  lemma FourFactors(r1: real, r2: real, c1: real, c2: real)
    ensures r1 * r2 * (c1 * c2) == (r1 * c1) * (r2 * c2)
    ensures r1 * r2 * (c1 * c2) == (r1 * c2) * (r2 * c1)
    ensures r1 * r2 * (c1 * c2) == (r2 * c1) * (r1 * c2)
    ensures r1 * r2 * (c1 * c2) == (r2 * c2) * (r1 * c1)
  {
  }

  lemma MarginsNonZero(t: Table)
    requires t.Proper()
    ensures Margins(t) != 0.0 && Mul(t.Total(), Margins(t)) != 0.0
  {
    NonZeroProduct(t.Row1(), t.Row2());
    NonZeroProduct(t.Col1(), t.Col2());
    NonZeroProduct(Mul(t.Row1(), t.Row2()), Mul(t.Col1(), t.Col2()));
    NonZeroProduct(t.Total(), Margins(t));
  }

  lemma Denominators(t: Table)
    requires t.Proper()
    ensures var den := Mul(t.Total(), Margins(t));
      && IsDenominator(den, t.Total(), t.Row1(), t.Col1(), t.Row2(), t.Col2())
      && IsDenominator(den, t.Total(), t.Row1(), t.Col2(), t.Row2(), t.Col1())
      && IsDenominator(den, t.Total(), t.Row2(), t.Col1(), t.Row1(), t.Col2())
      && IsDenominator(den, t.Total(), t.Row2(), t.Col2(), t.Row1(), t.Col1())
  {
    MarginsNonZero(t);
    FourFactors(t.Row1(), t.Row2(), t.Col1(), t.Col2());
  }

  lemma MarginsAddUp(t: Table, s: real)
    ensures Mul3(s, t.Row2(), t.Col2()) + Mul3(s, t.Row2(), t.Col1()) + Mul3(s, t.Row1(), t.Col2())
            + Mul3(s, t.Row1(), t.Col1()) == Mul3(s, t.Total(), t.Total())
  {
    Distribute(s, t.Row1(), t.Row2(), t.Col1(), t.Col2());
  }

  lemma Distribute(s: real, r1: real, r2: real, c1: real, c2: real)
    ensures s * (r2 * c2) + s * (r2 * c1) + s * (r1 * c2) + s * (r1 * c1) == s * ((r1 + r2) * (c1 + c2))
  {
  }

  lemma FourQuotients(a: real, b: real, c: real, d: real, w: real, x: real, y: real, z: real, den: real)
    requires IsQuotient(a, w, den) && IsQuotient(b, x, den) && IsQuotient(c, y, den) && IsQuotient(d, z, den)
    ensures IsQuotient(a + b + c + d, w + x + y + z, den)
  {
    SumQuotient(w, x, den);
    SumQuotient(w + x, y, den);
    SumQuotient(w + x + y, z, den);
  }

  /** The four cells over their common denominator. */
  lemma CellsScaled(t: Table)
    requires t.Proper()
    ensures IsQuotient(TwoByTwo(t).chi2, Mul3(Square(Determinant(t)), t.Total(), t.Total()),
                       Mul(t.Total(), Margins(t)))
  {
    hide Square, Cell, Determinant, Margins, IsQuotient, IsDenominator, IsDifference, Mul, Mul3;
    var n, r1, r2, c1, c2, d := t.Total(), t.Row1(), t.Row2(), t.Col1(), t.Col2(), Determinant(t);
    var den, s := Mul(n, Margins(t)), Square(d);
    CellDifferences(t);
    Denominators(t);
    SquareOfNegative(d);
    ExpectedNonZero(r1, c1, n);
    ExpectedNonZero(r1, c2, n);
    ExpectedNonZero(r2, c1, n);
    ExpectedNonZero(r2, c2, n);
    CellScaled(t.a, r1, c1, r2, c2, n, d, den);
    CellScaled(t.b, r1, c2, r2, c1, n, 0.0 - d, den);
    CellScaled(t.c, r2, c1, r1, c2, n, 0.0 - d, den);
    CellScaled(t.d, r2, c2, r1, c1, n, d, den);
    FourQuotients(Cell(t.a, r1, c1, n), Cell(t.b, r1, c2, n), Cell(t.c, r2, c1, n), Cell(t.d, r2, c2, n),
                  Mul3(s, r2, c2), Mul3(s, r2, c1), Mul3(s, r1, c2), Mul3(s, r1, c1), den);
    MarginsAddUp(t, s);
  }

  lemma CancelTotal(x: real, s: real, n: real, m: real)
    requires m != 0.0 && IsQuotient(x, Mul3(s, n, n), Mul(n, m))
    ensures IsQuotient(x, Mul(n, s), m)
  {
    var y := n * s / m;
    assert y * m == n * s;
    assert y * (n * m) == n * (y * m);
    QuotientIs(s * (n * n), n * m, y);
  }

  /** The statistic of a proper table is n (ad - bc)^2 over the product of the
      four margins; otherwise it is zero. */
  lemma TwoByTwoClosedForm(t: Table)
    ensures !t.Proper() ==> TwoByTwo(t).chi2 == 0.0
    ensures t.Proper() ==> Margins(t) != 0.0
    ensures t.Proper() ==> (TwoByTwo(t).chi2 == t.Total() * Square(Determinant(t)) / Margins(t))
  {
    if t.Proper() {
      TwoByTwoQuotient(t);
    }
  }

  lemma TwoByTwoQuotient(t: Table)
    requires t.Proper()
    ensures IsQuotient(TwoByTwo(t).chi2, Mul(t.Total(), Square(Determinant(t))), Margins(t))
  {
    hide Square, Determinant, Margins, IsQuotient, Mul, Mul3, TwoByTwo;
    CellsScaled(t);
    MarginsNonZero(t);
    CancelTotal(TwoByTwo(t).chi2, Square(Determinant(t)), t.Total(), Margins(t));
  }

  /** With positive margins the statistic is not negative, and zero exactly for
      proportional rows. */
  lemma TwoByTwoSign(t: Table)
    requires t.Row1() > 0.0 && t.Row2() > 0.0 && t.Col1() > 0.0 && t.Col2() > 0.0
    ensures TwoByTwo(t).chi2 >= 0.0
    ensures TwoByTwo(t).chi2 == 0.0 <==> t.a * t.d == t.b * t.c
  {
    hide TwoByTwo;
    var d := Determinant(t);
    TwoByTwoQuotient(t);
    PositiveProduct(t.Row1(), t.Row2());
    PositiveProduct(t.Col1(), t.Col2());
    PositiveProduct(Mul(t.Row1(), t.Row2()), Mul(t.Col1(), t.Col2()));
    assert Margins(t) > 0.0;
    SquareSign(d);
    if d != 0.0 {
      PositiveProduct(t.Total(), Square(d));
    } else {
      assert Square(d) == 0.0 && Mul(t.Total(), Square(d)) == 0.0;
    }
    QuotientSign(Mul(t.Total(), Square(d)), Margins(t));
  }
}
