/**
 * First-degree least-squares fitting over exact reals: the ideal behaviour of
 * `np.polyfit(x, y, 1)` and of the per-axis `np.mean` used by the calibration.
 *
 * A fit is a `Line` with `y = slope * x + intercept`. `Fit` computes it in
 * closed form from the centred sums; the lemmas below prove that it solves both
 * normal equations, that no other line has a smaller sum of squared residuals,
 * that it recovers exactly affine data, and that it depends only on the
 * multiset of (x, y) pairs, not on their order.
 */
module Regression {

  /** An (x, y) observation. */
  type Pair = (real, real)

  datatype Line = Line(slope: real, intercept: real)

  function Square(d: real): real {
    d * d
  }

  /**
   * A product, kept behind a name so that equal products in different
   * contracts are recognised as equal terms.
   */
  function Times(a: real, b: real): real {
    a * b
  }

  function Predict(l: Line, x: real): real {
    l.slope * x + l.intercept
  }

  // The per-observation quantities that the fit sums: each is a function of
  // one (x, y) pair, and also an arrow so that it can be summed.

  function X(): Pair -> real { (p: Pair) => p.0 }

  function Y(): Pair -> real { (p: Pair) => p.1 }

  function One(): Pair -> real { (p: Pair) => 1.0 }

  /** (x - mx)^2 */
  function SqDevAt(mx: real, p: Pair): real { Square(p.0 - mx) }

  function SqDev(mx: real): Pair -> real { (p: Pair) => SqDevAt(mx, p) }

  /** (x - mx) * (y - my) */
  function CrossDevAt(mx: real, my: real, p: Pair): real { (p.0 - mx) * (p.1 - my) }

  function CrossDev(mx: real, my: real): Pair -> real { (p: Pair) => CrossDevAt(mx, my, p) }

  /** The residual y - (slope * x + intercept). */
  function ResidualAt(l: Line, p: Pair): real { p.1 - Predict(l, p.0) }

  function Residual(l: Line): Pair -> real { (p: Pair) => ResidualAt(l, p) }

  /** x times the residual. */
  function XResidualAt(l: Line, p: Pair): real { p.0 * ResidualAt(l, p) }

  function XResidual(l: Line): Pair -> real { (p: Pair) => XResidualAt(l, p) }

  /** The squared residual. */
  function SqResidualAt(l: Line, p: Pair): real { Square(ResidualAt(l, p)) }

  function SqResidual(l: Line): Pair -> real { (p: Pair) => SqResidualAt(l, p) }

  /** The squared vertical distance between the lines `l` and `m` at x. */
  function SqGapAt(l: Line, m: Line, p: Pair): real { Square(Predict(l, p.0) - Predict(m, p.0)) }

  function SqGap(l: Line, m: Line): Pair -> real { (p: Pair) => SqGapAt(l, m, p) }

  /** The sum of `f` over the observations. */
  function Sum(ps: seq<Pair>, f: Pair -> real): real {
    if ps == [] then 0.0 else f(ps[0]) + Sum(ps[1..], f)
  }

  function MeanX(ps: seq<Pair>): real
    requires |ps| > 0
  {
    Sum(ps, X()) / |ps| as real
  }

  function MeanY(ps: seq<Pair>): real
    requires |ps| > 0
  {
    Sum(ps, Y()) / |ps| as real
  }

  /** Centred sum of squares of the x values. */
  function Sxx(ps: seq<Pair>): real
    requires |ps| > 0
  {
    Sum(ps, SqDev(MeanX(ps)))
  }

  /** Centred sum of cross products. */
  function Sxy(ps: seq<Pair>): real
    requires |ps| > 0
  {
    Sum(ps, CrossDev(MeanX(ps), MeanY(ps)))
  }

  /** Sum of squared residuals of `l` over the observations. */
  function SSE(ps: seq<Pair>, l: Line): real {
    Sum(ps, SqResidual(l))
  }

  /** The least-squares slope from the centred sums, 0 when every x is the same. */
  function SlopeOf(sxx: real, sxy: real): real {
    if sxx == 0.0 then 0.0 else sxy / sxx
  }

  /**
   * The least-squares line. When every x is the same (the regression is
   * rank-deficient) the slope is taken as 0; the line then goes through the
   * mean point, which is still a least-squares solution (FitIsLeastSquares).
   */
  function FitFrom(mx: real, my: real, sxx: real, sxy: real): Line {
    var slope := SlopeOf(sxx, sxy);
    Line(slope, my - slope * mx)
  }

  function Fit(ps: seq<Pair>): (l: Line)
    requires |ps| > 0
  {
    FitFrom(MeanX(ps), MeanY(ps), Sxx(ps), Sxy(ps))
  }

  function Zip(xs: seq<real>, ys: seq<real>): seq<Pair>
    requires |xs| == |ys|
  {
    seq(|xs|, i requires 0 <= i < |xs| => (xs[i], ys[i]))
  }

  /** `np.polyfit(xs, ys, 1)` over exact reals. */
  function PolyFit(xs: seq<real>, ys: seq<real>): Line
    requires |xs| == |ys| > 0
  {
    Fit(Zip(xs, ys))
  }

  // ---------------------------------------------------------------------------
  // Arithmetic over single numbers

  lemma Distribute(c: real, u: real, v: real)
    ensures c * (u + v) == c * u + c * v
  {
  }

  lemma SquareNonNegative(d: real)
    ensures Square(d) >= 0.0
  {
  }

  lemma SquareOverSelf(d: real)
    requires d != 0.0
    ensures Square(d) / d == d
  {
  }

  lemma SquarePositive(d: real)
    requires d != 0.0
    ensures Square(d) > 0.0
  {
    SquareNonNegative(d);
    SquareOverSelf(d);
  }

  lemma Cancel(n: real, u: real, v: real)
    requires n > 0.0 && n * u == n * v
    ensures u == v
  {
    assert u == (n * u) / n;
    assert v == (n * v) / n;
  }

  /** x * r splits into centred terms when the line goes through (mx, my). */
  lemma XResidualIdentity(p: Pair, l: Line, mx: real, my: real, c: real)
    requires Predict(l, mx) == my && c == -l.slope
    ensures XResidualAt(l, p) == CrossDevAt(mx, my, p) + c * SqDevAt(mx, p) + mx * ResidualAt(l, p)
  {
  }

  /** The squared residual of the line `m` in terms of that of `l`. */
  lemma SquareSplit(p: Pair, l: Line, m: Line, a: real, b: real)
    requires a == 2.0 * (l.slope - m.slope) && b == 2.0 * (l.intercept - m.intercept)
    ensures SqResidualAt(m, p)
         == SqResidualAt(l, p) + a * XResidualAt(l, p) + b * ResidualAt(l, p) + SqGapAt(l, m, p)
  {
  }

  /** For two points of the line `l`, centred cross products are the slope times centred squares. */
  lemma CrossIsScaledSquare(p: Pair, mx: real, my: real, l: Line)
    requires p.1 == Predict(l, p.0) && my == Predict(l, mx)
    ensures CrossDevAt(mx, my, p) == l.slope * SqDevAt(mx, p)
  {
  }

  // ---------------------------------------------------------------------------
  // Facts about sums of any per-observation function

  lemma {:induction false} SumAppend(a: seq<Pair>, b: seq<Pair>, f: Pair -> real)
    ensures Sum(a + b, f) == Sum(a, f) + Sum(b, f)
  {
    if a == [] {
      assert a + b == b;
    } else {
      assert (a + b)[1..] == a[1..] + b;
      SumAppend(a[1..], b, f);
    }
  }

  lemma SumSingle(p: Pair, f: Pair -> real)
    ensures Sum([p], f) == f(p)
  {
    assert [p][1..] == [];
  }

  /** Sums do not depend on the order of the observations. */
  lemma {:induction false} SumPermutation(ps: seq<Pair>, qs: seq<Pair>, f: Pair -> real)
    requires multiset(ps) == multiset(qs)
    ensures Sum(ps, f) == Sum(qs, f)
    decreases |ps|
  {
    if ps == [] {
      assert |qs| == |multiset(qs)| == 0;
    } else {
      var p := ps[0];
      assert p in multiset(qs);
      var k :| 0 <= k < |qs| && qs[k] == p;
      var front, back := qs[..k], qs[k + 1..];
      assert qs == front + [p] + back;
      assert ps == [p] + ps[1..];
      assert multiset(ps[1..]) == multiset(front + back) by {
        assert multiset(ps) == multiset(ps[1..]) + multiset{p};
        assert multiset(qs) == multiset(front + back) + multiset{p};
        MultisetCancel(multiset(ps[1..]), multiset(front + back), multiset{p});
      }
      SumPermutation(ps[1..], front + back, f);
      SumAppend(front + [p], back, f);
      SumAppend(front, [p], f);
      SumAppend(front, back, f);
      SumSingle(p, f);
    }
  }

  lemma MultisetCancel<T>(a: multiset<T>, b: multiset<T>, c: multiset<T>)
    requires a + c == b + c
    ensures a == b
  {
    assert forall x :: a[x] == (a + c)[x] - c[x];
    assert forall x :: b[x] == (b + c)[x] - c[x];
  }

  lemma {:induction false} SumNonNegative(ps: seq<Pair>, f: Pair -> real)
    requires forall p :: p in ps ==> f(p) >= 0.0
    ensures Sum(ps, f) >= 0.0
  {
    if ps != [] {
      SumNonNegative(ps[1..], f);
    }
  }

  /** A sum of non-negative terms with one positive term is positive. */
  lemma {:induction false} SumPositive(ps: seq<Pair>, f: Pair -> real, q: Pair)
    requires forall p :: p in ps ==> f(p) >= 0.0
    requires q in ps && f(q) > 0.0
    ensures Sum(ps, f) > 0.0
  {
    if ps[0] == q {
      SumNonNegative(ps[1..], f);
    } else {
      SumPositive(ps[1..], f, q);
    }
  }

  lemma {:induction false} SumConstant(ps: seq<Pair>, f: Pair -> real, k: real)
    requires forall p :: p in ps ==> f(p) == k
    ensures Sum(ps, f) == |ps| as real * k
  {
    if ps != [] {
      SumConstant(ps[1..], f, k);
    }
  }

  /** At every observation, `f = c * g`. */
  ghost predicate Scales(ps: seq<Pair>, f: Pair -> real, c: real, g: Pair -> real) {
    forall p :: p in ps ==> f(p) == c * g(p)
  }

  lemma {:induction false} SumScale(ps: seq<Pair>, f: Pair -> real, c: real, g: Pair -> real)
    requires Scales(ps, f, c, g)
    ensures Sum(ps, f) == c * Sum(ps, g)
  {
    if ps != [] {
      SumScale(ps[1..], f, c, g);
      Distribute(c, g(ps[0]), Sum(ps[1..], g));
    }
  }

  /** At every observation, `k = f + a * g + b * h + e`. */
  ghost predicate Combines4(
    ps: seq<Pair>, k: Pair -> real, f: Pair -> real, a: real, g: Pair -> real, b: real, h: Pair -> real,
    e: Pair -> real)
  {
    forall p :: p in ps ==> k(p) == f(p) + a * g(p) + b * h(p) + e(p)
  }

  /** At every observation, `k = f + a * g + b * h`. */
  ghost predicate Combines(ps: seq<Pair>, k: Pair -> real, f: Pair -> real, a: real, g: Pair -> real, b: real, h: Pair -> real)
  {
    forall p :: p in ps ==> k(p) == f(p) + a * g(p) + b * h(p)
  }

  /** Summing `k = f + a * g + b * h + e` term by term. */
  lemma {:induction false} SumLinear4(
    ps: seq<Pair>, k: Pair -> real, f: Pair -> real, a: real, g: Pair -> real, b: real, h: Pair -> real,
    e: Pair -> real)
    requires Combines4(ps, k, f, a, g, b, h, e)
    ensures Sum(ps, k) == Sum(ps, f) + a * Sum(ps, g) + b * Sum(ps, h) + Sum(ps, e)
  {
    if ps != [] {
      SumLinear4(ps[1..], k, f, a, g, b, h, e);
      Distribute(a, g(ps[0]), Sum(ps[1..], g));
      Distribute(b, h(ps[0]), Sum(ps[1..], h));
    }
  }

  /** Summing `k = f + a * g + b * h` term by term. */
  lemma SumLinear(ps: seq<Pair>, k: Pair -> real, f: Pair -> real, a: real, g: Pair -> real, b: real, h: Pair -> real)
    requires Combines(ps, k, f, a, g, b, h)
    ensures Sum(ps, k) == Sum(ps, f) + Times(a, Sum(ps, g)) + Times(b, Sum(ps, h))
  {
    var zero := (p: Pair) => 0.0;
    SumLinear4(ps, k, f, a, g, b, h, zero);
    SumConstant(ps, zero, 0.0);
  }

  // ---------------------------------------------------------------------------
  // Pointwise facts about the terms

  /** Every observation lies on the line `l`. */
  ghost predicate OnLine(ps: seq<Pair>, l: Line) {
    forall p :: p in ps ==> p.1 == Predict(l, p.0)
  }

  lemma ResidualPointwise(ps: seq<Pair>, l: Line, a: real, b: real)
    requires a == -l.slope && b == -l.intercept
    ensures Combines(ps, Residual(l), Y(), a, X(), b, One())
  {
  }

  lemma XResidualPointwise(ps: seq<Pair>, l: Line, mx: real, my: real, c: real)
    requires Predict(l, mx) == my && c == -l.slope
    ensures Combines(ps, XResidual(l), CrossDev(mx, my), c, SqDev(mx), mx, Residual(l))
  {
    forall p | p in ps
      ensures XResidual(l)(p) == CrossDev(mx, my)(p) + c * SqDev(mx)(p) + mx * Residual(l)(p)
    {
      XResidualIdentity(p, l, mx, my, c);
    }
  }

  lemma SqResidualPointwise(ps: seq<Pair>, l: Line, m: Line, a: real, b: real)
    requires a == 2.0 * (l.slope - m.slope) && b == 2.0 * (l.intercept - m.intercept)
    ensures Combines4(ps, SqResidual(m), SqResidual(l), a, XResidual(l), b, Residual(l), SqGap(l, m))
  {
    forall p | p in ps
      ensures SqResidual(m)(p)
           == SqResidual(l)(p) + a * XResidual(l)(p) + b * Residual(l)(p) + SqGap(l, m)(p)
    {
      SquareSplit(p, l, m, a, b);
    }
  }

  lemma SqDevNonNegative(ps: seq<Pair>, mx: real)
    ensures forall p :: p in ps ==> SqDev(mx)(p) >= 0.0
  {
    forall p | p in ps
      ensures SqDev(mx)(p) >= 0.0
    {
      SquareNonNegative(p.0 - mx);
    }
  }

  lemma SqDevPositive(q: Pair, mx: real)
    requires q.0 != mx
    ensures SqDev(mx)(q) > 0.0
  {
    SquarePositive(q.0 - mx);
  }

  lemma SqGapSign(ps: seq<Pair>, l: Line, m: Line)
    ensures forall p :: p in ps ==> SqGap(l, m)(p) >= 0.0
  {
    forall p | p in ps
      ensures SqGap(l, m)(p) >= 0.0
    {
      SquareNonNegative(Predict(l, p.0) - Predict(m, p.0));
    }
  }

  lemma AffineCrossPointwise(ps: seq<Pair>, l: Line, mx: real, my: real)
    requires OnLine(ps, l) && Predict(l, mx) == my
    ensures Scales(ps, CrossDev(mx, my), l.slope, SqDev(mx))
  {
    forall p | p in ps
      ensures CrossDev(mx, my)(p) == l.slope * SqDev(mx)(p)
    {
      CrossIsScaledSquare(p, mx, my, l);
    }
  }

  // ---------------------------------------------------------------------------
  // Sums of the terms

  /** The residuals of a line sum to the y-sum minus what the line predicts. */
  lemma SumResidual(ps: seq<Pair>, l: Line)
    ensures Sum(ps, Residual(l)) == Sum(ps, Y()) - l.slope * Sum(ps, X()) - |ps| as real * l.intercept
  {
    var a, b := -l.slope, -l.intercept;
    ResidualPointwise(ps, l, a, b);
    SumLinear(ps, Residual(l), Y(), a, X(), b, One());
    SumConstant(ps, One(), 1.0);
  }

  /** When the centred x-sum of squares vanishes, every x is the mean. */
  lemma FlatXs(ps: seq<Pair>, mx: real)
    requires Sum(ps, SqDev(mx)) == 0.0
    ensures forall p :: p in ps ==> p.0 == mx
  {
    SqDevNonNegative(ps, mx);
    forall p | p in ps
      ensures p.0 == mx
    {
      if p.0 != mx {
        SqDevPositive(p, mx);
        SumPositive(ps, SqDev(mx), p);
      }
    }
  }

  /** The sums of x and y are n times their means. */
  lemma SumsFromMeans(ps: seq<Pair>)
    requires |ps| > 0
    ensures Sum(ps, X()) == |ps| as real * MeanX(ps)
    ensures Sum(ps, Y()) == |ps| as real * MeanY(ps)
  {
  }

  // ---------------------------------------------------------------------------
  // Properties of the fit

  /** The fitted line goes through the mean point. */
  lemma FitThroughMean(ps: seq<Pair>)
    requires |ps| > 0
    ensures Predict(Fit(ps), MeanX(ps)) == MeanY(ps)
  {
  }

  /** A line through the mean point leaves residuals that sum to zero. */
  lemma CentredResiduals(ps: seq<Pair>, l: Line)
    requires |ps| > 0 && Predict(l, MeanX(ps)) == MeanY(ps)
    ensures Sum(ps, Residual(l)) == 0.0
  {
    var n, mx, my := |ps| as real, MeanX(ps), MeanY(ps);
    SumsFromMeans(ps);
    SumResidual(ps, l);
    assert n * my - l.slope * (n * mx) - n * l.intercept == n * (my - Predict(l, mx));
  }

  lemma SlopeOfBalances(sxx: real, sxy: real, c: real)
    requires sxx == 0.0 ==> sxy == 0.0
    requires c == -SlopeOf(sxx, sxy)
    ensures sxy + Times(c, sxx) == 0.0
  {
  }

  /** The fitted slope balances the centred sums: Sxy - slope * Sxx == 0. */
  lemma FitSlopeBalances(ps: seq<Pair>, c: real)
    requires |ps| > 0 && c == -Fit(ps).slope
    ensures Sxy(ps) + Times(c, Sxx(ps)) == 0.0
  {
    var mx, my := MeanX(ps), MeanY(ps);
    if Sxx(ps) == 0.0 {
      FlatXs(ps, mx);
      forall p | p in ps
        ensures CrossDev(mx, my)(p) == 0.0
      {
        assert p.0 - mx == 0.0;
      }
      SumConstant(ps, CrossDev(mx, my), 0.0);
    }
    SlopeOfBalances(Sxx(ps), Sxy(ps), c);
  }

  lemma Vanishes(total: real, sxy: real, sxx: real, sr: real, c: real, mx: real)
    requires total == sxy + Times(c, sxx) + Times(mx, sr)
    requires sr == 0.0 && sxy + Times(c, sxx) == 0.0
    ensures total == 0.0
  {
  }

  /** The residuals of the fit sum to zero. */
  lemma FitResidualsVanish(ps: seq<Pair>)
    requires |ps| > 0
    ensures Sum(ps, Residual(Fit(ps))) == 0.0
  {
    FitThroughMean(ps);
    CentredResiduals(ps, Fit(ps));
  }

  /** For the fit, x * residual splits into the centred sums. */
  lemma FitXResidualCombines(ps: seq<Pair>, c: real)
    requires |ps| > 0 && c == -Fit(ps).slope
    ensures Combines(ps, XResidual(Fit(ps)), CrossDev(MeanX(ps), MeanY(ps)), c, SqDev(MeanX(ps)), MeanX(ps), Residual(Fit(ps)))
  {
    FitThroughMean(ps);
    XResidualPointwise(ps, Fit(ps), MeanX(ps), MeanY(ps), c);
  }

  /** The x-weighted residuals of the fit sum to zero. */
  lemma FitXResidualsVanish(ps: seq<Pair>)
    requires |ps| > 0
    ensures Sum(ps, XResidual(Fit(ps))) == 0.0
  {
    var l := Fit(ps);
    var mx, my, c := MeanX(ps), MeanY(ps), -l.slope;
    FitResidualsVanish(ps);
    FitSlopeBalances(ps, c);
    FitXResidualCombines(ps, c);
    SumLinear(ps, XResidual(l), CrossDev(mx, my), c, SqDev(mx), mx, Residual(l));
    Vanishes(Sum(ps, XResidual(l)), Sxy(ps), Sxx(ps), Sum(ps, Residual(l)), c, mx);
  }

  /** The fitted line satisfies both normal equations of least squares. */
  lemma FitNormalEquations(ps: seq<Pair>)
    requires |ps| > 0
    ensures Sum(ps, Residual(Fit(ps))) == 0.0
    ensures Sum(ps, XResidual(Fit(ps))) == 0.0
  {
    FitResidualsVanish(ps);
    FitXResidualsVanish(ps);
  }

  /**
   * No line has a smaller sum of squared residuals than the fit: by the normal
   * equations, the squared error of any line `m` is that of the fit plus the
   * sum of the squared gaps between the two lines.
   */
  lemma FitIsLeastSquares(ps: seq<Pair>, m: Line)
    requires |ps| > 0
    ensures SSE(ps, Fit(ps)) <= SSE(ps, m)
  {
    var l := Fit(ps);
    var a, b := 2.0 * (l.slope - m.slope), 2.0 * (l.intercept - m.intercept);
    FitNormalEquations(ps);
    SqResidualPointwise(ps, l, m, a, b);
    SumLinear4(ps, SqResidual(m), SqResidual(l), a, XResidual(l), b, Residual(l), SqGap(l, m));
    SqGapSign(ps, l, m);
    SumNonNegative(ps, SqGap(l, m));
  }

  /** When every observation lies on the line `l`, so does their mean point. */
  lemma AffineMeans(ps: seq<Pair>, l: Line)
    requires |ps| > 0 && OnLine(ps, l)
    ensures Predict(l, MeanX(ps)) == MeanY(ps)
  {
    var n, mx, my := |ps| as real, MeanX(ps), MeanY(ps);
    SumResidual(ps, l);
    SumConstant(ps, Residual(l), 0.0);
    SumsFromMeans(ps);
    assert n * my == n * Predict(l, mx);
    Cancel(n, my, Predict(l, mx));
  }

  /** Two observations with different x make the centred x-sum of squares positive. */
  lemma SpreadXs(ps: seq<Pair>, i: nat, j: nat)
    requires i < |ps| && j < |ps| && ps[i].0 != ps[j].0
    ensures Sxx(ps) > 0.0
  {
    var mx := MeanX(ps);
    var q := if ps[i].0 != mx then ps[i] else ps[j];
    SqDevNonNegative(ps, mx);
    SqDevPositive(q, mx);
    SumPositive(ps, SqDev(mx), q);
  }

  lemma SlopeOfScaled(sxx: real, a: real)
    requires sxx != 0.0
    ensures SlopeOf(sxx, a * sxx) == a
  {
  }

  /** Observations lying exactly on a line, at two or more distinct x, give that line back. */
  lemma FitRecoversAffine(ps: seq<Pair>, l: Line, i: nat, j: nat)
    requires i < |ps| && j < |ps| && ps[i].0 != ps[j].0
    requires OnLine(ps, l)
    ensures Fit(ps) == l
  {
    AffineMeans(ps, l);
    AffineSums(ps, l);
    SpreadXs(ps, i, j);
    SlopeOfScaled(Sxx(ps), l.slope);
  }

  /** When every observation lies on the line `l`, Sxy is the slope of `l` times Sxx. */
  lemma AffineSums(ps: seq<Pair>, l: Line)
    requires |ps| > 0 && OnLine(ps, l)
    ensures Sxy(ps) == l.slope * Sxx(ps)
  {
    var mx, my := MeanX(ps), MeanY(ps);
    AffineMeans(ps, l);
    AffineCrossPointwise(ps, l, mx, my);
    SumScale(ps, CrossDev(mx, my), l.slope, SqDev(mx));
  }

  /** The fit is a function of the means and centred sums alone. */
  lemma FitFromSums(ps: seq<Pair>, qs: seq<Pair>)
    requires |ps| > 0 && |qs| > 0
    requires MeanX(ps) == MeanX(qs) && MeanY(ps) == MeanY(qs)
    requires Sxx(ps) == Sxx(qs) && Sxy(ps) == Sxy(qs)
    ensures Fit(ps) == Fit(qs)
  {
  }

  /** The fit depends on the (x, y) pairs, not on the order they come in. */
  lemma FitOrderIndependent(ps: seq<Pair>, qs: seq<Pair>)
    requires |ps| > 0
    requires multiset(ps) == multiset(qs)
    ensures |qs| == |ps| && Fit(ps) == Fit(qs)
  {
    assert |ps| == |multiset(ps)| == |multiset(qs)| == |qs|;
    SumPermutation(ps, qs, X());
    SumPermutation(ps, qs, Y());
    var mx, my := MeanX(ps), MeanY(ps);
    SumPermutation(ps, qs, SqDev(mx));
    SumPermutation(ps, qs, CrossDev(mx, my));
    FitFromSums(ps, qs);
  }

  /** `PolyFit` over columns whose points all lie on `l`, with two distinct xs, gives `l` back. */
  lemma PolyFitRecoversAffine(xs: seq<real>, ys: seq<real>, l: Line, i: nat, j: nat)
    requires |xs| == |ys| && i < |xs| && j < |xs| && xs[i] != xs[j]
    requires forall k :: 0 <= k < |xs| ==> ys[k] == Predict(l, xs[k])
    ensures PolyFit(xs, ys) == l
  {
    var ps := Zip(xs, ys);
    forall p | p in ps
      ensures p.1 == Predict(l, p.0)
    {
      var k :| 0 <= k < |ps| && ps[k] == p;
    }
    FitRecoversAffine(ps, l, i, j);
  }
}
