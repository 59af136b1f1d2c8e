/** regression of lib_stats.c over exact reals: the straight line a + b x with the smallest
    weighted squared error. */
module Regression {

  /** A standard deviation; what matters is that it can be divided by. */
  type Deviation = s: real | s != 0.0 witness 1.0

  datatype Point = Point(x: real, y: real, sig: Deviation)

  datatype Deviations = NoSig | Sig(sig: seq<Deviation>)

  /** sig == NULL stands for a standard deviation of 1 everywhere. */
  function SigAt(d: Deviations, i: nat): Deviation
    requires d.Sig? ==> i < |d.sig|
  {
    if d.Sig? then d.sig[i] else 1.0
  }

  ghost function Points(x: seq<real>, y: seq<real>, d: Deviations): (p: seq<Point>)
    requires |x| == |y| && (d.Sig? ==> |d.sig| == |x|)
    ensures |p| == |x|
    ensures forall i :: 0 <= i < |p| ==> p[i] == Point(x[i], y[i], SigAt(d, i))
  {
    seq(|x|, i requires 0 <= i < |x| => Point(x[i], y[i], SigAt(d, i)))
  }

  ghost function Sum(p: seq<Point>, f: Point -> real): real {
    if p == [] then 0.0 else Sum(p[..|p| - 1], f) + f(p[|p| - 1])
  }

  lemma SumStep(p: seq<Point>, f: Point -> real, i: nat)
    requires i < |p|
    ensures Sum(p[..i + 1], f) == Sum(p[..i], f) + f(p[i])
  {
    assert p[..i + 1][..i] == p[..i];
  }

  // ----- what the loops add up

  ghost function Weight(q: Point): real {
    1.0 / (q.sig * q.sig)
  }

  ghost function WX(q: Point): real { Weight(q) * q.x }
  ghost function WY(q: Point): real { Weight(q) * q.y }
  ghost function WXX(q: Point): real { Weight(q) * q.x * q.x }
  ghost function WXY(q: Point): real { Weight(q) * q.x * q.y }
  ghost function WYY(q: Point): real { Weight(q) * q.y * q.y }

  /** t_i and t_i * y_i / sig_i of the second loop, for the weighted mean m of the x. */
  function T(q: Point, m: real): real {
    (q.x - m) / q.sig
  }

  ghost function TT(m: real): Point -> real {
    (q: Point) => T(q, m) * T(q, m)
  }

  ghost function TY(m: real): Point -> real {
    (q: Point) => T(q, m) * q.y / q.sig
  }

  /** The residual of a point in units of its standard deviation. */
  function Residual(q: Point, a: real, b: real): real {
    (q.y - (a + b * q.x)) / q.sig
  }

  ghost function Merit(a: real, b: real): Point -> real {
    (q: Point) => Residual(q, a, b) * Residual(q, a, b)
  }

  /** The weighted squared error of a line. */
  ghost function Chi2(p: seq<Point>, a: real, b: real): real {
    Sum(p, Merit(a, b))
  }

  // ----- one point at a time

  lemma DivideTwice(u: real, v: real, s: real)
    requires s != 0.0
    ensures u / s * v / s == 1.0 / (s * s) * (u * v)
  {
    var r := 1.0 / s;
    assert u / s == u * r && u * r * v / s == u * r * v * r && 1.0 / (s * s) == r * r;
  }

  lemma MeritPoint(q: Point, a: real, b: real)
    ensures Merit(a, b)(q) == Error(Weight(q), WX(q), WY(q), WXX(q), WXY(q), WYY(q), a, b)
  {
    var z := q.y - (a + b * q.x);
    DivideTwice(z, z, q.sig);
    assert z / q.sig * z / q.sig == z / q.sig * (z / q.sig);
    SquareOut(Weight(q), q.x, q.y, a, b);
  }

  lemma SquareOut(w: real, x: real, y: real, a: real, b: real)
    ensures w * ((y - (a + b * x)) * (y - (a + b * x))) ==
            w * y * y - 2.0 * a * (w * y) - 2.0 * b * (w * x * y)
            + a * a * w + 2.0 * a * b * (w * x) + b * b * (w * x * x)
  {
    assert (y - (a + b * x)) * (y - (a + b * x)) ==
           y * y - 2.0 * a * y - 2.0 * b * (x * y) + a * a + 2.0 * a * b * x + b * b * (x * x);
  }

  lemma TPoint(q: Point, m: real)
    ensures TT(m)(q) == WXX(q) - 2.0 * m * WX(q) + m * m * Weight(q)
    ensures TY(m)(q) == WXY(q) - m * WY(q)
  {
    var z := q.x - m;
    DivideTwice(z, z, q.sig);
    DivideTwice(z, q.y, q.sig);
    assert z / q.sig * z / q.sig == z / q.sig * (z / q.sig);
    var w := Weight(q);
    assert z * z == q.x * q.x - 2.0 * m * q.x + m * m;
    assert w * (z * z) == w * q.x * q.x - 2.0 * m * (w * q.x) + m * m * w;
  }

  // ----- the sums

  ghost function Error(S: real, Sx: real, Sy: real, Sxx: real, Sxy: real, Syy: real, a: real, b: real): real {
    Syy - 2.0 * a * Sy - 2.0 * b * Sxy + a * a * S + 2.0 * a * b * Sx + b * b * Sxx
  }

  lemma {:induction false} Chi2Expanded(p: seq<Point>, a: real, b: real)
    ensures Chi2(p, a, b) == Error(Sum(p, Weight), Sum(p, WX), Sum(p, WY), Sum(p, WXX), Sum(p, WXY), Sum(p, WYY), a, b)
  {
    if p != [] {
      var front, q := p[..|p| - 1], p[|p| - 1];
      Chi2Expanded(front, a, b);
      MeritPoint(q, a, b);
      ErrorAdds(Sum(front, Weight), Sum(front, WX), Sum(front, WY), Sum(front, WXX), Sum(front, WXY), Sum(front, WYY),
        Weight(q), WX(q), WY(q), WXX(q), WXY(q), WYY(q), a, b);
    }
  }

  lemma ErrorAdds(S: real, Sx: real, Sy: real, Sxx: real, Sxy: real, Syy: real,
                  s: real, sx: real, sy: real, sxx: real, sxy: real, syy: real, a: real, b: real)
    ensures Error(S + s, Sx + sx, Sy + sy, Sxx + sxx, Sxy + sxy, Syy + syy, a, b) ==
            Error(S, Sx, Sy, Sxx, Sxy, Syy, a, b) + Error(s, sx, sy, sxx, sxy, syy, a, b)
  {
    Distribute(2.0 * a, Sy, sy);
    Distribute(2.0 * b, Sxy, sxy);
    Distribute(a * a, S, s);
    Distribute(2.0 * a * b, Sx, sx);
    Distribute(b * b, Sxx, sxx);
  }

  /** The centred sums in terms of the plain ones. */
  ghost predicate Centred(S: real, Sx: real, Sy: real, Sxx: real, Sxy: real, m: real, Stt: real, Sty: real) {
    Stt == Sxx - 2.0 * m * Sx + m * m * S && Sty == Sxy - m * Sy
  }

  lemma TExpanded(p: seq<Point>, m: real)
    ensures Centred(Sum(p, Weight), Sum(p, WX), Sum(p, WY), Sum(p, WXX), Sum(p, WXY), m, Sum(p, TT(m)), Sum(p, TY(m)))
  {
    TTExpanded(p, m);
    TYExpanded(p, m);
  }

  lemma {:induction false} TTExpanded(p: seq<Point>, m: real)
    ensures Sum(p, TT(m)) == Sum(p, WXX) - 2.0 * m * Sum(p, WX) + m * m * Sum(p, Weight)
  {
    if p != [] {
      var front, q := p[..|p| - 1], p[|p| - 1];
      TTExpanded(front, m);
      TPoint(q, m);
      assert Sum(p, TT(m)) == Sum(front, TT(m)) + TT(m)(q);
      Distribute(2.0 * m, Sum(front, WX), WX(q));
      Distribute(m * m, Sum(front, Weight), Weight(q));
    }
  }

  lemma {:induction false} TYExpanded(p: seq<Point>, m: real)
    ensures Sum(p, TY(m)) == Sum(p, WXY) - m * Sum(p, WY)
  {
    if p != [] {
      var front, q := p[..|p| - 1], p[|p| - 1];
      TYExpanded(front, m);
      TPoint(q, m);
      assert Sum(p, TY(m)) == Sum(front, TY(m)) + TY(m)(q);
      Distribute(m, Sum(front, WY), WY(q));
    }
  }

  lemma Distribute(c: real, u: real, v: real)
    ensures c * (u + v) == c * u + c * v
  {
  }

  lemma {:induction false} WeightPositive(p: seq<Point>)
    ensures Sum(p, Weight) >= 0.0 && (p != [] ==> Sum(p, Weight) > 0.0)
  {
    if p != [] {
      WeightPositive(p[..|p| - 1]);
      SquarePositive(p[|p| - 1].sig);
    }
  }

  lemma SquarePositive(s: real)
    requires s != 0.0
    ensures s * s > 0.0 && 1.0 / (s * s) > 0.0
  {
  }

  /** Stt is positive exactly when some x differs from m. */
  lemma {:induction false} TPositive(p: seq<Point>, m: real)
    ensures Sum(p, TT(m)) >= 0.0
    ensures Sum(p, TT(m)) > 0.0 <==> exists i :: 0 <= i < |p| && p[i].x != m
  {
    if p != [] {
      var front, q := p[..|p| - 1], p[|p| - 1];
      TPositive(front, m);
      assert forall i :: 0 <= i < |front| ==> front[i] == p[i];
      var t2 := Square(T(q, m));
      QuotientZero(q.x - m, q.sig);
      if q.x != m { assert p[|p| - 1].x != m; }
      if i :| 0 <= i < |front| && front[i].x != m { assert p[i].x != m; }
    }
  }

  lemma Square(z: real) returns (q: real)
    ensures q == z * z && q >= 0.0
    ensures z != 0.0 ==> q > 0.0
    ensures z == 0.0 ==> q == 0.0
  {
    q := z * z;
    if z > 0.0 {
      q := Product(z, z);
    } else if z < 0.0 {
      q := Product(-z, -z);
    }
  }

  lemma Product(a: real, b: real) returns (q: real)
    requires a > 0.0 && b > 0.0
    ensures q == a * b && q > 0.0
  {
    q := a * b;
  }

  lemma QuotientZero(z: real, s: real)
    requires s != 0.0
    ensures z / s == 0.0 <==> z == 0.0
  {
  }

  // ----- the minimum

  /** The line computed satisfies the normal equations. */
  lemma NormalEquations(S: real, Sx: real, Sy: real, Sxx: real, Sxy: real, m: real, Stt: real, a: real, b: real)
    requires m * S == Sx && Stt == Sxx - 2.0 * m * Sx + m * m * S
    requires b * Stt == Sxy - m * Sy && a * S == Sy - b * Sx
    ensures a * S + b * Sx == Sy && a * Sx + b * Sxx == Sxy
    ensures Stt == Sxx - m * Sx
  {
    assert m * m * S == m * Sx;
    assert a * Sx == m * (a * S);
    assert m * (a * S) == m * Sy - b * (m * Sx);
    assert b * Stt == b * Sxx - b * (m * Sx);
  }

  lemma Quotient(u: real, v: real)
    requires v != 0.0
    ensures u / v * v == u
  {
  }

  /** What the two-pass formula says about the sums. */
  lemma FitEquations(p: seq<Point>, a: real, b: real) returns (m: real, Stt: real)
    requires IsFit(p, a, b)
    ensures m * Sum(p, Weight) == Sum(p, WX) && Stt > 0.0
    ensures a * Sum(p, Weight) + b * Sum(p, WX) == Sum(p, WY) && a * Sum(p, WX) + b * Sum(p, WXX) == Sum(p, WXY)
    ensures Stt == Sum(p, WXX) - m * Sum(p, WX)
  {
    var S, Sx, Sy := Sum(p, Weight), Sum(p, WX), Sum(p, WY);
    m := Sx / S;
    Stt := Sum(p, TT(m));
    TExpanded(p, m);
    FitSolves(S, Sx, Sy, Sum(p, WXX), Sum(p, WXY), m, Stt, Sum(p, TY(m)), a, b);
  }

  lemma FitSolves(S: real, Sx: real, Sy: real, Sxx: real, Sxy: real, m: real, Stt: real, Sty: real, a: real, b: real)
    requires TwoPass(S, Sx, Sy, Stt, Sty, a, b) && m == Sx / S
    requires Centred(S, Sx, Sy, Sxx, Sxy, m, Stt, Sty)
    ensures m * S == Sx && a * S + b * Sx == Sy && a * Sx + b * Sxx == Sxy
    ensures Stt == Sxx - m * Sx
  {
    Quotient(Sx, S);
    Quotient(Sty, Stt);
    Quotient(Sy - b * Sx, S);
    NormalEquations(S, Sx, Sy, Sxx, Sxy, m, Stt, a, b);
  }

  /** Moving away by (u, v) from a solution of the normal equations costs a quadratic form in (u, v). */
  lemma MoveAway(S: real, Sx: real, Sy: real, Sxx: real, Sxy: real, Syy: real, a: real, b: real, a': real, b': real)
    requires a * S + b * Sx == Sy && a * Sx + b * Sxx == Sxy
    ensures var u, v := a' - a, b' - b;
            Error(S, Sx, Sy, Sxx, Sxy, Syy, a', b') == Error(S, Sx, Sy, Sxx, Sxy, Syy, a, b)
                                                       + (u * u * S + 2.0 * u * v * Sx + v * v * Sxx)
  {
    var u, v := a' - a, b' - b;
    var lin := 2.0 * u * (a * S + b * Sx - Sy) + 2.0 * v * (a * Sx + b * Sxx - Sxy);
    assert lin == 0.0;
    assert (a + u) * (a + u) * S == a * a * S + 2.0 * a * u * S + u * u * S;
    assert 2.0 * (a + u) * (b + v) * Sx == 2.0 * a * b * Sx + 2.0 * a * v * Sx + 2.0 * u * b * Sx + 2.0 * u * v * Sx;
    assert (b + v) * (b + v) * Sxx == b * b * Sxx + 2.0 * b * v * Sxx + v * v * Sxx;
    assert lin == 2.0 * a * u * S + 2.0 * u * b * Sx - 2.0 * u * Sy
                  + 2.0 * a * v * Sx + 2.0 * b * v * Sxx - 2.0 * v * Sxy;
  }

  /** The form is a sum of two squares with positive weights. */
  lemma FormPositive(S: real, Sx: real, Sxx: real, m: real, Stt: real, u: real, v: real) returns (form: real)
    requires S > 0.0 && Stt > 0.0 && m * S == Sx && Stt == Sxx - m * Sx
    ensures form == u * u * S + 2.0 * u * v * Sx + v * v * Sxx
    ensures form >= 0.0 && (u != 0.0 || v != 0.0 ==> form > 0.0)
  {
    var z := u + v * m;
    if v == 0.0 { assert z == u; }
    var p := ScaledSquare(z, S);
    var q := ScaledSquare(v, Stt);
    form := p + q;
    SumOfSquares(S, Sx, Sxx, m, Stt, u, v);
  }

  lemma SumOfSquares(S: real, Sx: real, Sxx: real, m: real, Stt: real, u: real, v: real)
    requires m * S == Sx && Stt == Sxx - m * Sx
    ensures (u + v * m) * (u + v * m) * S + v * v * Stt == u * u * S + 2.0 * u * v * Sx + v * v * Sxx
  {
    var z := u + v * m;
    assert z * z * S == u * u * S + 2.0 * u * v * (m * S) + v * v * (m * (m * S));
  }

  lemma ScaledSquare(z: real, d: real) returns (p: real)
    requires d > 0.0
    ensures p == z * z * d && p >= 0.0 && (z != 0.0 ==> p > 0.0)
  {
    var q := Square(z);
    p := q * d;
    if z != 0.0 { p := Product(q, d); }
  }

  /** The line of the two-pass formula. */
  ghost predicate IsFit(p: seq<Point>, a: real, b: real) {
    && p != [] && Sum(p, Weight) > 0.0
    && var m := Sum(p, WX) / Sum(p, Weight);
       TwoPass(Sum(p, Weight), Sum(p, WX), Sum(p, WY), Sum(p, TT(m)), Sum(p, TY(m)), a, b)
  }

  /** The last two assignments before the merit loop, for sums of which Stt is positive. */
  ghost predicate TwoPass(S: real, Sx: real, Sy: real, Stt: real, Sty: real, a: real, b: real) {
    S > 0.0 && Stt > 0.0 && b == Sty / Stt && a == (Sy - b * Sx) / S
  }

  /** What another line costs more than the fit. */
  lemma Excess(p: seq<Point>, a: real, b: real, a': real, b': real) returns (d: real)
    requires IsFit(p, a, b)
    ensures Chi2(p, a', b') == Chi2(p, a, b) + d
    ensures d >= 0.0 && (a' != a || b' != b ==> d > 0.0)
  {
    var S, Sx, Sy := Sum(p, Weight), Sum(p, WX), Sum(p, WY);
    var Sxx, Sxy, Syy := Sum(p, WXX), Sum(p, WXY), Sum(p, WYY);
    var m, Stt := FitEquations(p, a, b);
    Chi2Expanded(p, a, b);
    Chi2Expanded(p, a', b');
    d := FormPositive(S, Sx, Sxx, m, Stt, a' - a, b' - b);
    MoveAway(S, Sx, Sy, Sxx, Sxy, Syy, a, b, a', b');
  }

  /** No other line has a smaller error, and every other line has a larger one. */
  lemma LeastSquares(p: seq<Point>, a: real, b: real, a': real, b': real)
    requires IsFit(p, a, b)
    ensures Chi2(p, a, b) <= Chi2(p, a', b')
    ensures Chi2(p, a, b) == Chi2(p, a', b') <==> a' == a && b' == b
  {
    var d := Excess(p, a, b, a', b');
  }

  /** The formula is defined exactly when not all x are equal. */
  lemma FitExists(p: seq<Point>, m: real)
    requires p != [] && Sum(p, Weight) > 0.0 && m == Sum(p, WX) / Sum(p, Weight)
    ensures Sum(p, TT(m)) > 0.0 <==> exists i, j :: 0 <= i < j < |p| && p[i].x != p[j].x
  {
    TPositive(p, m);
    if j :| 0 <= j < |p| && p[j].x != p[0].x {
      assert 0 < j && p[0].x != p[j].x;
      assert p[0].x != m || p[j].x != m;
    } else {
      MeanOfEqual(p, p[0].x);
      MeanIs(Sum(p, WX), p[0].x, Sum(p, Weight));
    }
  }

  lemma MeanIs(u: real, c: real, w: real)
    requires w != 0.0 && u == c * w
    ensures u / w == c
  {
  }

  lemma {:induction false} MeanOfEqual(p: seq<Point>, c: real)
    requires forall i :: 0 <= i < |p| ==> p[i].x == c
    ensures Sum(p, WX) == c * Sum(p, Weight)
  {
    if p != [] {
      assert forall i :: 0 <= i < |p| - 1 ==> p[..|p| - 1][i] == p[i];
      MeanOfEqual(p[..|p| - 1], c);
    }
  }

  // ----- the routine

  /** The first loop. */
  method AddMoments(x: seq<real>, y: seq<real>, sig: Deviations) returns (S: real, Sx: real, Sy: real)
    requires |x| == |y| && (sig.Sig? ==> |sig.sig| == |x|)
    ensures var p := Points(x, y, sig); S == Sum(p, Weight) && Sx == Sum(p, WX) && Sy == Sum(p, WY)
  {
    ghost var p := Points(x, y, sig);
    S, Sx, Sy := 0.0, 0.0, 0.0;
    for i := 0 to |x|
      invariant S == Sum(p[..i], Weight) && Sx == Sum(p[..i], WX) && Sy == Sum(p[..i], WY)
    {
      var weight := 1.0 / (SigAt(sig, i) * SigAt(sig, i));
      SumStep(p, Weight, i);
      SumStep(p, WX, i);
      SumStep(p, WY, i);
      S, Sx, Sy := S + weight, Sx + weight * x[i], Sy + weight * y[i];
    }
    assert p[..|x|] == p;
  }

  /** The second loop. */
  method AddSlope(x: seq<real>, y: seq<real>, sig: Deviations, m: real) returns (Stt: real, b: real)
    requires |x| == |y| && (sig.Sig? ==> |sig.sig| == |x|)
    ensures var p := Points(x, y, sig); Stt == Sum(p, TT(m)) && b == Sum(p, TY(m))
  {
    ghost var p := Points(x, y, sig);
    Stt, b := 0.0, 0.0;
    for i := 0 to |x|
      invariant Stt == Sum(p[..i], TT(m)) && b == Sum(p[..i], TY(m))
    {
      var t := (x[i] - m) / SigAt(sig, i);
      SlopeStep(x, y, sig, m, i, t);
      Stt, b := Stt + t * t, b + t * y[i] / SigAt(sig, i);
    }
    assert p[..|x|] == p;
  }

  lemma SlopeStep(x: seq<real>, y: seq<real>, sig: Deviations, m: real, i: nat, t: real)
    requires |x| == |y| && (sig.Sig? ==> |sig.sig| == |x|) && i < |x| && t == (x[i] - m) / SigAt(sig, i)
    ensures var p := Points(x, y, sig);
            && Sum(p[..i + 1], TT(m)) == Sum(p[..i], TT(m)) + t * t
            && Sum(p[..i + 1], TY(m)) == Sum(p[..i], TY(m)) + t * y[i] / SigAt(sig, i)
  {
    var p := Points(x, y, sig);
    SumStep(p, TT(m), i);
    SumStep(p, TY(m), i);
    assert t == T(p[i], m);
  }

  /** The last loop. */
  method AddMerits(x: seq<real>, y: seq<real>, sig: Deviations, a: real, b: real) returns (chi2: real)
    requires |x| == |y| && (sig.Sig? ==> |sig.sig| == |x|)
    ensures chi2 == Chi2(Points(x, y, sig), a, b)
  {
    ghost var p := Points(x, y, sig);
    chi2 := 0.0;
    for i := 0 to |x|
      invariant chi2 == Sum(p[..i], Merit(a, b))
    {
      var merit := (y[i] - (a + b * x[i])) / SigAt(sig, i);
      SumStep(p, Merit(a, b), i);
      chi2 := chi2 + merit * merit;
    }
    assert p[..|x|] == p;
  }

  /** regression, without sig_a and sig_b: the
      line found has the smallest error of all lines, it is the only one that has, and chi2 is that
      error. */
  method Regress(x: seq<real>, y: seq<real>, sig: Deviations) returns (a: real, b: real, chi2: real)
    requires |x| == |y| && (sig.Sig? ==> |sig.sig| == |x|)
    requires exists i, j :: 0 <= i < j < |x| && x[i] != x[j]
    ensures chi2 == Chi2(Points(x, y, sig), a, b)
    ensures forall a', b' {:trigger Chi2(Points(x, y, sig), a', b')} :: chi2 <= Chi2(Points(x, y, sig), a', b')
    ensures forall a', b' {:trigger Chi2(Points(x, y, sig), a', b')} ::
              Chi2(Points(x, y, sig), a', b') == chi2 ==> a' == a && b' == b
  {
    ghost var p := Points(x, y, sig);
    a, b := FitLine(x, y, sig);
    chi2 := AddMerits(x, y, sig, a, b);
    forall a', b'
      ensures Chi2(p, a, b) <= Chi2(p, a', b')
      ensures Chi2(p, a', b') == Chi2(p, a, b) ==> a' == a && b' == b
    {
      LeastSquares(p, a, b, a', b');
    }
  }

  /** The coefficients. */
  method FitLine(x: seq<real>, y: seq<real>, sig: Deviations) returns (a: real, b: real)
    requires |x| == |y| && (sig.Sig? ==> |sig.sig| == |x|)
    requires exists i, j :: 0 <= i < j < |x| && x[i] != x[j]
    ensures IsFit(Points(x, y, sig), a, b)
  {
    SpreadPositive(x, y, sig);
    var S, Sx, Sy := AddMoments(x, y, sig);
    var Stt;
    Stt, b := AddSlope(x, y, sig, Sx / S);
    b := b / Stt;
    a := (Sy - b * Sx) / S;
  }

  lemma SpreadPositive(x: seq<real>, y: seq<real>, sig: Deviations)
    requires |x| == |y| && (sig.Sig? ==> |sig.sig| == |x|)
    requires exists i, j :: 0 <= i < j < |x| && x[i] != x[j]
    ensures var p := Points(x, y, sig);
            Sum(p, Weight) > 0.0 && Sum(p, TT(Sum(p, WX) / Sum(p, Weight))) > 0.0
  {
    var p := Points(x, y, sig);
    WeightPositive(p);
    FitExists(p, Sum(p, WX) / Sum(p, Weight));
    var i, j :| 0 <= i < j < |x| && x[i] != x[j];
    assert p[i].x != p[j].x;
  }
}
