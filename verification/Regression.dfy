/**
 Least squares on an evenly spaced series and the forecast drawn from it. Numbers are exact reals;
 Math.round is the floor of x + 0.5 and the square root is a parameter.
 */
module Regression {
  import opened Calendar
  import opened Options
  import opened PriorPeriod

  // ---------- sums over the index and the series ----------

  function SumX(n: nat): real { if n == 0 then 0.0 else SumX(n - 1) + (n - 1) as real }

  function SumX2(n: nat): real { if n == 0 then 0.0 else SumX2(n - 1) + (n - 1) as real * (n - 1) as real }

  function SumY(ys: seq<real>): real {
    if ys == [] then 0.0 else SumY(ys[..|ys| - 1]) + ys[|ys| - 1]
  }

  function SumXY(ys: seq<real>): real {
    if ys == [] then 0.0 else SumXY(ys[..|ys| - 1]) + (|ys| - 1) as real * ys[|ys| - 1]
  }

  function Square(x: real): real { x * x }

  function Times(x: real, y: real): real { x * y }

  /** The line with slope m and intercept c. */
  function Line(m: real, c: real, x: real): real { m * x + c }

  /** The sum of squared residuals of a line. */
  function Sse(ys: seq<real>, m: real, c: real): real {
    if ys == [] then 0.0 else
    Sse(ys[..|ys| - 1], m, c) + Square(ys[|ys| - 1] - Line(m, c, (|ys| - 1) as real))
  }

  function Denominator(n: nat): real { n as real * SumX2(n) - SumX(n) * SumX(n) }

  function Slope(ys: seq<real>): real {
    var n := |ys|;
    var denom := Denominator(n);
    if denom != 0.0 then (n as real * SumXY(ys) - SumX(n) * SumY(ys)) / denom else 0.0
  }

  function Intercept(ys: seq<real>): real
    requires ys != []
  {
    (SumY(ys) - Slope(ys) * SumX(|ys|)) / |ys| as real
  }

  function Mean(ys: seq<real>): real
    requires ys != []
  {
    SumY(ys) / |ys| as real
  }

  // ---------- the denominator ----------

  lemma {:induction false} SumXClosed(n: nat)
    ensures SumX(n) == n as real * (n as real - 1.0) / 2.0
  {
    if n > 0 { SumXClosed(n - 1); }
  }

  lemma {:induction false} SumX2Closed(n: nat)
    ensures SumX2(n) == n as real * (n as real - 1.0) * (2.0 * n as real - 1.0) / 6.0
  {
    if n > 0 {
      SumX2Closed(n - 1);
      var x := n as real;
      assert (n - 1) as real == x - 1.0;
      assert (x - 1.0) * (x - 2.0) * (2.0 * x - 3.0) / 6.0 + (x - 1.0) * (x - 1.0)
          == x * (x - 1.0) * (2.0 * x - 1.0) / 6.0;
    }
  }

  lemma DenominatorClosed(n: nat)
    ensures Denominator(n) == n as real * n as real * (n as real * n as real - 1.0) / 12.0
    ensures Denominator(n) == 0.0 <==> n <= 1
  {
    hide SumX, SumX2;
    SumXClosed(n);
    SumX2Closed(n);
    DenominatorAlgebra(n as real, SumX(n), SumX2(n));
    if n == 0 || n == 1 {
      assert n as real * n as real * (n as real * n as real - 1.0) == 0.0;
    } else {
      SquaresPositive(n as real);
    }
  }

  lemma DenominatorAlgebra(x: real, sx: real, sxx: real)
    requires sx == x * (x - 1.0) / 2.0 && sxx == x * (x - 1.0) * (2.0 * x - 1.0) / 6.0
    ensures x * sxx - sx * sx == x * x * (x * x - 1.0) / 12.0
  {
    assert x * (x * (x - 1.0) * (2.0 * x - 1.0) / 6.0) - (x * (x - 1.0) / 2.0) * (x * (x - 1.0) / 2.0)
        == x * x * (x * x - 1.0) / 12.0;
  }

  lemma SquaresPositive(x: real)
    requires x >= 2.0
    ensures x * x * (x * x - 1.0) / 12.0 > 0.0
  {
    var q := x * x;
    assert q >= 4.0 by { SignOfProduct(x, x); }
    SignOfProduct(q - 1.0, q);
    assert q * (q - 1.0) > 0.0 by { PositiveProduct(q, q - 1.0); }
    assert x * x * (x * x - 1.0) == q * (q - 1.0);
  }

  lemma PositiveProduct(a: real, b: real)
    requires a > 0.0 && b > 0.0
    ensures a * b > 0.0
  {
  }

  // ---------- residuals ----------

  function SumResidual(ys: seq<real>, m: real, c: real): real {
    if ys == [] then 0.0 else
    SumResidual(ys[..|ys| - 1], m, c) + (ys[|ys| - 1] - Line(m, c, (|ys| - 1) as real))
  }

  function SumXResidual(ys: seq<real>, m: real, c: real): real {
    if ys == [] then 0.0 else
    SumXResidual(ys[..|ys| - 1], m, c) + Times((|ys| - 1) as real, ys[|ys| - 1] - Line(m, c, (|ys| - 1) as real))
  }

  lemma Distribute(a: real, x: real, y: real)
    ensures a * (x + y) == a * x + a * y
    ensures a * (x - y) == a * x - a * y
  {
  }

  lemma {:induction false} SumResidualLinear(ys: seq<real>, m: real, c: real)
    ensures SumResidual(ys, m, c) == SumY(ys) - m * SumX(|ys|) - c * |ys| as real
  {
    if ys != [] {
      var k := |ys| - 1;
      SumResidualLinear(ys[..k], m, c);
      Distribute(m, SumX(k), k as real);
      Distribute(c, k as real, 1.0);
      assert |ys| as real == k as real + 1.0;
    }
  }

  lemma {:induction false} SumXResidualLinear(ys: seq<real>, m: real, c: real)
    ensures SumXResidual(ys, m, c) == SumXY(ys) - m * SumX2(|ys|) - c * SumX(|ys|)
  {
    hide SumXResidual, SumXY, SumX2, SumX, Line, Times;
    if ys == [] {
      NoSums(m, c);
    } else {
      var k := |ys| - 1;
      SumXResidualLinear(ys[..k], m, c);
      UnrollSums(ys, m, c);
      XStep(SumXY(ys[..k]), SumX2(k), SumX(k), k as real, ys[k], m, c);
    }
  }

  lemma NoSums(m: real, c: real)
    ensures SumXResidual([], m, c) == SumXY([]) == SumX2(0) == SumX(0) == 0.0
  {
  }

  lemma UnrollSums(ys: seq<real>, m: real, c: real)
    requires ys != []
    ensures var k := |ys| - 1; var x := k as real;
            SumXResidual(ys, m, c) == SumXResidual(ys[..k], m, c) + Times(x, ys[k] - Line(m, c, x)) &&
            SumXY(ys) == SumXY(ys[..k]) + x * ys[k] &&
            SumX2(|ys|) == SumX2(k) + x * x && SumX(|ys|) == SumX(k) + x
  {
  }

  lemma XStep(sxy: real, sxx: real, sx: real, x: real, y: real, m: real, c: real)
    ensures (sxy - m * sxx - c * sx) + Times(x, y - Line(m, c, x)) == (sxy + x * y) - m * (sxx + x * x) - c * (sx + x)
  {
    XResidual(x, y, m, c);
    Distribute(m, sxx, x * x);
    Distribute(c, sx, x);
  }

  lemma XResidual(x: real, y: real, m: real, c: real)
    ensures Times(x, y - Line(m, c, x)) == x * y - m * (x * x) - c * x
  {
    Distribute(x, y, m * x + c);
    Distribute(x, m * x, c);
  }

  lemma NormalEquations(n: real, sx: real, sxx: real, sy: real, sxy: real, m: real, c: real)
    requires n > 0.0 && n * c == sy - m * sx
    requires (n * sxx - sx * sx) * m == n * sxy - sx * sy
    ensures sy - m * sx - c * n == 0.0 && sxy - m * sxx - c * sx == 0.0
  {
    var e := sxy - m * sxx - c * sx;
    assert n * e == n * sxy - (n * sxx) * m - (n * c) * sx;
    assert (sy - m * sx) * sx == sy * sx - m * (sx * sx);
    assert n * e == 0.0;
  }

  lemma DivideBack(a: real, d: real)
    requires d != 0.0
    ensures d * (a / d) == a
  {
  }

  lemma SlopeEquation(ys: seq<real>)
    requires ys != []
    ensures Denominator(|ys|) * Slope(ys) == |ys| as real * SumXY(ys) - SumX(|ys|) * SumY(ys)
  {
    hide Denominator, SumXY, SumY, SumX;
    DenominatorClosed(|ys|);
    if |ys| == 1 {
      FirstSums(ys);
    } else {
      DivideBack(|ys| as real * SumXY(ys) - SumX(|ys|) * SumY(ys), Denominator(|ys|));
    }
  }

  lemma FirstSums(ys: seq<real>)
    requires |ys| == 1
    ensures SumX(1) == 0.0 && SumXY(ys) == 0.0
  {
    assert SumXY(ys[..0]) == 0.0;
  }

  lemma InterceptEquation(ys: seq<real>)
    requires ys != []
    ensures |ys| as real * Intercept(ys) == SumY(ys) - Slope(ys) * SumX(|ys|)
  {
    hide Slope, SumX, SumY;
    DivideBack(SumY(ys) - Slope(ys) * SumX(|ys|), |ys| as real);
  }

  /** The residuals of the fitted line sum to zero and are orthogonal to the index. */
  lemma ResidualsVanish(ys: seq<real>)
    requires ys != []
    ensures SumResidual(ys, Slope(ys), Intercept(ys)) == 0.0
    ensures SumXResidual(ys, Slope(ys), Intercept(ys)) == 0.0
  {
    hide Slope, Intercept, SumX, SumX2, SumY, SumXY, SumResidual, SumXResidual;
    var n := |ys|;
    SlopeEquation(ys);
    InterceptEquation(ys);
    SumResidualLinear(ys, Slope(ys), Intercept(ys));
    SumXResidualLinear(ys, Slope(ys), Intercept(ys));
    NormalEquations(n as real, SumX(n), SumX2(n), SumY(ys), SumXY(ys), Slope(ys), Intercept(ys));
  }

  // ---------- optimality ----------

  /** Squared distance over the index range of two lines that differ by p * i + q. */
  function Gap(n: nat, p: real, q: real): real {
    if n == 0 then 0.0 else Gap(n - 1, p, q) + Square(Line(p, q, (n - 1) as real))
  }

  lemma {:induction false} GapNonNegative(n: nat, p: real, q: real)
    ensures Gap(n, p, q) >= 0.0
    ensures n >= 2 ==> Gap(n, p, q) >= Gap(2, p, q)
  {
    if n > 0 {
      GapNonNegative(n - 1, p, q);
      SquareZero(Line(p, q, (n - 1) as real));
    }
  }

  lemma GapZero(n: nat, p: real, q: real)
    requires n >= 2 && Gap(n, p, q) == 0.0
    ensures p == 0.0 && q == 0.0
  {
    hide Square;
    GapNonNegative(n, p, q);
    assert Line(p, q, 0.0) == q && Line(p, q, 1.0) == p + q;
    assert Gap(1, p, q) == Gap(0, p, q) + Square(q);
    assert Gap(2, p, q) == Gap(1, p, q) + Square(p + q);
    SquareZero(q);
    SquareZero(p + q);
  }

  lemma TimesSum(a: real, x: real, y: real)
    ensures Times(a, x + y) == Times(a, x) + Times(a, y)
  {
  }

  lemma SquareZero(x: real)
    ensures Square(x) >= 0.0 && (Square(x) == 0.0 ==> x == 0.0)
  {
    assert (-x) * x == -(x * x);
    if x > 0.0 { SignOfProduct(x, x); }
    if x < 0.0 { SignOfProduct(x, -x); }
  }

  /** Moving from the line (m, c) to the line (a, b) changes the squared error by three sums. */
  lemma {:induction false} SseMoved(ys: seq<real>, m: real, c: real, a: real, b: real)
    ensures Sse(ys, a, b) == Sse(ys, m, c) + Gap(|ys|, m - a, c - b)
                             + Times(2.0 * (m - a), SumXResidual(ys, m, c)) + Times(2.0 * (c - b), SumResidual(ys, m, c))
  {
    hide Times, Square, Line;
    if ys == [] {
      NoSquares(m, c, a, b);
    } else {
      var k := |ys| - 1;
      assert |ys[..k]| == k;
      SseMoved(ys[..k], m, c, a, b);
      UnrollSquares(ys, m, c, a, b);
      var x := k as real;
      var r := ys[k] - Line(m, c, x);
      var rx, r0, rx1, r01 := SumXResidual(ys[..k], m, c), SumResidual(ys[..k], m, c), SumXResidual(ys, m, c), SumResidual(ys, m, c);
      MoveStep(rx, r0, x, ys[k], m, c, a, b, r, rx1, r01);
      MoveSums(Sse(ys[..k], a, b), Sse(ys[..k], m, c), Gap(k, m - a, c - b),
               Times(2.0 * (m - a), rx), Times(2.0 * (c - b), r0), Times(2.0 * (m - a), rx1), Times(2.0 * (c - b), r01),
               Square(ys[k] - Line(a, b, x)), Square(r), Square(Line(m - a, c - b, x)));
    }
  }

  lemma MoveSums(sa: real, sm: real, g: real, tx: real, t0: real, tx1: real, t01: real, qa: real, qm: real, qg: real)
    requires sa == sm + g + tx + t0 && tx + t0 + qa == qm + qg + tx1 + t01
    ensures sa + qa == (sm + qm) + (g + qg) + tx1 + t01
  {
  }

  lemma NoSquares(m: real, c: real, a: real, b: real)
    ensures Sse([], a, b) == Sse([], m, c) == Gap(0, m - a, c - b) == 0.0
    ensures Times(2.0 * (m - a), SumXResidual([], m, c)) == Times(2.0 * (c - b), SumResidual([], m, c)) == 0.0
  {
  }

  lemma UnrollSquares(ys: seq<real>, m: real, c: real, a: real, b: real)
    requires ys != []
    ensures var k := |ys| - 1; var x := k as real; var r := ys[k] - Line(m, c, x);
            Sse(ys, a, b) == Sse(ys[..k], a, b) + Square(ys[k] - Line(a, b, x)) &&
            Sse(ys, m, c) == Sse(ys[..k], m, c) + Square(r) &&
            Gap(|ys|, m - a, c - b) == Gap(k, m - a, c - b) + Square(Line(m - a, c - b, x)) &&
            SumXResidual(ys, m, c) == SumXResidual(ys[..k], m, c) + Times(x, r) &&
            SumResidual(ys, m, c) == SumResidual(ys[..k], m, c) + r
  {
  }

  lemma MoveStep(rx: real, r0: real, x: real, y: real, m: real, c: real, a: real, b: real,
                 r: real, rx1: real, r01: real)
    requires r == y - Line(m, c, x) && rx1 == rx + Times(x, r) && r01 == r0 + r
    ensures Times(2.0 * (m - a), rx) + Times(2.0 * (c - b), r0) + Square(y - Line(a, b, x))
            == Square(r) + Square(Line(m - a, c - b, x)) + Times(2.0 * (m - a), rx1) + Times(2.0 * (c - b), r01)
  {
    hide Square, Line, Times;
    SquareMoved(x, y, m, c, a, b);
    TimesSum(2.0 * (m - a), rx, Times(x, r));
    TimesSum(2.0 * (c - b), r0, r);
  }

  lemma SquareMoved(x: real, y: real, m: real, c: real, a: real, b: real)
    ensures var r := y - Line(m, c, x);
            Square(y - Line(a, b, x)) == Square(r) + Square(Line(m - a, c - b, x))
                                         + Times(2.0 * (m - a), Times(x, r)) + Times(2.0 * (c - b), r)
  {
    hide Square, Times, Line;
    var r, p, q := y - Line(m, c, x), m - a, c - b;
    LinesApart(m, c, a, b, x);
    SquareOfSum(r, Line(p, q, x));
    ProductOfLine(p, x, q, r);
  }

  lemma LinesApart(m: real, c: real, a: real, b: real, x: real)
    ensures Line(m - a, c - b, x) == Line(m, c, x) - Line(a, b, x)
  {
  }

  lemma ProductOfLine(p: real, x: real, q: real, r: real)
    ensures 2.0 * (Line(p, q, x) * r) == Times(2.0 * p, Times(x, r)) + Times(2.0 * q, r)
  {
    assert Line(p, q, x) * r == p * (x * r) + q * r;
  }

  lemma SquareOfSum(r: real, d: real)
    ensures Square(r + d) == Square(r) + Square(d) + 2.0 * (d * r)
  {
  }

  /** The squared error of any line is that of the fitted one plus the gap between the two. */
  lemma SseOfLine(ys: seq<real>, m: real, c: real)
    requires ys != []
    ensures Sse(ys, m, c) == Sse(ys, Slope(ys), Intercept(ys)) + Gap(|ys|, Slope(ys) - m, Intercept(ys) - c)
  {
    hide Slope, Intercept, Sse, Gap, SumResidual, SumXResidual;
    ResidualsVanish(ys);
    SseMoved(ys, Slope(ys), Intercept(ys), m, c);
  }

  /** No line has a smaller squared error, and from two points on no other line has the same. */
  lemma LeastSquares(ys: seq<real>, m: real, c: real)
    requires ys != []
    ensures Sse(ys, Slope(ys), Intercept(ys)) <= Sse(ys, m, c)
    ensures |ys| >= 2 && Sse(ys, m, c) == Sse(ys, Slope(ys), Intercept(ys)) ==> m == Slope(ys) && c == Intercept(ys)
  {
    hide Slope, Intercept, Sse, Gap;
    SseOfLine(ys, m, c);
    var p, q := Slope(ys) - m, Intercept(ys) - c;
    GapNonNegative(|ys|, p, q);
    if |ys| >= 2 && Gap(|ys|, p, q) == 0.0 { GapZero(|ys|, p, q); }
  }

  // ---------- goodness of fit ----------

  function SsTot(ys: seq<real>): real
    requires ys != []
  {
    Sse(ys, 0.0, Mean(ys))
  }

  function SsRes(ys: seq<real>): real
    requires ys != []
  {
    Sse(ys, Slope(ys), Intercept(ys))
  }

  function MaxReal(a: real, b: real): real { if a < b then b else a }

  function R2(ys: seq<real>): real
    requires ys != []
  {
    if SsTot(ys) == 0.0 then 1.0 else MaxReal(0.0, 1.0 - SsRes(ys) / SsTot(ys))
  }

  /** The total variation splits into what the line leaves and what it explains. */
  lemma VarianceSplits(ys: seq<real>)
    requires ys != []
    ensures SsTot(ys) == SsRes(ys) + Gap(|ys|, Slope(ys), Intercept(ys) - Mean(ys))
    ensures 0.0 <= SsRes(ys) <= SsTot(ys)
  {
    hide Slope, Intercept, Sse, Gap, Mean;
    SseOfLine(ys, 0.0, Mean(ys));
    GapNonNegative(|ys|, Slope(ys), Intercept(ys) - Mean(ys));
    SseNonNegative(ys, Slope(ys), Intercept(ys));
  }

  lemma {:induction false} SseNonNegative(ys: seq<real>, m: real, c: real)
    ensures Sse(ys, m, c) >= 0.0
    ensures Sse(ys, m, c) == 0.0 <==> OnLine(ys, m, c)
  {
    if ys != [] {
      hide Square, Line;
      var k := |ys| - 1;
      SseNonNegative(ys[..k], m, c);
      SquareZero(ys[k] - Line(m, c, k as real));
      OnePointMore(ys, m, c);
    }
  }

  predicate OnLine(ys: seq<real>, m: real, c: real) { forall i :: 0 <= i < |ys| ==> ys[i] == Line(m, c, i as real) }

  lemma OnePointMore(ys: seq<real>, m: real, c: real)
    requires ys != []
    ensures var k := |ys| - 1; OnLine(ys, m, c) <==> OnLine(ys[..k], m, c) && ys[k] == Line(m, c, k as real)
  {
    hide Line;
    var k := |ys| - 1;
    forall i | 0 <= i < k ensures ys[i] == ys[..k][i] {}
  }

  /** R2 lies between 0 and 1, the clamp never acts, and 1 means that every value is on the line. */
  lemma R2Range(ys: seq<real>)
    requires ys != []
    ensures 0.0 <= R2(ys) <= 1.0
    ensures SsTot(ys) != 0.0 ==> R2(ys) == 1.0 - SsRes(ys) / SsTot(ys)
    ensures R2(ys) == 1.0 <==> OnLine(ys, Slope(ys), Intercept(ys))
  {
    hide Slope, Intercept, Sse, SsTot, Mean, Gap, OnLine, Line;
    VarianceSplits(ys);
    SseNonNegative(ys, Slope(ys), Intercept(ys));
    Explained(SsRes(ys), SsTot(ys));
  }

  lemma Explained(a: real, b: real)
    requires 0.0 <= a <= b
    ensures b == 0.0 ==> a == 0.0
    ensures b != 0.0 ==> 0.0 <= MaxReal(0.0, 1.0 - a / b) <= 1.0 && MaxReal(0.0, 1.0 - a / b) == 1.0 - a / b
                         && (1.0 - a / b == 1.0 <==> a == 0.0)
  {
    if b != 0.0 { QuotientRange(a, b); }
  }

  lemma QuotientRange(a: real, b: real)
    requires 0.0 <= a <= b && b > 0.0
    ensures 0.0 <= a / b <= 1.0 && (a / b == 0.0 <==> a == 0.0)
  {
    DivideBack(a, b);
    SignOfProduct(a / b, b);
  }

  lemma SignOfProduct(q: real, b: real)
    requires b > 0.0
    ensures (q < 0.0 ==> b * q < 0.0) && (q > 1.0 ==> b * q > b) && (q == 0.0 <==> b * q == 0.0)
  {
  }

  // ---------- the reported regression ----------

  function Round(x: real): int { (x + 0.5).Floor }

  function Round4(x: real): real { Round(x * 10000.0) as real / 10000.0 }

  function Round2(x: real): real { Round(x * 100.0) as real / 100.0 }

  lemma RoundKeepsOrder(x: real, y: real)
    requires x <= y
    ensures Round2(x) <= Round2(y) && Round4(x) <= Round4(y)
  {
    hide Round;
    RoundOrder(x * 100.0, y * 100.0);
    RoundOrder(x * 10000.0, y * 10000.0);
  }

  lemma RoundOrder(x: real, y: real)
    requires x <= y
    ensures Round(x) <= Round(y)
  {
  }

  datatype Direction = Up | Down | Flat

  const FLAT_THRESHOLD := 0.02
  const LOW_CONFIDENCE_R2 := 0.3

  function AbsReal(x: real): real { if x < 0.0 then -x else x }

  function Trend(slope: real, mean: real): Direction {
    var absRatio := if mean != 0.0 then AbsReal(slope / mean) else 0.0;
    if absRatio < FLAT_THRESHOLD then Flat else if slope > 0.0 then Up else Down
  }

  /** What the trend says: two per cent of the mean a day, and flat around a zero mean however steep. */
  lemma TrendMeaning(slope: real, mean: real)
    ensures Trend(slope, mean).Flat? <==> mean == 0.0 || AbsReal(slope) < 0.02 * AbsReal(mean)
    ensures Trend(slope, mean).Up? <==> mean != 0.0 && slope >= 0.02 * AbsReal(mean)
    ensures Trend(slope, mean).Down? <==> mean != 0.0 && slope <= -0.02 * AbsReal(mean)
  {
    hide AbsReal;
    AbsNotNegative(slope);
    if mean != 0.0 {
      DivideBack(slope, mean);
      TrendRatio(slope, mean, slope / mean);
    }
  }

  lemma AbsNotNegative(x: real)
    ensures AbsReal(x) >= 0.0 && (x == 0.0 <==> AbsReal(x) == 0.0)
    ensures AbsReal(x) == x || AbsReal(x) == -x
    ensures x > 0.0 <==> AbsReal(x) == x && x != 0.0
  {
  }

  lemma TrendRatio(slope: real, mean: real, q: real)
    requires mean != 0.0 && mean * q == slope
    ensures AbsReal(q) < FLAT_THRESHOLD <==> AbsReal(slope) < 0.02 * AbsReal(mean)
    ensures AbsReal(mean) > 0.0
  {
    hide AbsReal;
    AbsNotNegative(mean);
    AbsOfProduct(mean, q);
    RatioOrder(AbsReal(mean), AbsReal(q));
  }

  lemma AbsOfProduct(a: real, b: real)
    ensures AbsReal(a * b) == AbsReal(a) * AbsReal(b)
  {
    if a != 0.0 {
      if a > 0.0 { SignOfProduct(b, a); } else { SignOfProduct(b, -a); }
    }
  }

  lemma RatioOrder(m: real, q: real)
    requires m > 0.0
    ensures q < 0.02 <==> m * q < 0.02 * m
  {
    SignOfProduct(q - 0.02, m);
  }

  datatype Regression =
    Regression(slope: real, intercept: real, r2: real, residualStdDev: real, direction: Direction, lowConfidence: bool)

  /** A square root, of which no more is used than that it is not negative. */
  ghost predicate IsRoot(sqrt: real -> real) {
    forall v :: v >= 0.0 ==> sqrt(v) >= 0.0
  }

  function ResidualVariance(ys: seq<real>): real
    requires ys != []
  {
    SsRes(ys) / MaxReal((|ys| - 2) as real, 1.0)
  }

  function OlsRegression(ys: seq<real>, sqrt: real -> real): Regression
    requires ys != []
  {
    Regression(Round4(Slope(ys)), Round4(Intercept(ys)), Round4(R2(ys)), Round4(sqrt(ResidualVariance(ys))),
               Trend(Slope(ys), Mean(ys)), R2(ys) < LOW_CONFIDENCE_R2)
  }

  /** The reported figures stay in range after rounding. */
  lemma ReportedInRange(ys: seq<real>, sqrt: real -> real)
    requires ys != [] && IsRoot(sqrt)
    ensures var reg := OlsRegression(ys, sqrt);
            0.0 <= reg.r2 <= 1.0 && reg.residualStdDev >= 0.0 && (reg.lowConfidence ==> reg.r2 <= 0.3)
  {
    hide Slope, Intercept, R2, SsRes, Mean, SsTot, Trend, Round4;
    R2Range(ys);
    RoundedEnds();
    RoundKeepsOrder(0.0, R2(ys));
    RoundKeepsOrder(R2(ys), 1.0);
    if R2(ys) < 0.3 { RoundKeepsOrder(R2(ys), 0.3); }
    VarianceSplits(ys);
    QuotientSign(SsRes(ys), MaxReal((|ys| - 2) as real, 1.0));
    RoundKeepsOrder(0.0, sqrt(ResidualVariance(ys)));
  }

  /** r is x to four decimals, halves up. */
  predicate IsRounded4(r: real, x: real) {
    (r * 10000.0).Floor as real == r * 10000.0 && r - 0.00005 <= x < r + 0.00005
  }

  /** r is x to two decimals, halves up. */
  predicate IsRounded2(r: real, x: real) {
    (r * 100.0).Floor as real == r * 100.0 && r - 0.005 <= x < r + 0.005
  }

  lemma RoundIsNearest(x: real)
    ensures IsRounded4(Round4(x), x) && IsRounded2(Round2(x), x)
  {
    var n, k := Round(x * 10000.0), Round(x * 100.0);
    assert Round4(x) * 10000.0 == n as real && Round2(x) * 100.0 == k as real;
  }

  /** No line has a smaller squared error. */
  ghost predicate IsBest(ys: seq<real>, m: real, c: real) { forall a, b :: Sse(ys, m, c) <= Sse(ys, a, b) }

  ghost predicate IsMean(ys: seq<real>, mean: real) { mean * |ys| as real == SumY(ys) }

  /** The share of the variation about the mean that the best line explains; 1 for a constant series. */
  function Explanation(ys: seq<real>, m: real, c: real, mean: real): real {
    var total := Sse(ys, 0.0, mean);
    if total == 0.0 then 1.0 else 1.0 - Sse(ys, m, c) / total
  }

  /**
   What is reported, by the line of least squares: its slope and intercept to four decimals, the trend by
   two per cent of the mean, the share it explains and whether that is below 0.3, and the deviation.
   */
  ghost predicate Reports(reg: Regression, ys: seq<real>, sqrt: real -> real, m: real, c: real, mean: real) {
    (if |ys| >= 2 then IsRounded4(reg.slope, m) && IsRounded4(reg.intercept, c)
     else reg.slope == 0.0 && IsRounded4(reg.intercept, mean))
    && (reg.direction.Flat? <==> |ys| == 1 || mean == 0.0 || AbsReal(m) < 0.02 * AbsReal(mean))
    && (reg.direction.Up? <==> |ys| >= 2 && mean != 0.0 && m >= 0.02 * AbsReal(mean))
    && (reg.direction.Down? <==> |ys| >= 2 && mean != 0.0 && m <= -0.02 * AbsReal(mean))
    && IsRounded4(reg.r2, Explanation(ys, m, c, mean))
    && (reg.lowConfidence <==> Explanation(ys, m, c, mean) < 0.3)
    && IsRounded4(reg.residualStdDev, sqrt(Sse(ys, m, c) / if |ys| >= 3 then (|ys| - 2) as real else 1.0))
  }

  lemma RegressionReports(ys: seq<real>, sqrt: real -> real, m: real, c: real, mean: real)
    requires ys != [] && IsBest(ys, m, c) && IsMean(ys, mean)
    ensures Reports(OlsRegression(ys, sqrt), ys, sqrt, m, c, mean)
  {
    hide Slope, Intercept, R2, SsTot, Sse, SumY, Trend, Round4, AbsReal, IsBest, IsRounded4;
    BestIsFitted(ys, m, c);
    MeanIsUnique(ys, mean);
    R2Range(ys);
    TrendMeaning(Slope(ys), Mean(ys));
    SharesExplained(ys);
    DivisorIs(|ys|);
    RoundIsNearest(Slope(ys));
    RoundIsNearest(Intercept(ys));
    RoundIsNearest(R2(ys));
    RoundIsNearest(sqrt(ResidualVariance(ys)));
    if |ys| == 1 { OnePointLine(ys); }
  }

  lemma BestIsFitted(ys: seq<real>, m: real, c: real)
    requires ys != [] && IsBest(ys, m, c)
    ensures Sse(ys, m, c) == SsRes(ys) && (|ys| >= 2 ==> m == Slope(ys) && c == Intercept(ys))
  {
    hide Slope, Intercept, Sse;
    LeastSquares(ys, m, c);
    assert Sse(ys, m, c) <= Sse(ys, Slope(ys), Intercept(ys));
  }

  lemma MeanIsUnique(ys: seq<real>, mean: real)
    requires ys != [] && IsMean(ys, mean)
    ensures mean == Mean(ys)
  {
    hide SumY;
    var n := |ys| as real;
    assert n * mean == n * (SumY(ys) / n) by { DivideBack(SumY(ys), n); }
  }

  lemma SharesExplained(ys: seq<real>)
    requires ys != []
    ensures R2(ys) == Explanation(ys, Slope(ys), Intercept(ys), Mean(ys)) && SsTot(ys) == Sse(ys, 0.0, Mean(ys))
    ensures SsRes(ys) == Sse(ys, Slope(ys), Intercept(ys))
  {
    hide Slope, Intercept, Sse, Mean;
    R2Range(ys);
  }

  lemma DivisorIs(n: nat)
    requires n > 0
    ensures MaxReal((n - 2) as real, 1.0) == if n >= 3 then (n - 2) as real else 1.0
  {
  }

  lemma OnePointLine(ys: seq<real>)
    requires |ys| == 1
    ensures Slope(ys) == 0.0 && Intercept(ys) == Mean(ys) && Round4(0.0) == 0.0
    ensures Trend(0.0, Mean(ys)).Flat?
  {
    FirstSums(ys);
  }

  lemma RoundedEnds()
    ensures Round4(0.0) == 0.0 && Round4(1.0) == 1.0 && Round4(0.3) == 0.3 && Round2(0.0) == 0.0
  {
  }

  lemma QuotientSign(a: real, b: real)
    requires a >= 0.0 && b > 0.0
    ensures a / b >= 0.0
  {
    DivideBack(a, b);
    SignOfProduct(a / b, b);
  }

  // ---------- a change of unit ----------

  function Scaled(ys: seq<real>, k: real): (r: seq<real>)
    ensures |r| == |ys| && forall i :: 0 <= i < |ys| ==> r[i] == Times(k, ys[i])
  {
    seq(|ys|, i requires 0 <= i < |ys| => Times(k, ys[i]))
  }

  lemma ScaledPrefix(ys: seq<real>, k: real, j: nat)
    requires j <= |ys|
    ensures Scaled(ys, k)[..j] == Scaled(ys[..j], k)
  {
    hide Scaled, Times;
    var all, part := Scaled(ys, k), Scaled(ys[..j], k);
    forall i | 0 <= i < j ensures all[..j][i] == part[i] {
      assert all[i] == Times(k, ys[i]) && part[i] == Times(k, ys[..j][i]);
    }
  }

  lemma {:induction false} SumsScale(ys: seq<real>, k: real)
    ensures SumY(Scaled(ys, k)) == k * SumY(ys) && SumXY(Scaled(ys, k)) == k * SumXY(ys)
  {
    hide Scaled, Times;
    if ys != [] {
      var j := |ys| - 1;
      SumsScale(ys[..j], k);
      ScaledPrefix(ys, k, j);
      ScaleStep(k, SumY(ys[..j]), SumXY(ys[..j]), j as real, ys[j], Scaled(ys, k)[j]);
    }
  }

  lemma ScaleStep(k: real, sy: real, sxy: real, x: real, y: real, ky: real)
    requires ky == Times(k, y)
    ensures k * sy + ky == k * (sy + y) && k * sxy + x * ky == k * (sxy + x * y)
  {
    Distribute(k, sy, y);
    Distribute(k, sxy, x * y);
    Swap(k, x, y);
  }

  lemma Swap(a: real, b: real, c: real)
    ensures a * (b * c) == b * (a * c)
  {
  }

  lemma QuotientScales(k: real, a: real, d: real)
    requires d != 0.0
    ensures k * a / d == k * (a / d)
  {
  }

  lemma LineScales(ys: seq<real>, k: real)
    requires ys != []
    ensures Slope(Scaled(ys, k)) == k * Slope(ys) && Mean(Scaled(ys, k)) == k * Mean(ys)
    ensures Intercept(Scaled(ys, k)) == k * Intercept(ys)
  {
    hide SumX, SumY, SumXY, Scaled, Slope;
    SumsScale(ys, k);
    SlopeOfScaled(ys, k);
    var zs := Scaled(ys, k);
    InterceptScales(|ys| as real, SumX(|ys|), SumY(ys), k, Slope(ys), SumY(zs), Slope(zs));
  }

  lemma SlopeOfScaled(ys: seq<real>, k: real)
    ensures Slope(Scaled(ys, k)) == k * Slope(ys)
  {
    hide SumX, SumY, SumXY, Denominator, Scaled;
    SumsScale(ys, k);
    var zs := Scaled(ys, k);
    SlopeScales(|ys| as real, SumX(|ys|), SumXY(ys), SumY(ys), k, Denominator(|ys|), SumXY(zs), SumY(zs));
  }

  lemma SlopeScales(n: real, sx: real, sxy: real, sy: real, k: real, d: real, ksxy: real, ksy: real)
    requires ksxy == k * sxy && ksy == k * sy
    ensures d != 0.0 ==> (n * ksxy - sx * ksy) / d == k * ((n * sxy - sx * sy) / d)
  {
    Swap(n, k, sxy);
    Swap(sx, k, sy);
    Distribute(k, n * sxy, sx * sy);
    if d != 0.0 { QuotientScales(k, n * sxy - sx * sy, d); }
  }

  lemma InterceptScales(n: real, sx: real, sy: real, k: real, m: real, ksy: real, km: real)
    requires n != 0.0 && ksy == k * sy && km == k * m
    ensures ksy / n == k * (sy / n)
    ensures (ksy - km * sx) / n == k * ((sy - m * sx) / n)
  {
    QuotientScales(k, sy, n);
    assert km * sx == k * (m * sx);
    Distribute(k, sy, m * sx);
    QuotientScales(k, sy - m * sx, n);
  }

  lemma {:induction false} SseScales(ys: seq<real>, k: real, m: real, c: real, km: real, kc: real)
    requires km == Times(k, m) && kc == Times(k, c)
    ensures Sse(Scaled(ys, k), km, kc) == Times(Square(k), Sse(ys, m, c))
  {
    hide Square, Times, Line;
    if ys == [] {
      assert Times(Square(k), 0.0) == 0.0 by { TimesZero(Square(k)); }
    } else {
      var j := |ys| - 1;
      SseScales(ys[..j], k, m, c, km, kc);
      ScaledPrefix(ys, k, j);
      SquareScales(k, ys[j], m, j as real, c, km, kc, Scaled(ys, k)[j]);
      TimesSum(Square(k), Sse(ys[..j], m, c), Square(ys[j] - Line(m, c, j as real)));
    }
  }

  lemma TimesZero(a: real)
    ensures Times(a, 0.0) == 0.0
  {
  }

  lemma SquareScales(k: real, y: real, m: real, x: real, c: real, km: real, kc: real, ky: real)
    requires km == Times(k, m) && kc == Times(k, c) && ky == Times(k, y)
    ensures Square(ky - Line(km, kc, x)) == Times(Square(k), Square(y - Line(m, c, x)))
  {
    hide Square;
    var r := y - Line(m, c, x);
    assert ky - Line(km, kc, x) == k * r by {
      Distribute(k, y, Line(m, c, x));
      Distribute(k, m * x, c);
      assert (k * m) * x == k * (m * x);
    }
    SquareOfProduct(k, r);
  }

  lemma SquareOfProduct(k: real, r: real)
    ensures Square(k * r) == Square(k) * Square(r)
  {
    assert (k * r) * (k * r) == (k * k) * (r * r);
  }

  lemma RatioUnchanged(k: real, a: real, b: real)
    requires k != 0.0 && b != 0.0
    ensures k * b != 0.0 && (k * a) / (k * b) == a / b
  {
    var q := a / b;
    DivideBack(a, b);
    assert k * a == (k * b) * q;
  }

  lemma R2Unchanged(k: real, a: real, b: real)
    requires k != 0.0
    ensures Times(k, b) == 0.0 <==> b == 0.0
    ensures b != 0.0 ==> Times(k, a) / Times(k, b) == a / b
  {
    if b != 0.0 { RatioUnchanged(k, a, b); }
  }

  lemma TrendUnchanged(slope: real, mean: real, k: real, kslope: real, kmean: real)
    requires k > 0.0 && kslope == k * slope && kmean == k * mean
    ensures Trend(kslope, kmean) == Trend(slope, mean)
  {
    SignOfProduct(slope, k);
    SignOfProduct(mean, k);
    SignOfProduct(-slope, k);
    if mean != 0.0 { RatioUnchanged(k, slope, mean); }
  }

  lemma SumsOfSquaresScale(ys: seq<real>, k: real)
    requires ys != [] && k > 0.0
    ensures SsTot(Scaled(ys, k)) == Times(Square(k), SsTot(ys)) && SsRes(Scaled(ys, k)) == Times(Square(k), SsRes(ys))
  {
    hide Slope, Intercept, Mean, Sse, Square;
    LineScales(ys, k);
    SseScales(ys, k, 0.0, Mean(ys), 0.0, Mean(Scaled(ys, k)));
    SseScales(ys, k, Slope(ys), Intercept(ys), Slope(Scaled(ys, k)), Intercept(Scaled(ys, k)));
  }

  /** Counting in another unit (cents for dollars) changes neither the fit nor the trend. */
  lemma UnitFree(ys: seq<real>, k: real)
    requires ys != [] && k > 0.0
    ensures R2(Scaled(ys, k)) == R2(ys)
    ensures Trend(Slope(Scaled(ys, k)), Mean(Scaled(ys, k))) == Trend(Slope(ys), Mean(ys))
  {
    hide Slope, Mean, SsTot, SsRes, Square, Times, MaxReal, Trend;
    LineScales(ys, k);
    SumsOfSquaresScale(ys, k);
    SquareZero(k);
    R2Unchanged(Square(k), SsRes(ys), SsTot(ys));
    TrendUnchanged(Slope(ys), Mean(ys), k, Slope(Scaled(ys, k)), Mean(Scaled(ys, k)));
  }

  // ---------- the forecast ----------

  const Z_95 := 1.96

  datatype ForecastPoint = ForecastPoint(date: string, projected: real, lower: real, upper: real)

  function LineAt(reg: Regression, x: int): real { MaxReal(0.0, Line(reg.slope, reg.intercept, x as real)) }

  function PointAt(reg: Regression, x: int, date: string): ForecastPoint {
    var projected, band := LineAt(reg, x), reg.residualStdDev * Z_95;
    ForecastPoint(date, Round2(projected), MaxReal(0.0, Round2(projected - band)), Round2(projected + band))
  }

  method BuildForecast(reg: Regression, historyLength: int, forecastDays: int, fromDate: string)
    returns (points: seq<ForecastPoint>)
    requires IsDate(fromDate)
    ensures |points| == if forecastDays > 0 then forecastDays else 0
    ensures forall i :: 0 <= i < |points| ==>
      points[i] == PointAt(reg, historyLength + i, IsoDate(PartsDay(DayOf(fromDate)) + i + 1))
    ensures forall i :: 0 <= i < |points| ==> IsForecast(points[i], reg, historyLength + i)
  {
    hide Round2, IsForecast, IsoDate, PartsDay, DayOf, IsDate;
    var first := PartsDay(DayOf(fromDate));
    var start := first * MS_PER_DAY;
    var band := reg.residualStdDev * Z_95;
    points := [];
    var d := 1;
    while d <= forecastDays
      invariant |points| == d - 1
      invariant d <= if forecastDays > 0 then forecastDays + 1 else 1
      invariant forall i :: 0 <= i < d - 1 ==>
        points[i] == PointAt(reg, historyLength + i, IsoDate(first + i + 1))
    {
      var x := historyLength - 1 + d;
      var projected := MaxReal(0.0, reg.slope * x as real + reg.intercept);
      assert projected == LineAt(reg, x);
      WholeDay(first + d);
      var date := IsoDate((start + d * MS_PER_DAY) / MS_PER_DAY);
      points := points + [ForecastPoint(date, Round2(projected), MaxReal(0.0, Round2(projected - band)),
                                        Round2(projected + band))];
      assert (start + d * MS_PER_DAY) / MS_PER_DAY == first + d;
      assert points[d - 1] == PointAt(reg, x, IsoDate(first + d));
      d := d + 1;
    }
    forall i | 0 <= i < |points| ensures IsForecast(points[i], reg, historyLength + i) {
      PointIsForecast(reg, historyLength + i, IsoDate(first + i + 1));
    }
  }

  /**
   A point of the forecast: the line at x, not below zero, to two decimals, with a band of 1.96 deviations
   to either side, its lower end not below zero.
   */
  ghost predicate IsForecast(p: ForecastPoint, reg: Regression, x: int) {
    exists line, band ::
      line == reg.slope * x as real + reg.intercept && band == 1.96 * reg.residualStdDev
      && IsBanded(p, AtLeastZero(line), band)
  }

  function AtLeastZero(v: real): real { if v < 0.0 then 0.0 else v }

  ghost predicate IsBanded(p: ForecastPoint, value: real, band: real) {
    IsRounded2(p.projected, value) && IsRounded2(p.upper, value + band)
    && (IsRounded2(p.lower, value - band) || (p.lower == 0.0 && value - band < 0.0)) && p.lower >= 0.0
  }

  lemma PointIsForecast(reg: Regression, x: int, date: string)
    ensures IsForecast(PointAt(reg, x, date), reg, x) && PointAt(reg, x, date).date == date
  {
    hide Round2, IsBanded;
    var line, band := reg.slope * x as real + reg.intercept, reg.residualStdDev * Z_95;
    assert LineAt(reg, x) == AtLeastZero(line);
    PointIsBanded(reg, x, date, AtLeastZero(line), band);
  }

  lemma PointIsBanded(reg: Regression, x: int, date: string, value: real, band: real)
    requires value == LineAt(reg, x) && band == reg.residualStdDev * Z_95
    ensures IsBanded(PointAt(reg, x, date), value, band)
  {
    hide Round2, IsRounded2, LineAt;
    RoundIsNearest(value);
    RoundIsNearest(value + band);
    RoundIsNearest(value - band);
    RoundedEnds();
    if value - band >= 0.0 { RoundKeepsOrder(0.0, value - band); }
  }

  /** Every point lies inside its band, and the band never goes below zero. */
  lemma BandHoldsPoint(reg: Regression, x: int, date: string)
    requires reg.residualStdDev >= 0.0
    ensures var p := PointAt(reg, x, date); 0.0 <= p.lower <= p.projected <= p.upper
  {
    hide Round2, LineAt;
    var projected, band := LineAt(reg, x), reg.residualStdDev * Z_95;
    assert projected >= 0.0 by { LineNotNegative(reg, x); }
    RoundedEnds();
    RoundKeepsOrder(0.0, projected);
    RoundKeepsOrder(projected - band, projected);
    RoundKeepsOrder(projected, projected + band);
  }

  lemma LineNotNegative(reg: Regression, x: int)
    ensures LineAt(reg, x) >= 0.0
  {
  }

  /** A rising line never forecasts less for a later day, a falling one never more. */
  lemma ForecastFollowsSlope(reg: Regression, x: int, y: int, s: string, t: string)
    requires x <= y
    ensures reg.slope >= 0.0 ==> PointAt(reg, x, s).projected <= PointAt(reg, y, t).projected
    ensures reg.slope <= 0.0 ==> PointAt(reg, y, t).projected <= PointAt(reg, x, s).projected
  {
    hide Round2;
    var a, b := reg.slope * x as real, reg.slope * y as real;
    Distribute(reg.slope, y as real, x as real);
    ProductSign(reg.slope, y as real - x as real);
    if LineAt(reg, x) <= LineAt(reg, y) { RoundKeepsOrder(LineAt(reg, x), LineAt(reg, y)); }
    if LineAt(reg, y) <= LineAt(reg, x) { RoundKeepsOrder(LineAt(reg, y), LineAt(reg, x)); }
  }

  lemma ProductSign(a: real, b: real)
    requires b >= 0.0
    ensures (a >= 0.0 ==> a * b >= 0.0) && (a <= 0.0 ==> a * b <= 0.0)
  {
    if b > 0.0 { SignOfProduct(a, b); SignOfProduct(-a, b); }
  }

  /**
   The forecast dates are the days right after fromDate, exactly when its year is 100 or later:
   Date.UTC reads an earlier year as one of the twentieth century.
   */
  lemma ForecastDates(fromDate: string, d: nat)
    requires IsDate(fromDate) && d >= 1 && YearOf(DayOf(fromDate) + d) <= 9999
    ensures ParseDate(IsoDate(PartsDay(DayOf(fromDate)) + d)) == Some(DayOf(fromDate) + d)
            <==> YearOf(DayOf(fromDate)) >= 100
  {
    hide ParseDate, IsoDate, YearOf, PartsDay, DayOf;
    var a := DayOf(fromDate);
    ParsedYear(fromDate);
    PartsInPlace(a);
    YearOfMonotone(a, a + d);
    if YearOf(a) >= 100 {
      ParseIsoDate(a + d);
    } else {
      EarlyDay(a);
      var late := PartsDay(a) + d;
      if 0 <= YearOf(late) <= 9999 { ParseIsoDate(late); } else { IsoDateOutOfRange(late); }
    }
  }

  lemma EarlyDay(a: int)
    requires YearOf(a) < 100
    ensures a < DayFromYear(1900)
  {
    hide IsLeap;
    YearOrder(YearOf(a) + 1, 1900);
  }
}
