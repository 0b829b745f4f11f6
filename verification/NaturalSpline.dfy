/** The natural cubic spline through a list of knots, one coordinate at a time. */
module NaturalSpline {
  import opened Tridiagonal

  // ---------------------------------------------------------------- cubic segments

  /** c0 + c1 * t + c2 * t^2 + c3 * t^3 */
  datatype Cubic = Cubic(c0: real, c1: real, c2: real, c3: real)

  function Value(c: Cubic, t: real): real {
    c.c0 + t * (c.c1 + t * (c.c2 + t * c.c3))
  }

  function Start(c: Cubic): real {
    c.c0
  }

  function Finish(c: Cubic): real {
    c.c0 + c.c1 + c.c2 + c.c3
  }

  function Derivative(c: Cubic): Cubic {
    Cubic(c.c1, 2.0 * c.c2, 3.0 * c.c3, 0.0)
  }

  /** The Bezier segment from p0 to p3 with control points p1 and p2, as a polynomial. */
  function Bezier(p0: real, p1: real, p2: real, p3: real): Cubic {
    Cubic(p0, 3.0 * (p1 - p0), 3.0 * (p0 - 2.0 * p1 + p2), p3 - 3.0 * p2 + 3.0 * p1 - p0)
  }

  lemma BezierIsBernstein(p0: real, p1: real, p2: real, p3: real, t: real)
    ensures var s := 1.0 - t;
            Value(Bezier(p0, p1, p2, p3), t) == s * s * s * p0 + 3.0 * s * s * t * p1 + 3.0 * s * t * t * p2 + t * t * t * p3
  {
  }

  // ---------------------------------------------------------------- natural splines

  /** Segment i of the chain through the knots k with first and second control points a and b. */
  function Segment(k: seq<real>, a: seq<real>, b: seq<real>, i: nat): Cubic
    requires |k| == |a| + 1 == |b| + 1 && i < |a|
  {
    Bezier(k[i], a[i], b[i], k[i + 1])
  }

  /** Adjoining segments agree in value and in their first and second derivatives. */
  predicate SmoothAt(k: seq<real>, a: seq<real>, b: seq<real>, i: nat)
    requires |k| == |a| + 1 == |b| + 1 && 0 < i < |a|
  {
    var left, right := Segment(k, a, b, i - 1), Segment(k, a, b, i);
    Finish(left) == Start(right) == k[i] &&
    Finish(Derivative(left)) == Start(Derivative(right)) &&
    Finish(Derivative(Derivative(left))) == Start(Derivative(Derivative(right)))
  }

  /** The chain runs through the knots, is twice continuously differentiable, and has no curvature at its ends. */
  predicate Natural(k: seq<real>, a: seq<real>, b: seq<real>) {
    && |a| >= 1 && |k| == |a| + 1 == |b| + 1
    && (forall i :: 0 < i < |a| ==> SmoothAt(k, a, b, i))
    && Start(Segment(k, a, b, 0)) == k[0] && Finish(Segment(k, a, b, |a| - 1)) == k[|a|]
    && Start(Derivative(Derivative(Segment(k, a, b, 0)))) == 0.0
    && Finish(Derivative(Derivative(Segment(k, a, b, |a| - 1)))) == 0.0
  }

  /** The right-hand side of the system for the first control points. */
  function RhsAt(k: seq<real>, i: nat): real
    requires |k| >= 3 && i < |k| - 1
  {
    if i == 0 then k[0] + 2.0 * k[1]
    else if i < |k| - 2 then 4.0 * k[i] + 2.0 * k[i + 1]
    else (8.0 * k[i] + k[i + 1]) / 2.0
  }

  function Rhs(k: seq<real>): (r: seq<real>)
    requires |k| >= 3
    ensures |r| == |k| - 1 && forall i :: 0 <= i < |r| ==> r[i] == RhsAt(k, i)
  {
    seq(|k| - 1, i requires 0 <= i < |k| - 1 => RhsAt(k, i))
  }

  lemma RhsFilled(k: seq<real>, r: seq<real>)
    requires |k| >= 3 && |r| == |k| - 1
    requires r[0] == k[0] + 2.0 * k[1] && r[|r| - 1] == (8.0 * k[|r| - 1] + k[|r|]) / 2.0
    requires forall i :: 1 <= i < |r| - 1 ==> r[i] == RhsAt(k, i)
    ensures r == Rhs(k)
  {
  }

  /** The second control point of segment i, given the first ones. */
  function SecondControl(k: seq<real>, a: seq<real>, i: nat): real
    requires |k| == |a| + 1 && i < |a|
  {
    if i < |a| - 1 then 2.0 * k[i + 1] - a[i + 1] else (k[|a|] + a[|a| - 1]) / 2.0
  }

  predicate Controls(k: seq<real>, a: seq<real>, b: seq<real>) {
    && |k| >= 3 && |a| == |b| == |k| - 1
    && Solves(a, Rhs(k))
    && forall i :: 0 <= i < |a| ==> b[i] == SecondControl(k, a, i)
  }

  lemma ControlsAreNatural(k: seq<real>, a: seq<real>, b: seq<real>)
    requires Controls(k, a, b)
    ensures Natural(k, a, b)
  {
    forall i | 0 < i < |a|
      ensures SmoothAt(k, a, b, i)
    {
      assert Row(a, Rhs(k), i);
    }
    assert Row(a, Rhs(k), 0);
  }

  lemma NaturalHasSecond(k: seq<real>, a: seq<real>, b: seq<real>, i: nat)
    requires Natural(k, a, b) && i < |a|
    ensures b[i] == SecondControl(k, a, i)
  {
    if i < |a| - 1 {
      assert SmoothAt(k, a, b, i + 1);
    }
  }

  lemma NaturalHasControls(k: seq<real>, a: seq<real>, b: seq<real>)
    requires Natural(k, a, b) && |a| >= 2
    ensures Controls(k, a, b)
  {
    forall i | 0 <= i < |a|
      ensures b[i] == SecondControl(k, a, i) && Row(a, Rhs(k), i)
    {
      NaturalHasSecond(k, a, b, i);
      if i > 0 {
        NaturalHasSecond(k, a, b, i - 1);
        assert SmoothAt(k, a, b, i);
      }
    }
  }

  /** One segment alone is a straight line. */
  predicate Straight(k: seq<real>, a: seq<real>, b: seq<real>) {
    |k| == 2 && |a| == |b| == 1 && a[0] == (2.0 * k[0] + k[1]) / 3.0 && b[0] == 2.0 * a[0] - k[0]
  }

  lemma NaturalIsStraight(k: seq<real>, a: seq<real>, b: seq<real>)
    requires Natural(k, a, b) && |a| == 1
    ensures Straight(k, a, b)
  {
    var c := Segment(k, a, b, 0);
    SecondDerivativeEnds(c);
    NoBend(k[0], a[0], b[0], k[1]);
  }

  lemma SecondDerivativeEnds(c: Cubic)
    ensures Start(Derivative(Derivative(c))) == 2.0 * c.c2
    ensures Finish(Derivative(Derivative(c))) == 2.0 * c.c2 + 6.0 * c.c3
  {
  }

  /** A segment without curvature at its ends is straight. */
  lemma NoBend(p0: real, p1: real, p2: real, p3: real)
    requires p0 - 2.0 * p1 + p2 == 0.0 && p3 - 3.0 * p2 + 3.0 * p1 - p0 == 0.0
    ensures p1 == (2.0 * p0 + p3) / 3.0 && p2 == 2.0 * p1 - p0
  {
  }

  lemma StraightIsNatural(k: seq<real>, a: seq<real>, b: seq<real>)
    requires Straight(k, a, b)
    ensures Natural(k, a, b)
  {
  }

  /** The control points the program computes for the knots k. */
  predicate Computed(k: seq<real>, a: seq<real>, b: seq<real>) {
    if |k| >= 3 then Controls(k, a, b) else Straight(k, a, b)
  }

  lemma NaturalIsComputed(k: seq<real>, a: seq<real>, b: seq<real>)
    requires Natural(k, a, b)
    ensures Computed(k, a, b)
  {
    if |a| >= 2 {
      NaturalHasControls(k, a, b);
    } else {
      NaturalIsStraight(k, a, b);
    }
  }

  lemma ComputedIsNatural(k: seq<real>, a: seq<real>, b: seq<real>)
    requires Computed(k, a, b)
    ensures Natural(k, a, b)
  {
    if |k| >= 3 {
      ControlsAreNatural(k, a, b);
    } else {
      StraightIsNatural(k, a, b);
    }
  }

  /** The computed control points are those of the natural spline, and no others are. */
  lemma NaturalIffComputed(k: seq<real>, a: seq<real>, b: seq<real>)
    ensures Natural(k, a, b) <==> Computed(k, a, b)
  {
    if Natural(k, a, b) {
      NaturalIsComputed(k, a, b);
    }
    if Computed(k, a, b) {
      ComputedIsNatural(k, a, b);
    }
  }

  lemma ComputedIsUnique(k: seq<real>, a: seq<real>, b: seq<real>, c: seq<real>, d: seq<real>)
    requires Computed(k, a, b) && Computed(k, c, d)
    ensures a == c && b == d
  {
    if |k| >= 3 {
      ControlsAreUnique(k, a, b, c, d);
    }
  }

  /** The control points of the natural spline through given knots are unique. */
  lemma NaturalIsUnique(k: seq<real>, a: seq<real>, b: seq<real>, c: seq<real>, d: seq<real>)
    requires Natural(k, a, b) && Natural(k, c, d)
    ensures a == c && b == d
  {
    NaturalIsComputed(k, a, b);
    NaturalIsComputed(k, c, d);
    ComputedIsUnique(k, a, b, c, d);
  }

  lemma ControlsAreUnique(k: seq<real>, a: seq<real>, b: seq<real>, c: seq<real>, d: seq<real>)
    requires Controls(k, a, b) && Controls(k, c, d)
    ensures a == c && b == d
  {
    UniqueSolution(a, c, Rhs(k));
  }

  // ---------------------------------------------------------------- bounds and symmetry

  /** Knots within [-m, m] have first control points within [-3m, 3m] and second ones within [-5m, 5m]. */
  lemma ControlsAreBounded(k: seq<real>, a: seq<real>, b: seq<real>, m: real)
    requires Controls(k, a, b) && forall i :: 0 <= i < |k| ==> Abs(k[i]) <= m
    ensures forall i :: 0 <= i < |a| ==> Abs(a[i]) <= 3.0 * m && Abs(b[i]) <= 5.0 * m
  {
    DominanceBound(a, Rhs(k), 3.0 * m);
  }

  lemma ComputedIsBounded(k: seq<real>, a: seq<real>, b: seq<real>, m: real)
    requires Computed(k, a, b) && forall i :: 0 <= i < |k| ==> Abs(k[i]) <= m
    ensures forall i :: 0 <= i < |a| ==> Abs(a[i]) <= 3.0 * m && Abs(b[i]) <= 5.0 * m
  {
    if |k| >= 3 {
      ControlsAreBounded(k, a, b, m);
    }
  }

  lemma NaturalIsBounded(k: seq<real>, a: seq<real>, b: seq<real>, m: real)
    requires Natural(k, a, b) && forall i :: 0 <= i < |k| ==> Abs(k[i]) <= m
    ensures forall i :: 0 <= i < |a| ==> Abs(a[i]) <= 3.0 * m && Abs(b[i]) <= 5.0 * m
  {
    NaturalIsComputed(k, a, b);
    ComputedIsBounded(k, a, b, m);
  }

  function Mix(x: real, y: real, p: real, q: real, c: real): real {
    p * x + q * y + c
  }

  /** Mix of u[i] and v[i], for every i. */
  function Combine(u: seq<real>, v: seq<real>, p: real, q: real, c: real): (w: seq<real>)
    requires |u| == |v|
    ensures |w| == |u| && forall i :: 0 <= i < |w| ==> w[i] == Mix(u[i], v[i], p, q, c)
  {
    seq(|u|, i requires 0 <= i < |u| => Mix(u[i], v[i], p, q, c))
  }

  lemma Distribute(p: real, a: real, b: real, c: real, sum: real)
    requires a + b + c == sum
    ensures p * a + p * b + p * c == p * sum
  {
    assert p * sum == p * (a + b + c);
  }

  lemma DiagonalMix(i: nat, n: nat, x: real, x': real, p: real, q: real)
    ensures OnDiagonal(i, n, p * x + q * x') == p * OnDiagonal(i, n, x) + q * OnDiagonal(i, n, x')
  {
    var d := Diagonal(i, n);
    assert d * (p * x + q * x') == p * (d * x) + q * (d * x');
  }

  lemma CombineRow(i: nat, n: nat, before: real, x: real, next: real, r: real, before': real, x': real, next': real, r': real, p: real, q: real)
    requires before + OnDiagonal(i, n, x) + next == r && before' + OnDiagonal(i, n, x') + next' == r'
    ensures (p * before + q * before') + OnDiagonal(i, n, p * x + q * x') + (p * next + q * next') == p * r + q * r'
  {
    DiagonalMix(i, n, x, x', p, q);
    Distribute(p, before, OnDiagonal(i, n, x), next, r);
    Distribute(q, before', OnDiagonal(i, n, x'), next', r');
  }

  /** What a shift of all knots by c adds to row i. */
  function Shift(i: nat, n: nat, c: real): real {
    if i == 0 then 3.0 * c else if i < n - 1 then 6.0 * c else 4.5 * c
  }

  lemma MixRow(i: nat, n: nat, before: real, x: real, next: real, r: real, before': real, x': real, next': real, r': real,
               p: real, q: real, c: real)
    requires before + OnDiagonal(i, n, x) + next == r && before' + OnDiagonal(i, n, x') + next' == r' && i < n && n >= 2
    requires (i == 0 ==> before == before' == 0.0) && (i + 1 == n ==> next == next' == 0.0)
    ensures (if i > 0 then Mix(before, before', p, q, c) else 0.0) + OnDiagonal(i, n, Mix(x, x', p, q, c)) +
            (if i + 1 < n then Mix(next, next', p, q, c) else 0.0) == Mix(r, r', p, q, Shift(i, n, c))
  {
    CombineRow(i, n, before, x, next, r, before', x', next', r', p, q);
    assert OnDiagonal(i, n, Mix(x, x', p, q, c)) == OnDiagonal(i, n, p * x + q * x') + OnDiagonal(i, n, c);
  }

  lemma ThirdMix(x: real, y: real, x': real, y': real, p: real, q: real, c: real)
    ensures (2.0 * Mix(x, x', p, q, c) + Mix(y, y', p, q, c)) / 3.0 == Mix((2.0 * x + y) / 3.0, (2.0 * x' + y') / 3.0, p, q, c)
    ensures 2.0 * Mix(x, x', p, q, c) - Mix(y, y', p, q, c) == Mix(2.0 * x - y, 2.0 * x' - y', p, q, c)
  {
    assert p * ((2.0 * x + y) / 3.0) == (2.0 * (p * x) + p * y) / 3.0;
    assert q * ((2.0 * x' + y') / 3.0) == (2.0 * (q * x') + q * y') / 3.0;
    assert p * (2.0 * x - y) == 2.0 * (p * x) - p * y;
    assert q * (2.0 * x' - y') == 2.0 * (q * x') - q * y';
  }

  lemma CombineStraight(k: seq<real>, a: seq<real>, b: seq<real>, k': seq<real>, a': seq<real>, b': seq<real>, p: real, q: real, c: real)
    requires Straight(k, a, b) && Straight(k', a', b')
    ensures Straight(Combine(k, k', p, q, c), Combine(a, a', p, q, c), Combine(b, b', p, q, c))
  {
    ThirdMix(k[0], k[1], k'[0], k'[1], p, q, c);
    ThirdMix(a[0], k[0], a'[0], k'[0], p, q, c);
  }

  lemma CombineComputed(k: seq<real>, a: seq<real>, b: seq<real>, k': seq<real>, a': seq<real>, b': seq<real>, p: real, q: real, c: real)
    requires Computed(k, a, b) && Computed(k', a', b') && |k| == |k'|
    ensures |a| == |a'| == |b| == |b'|
    ensures Computed(Combine(k, k', p, q, c), Combine(a, a', p, q, c), Combine(b, b', p, q, c))
  {
    if |k| >= 3 {
      CombineControls(k, a, b, k', a', b', p, q, c);
    } else {
      CombineStraight(k, a, b, k', a', b', p, q, c);
    }
  }

  lemma CombineControlRow(k: seq<real>, a: seq<real>, b: seq<real>, k': seq<real>, a': seq<real>, b': seq<real>, p: real, q: real, c: real,
                          i: nat)
    requires Controls(k, a, b) && Controls(k', a', b') && |k| == |k'| && i < |a|
    ensures Row(Combine(a, a', p, q, c), Rhs(Combine(k, k', p, q, c)), i)
  {
    var n := |a|;
    assert Row(a, Rhs(k), i) && Row(a', Rhs(k'), i);
    var before, before' := if i > 0 then a[i - 1] else 0.0, if i > 0 then a'[i - 1] else 0.0;
    var next, next' := if i + 1 < n then a[i + 1] else 0.0, if i + 1 < n then a'[i + 1] else 0.0;
    MixRow(i, n, before, a[i], next, Rhs(k)[i], before', a'[i], next', Rhs(k')[i], p, q, c);
    CombineRhsAt(k, k', p, q, c, i);
    RowIs(Combine(a, a', p, q, c), Rhs(Combine(k, k', p, q, c)), i, Mix(before, before', p, q, c), Mix(a[i], a'[i], p, q, c),
          Mix(next, next', p, q, c), Mix(Rhs(k)[i], Rhs(k')[i], p, q, Shift(i, n, c)));
  }

  lemma RowIs(f: seq<real>, r: seq<real>, i: nat, before: real, x: real, next: real, right: real)
    requires i < |f| == |r| && f[i] == x && r[i] == right && (i > 0 ==> f[i - 1] == before) && (i + 1 < |f| ==> f[i + 1] == next)
    requires (if i > 0 then before else 0.0) + OnDiagonal(i, |f|, x) + (if i + 1 < |f| then next else 0.0) == right
    ensures Row(f, r, i)
  {
  }

  lemma CombineControls(k: seq<real>, a: seq<real>, b: seq<real>, k': seq<real>, a': seq<real>, b': seq<real>, p: real, q: real, c: real)
    requires Controls(k, a, b) && Controls(k', a', b') && |k| == |k'|
    ensures Controls(Combine(k, k', p, q, c), Combine(a, a', p, q, c), Combine(b, b', p, q, c))
  {
    var l, f, g := Combine(k, k', p, q, c), Combine(a, a', p, q, c), Combine(b, b', p, q, c);
    forall i | 0 <= i < |a|
      ensures Row(f, Rhs(l), i)
    {
      CombineControlRow(k, a, b, k', a', b', p, q, c, i);
    }
    forall i | 0 <= i < |a|
      ensures g[i] == SecondControl(l, f, i)
    {
      CombineSecond(k, a, b, k', a', b', p, q, c, i);
    }
  }

  lemma CombineRhsAt(k: seq<real>, k': seq<real>, p: real, q: real, c: real, i: nat)
    requires |k| == |k'| >= 3 && i < |k| - 1
    ensures Rhs(Combine(k, k', p, q, c))[i] == Mix(Rhs(k)[i], Rhs(k')[i], p, q, Shift(i, |k| - 1, c))
  {
    MixRhs(k[i], k[i + 1], k'[i], k'[i + 1], p, q, c);
  }

  lemma MixRhs(x: real, y: real, x': real, y': real, p: real, q: real, c: real)
    ensures Mix(x, x', p, q, c) + 2.0 * Mix(y, y', p, q, c) == Mix(x + 2.0 * y, x' + 2.0 * y', p, q, 3.0 * c)
    ensures 4.0 * Mix(x, x', p, q, c) + 2.0 * Mix(y, y', p, q, c) == Mix(4.0 * x + 2.0 * y, 4.0 * x' + 2.0 * y', p, q, 6.0 * c)
    ensures (8.0 * Mix(x, x', p, q, c) + Mix(y, y', p, q, c)) / 2.0 == Mix((8.0 * x + y) / 2.0, (8.0 * x' + y') / 2.0, p, q, 4.5 * c)
  {
    assert p * (x + 2.0 * y) == p * x + 2.0 * (p * y) && q * (x' + 2.0 * y') == q * x' + 2.0 * (q * y');
    assert p * (4.0 * x + 2.0 * y) == 4.0 * (p * x) + 2.0 * (p * y) && q * (4.0 * x' + 2.0 * y') == 4.0 * (q * x') + 2.0 * (q * y');
    assert p * ((8.0 * x + y) / 2.0) == 4.0 * (p * x) + (p * y) / 2.0 && q * ((8.0 * x' + y') / 2.0) == 4.0 * (q * x') + (q * y') / 2.0;
  }

  lemma CombineSecond(k: seq<real>, a: seq<real>, b: seq<real>, k': seq<real>, a': seq<real>, b': seq<real>, p: real, q: real, c: real, i: nat)
    requires |k| == |k'| == |a| + 1 == |a'| + 1 == |b| + 1 == |b'| + 1 && i < |a|
    requires b[i] == SecondControl(k, a, i) && b'[i] == SecondControl(k', a', i)
    ensures Combine(b, b', p, q, c)[i] == SecondControl(Combine(k, k', p, q, c), Combine(a, a', p, q, c), i)
  {
  }

  /** Equally spaced knots are joined by a straight line: the control points sit at the thirds. */
  lemma EquallySpaced(k: seq<real>, a: seq<real>, b: seq<real>, h: real)
    requires Natural(k, a, b) && forall i :: 0 <= i < |a| ==> k[i + 1] == k[i] + h
    ensures forall i :: 0 <= i < |a| ==> a[i] == k[i] + h / 3.0 && b[i] == k[i] + 2.0 * h / 3.0
  {
    NaturalIsComputed(k, a, b);
    var c := seq(|a|, i requires 0 <= i < |a| => k[i] + h / 3.0);
    var d := seq(|a|, i requires 0 <= i < |a| => k[i] + 2.0 * h / 3.0);
    ThirdsAreComputed(k, c, d, h);
    ComputedIsUnique(k, a, b, c, d);
    assert forall i :: 0 <= i < |a| ==> c[i] == k[i] + h / 3.0 && d[i] == k[i] + 2.0 * h / 3.0;
  }

  lemma ThirdsAreComputed(k: seq<real>, c: seq<real>, d: seq<real>, h: real)
    requires |c| >= 1 && |k| == |c| + 1 == |d| + 1
    requires forall i :: 0 <= i < |c| ==> k[i + 1] == k[i] + h && c[i] == k[i] + h / 3.0 && d[i] == k[i] + 2.0 * h / 3.0
    ensures Computed(k, c, d)
  {
  }

  /** Every first control point is the next knot. */
  predicate MeetsKnots(k: seq<real>, a: seq<real>) {
    |k| == |a| + 1 && forall i :: 0 <= i < |a| ==> a[i] == k[i + 1]
  }

  predicate AllEqual(k: seq<real>) {
    forall i, j :: 0 <= i < |k| && 0 <= j < |k| ==> k[i] == k[j]
  }

  /** Then the rows of the system make the knots equal, one by one from the end. */
  lemma {:induction false} MetKnotsAreEqual(k: seq<real>, a: seq<real>, i: nat)
    requires |k| >= 3 && MeetsKnots(k, a) && Solves(a, Rhs(k)) && i < |a|
    ensures k[i] == k[i + 1] == k[|a|]
    decreases |a| - i
  {
    assert Row(a, Rhs(k), i);
    if i < |a| - 1 {
      MetKnotsAreEqual(k, a, i + 1);
    }
  }

  lemma MetKnotsAllEqual(k: seq<real>, a: seq<real>, b: seq<real>)
    requires Computed(k, a, b) && MeetsKnots(k, a)
    ensures AllEqual(k)
  {
    if |k| >= 3 {
      forall i | 0 <= i < |k| ensures k[i] == k[|a|] {
        if i < |a| {
          MetKnotsAreEqual(k, a, i);
        }
      }
    }
  }

  lemma EqualKnotsAreMet(k: seq<real>, a: seq<real>, b: seq<real>)
    requires Natural(k, a, b) && AllEqual(k)
    ensures MeetsKnots(k, a)
  {
    EquallySpaced(k, a, b, 0.0);
  }

  /** The first control points are the next knots exactly if all knots are equal. */
  lemma MeetsKnotsIff(k: seq<real>, a: seq<real>, b: seq<real>)
    requires Natural(k, a, b)
    ensures MeetsKnots(k, a) <==> AllEqual(k)
  {
    NaturalIsComputed(k, a, b);
    if MeetsKnots(k, a) {
      MetKnotsAllEqual(k, a, b);
    }
    if AllEqual(k) {
      EqualKnotsAreMet(k, a, b);
    }
  }
}
