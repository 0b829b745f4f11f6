/** The control points of a smooth line through points in the plane, and the two curves drawn from
    a list of points. */
module SmoothLineGenerator {
  import opened Tridiagonal
  import opened NaturalSpline

  datatype Point = Point(x: real, y: real)

  function Xs(ps: seq<Point>): (xs: seq<real>)
    ensures |xs| == |ps| && forall i :: 0 <= i < |ps| ==> xs[i] == ps[i].x
  {
    seq(|ps|, i requires 0 <= i < |ps| => ps[i].x)
  }

  function Ys(ps: seq<Point>): (ys: seq<real>)
    ensures |ys| == |ps| && forall i :: 0 <= i < |ps| ==> ys[i] == ps[i].y
  {
    seq(|ps|, i requires 0 <= i < |ps| => ps[i].y)
  }

  /** a and b are the control points of the natural spline through the knots. */
  predicate SplineControls(knots: seq<Point>, a: seq<Point>, b: seq<Point>) {
    Natural(Xs(knots), Xs(a), Xs(b)) && Natural(Ys(knots), Ys(a), Ys(b))
  }

  lemma SamePoints(a: seq<Point>, b: seq<Point>)
    requires Xs(a) == Xs(b) && Ys(a) == Ys(b)
    ensures a == b
  {
  }

  lemma ControlsDetermined(knots: seq<Point>, a: seq<Point>, b: seq<Point>, c: seq<Point>, d: seq<Point>)
    requires SplineControls(knots, a, b) && SplineControls(knots, c, d)
    ensures a == c && b == d
  {
    NaturalIsUnique(Xs(knots), Xs(a), Xs(b), Xs(c), Xs(d));
    NaturalIsUnique(Ys(knots), Ys(a), Ys(b), Ys(c), Ys(d));
    SamePoints(a, c);
    SamePoints(b, d);
  }

  lemma StraightControls(knots: seq<Point>, f: seq<Point>, g: seq<Point>)
    requires |knots| == 2 && |f| == |g| == 1
    requires f[0] == Point((2.0 * knots[0].x + knots[1].x) / 3.0, (2.0 * knots[0].y + knots[1].y) / 3.0)
    requires g[0] == Point(2.0 * f[0].x - knots[0].x, 2.0 * f[0].y - knots[0].y)
    ensures SplineControls(knots, f, g)
  {
  }

  lemma FilledControls(knots: seq<Point>, f: seq<Point>, g: seq<Point>, a: seq<real>, b: seq<real>)
    requires |knots| >= 3 && |knots| == |f| + 1 == |g| + 1 == |a| + 1 == |b| + 1
    requires Solves(a, Rhs(Xs(knots))) && Solves(b, Rhs(Ys(knots)))
    requires forall k :: 0 <= k < |f| ==> f[k] == Point(a[k], b[k])
    requires forall k :: 0 <= k < |g| ==> g[k] == Point(SecondControl(Xs(knots), a, k), SecondControl(Ys(knots), b, k))
    ensures SplineControls(knots, f, g)
  {
    assert Xs(f) == a && Ys(f) == b;
    ControlsAreNatural(Xs(knots), a, Xs(g));
    ControlsAreNatural(Ys(knots), b, Ys(g));
  }

  /** The right-hand sides for both coordinates. */
  method SetRightHandSides(knots: seq<Point>, rhsx: array<real>, rhsy: array<real>, n: nat)
    requires n >= 2 && n == |knots| - 1 == rhsx.Length == rhsy.Length && rhsx != rhsy
    modifies rhsx, rhsy
    ensures rhsx[..] == Rhs(Xs(knots)) && rhsy[..] == Rhs(Ys(knots))
  {
    ghost var kx, ky := Xs(knots), Ys(knots);
    for i := 1 to n - 1
      invariant forall k :: 1 <= k < i ==> rhsx[k] == RhsAt(kx, k) && rhsy[k] == RhsAt(ky, k)
    {
      rhsx[i] := 4.0 * knots[i].x + 2.0 * knots[i + 1].x;
      rhsy[i] := 4.0 * knots[i].y + 2.0 * knots[i + 1].y;
    }
    rhsx[0] := knots[0].x + 2.0 * knots[1].x;
    rhsx[n - 1] := (8.0 * knots[n - 1].x + knots[n].x) / 2.0;
    rhsy[0] := knots[0].y + 2.0 * knots[1].y;
    rhsy[n - 1] := (8.0 * knots[n - 1].y + knots[n].y) / 2.0;
    RhsFilled(kx, rhsx[..]);
    RhsFilled(ky, rhsy[..]);
  }

  /** The output loop: both control points of every segment, from the solved coordinates. */
  method FillControlPoints(knots: seq<Point>, xs: array<real>, ys: array<real>, n: nat, first: array<Point>, second: array<Point>)
    requires n >= 2 && n == |knots| - 1 == xs.Length == ys.Length == first.Length == second.Length && first != second
    requires Solves(xs[..], Rhs(Xs(knots))) && Solves(ys[..], Rhs(Ys(knots)))
    modifies first, second
    ensures SplineControls(knots, first[..], second[..])
  {
    ghost var a, b := xs[..], ys[..];
    ghost var kx, ky := Xs(knots), Ys(knots);
    for i := 0 to n
      invariant xs[..] == a && ys[..] == b
      invariant forall k :: 0 <= k < i ==> first[k] == Point(a[k], b[k])
      invariant forall k :: 0 <= k < i ==> second[k] == Point(SecondControl(kx, a, k), SecondControl(ky, b, k))
    {
      first[i] := Point(xs[i], ys[i]);
      if i < n - 1 {
        second[i] := Point(2.0 * knots[i + 1].x - xs[i + 1], 2.0 * knots[i + 1].y - ys[i + 1]);
      } else {
        second[i] := Point((knots[n].x + xs[n - 1]) / 2.0, (knots[n].y + ys[n - 1]) / 2.0);
      }
    }
    FilledControls(knots, first[..], second[..], a, b);
  }

  /** Computes the control points of the segments between the knots. */
  method CalculateControlPoints(knots: seq<Point>) returns (first: array<Point>, second: array<Point>)
    requires |knots| >= 2
    ensures fresh(first) && fresh(second) && SplineControls(knots, first[..], second[..])
  {
    var n := |knots| - 1;
    first := new Point[n](_ => Point(0.0, 0.0));
    second := new Point[n](_ => Point(0.0, 0.0));
    if n == 1 {
      // One segment only: its control points divide it into thirds.
      first[0] := Point((2.0 * knots[0].x + knots[1].x) / 3.0, (2.0 * knots[0].y + knots[1].y) / 3.0);
      second[0] := Point(2.0 * first[0].x - knots[0].x, 2.0 * first[0].y - knots[0].y);
      StraightControls(knots, first[..], second[..]);
      return;
    }
    var xs, ys, rhsx, rhsy := new real[n], new real[n], new real[n], new real[n];
    SetRightHandSides(knots, rhsx, rhsy, n);
    CalculateFirstControlPoints(xs, rhsx, n);
    CalculateFirstControlPoints(ys, rhsy, n);
    FillControlPoints(knots, xs, ys, n, first, second);
  }

  // ---------------------------------------------------------------- symmetry

  /** x' = xx * x + xy * y + cx and y' = yx * x + yy * y + cy */
  datatype Affine = Affine(xx: real, xy: real, cx: real, yx: real, yy: real, cy: real)

  function Map(f: Affine, ps: seq<Point>): (qs: seq<Point>)
    ensures |qs| == |ps|
  {
    seq(|ps|, i requires 0 <= i < |ps| =>
      Point(Mix(ps[i].x, ps[i].y, f.xx, f.xy, f.cx), Mix(ps[i].x, ps[i].y, f.yx, f.yy, f.cy)))
  }

  lemma MapCombines(f: Affine, ps: seq<Point>)
    ensures Xs(Map(f, ps)) == Combine(Xs(ps), Ys(ps), f.xx, f.xy, f.cx)
    ensures Ys(Map(f, ps)) == Combine(Xs(ps), Ys(ps), f.yx, f.yy, f.cy)
  {
    forall i | 0 <= i < |ps|
      ensures Xs(Map(f, ps))[i] == Combine(Xs(ps), Ys(ps), f.xx, f.xy, f.cx)[i]
      ensures Ys(Map(f, ps))[i] == Combine(Xs(ps), Ys(ps), f.yx, f.yy, f.cy)[i]
    {
      assert Xs(ps)[i] == ps[i].x && Ys(ps)[i] == ps[i].y;
    }
  }

  /** Mapping the knots maps the control points along. */
  lemma ControlsCommuteWithAffineMaps(knots: seq<Point>, a: seq<Point>, b: seq<Point>, f: Affine)
    requires SplineControls(knots, a, b)
    ensures SplineControls(Map(f, knots), Map(f, a), Map(f, b))
  {
    MapCombines(f, knots);
    MapCombines(f, a);
    MapCombines(f, b);
    CombineNatural(Xs(knots), Xs(a), Xs(b), Ys(knots), Ys(a), Ys(b), f.xx, f.xy, f.cx);
    CombineNatural(Xs(knots), Xs(a), Xs(b), Ys(knots), Ys(a), Ys(b), f.yx, f.yy, f.cy);
  }

  lemma CombineNatural(k: seq<real>, a: seq<real>, b: seq<real>, k': seq<real>, a': seq<real>, b': seq<real>, p: real, q: real, c: real)
    requires Natural(k, a, b) && Natural(k', a', b') && |k| == |k'|
    ensures |a| == |a'| == |b| == |b'|
    ensures Natural(Combine(k, k', p, q, c), Combine(a, a', p, q, c), Combine(b, b', p, q, c))
  {
    NaturalIsComputed(k, a, b);
    NaturalIsComputed(k', a', b');
    CombineComputed(k, a, b, k', a', b', p, q, c);
    ComputedIsNatural(Combine(k, k', p, q, c), Combine(a, a', p, q, c), Combine(b, b', p, q, c));
  }

  // ---------------------------------------------------------------- the curves drawn

  datatype Element = MoveTo(p: Point) | LineTo(p: Point) | CubicTo(c1: Point, c2: Point, p: Point)

  /** The polygon through the first control points. */
  function Polygon(points: seq<Point>, a: seq<Point>): seq<Element>
    requires |points| >= 2
  {
    [MoveTo(points[0])] + seq(|a|, i requires 0 <= i < |a| => LineTo(a[i]))
  }

  /** The curve of generateSmoothCurve.  The code draws straight lines between the first control
      points of the spline, not the spline itself. */
  method GenerateSmoothCurve(points: seq<Point>) returns (path: seq<Element>)
    ensures |points| < 2 ==> path == []
    ensures |points| >= 2 ==> exists a, b :: SplineControls(points, a, b) && path == Polygon(points, a)
  {
    path := [];
    if |points| < 2 {
      return;
    }
    var first, second := CalculateControlPoints(points);
    ghost var a := first[..];
    path := path + [MoveTo(points[0])];
    for i := 0 to |points| - 1
      invariant first[..] == a && path == Polygon(points, a[..i])
    {
      path := path + [LineTo(first[i])];
    }
    assert a[..|points| - 1] == a;
    assert SplineControls(points, a, second[..]) && path == Polygon(points, a);
  }

  /** Equally spaced points of a line have their control points at the thirds. */
  lemma EquallySpacedPoints(points: seq<Point>, a: seq<Point>, b: seq<Point>, h: Point)
    requires SplineControls(points, a, b)
    requires forall i :: 0 <= i < |points| - 1 ==> points[i + 1] == Point(points[i].x + h.x, points[i].y + h.y)
    ensures |points| == |a| + 1 == |b| + 1
    ensures forall i :: 0 <= i < |a| ==> a[i] == Point(points[i].x + h.x / 3.0, points[i].y + h.y / 3.0)
    ensures forall i :: 0 <= i < |b| ==> b[i] == Point(points[i].x + 2.0 * h.x / 3.0, points[i].y + 2.0 * h.y / 3.0)
  {
    EquallySpaced(Xs(points), Xs(a), Xs(b), h.x);
    EquallySpaced(Ys(points), Ys(a), Ys(b), h.y);
    forall i | 0 <= i < |a|
      ensures a[i] == Point(points[i].x + h.x / 3.0, points[i].y + h.y / 3.0)
      ensures b[i] == Point(points[i].x + 2.0 * h.x / 3.0, points[i].y + 2.0 * h.y / 3.0)
    {
      assert Xs(a)[i] == a[i].x && Ys(a)[i] == a[i].y && Xs(b)[i] == b[i].x && Ys(b)[i] == b[i].y;
    }
  }

  /** The corners of the drawn path are the given points, one for one. */
  predicate CornersArePoints(points: seq<Point>, path: seq<Element>) {
    |path| == |points| && forall i :: 0 <= i < |points| ==> path[i].p == points[i]
  }

  predicate Coincide(points: seq<Point>) {
    forall i, j :: 0 <= i < |points| && 0 <= j < |points| ==> points[i] == points[j]
  }

  lemma CornersByCoordinate(points: seq<Point>, a: seq<Point>)
    requires |points| == |a| + 1 >= 2
    ensures CornersArePoints(points, Polygon(points, a)) <==> MeetsKnots(Xs(points), Xs(a)) && MeetsKnots(Ys(points), Ys(a))
  {
    var path := Polygon(points, a);
    if MeetsKnots(Xs(points), Xs(a)) && MeetsKnots(Ys(points), Ys(a)) {
      forall i | 0 <= i < |points| ensures path[i].p == points[i] {
        if i > 0 {
          assert Xs(a)[i - 1] == Xs(points)[i] && Ys(a)[i - 1] == Ys(points)[i];
        }
      }
    }
    if CornersArePoints(points, path) {
      forall i | 0 <= i < |a| ensures a[i] == points[i + 1] {
        assert path[i + 1].p == points[i + 1];
      }
    }
  }

  lemma CoincideByCoordinate(points: seq<Point>)
    ensures Coincide(points) <==> AllEqual(Xs(points)) && AllEqual(Ys(points))
  {
    if AllEqual(Xs(points)) && AllEqual(Ys(points)) {
      forall i, j | 0 <= i < |points| && 0 <= j < |points| ensures points[i] == points[j] {
        assert Xs(points)[i] == Xs(points)[j] && Ys(points)[i] == Ys(points)[j];
      }
    }
  }

  /** The corners of the drawn path are the given points, one for one, exactly if these all coincide. */
  lemma CornersArePointsIff(points: seq<Point>, a: seq<Point>, b: seq<Point>)
    requires |points| >= 2 && SplineControls(points, a, b)
    ensures CornersArePoints(points, Polygon(points, a)) <==> Coincide(points)
  {
    MeetsKnotsIff(Xs(points), Xs(a), Xs(b));
    MeetsKnotsIff(Ys(points), Ys(a), Ys(b));
    CornersByCoordinate(points, a);
    CoincideByCoordinate(points);
  }

  /** The path passes through a point. */
  ghost predicate OnPath(path: seq<Element>, r: Point) {
    exists i, t :: OnLine(path, i, t, r)
  }

  /** The point divides the line to corner i at t. */
  predicate OnLine(path: seq<Element>, i: int, t: real, r: Point) {
    && 0 < i < |path| && 0.0 <= t <= 1.0
    && r == Point(path[i - 1].p.x + t * (path[i].p.x - path[i - 1].p.x), path[i - 1].p.y + t * (path[i].p.y - path[i - 1].p.y))
  }

  lemma BackAndForthX()
    ensures Natural([0.0, 1.0, 0.0], [0.5, 1.0], [1.0, 0.5])
  {
    var k, a, b := [0.0, 1.0, 0.0], [0.5, 1.0], [1.0, 0.5];
    assert Computed(k, a, b);
    ComputedIsNatural(k, a, b);
  }

  lemma BackAndForthY()
    ensures Natural([0.0, 0.0, 0.0], [0.0, 0.0], [0.0, 0.0])
  {
    assert Computed([0.0, 0.0, 0.0], [0.0, 0.0], [0.0, 0.0]);
    ComputedIsNatural([0.0, 0.0, 0.0], [0.0, 0.0], [0.0, 0.0]);
  }

  lemma CornersOnPath(points: seq<Point>, a: seq<Point>)
    requires |points| == |a| + 1 >= 2
    ensures OnPath(Polygon(points, a), points[0]) && forall i :: 0 <= i < |a| ==> OnPath(Polygon(points, a), a[i])
  {
    var path := Polygon(points, a);
    assert OnLine(path, 1, 0.0, points[0]);
    forall i | 0 <= i < |a| ensures OnPath(path, a[i]) {
      assert path[i + 1].p == a[i];
      EndOfLine(path, i + 1);
    }
  }

  lemma EndOfLine(path: seq<Element>, i: nat)
    requires 0 < i < |path|
    ensures OnLine(path, i, 1.0, path[i].p)
  {
  }

  lemma ByCoordinate(points: seq<Point>, xs: seq<real>, ys: seq<real>)
    requires |points| == |xs| == |ys| && forall i :: 0 <= i < |points| ==> points[i] == Point(xs[i], ys[i])
    ensures Xs(points) == xs && Ys(points) == ys
  {
  }

  lemma BackAndForthControls(points: seq<Point>, a: seq<Point>, b: seq<Point>)
    requires Xs(points) == [0.0, 1.0, 0.0] && Xs(a) == [0.5, 1.0] && Xs(b) == [1.0, 0.5]
    requires Ys(points) == [0.0, 0.0, 0.0] && Ys(a) == Ys(b) == [0.0, 0.0]
    ensures SplineControls(points, a, b)
  {
    BackAndForthX();
    BackAndForthY();
  }

  lemma TurnsElsewhere(points: seq<Point>, a: seq<Point>)
    requires |points| == |a| + 1 == 3 && points[2] == points[0] && a[1] == points[1] != a[0]
    ensures forall i :: 0 <= i < |points| ==> OnPath(Polygon(points, a), points[i])
    ensures !CornersArePoints(points, Polygon(points, a))
  {
    CornersOnPath(points, a);
    assert Polygon(points, a)[1].p == a[0];
  }

  /** A path can pass through all its points by other corners than these: from (0, 0) to (1, 0) and back. */
  lemma PathWithOtherCorners() returns (points: seq<Point>, a: seq<Point>, b: seq<Point>)
    ensures points == [Point(0.0, 0.0), Point(1.0, 0.0), Point(0.0, 0.0)] && SplineControls(points, a, b)
    ensures forall i :: 0 <= i < |points| ==> OnPath(Polygon(points, a), points[i])
    ensures !CornersArePoints(points, Polygon(points, a))
  {
    points := [Point(0.0, 0.0), Point(1.0, 0.0), Point(0.0, 0.0)];
    a, b := [Point(0.5, 0.0), Point(1.0, 0.0)], [Point(1.0, 0.0), Point(0.5, 0.0)];
    ByCoordinate(points, [0.0, 1.0, 0.0], [0.0, 0.0, 0.0]);
    ByCoordinate(a, [0.5, 1.0], [0.0, 0.0]);
    ByCoordinate(b, [1.0, 0.5], [0.0, 0.0]);
    BackAndForthControls(points, a, b);
    TurnsElsewhere(points, a);
  }

  /** There the drawn polygon stops a third of the way into the last segment. */
  lemma PolygonStopsShort(points: seq<Point>, a: seq<Point>, b: seq<Point>, h: Point)
    requires |points| >= 2 && SplineControls(points, a, b) && h != Point(0.0, 0.0)
    requires forall i :: 0 <= i < |points| - 1 ==> points[i + 1] == Point(points[i].x + h.x, points[i].y + h.y)
    ensures |Polygon(points, a)| == |points| && Polygon(points, a)[|points| - 1].p != points[|points| - 1]
  {
    EquallySpacedPoints(points, a, b, h);
    LastThird(points, a, h);
  }

  lemma LastThird(points: seq<Point>, a: seq<Point>, h: Point)
    requires |points| >= 2 && |points| == |a| + 1 && h != Point(0.0, 0.0)
    requires points[|a|] == Point(points[|a| - 1].x + h.x, points[|a| - 1].y + h.y)
    requires a[|a| - 1] == Point(points[|a| - 1].x + h.x / 3.0, points[|a| - 1].y + h.y / 3.0)
    ensures Polygon(points, a)[|points| - 1].p != points[|points| - 1]
  {
  }

  /** The segment between two neighbouring points of generateSmoothCurve1. */
  function StepSegment(p: Point, q: Point): Element {
    CubicTo(Point((p.x + q.x) / 2.0, p.y), Point((p.x + q.x) / 2.0, q.y), q)
  }

  method GenerateSmoothCurve1(points: seq<Point>) returns (path: seq<Element>)
    ensures |path| == |points|
    ensures |points| > 0 ==> path[0] == MoveTo(points[0])
    ensures forall i :: 0 < i < |points| ==> path[i] == StepSegment(points[i - 1], points[i])
  {
    if |points| == 0 {
      return [];
    }
    path := [MoveTo(points[0])];
    for i := 0 to |points| - 1
      invariant |path| == i + 1 && path[0] == MoveTo(points[0])
      invariant forall k :: 0 < k <= i ==> path[k] == StepSegment(points[k - 1], points[k])
    {
      var sp, ep := points[i], points[i + 1];
      var c1 := Point((sp.x + ep.x) / 2.0, sp.y);
      var c2 := Point((sp.x + ep.x) / 2.0, ep.y);
      path := path + [CubicTo(c1, c2, ep)];
    }
  }

  function CurveX(p: Point, e: Element): Cubic
    requires e.CubicTo?
  {
    Bezier(p.x, e.c1.x, e.c2.x, e.p.x)
  }

  function CurveY(p: Point, e: Element): Cubic
    requires e.CubicTo?
  {
    Bezier(p.y, e.c1.y, e.c2.y, e.p.y)
  }

  lemma SquareIsPositive(a: real)
    ensures a * a >= 0.0
  {
  }

  lemma ProductIsPositive(a: real, b: real)
    requires a >= 0.0 && b >= 0.0
    ensures a * b >= 0.0
  {
  }

  lemma Weight(t: real) returns (w: real)
    requires 0.0 <= t <= 1.0
    ensures w == (t * t) * (3.0 - 2.0 * t) && 0.0 <= w <= 1.0
  {
    w := (t * t) * (3.0 - 2.0 * t);
    var s := 1.0 - t;
    SquareIsPositive(t);
    SquareIsPositive(s);
    ProductIsPositive(t * t, 3.0 - 2.0 * t);
    ProductIsPositive(s * s, 1.0 + 2.0 * t);
    assert s * s == 1.0 - 2.0 * t + t * t;
    assert (s * s) * (1.0 + 2.0 * t) == 1.0 - w;
  }

  lemma StepHeightIsWeighted(d: real, t: real, w: real)
    requires w == (t * t) * (3.0 - 2.0 * t)
    ensures t * (0.0 + t * (3.0 * d + t * (-2.0 * d))) == w * d
  {
  }

  /** The height of a step is a weighted mean of the heights of its two points. */
  lemma StepHeight(y: real, d: real, t: real)
    requires 0.0 <= t <= 1.0
    ensures var v := Value(Cubic(y, 0.0, 3.0 * d, -2.0 * d), t); (y <= v <= y + d) || (y + d <= v <= y)
  {
    var w := Weight(t);
    StepHeightIsWeighted(d, t, w);
    assert Value(Cubic(y, 0.0, 3.0 * d, -2.0 * d), t) == y + w * d;
    if d >= 0.0 {
      ProductIsPositive(w, d);
      ProductIsPositive(1.0 - w, d);
      assert (1.0 - w) * d == d - w * d;
    } else {
      ProductIsPositive(w, -d);
      ProductIsPositive(1.0 - w, -d);
      assert w * (-d) == -(w * d);
      assert (1.0 - w) * (-d) == -d + w * d;
    }
  }

  lemma StepAdvances(g: real, t: real)
    ensures var v := Value(Cubic(1.5 * g, -3.0 * g, 3.0 * g, 0.0), t);
            (g > 0.0 ==> v > 0.0) && (g < 0.0 ==> v < 0.0)
  {
    var u := t - 0.5;
    SquareIsPositive(u);
    var v := 0.75 + 3.0 * (u * u);
    assert g > 0.0 ==> v * g > 0.0;
    assert g < 0.0 ==> v * -g > 0.0;
    assert 1.5 * g + t * (-3.0 * g + t * (3.0 * g)) == v * g;
  }

  /** Between two points the curve stays within their range of heights, moves strictly towards the second
      one, or straight up or down if they are above each other, and is level at both, so that neighbouring
      segments join without a corner.  Its control points are above each other, half way. */
  lemma StepSegmentShape(p: Point, q: Point, t: real)
    requires 0.0 <= t <= 1.0
    ensures var e := StepSegment(p, q);
            var y := Value(CurveY(p, e), t);
            (p.y <= y <= q.y || q.y <= y <= p.y) &&
            Start(Derivative(CurveY(p, e))) == 0.0 == Finish(Derivative(CurveY(p, e)))
    ensures var x := CurveX(p, StepSegment(p, q));
            (p.x < q.x ==> Value(Derivative(x), t) > 0.0) && (p.x > q.x ==> Value(Derivative(x), t) < 0.0) &&
            (p.x == q.x ==> Value(x, t) == p.x)
    ensures var e := StepSegment(p, q);
            && Start(CurveX(p, e)) == p.x && Finish(CurveX(p, e)) == q.x && Start(CurveY(p, e)) == p.y && Finish(CurveY(p, e)) == q.y
            && e.c1.x == e.c2.x && e.c1.x - p.x == q.x - e.c2.x && e.c1.y == p.y && e.c2.y == q.y
  {
    var e := StepSegment(p, q);
    var d, g := q.y - p.y, q.x - p.x;
    StepHeight(p.y, d, t);
    assert CurveY(p, e) == Cubic(p.y, 0.0, 3.0 * d, -2.0 * d);
    StepAdvances(g, t);
    assert Derivative(CurveX(p, e)) == Cubic(1.5 * g, -3.0 * g, 3.0 * g, 0.0);
    if p.x == q.x {
      assert CurveX(p, e) == Cubic(p.x, 0.0, 0.0, 0.0);
    }
  }
}
