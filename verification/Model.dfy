/** The model object that accepts points one by one, and the segment it hands out. */
module Model {
  import opened Geometry
  import opened Envelope
  import opened Fit

  datatype CanonicalSegment = CanonicalSegment(rectangle: Rectangle, first: real, number: nat) {
    predicate OnePoint() {
      rectangle.p0 == rectangle.p2 && rectangle.p1 == rectangle.p3
    }

    predicate Shaped() {
      OnePoint() || (rectangle.p0.x < rectangle.p2.x && rectangle.p1.x < rectangle.p3.x)
    }

    /** The crossing point of the two extreme lines, or a point of the common line. */
    function GetIntersection(): Point
      requires Shaped()
    {
      var p0, p1 := rectangle.p0, rectangle.p1;
      var s1, s2 := Minus(rectangle.p2, p0), Minus(rectangle.p3, p1);
      var a := s1.dx * s2.dy - s1.dy * s2.dx;
      if OnePoint() || a == 0.0 then p0
      else
        var d := Minus(p1, p0);
        var b := (d.dx * s2.dy - d.dy * s2.dx) / a;
        Point(p0.x + b * s1.dx, p0.y + b * s1.dy)
    }

    function GetSlopeRange(): (real, real)
      requires Shaped()
    {
      if OnePoint() then (0.0, 1.0)
      else (Grade(rectangle.p0, rectangle.p2), Grade(rectangle.p1, rectangle.p3))
    }

    /** Slope, and height at the given origin. */
    function GetFloatingPointSegment(origin: real): (real, real)
      requires Shaped()
    {
      if OnePoint() then (0.0, (rectangle.p0.y + rectangle.p1.y) / 2.0)
      else
        var i := GetIntersection();
        var range := GetSlopeRange();
        var slope := (range.0 + range.1) / 2.0;
        (slope, i.y - (i.x - origin) * slope)
    }

    function FittedLine(origin: real): Line
      requires Shaped()
    {
      var f := GetFloatingPointSegment(origin);
      Line(f.0, f.1 - f.0 * origin)
    }
  }

  /** The rectangle carries the two extreme feasible lines of exactly these points. */
  ghost predicate Describes(r: Rectangle, pts: seq<Point>, eps: real) {
    match |pts|
    case 0 => true
    case 1 => r.p0 == Raise(pts[0], eps) && r.p1 == Raise(pts[0], -eps)
    case _ => Tight(r, RaiseAll(pts, -eps), RaiseAll(pts, eps))
  }

  ghost predicate SegmentOf(s: CanonicalSegment, pts: seq<Point>, eps: real) {
    && |pts| > 0 && s.first == pts[0].x
    && Describes(s.rectangle, pts, eps)
    && (|pts| == 1 ==> s.OnePoint())
  }

  /** A point at fraction b along a segment is on the segment's line. */
  lemma AlongLine(q: Point, p: Point, b: real)
    requires q.x < p.x
    ensures At(Through(q, p), q.x + Times(b, p.x - q.x)) == q.y + Times(b, p.y - q.y)
  {
    hide At, Grade, Times;
    var l, w := Through(q, p), p.x - q.x;
    ThroughEnds(q, p);
    GradeTimes(q, p);
    Rise(l, q.x, q.x + Times(b, w));
    Swap(l.a, b, w);
  }

  lemma Swap(a: real, b: real, w: real)
    ensures Times(a, Times(b, w)) == Times(b, Times(a, w))
  {}

  lemma OnOtherLine(p0: Point, p1: Point, p2: Point, p3: Point, b: real)
    requires p0.x < p2.x && p1.x < p3.x
    requires var s1, s2, d := Minus(p2, p0), Minus(p3, p1), Minus(p1, p0);
             b * (s1.dx * s2.dy - s1.dy * s2.dx) == d.dx * s2.dy - d.dy * s2.dx
    ensures At(Through(p1, p3), p0.x + Times(b, p2.x - p0.x)) == p0.y + Times(b, p2.y - p0.y)
  {
    hide At, Grade, Times;
    var l := Through(p1, p3);
    ThroughEnds(p1, p3);
    GradeTimes(p1, p3);
    var x := p0.x + Times(b, p2.x - p0.x);
    Rise(l, p1.x, x);
    OnSecondLine(b, Minus(p2, p0), Minus(p3, p1), Minus(p1, p0), l.a);
    assert x - p1.x == Times(b, Minus(p2, p0).dx) - Minus(p1, p0).dx;
  }

  lemma ParallelLines(p0: Point, p1: Point, p2: Point, p3: Point)
    requires p0.x < p2.x && p1.x < p3.x
    requires (p2.x - p0.x) * (p3.y - p1.y) == (p2.y - p0.y) * (p3.x - p1.x)
    ensures Grade(p0, p2) == Grade(p1, p3)
  {
    hide Grade, Times;
    GradeTimes(p0, p2);
    GradeTimes(p1, p3);
    EqualGrades(Grade(p0, p2), Grade(p1, p3), p2.x - p0.x, p3.x - p1.x);
  }

  lemma CrossingPoint(s: CanonicalSegment)
    requires s.Shaped() && !s.OnePoint()
    ensures var i := s.GetIntersection();
            var l1, l2 := MinLine(s.rectangle), MaxLine(s.rectangle);
            At(l1, i.x) == i.y && (At(l2, i.x) == i.y || l1.a == l2.a)
  {
    hide At, Grade;
    var p0, p1, p2, p3 := s.rectangle.p0, s.rectangle.p1, s.rectangle.p2, s.rectangle.p3;
    var s1, s2 := Minus(p2, p0), Minus(p3, p1);
    var a := s1.dx * s2.dy - s1.dy * s2.dx;
    if a == 0.0 {
      ThroughEnds(p0, p2);
      ParallelLines(p0, p1, p2, p3);
    } else {
      var d := Minus(p1, p0);
      var b := (d.dx * s2.dy - d.dy * s2.dx) / a;
      var i := s.GetIntersection();
      assert i == Point(p0.x + Times(b, p2.x - p0.x), p0.y + Times(b, p2.y - p0.y));
      AlongLine(p0, p2, b);
      OnOtherLine(p0, p1, p2, p3, b);
    }
  }

  lemma EqualGrades(g: real, h: real, u: real, v: real)
    requires u > 0.0 && v > 0.0 && u * Times(h, v) == Times(g, u) * v
    ensures g == h
  {
    var w := u * v;
    assert u * (h * v) == h * w;
    assert (g * u) * v == g * w;
    PositiveProduct(u, v);
    SameTimes(g, h, w);
  }

  lemma OnSecondLine(b: real, s1: Slope, s2: Slope, d: Slope, g: real)
    requires s2.dx > 0.0 && Times(g, s2.dx) == s2.dy
    requires b * (s1.dx * s2.dy - s1.dy * s2.dx) == d.dx * s2.dy - d.dy * s2.dx
    ensures Times(g, Times(b, s1.dx) - d.dx) == Times(b, s1.dy) - d.dy
  {
    var u, v, w := b * s1.dx - d.dx, b * s1.dy - d.dy, s2.dx;
    assert u * s2.dy == v * w by {
      assert b * (s1.dx * s2.dy - s1.dy * w) == (b * s1.dx) * s2.dy - (b * s1.dy) * w;
      assert u * s2.dy == (b * s1.dx) * s2.dy - d.dx * s2.dy;
      assert v * w == (b * s1.dy) * w - d.dy * w;
    }
    Cancel(g, u, v, w, s2.dy);
  }

  lemma Cancel(g: real, u: real, v: real, w: real, z: real)
    requires w > 0.0 && Times(g, w) == z && u * z == v * w
    ensures Times(g, u) == v
  {
    assert u * (g * w) == (g * u) * w;
    SameTimes(g * u, v, w);
  }

  lemma PointSlopeForm(a: real, i: Point, origin: real)
    ensures At(Line(a, i.y - Times(i.x - origin, a) - Times(a, origin)), i.x) == i.y
  {
    assert (i.x - origin) * a == a * i.x - a * origin;
  }

  /** Through the crossing point with the mean slope runs the pointwise mean of the two lines. */
  lemma AverageLine(l1: Line, l2: Line, i: Point, l: Line)
    requires At(l1, i.x) == i.y && (At(l2, i.x) == i.y || l1.a == l2.a)
    requires At(l, i.x) == i.y && l.a == (l1.a + l2.a) / 2.0
    ensures l == l1 || l == Blend(l1, l2, 0.5)
  {
    if l1.a != l2.a {
      BlendAt(l1, l2, 0.5, i.x);
      assert At(Blend(l1, l2, 0.5), i.x) == i.y;
      assert Blend(l1, l2, 0.5).a == l.a;
    }
  }

  /** Soundness: the emitted line is within epsilon of every point of the segment,
      also of the points that were never kept in a hull or were pruned from it. */
  lemma SegmentIsSound(s: CanonicalSegment, pts: seq<Point>, eps: real, origin: real)
    requires eps >= 0.0 && SegmentOf(s, pts, eps)
    ensures s.Shaped() && Feasible(s.FittedLine(origin), pts, eps)
  {
    if |pts| == 1 {
      assert At(s.FittedLine(origin), pts[0].x) == pts[0].y;
    } else {
      FittedIsAverage(s, origin);
      var l1, l2, l := MinLine(s.rectangle), MaxLine(s.rectangle), s.FittedLine(origin);
      hide At, Blend, Grade;
      BlendBetween(l1, l2, 0.5, RaiseAll(pts, -eps), RaiseAll(pts, eps));
      FeasibleIsBetween(l, pts, eps);
    }
  }

  lemma FittedIsAverage(s: CanonicalSegment, origin: real)
    requires s.Shaped() && !s.OnePoint()
    ensures var l1, l2 := MinLine(s.rectangle), MaxLine(s.rectangle);
            s.FittedLine(origin) == l1 || s.FittedLine(origin) == Blend(l1, l2, 0.5)
  {
    hide At, Blend, Grade, CanonicalSegment.GetIntersection;
    var i, l := s.GetIntersection(), s.FittedLine(origin);
    CrossingPoint(s);
    PointSlopeForm(l.a, i, origin);
    assert l == Line(l.a, i.y - Times(i.x - origin, l.a) - Times(l.a, origin));
    AverageLine(MinLine(s.rectangle), MaxLine(s.rectangle), i, l);
  }

  /** On data whose heights increase with the key, such as ranks, the emitted slope is positive. */
  lemma SegmentClimbs(s: CanonicalSegment, pts: seq<Point>, eps: real, origin: real)
    requires SegmentOf(s, pts, eps) && |pts| >= 2 && Sorted(pts)
    requires forall i, j :: 0 <= i < j < |pts| ==> pts[i].y < pts[j].y
    ensures s.Shaped() && s.FittedLine(origin).a > 0.0
  {
    hide At, Grade;
    var los, ups := RaiseAll(pts, -eps), RaiseAll(pts, eps);
    var r := s.rectangle;
    var k :| 0 <= k < |los| && los[k] == r.p1;
    var m :| 0 <= m < |ups| && ups[m] == r.p3;
    assert k < m;
    var l1, l2, w := MinLine(r), MaxLine(r), r.p3.x - r.p1.x;
    assert l1.a + l2.a == 2.0 * s.FittedLine(origin).a;
    assert At(l1, los[m].x) >= los[m].y && At(l1, ups[k].x) <= ups[k].y;
    Rise(l1, r.p1.x, r.p3.x);
    GradeTimes(r.p1, r.p3);
    TimesNegated(l1.a, w);
    OrderTimes(-l1.a, l2.a, w);
  }

  /** The two active chains as the invariant sees them. */
  ghost predicate Chains(lower: seq<Point>, lowerStart: nat, upper: seq<Point>, upperStart: nat, eps: real,
                         cu: seq<Point>, fl: seq<Point>)
  {
    && lowerStart < |lower| && upperStart < |upper|
    && cu == Chain(upper, upperStart, eps)
    && fl == FlipAll(Chain(lower, lowerStart, -eps))
  }

  /** For an upper point p1 under the steepest line: turn that line about the lower hull, prune the upper hull. */
  method TurnSteepest(lower: seq<Point>, lowerStart: nat, upper: seq<Point>, upperStart: nat, eps: real,
                      p: Point, ghost r: Rectangle, ghost los: seq<Point>, ghost ups: seq<Point>,
                      ghost cu: seq<Point>, ghost fl: seq<Point>)
    returns (minI: nat, end: nat, ghost d: seq<Point>, ghost e: seq<Point>)
    requires Chains(lower, lowerStart, upper, upperStart, eps, cu, fl)
    requires Hulls(r, cu, fl, los, ups)
    requires LeftStrictly(los, p.x) && LeftStrictly(ups, p.x)
    requires At(MinLine(r), p.x) <= p.y + eps < At(MaxLine(r), p.x)
    ensures lowerStart <= minI < |lower| && upperStart < end <= |upper|
    ensures Chains(lower, minI, upper[..end] + [p], upperStart, eps, e, d)
    ensures Hulls(r.(p1 := Raise(lower[minI], -eps), p3 := Raise(p, eps)), e, d,
                  los, ups + [Raise(p, eps)])
    ensures lower[minI].x < p.x
    ensures forall q :: q in los && q.x < p.x ==>
              Grade(q, Raise(p, eps)) >= Grade(Raise(lower[minI], -eps), Raise(p, eps))
  {
    hide At, Grade, Hulls, Convex, Dominates, IsTangent, Within;
    var p1 := Raise(p, eps);
    HullFacts(r, cu, fl, los, ups);
    LowerLeft(lower, lowerStart, -eps, los, p.x);
    UpperLeft(upper, upperStart, eps, ups, p.x);
    minI := ScanLower(lower, -eps, lowerStart, p1);
    ghost var m := minI - lowerStart;
    end := PruneUpper(upper, eps, upperStart, p1);
    e, d := cu[..end - upperStart] + [p1], fl[m..];
    ChainPrefix(upper, eps, upperStart, end);
    PrunedWithin(cu, end - upperStart, p1);
    ChainSnoc(upper[..end], upperStart, eps, p);
    ChainDrop(lower, lowerStart, minI, -eps);
    FlipTwiceAt(Raise(lower[minI], -eps));
    assert fl[m] == Flip(Raise(lower[minI], -eps));
    PushUpper(r, cu, fl, los, ups, p1, m, e);
  }

  /** For a lower point p2 over the flattest line: turn that line about the upper hull, prune the lower hull. */
  method TurnFlattest(lower: seq<Point>, lowerStart: nat, upper: seq<Point>, upperStart: nat, eps: real,
                      p: Point, ghost r: Rectangle, ghost los: seq<Point>, ghost ups: seq<Point>,
                      ghost cu: seq<Point>, ghost fl: seq<Point>)
    returns (maxI: nat, end: nat, ghost d: seq<Point>, ghost e: seq<Point>)
    requires Chains(lower, lowerStart, upper, upperStart, eps, cu, fl)
    requires Hulls(r, cu, fl, los, ups)
    requires LeftStrictly(los, p.x)
    requires forall q :: q in ups ==> q.x < p.x || (q.x == p.x && q.y > p.y - eps)
    requires At(MinLine(r), p.x) < p.y - eps <= At(MaxLine(r), p.x)
    ensures upperStart <= maxI < |upper| && lowerStart < end <= |lower|
    ensures Chains(lower[..end] + [p], lowerStart, upper, maxI, eps, e, d)
    ensures Hulls(r.(p0 := Raise(upper[maxI], eps), p2 := Raise(p, -eps)), e, d,
                  los + [Raise(p, -eps)], ups)
    ensures upper[maxI].x < p.x
    ensures forall q :: q in ups && q.x < p.x ==>
              Grade(q, Raise(p, -eps)) <= Grade(Raise(upper[maxI], eps), Raise(p, -eps))
  {
    hide At, Grade, Hulls, Convex, Dominates, Within;
    var p2 := Raise(p, -eps);
    HullFacts(r, cu, fl, los, ups);
    LowerLeft(lower, lowerStart, -eps, los, p.x);
    UpperLeftOrAbove(upper, upperStart, eps, ups, p2);
    assert r.p0.x < p.x;
    maxI := ScanUpper(upper, eps, upperStart, p2);
    ghost var m := maxI - upperStart;
    end := PruneLower(lower, -eps, lowerStart, p2);
    e, d := cu[m..], fl[..end - lowerStart] + [Flip(p2)];
    ChainPrefix(lower, -eps, lowerStart, end);
    PrunedWithin(fl, end - lowerStart, Flip(p2));
    ChainSnoc(lower[..end], lowerStart, -eps, p);
    FlipSnoc(Chain(lower[..end], lowerStart, -eps), p2);
    ChainDrop(upper, upperStart, maxI, eps);
    LeftBoth(los, ups, p2);
    PushLower(r, cu, fl, los, ups, p2, m, d);
  }

  lemma LeftBoth(los: seq<Point>, ups: seq<Point>, p: Point)
    requires LeftStrictly(los, p.x) && forall q :: q in ups ==> q.x <= p.x
    ensures LeftOf(los, p.x) && LeftOf(ups, p.x)
  {}

  lemma UpperLeft(hull: seq<Point>, start: nat, off: real, ups: seq<Point>, x: real)
    requires start <= |hull| && Within(Chain(hull, start, off), ups) && LeftStrictly(ups, x)
    ensures forall j :: start <= j < |hull| ==> hull[j].x < x
  {
    forall j | start <= j < |hull| ensures hull[j].x < x {
      assert Chain(hull, start, off)[j - start] in ups;
    }
  }

  lemma UpperLeftOrAbove(hull: seq<Point>, start: nat, off: real, ups: seq<Point>, p: Point)
    requires start <= |hull| && Within(Chain(hull, start, off), ups)
    requires forall q :: q in ups ==> q.x < p.x || (q.x == p.x && q.y > p.y)
    ensures forall j :: start <= j < |hull| ==> hull[j].x < p.x || (hull[j].x == p.x && hull[j].y + off > p.y)
  {
    forall j | start <= j < |hull|
      ensures hull[j].x < p.x || (hull[j].x == p.x && hull[j].y + off > p.y)
    {
      assert Chain(hull, start, off)[j - start] in ups;
    }
  }

  lemma LowerLeft(hull: seq<Point>, start: nat, off: real, los: seq<Point>, x: real)
    requires start <= |hull| && Within(FlipAll(Chain(hull, start, off)), FlipAll(los)) && LeftStrictly(los, x)
    ensures forall j :: start <= j < |hull| ==> hull[j].x < x
  {
    forall j | start <= j < |hull| ensures hull[j].x < x {
      var q := FlipAll(Chain(hull, start, off))[j - start];
      assert q in FlipAll(los);
    }
  }

  /** Takes a point between the two extreme lines into the lines and hulls. */
  method RotateLines(lower0: seq<Point>, lowerStart0: nat, upper0: seq<Point>, upperStart0: nat, r0: Rectangle,
                     eps: real, p: Point, ghost pts: seq<Point>, ghost cu0: seq<Point>, ghost fl0: seq<Point>)
    returns (lower: seq<Point>, lowerStart: nat, upper: seq<Point>, upperStart: nat, r: Rectangle,
             ghost cu: seq<Point>, ghost fl: seq<Point>)
    requires eps >= 0.0 && LeftStrictly(pts, p.x)
    requires Chains(lower0, lowerStart0, upper0, upperStart0, eps, cu0, fl0)
    requires Hulls(r0, cu0, fl0, RaiseAll(pts, -eps), RaiseAll(pts, eps))
    requires At(MinLine(r0), p.x) <= p.y + eps && p.y - eps <= At(MaxLine(r0), p.x)
    ensures Chains(lower, lowerStart, upper, upperStart, eps, cu, fl)
    ensures Hulls(r, cu, fl, RaiseAll(pts + [p], -eps), RaiseAll(pts + [p], eps))
    ensures Tight(r, RaiseAll(pts + [p], -eps), RaiseAll(pts + [p], eps)) && Fits(pts + [p], eps)
  {
    hide At, Grade, Hulls, Fits, Tight, Chains, Anchored, RaiseAll, LeftOf, LeftStrictly, Less, Greater;
    lower, lowerStart, upper, upperStart, r, cu, fl := lower0, lowerStart0, upper0, upperStart0, r0, cu0, fl0;
    var p1, p2 := Raise(p, eps), Raise(p, -eps);
    ghost var los, ups := RaiseAll(pts, -eps), RaiseAll(pts, eps);
    HullsFit(r, cu, fl, pts, eps);
    ghost var l1 := MinLine(r);
    AnchorsLeft(r, pts, eps, p.x);
    Sides(r, p1);
    Sides(r, p2);
    SameLinesAtZero(r, pts, eps, p.x);
    RaiseLeft(pts, eps, p.x);
    RaiseLeft(pts, -eps, p.x);
    LeftSnoc(pts, eps, p, p1);
    var slope1 := Minus(r.p2, r.p0);
    var slope2 := Minus(r.p3, r.p1);
    if Less(Minus(p1, r.p1), slope2) {
      var minI, end;
      minI, end, fl, cu := TurnSteepest(lower, lowerStart, upper, upperStart, eps, p, r, los, ups, cu, fl);
      r := r.(p1 := Raise(lower[minI], -eps), p3 := p1);
      lowerStart := minI;
      upper := upper[..end] + [p];
      ThroughEnds(r.p1, r.p3);
    } else {
      SkipUpper(r, cu, fl, los, ups, p1);
    }
    assert MinLine(r) == l1;
    assert At(MaxLine(r), p.x) >= p2.y;
    if Greater(Minus(p2, r.p0), slope1) {
      var maxI, end;
      UpsLeftOrAbove(pts, eps, p);
      maxI, end, fl, cu := TurnFlattest(lower, lowerStart, upper, upperStart, eps, p, r, los, ups + [p1], cu, fl);
      r := r.(p0 := Raise(upper[maxI], eps), p2 := p2);
      upperStart := maxI;
      lower := lower[..end] + [p];
    } else {
      SkipLower(r, cu, fl, los, ups + [p1], p2);
    }
    RaiseSnoc(pts, p, eps);
    RaiseSnoc(pts, p, -eps);
    HullsFit(r, cu, fl, pts + [p], eps);
  }

  class OptimalPiecewiseLinearModel {
    const epsilon: real
    var lower: seq<Point>
    var upper: seq<Point>
    var firstX: real
    var lastX: real
    var lowerStart: nat
    var upperStart: nat
    var pointsInHull: nat
    var rectangle: Rectangle
    /** The points of the current segment, or of the last one when a rejection has just closed it. */
    ghost var fitted: seq<Point>
    ghost var upperChain: seq<Point>
    ghost var lowerChain: seq<Point>

    ghost function Current(): seq<Point>
      reads this
    {
      if pointsInHull == 0 then [] else fitted
    }

    ghost predicate Valid()
      reads this
    {
      && epsilon >= 0.0
      && Describes(rectangle, fitted, epsilon)
      && (fitted != [] ==> firstX == fitted[0].x)
      && (pointsInHull > 0 ==>
            && pointsInHull == |fitted| && Sorted(fitted) && lastX == fitted[|fitted| - 1].x)
      && (pointsInHull == 1 ==> upper == lower == fitted && upperStart == lowerStart == 0)
      && (pointsInHull >= 2 ==>
            && Chains(lower, lowerStart, upper, upperStart, epsilon, upperChain, lowerChain)
            && Hulls(rectangle, upperChain, lowerChain, RaiseAll(fitted, -epsilon), RaiseAll(fitted, epsilon)))
    }

    constructor (epsilon: real)
      requires epsilon >= 0.0
      ensures Valid() && Current() == [] && this.epsilon == epsilon
    {
      this.epsilon := epsilon;
      lower, upper, firstX, lastX, lowerStart, upperStart, pointsInHull := [], [], 0.0, 0.0, 0, 0, 0;
      var o := Point(0.0, 0.0);
      rectangle := Rectangle(o, o, o, o);
      fitted := [];
    }

    /** The first two points of a segment are always accepted. */
    method AddFirstTwo(p: Point)
      requires Valid() && pointsInHull < 2
      requires pointsInHull == 1 ==> lastX < p.x
      modifies this
      ensures Valid() && Current() == old(Current()) + [p] && Fits(fitted, epsilon)
      ensures pointsInHull == old(pointsInHull) + 1 && lastX == p.x
    {
      hide At, Grade, Hulls, Fits, Describes, Chains, RaiseAll, Chain, FlipAll, Sorted, Raise;
      var p1, p2 := Raise(p, epsilon), Raise(p, -epsilon);
      if pointsInHull == 0 {
        firstX := p.x;
        rectangle := rectangle.(p0 := p1, p1 := p2);
        upper, lower := [p], [p];
        upperStart, lowerStart := 0, 0;
        pointsInHull := 1;
        fitted := [p];
        FirstPoint(p, epsilon, rectangle);
      } else {
        ghost var q := fitted[0];
        FirstIs(q, epsilon, rectangle, fitted);
        rectangle := rectangle.(p2 := p2, p3 := p1);
        upper, lower := upper + [p], lower + [p];
        pointsInHull := 2;
        fitted := fitted + [p];
        assert fitted == upper == lower == [q, p];
        upperChain, lowerChain := Chain(upper, 0, epsilon), FlipAll(Chain(lower, 0, -epsilon));
        SecondPoint(q, p, epsilon, rectangle);
      }
      lastX := p.x;
    }

    /** Takes in a point that lies between the extreme lines. */
    method Rotate(p: Point)
      requires Valid() && pointsInHull >= 2 && lastX < p.x
      requires rectangle.p0.x < rectangle.p2.x && rectangle.p1.x < rectangle.p3.x
      requires At(MinLine(rectangle), p.x) <= p.y + epsilon && p.y - epsilon <= At(MaxLine(rectangle), p.x)
      modifies this
      ensures Valid() && Current() == old(Current()) + [p] && Fits(fitted, epsilon)
      ensures pointsInHull == old(pointsInHull) + 1 && lastX == p.x
    {
      hide At, Grade, Hulls, Fits, Tight, Chains, RaiseAll, LeftStrictly;
      SortedLeft(fitted, p.x);
      lower, lowerStart, upper, upperStart, rectangle, upperChain, lowerChain :=
        RotateLines(lower, lowerStart, upper, upperStart, rectangle, epsilon, p, fitted, upperChain, lowerChain);
      SortedSnoc(fitted, p);
      pointsInHull := pointsInHull + 1;
      fitted := fitted + [p];
      lastX := p.x;
    }

    /** Accepts a point exactly when some line is within epsilon of the whole segment with it. */
    method AddPoint(p: Point) returns (o: Outcome)
      requires Valid()
      modifies this
      ensures Valid()
      ensures o == NotIncreasing <==> old(pointsInHull) > 0 && p.x <= old(lastX)
      ensures o == NotIncreasing ==> Current() == old(Current())
      ensures o == Accepted ==> Current() == old(Current()) + [p] && lastX == p.x
      ensures o == Accepted ==> pointsInHull == old(|Current()|) + 1
      ensures o != NotIncreasing ==> (o == Accepted <==> Fits(old(Current()) + [p], epsilon))
      ensures o == Rejected ==> Current() == [] && fitted == old(Current()) && |fitted| >= 2
    {
      hide At, Grade, Hulls, Fits, Tight, Chains;
      if pointsInHull > 0 && p.x <= lastX {
        return NotIncreasing;
      }
      if pointsInHull < 2 {
        AddFirstTwo(p);
        return Accepted;
      }
      var p1, p2 := Raise(p, epsilon), Raise(p, -epsilon);
      HullsFit(rectangle, upperChain, lowerChain, fitted, epsilon);
      assert LeftStrictly(fitted, p.x);
      AnchorsLeft(rectangle, fitted, epsilon, p.x);
      Sides(rectangle, p1);
      Sides(rectangle, p2);
      var slope1 := Minus(rectangle.p2, rectangle.p0);
      var slope2 := Minus(rectangle.p3, rectangle.p1);
      var outsideLine1 := Less(Minus(p1, rectangle.p2), slope1);
      var outsideLine2 := Greater(Minus(p2, rectangle.p3), slope2);
      if outsideLine1 || outsideLine2 {
        pointsInHull := 0;
        lastX := p.x;
        RejectIsFinal(rectangle, fitted, epsilon, p);
        return Rejected;
      }
      Rotate(p);
      return Accepted;
    }

    /** The segment of the points in `fitted`; also right after a rejection, when the hull counter is back to 0. */
    method GetSegment(number: nat) returns (s: CanonicalSegment)
      requires Valid() && fitted != []
      requires pointsInHull == 0 ==> |fitted| >= 2
      ensures SegmentOf(s, fitted, epsilon)
      ensures s.number == if pointsInHull == 1 then 1 else number
    {
      if pointsInHull == 1 {
        s := CanonicalSegment(Rectangle(rectangle.p0, rectangle.p1, rectangle.p0, rectangle.p1), firstX, 1);
      } else {
        s := CanonicalSegment(rectangle, firstX, number);
      }
    }
  }

  /** What turning the steepest line does, obtained from PushLower by reflection. */
  lemma PushUpper(r: Rectangle, cu: seq<Point>, fl: seq<Point>, los: seq<Point>, ups: seq<Point>, p: Point,
                  m: int, d: seq<Point>)
    requires Hulls(r, cu, fl, los, ups) && LeftOf(los, p.x) && LeftOf(ups, p.x)
    requires At(MinLine(r), p.x) <= p.y < At(MaxLine(r), p.x)
    requires IsTangent(fl, m, Flip(p))
    requires |d| > 0 && d[0] == cu[0] && Convex(d)
    requires Within(d, cu + [p]) && Dominates(d, cu + [p])
    ensures Hulls(r.(p1 := Flip(fl[m]), p3 := p), d, fl[m..], los, ups + [p])
    ensures forall q :: q in los && q.x < p.x ==> Grade(q, p) >= Grade(Flip(fl[m]), p)
  {
    hide At, Grade, Hulls, Convex, Dominates;
    HullFacts(r, cu, fl, los, ups);
    var q := Flip(p);
    var r' := FlipRectangle(r).(p0 := fl[m], p2 := q);
    FlipHulls(r, cu, fl, los, ups);
    FlipSides(r, p);
    FlipTwiceAt(p);
    FlipLeft(los, p.x);
    FlipLeft(ups, p.x);
    PushLower(FlipRectangle(r), fl, cu, FlipAll(ups), FlipAll(los), q, m, d);
    FlipHulls(r', fl[m..], d, FlipAll(ups) + [q], FlipAll(los));
    FlipTwice(los);
    FlipSnoc(FlipAll(ups), q);
    FlipTwice(ups);
    assert FlipRectangle(r') == r.(p1 := Flip(fl[m]), p3 := p);
    forall a | a in los && a.x < p.x ensures Grade(a, p) >= Grade(Flip(fl[m]), p) {
      FlipIn(a, los);
      FlipThrough(a, p);
      FlipThrough(Flip(fl[m]), p);
      FlipTwiceAt(fl[m]);
    }
  }

  lemma ChainSnoc(hull: seq<Point>, start: nat, off: real, p: Point)
    requires start <= |hull|
    ensures Chain(hull + [p], start, off) == Chain(hull, start, off) + [Raise(p, off)]
  {}

  lemma ChainDrop(hull: seq<Point>, start: nat, next: nat, off: real)
    requires start <= next <= |hull|
    ensures Chain(hull, next, off) == Chain(hull, start, off)[next - start..]
    ensures FlipAll(Chain(hull, next, off)) == FlipAll(Chain(hull, start, off))[next - start..]
  {}

  lemma FlipLeft(s: seq<Point>, x: real)
    requires LeftOf(s, x)
    ensures LeftOf(FlipAll(s), x)
  {}

  lemma RaiseLeft(s: seq<Point>, d: real, x: real)
    requires LeftStrictly(s, x)
    ensures LeftStrictly(RaiseAll(s, d), x) && LeftOf(RaiseAll(s, d), x)
  {}

  lemma PrunedWithin(c: seq<Point>, k: nat, p: Point)
    requires k <= |c|
    ensures Within(c[..k] + [p], c + [p])
  {
    var d := c[..k] + [p];
    forall i | 0 <= i < |d| ensures d[i] in c + [p] {
      assert d[i] == if i < k then (c + [p])[i] else (c + [p])[|c|];
    }
  }

  ghost predicate LeftStrictly(s: seq<Point>, x: real) {
    forall i :: 0 <= i < |s| ==> s[i].x < x
  }

  lemma SortedLeft(pts: seq<Point>, x: real)
    requires Sorted(pts) && |pts| > 0 && pts[|pts| - 1].x < x
    ensures LeftStrictly(pts, x)
  {}

  lemma UpsLeftOrAbove(pts: seq<Point>, eps: real, p: Point)
    requires LeftStrictly(pts, p.x) && eps > 0.0
    ensures forall q :: q in RaiseAll(pts, eps) + [Raise(p, eps)] ==> q.x < p.x || (q.x == p.x && q.y > p.y - eps)
  {}

  /** The state after the first point of a segment ... */
  lemma FirstPoint(p: Point, eps: real, r: Rectangle)
    requires eps >= 0.0 && r.p0 == Raise(p, eps) && r.p1 == Raise(p, -eps)
    ensures Describes(r, [p], eps) && Fits([p], eps) && Sorted([p])
  {
    hide Fits;
    OnePointFits(p, eps);
  }

  lemma FirstIs(q: Point, eps: real, r: Rectangle, pts: seq<Point>)
    requires pts == [q] && Describes(r, pts, eps)
    ensures r.p0 == Raise(q, eps) && r.p1 == Raise(q, -eps)
  {}

  /** ... and after the second. */
  lemma SecondPoint(q: Point, p: Point, eps: real, r: Rectangle)
    requires q.x < p.x && eps >= 0.0
    requires r == Rectangle(Raise(q, eps), Raise(q, -eps), Raise(p, -eps), Raise(p, eps))
    ensures var pts := [q, p];
            var cu, fl := Chain(pts, 0, eps), FlipAll(Chain(pts, 0, -eps));
            && Sorted(pts) && Fits(pts, eps) && Describes(r, pts, eps) && Chains(pts, 0, pts, 0, eps, cu, fl)
            && Hulls(r, cu, fl, RaiseAll(pts, -eps), RaiseAll(pts, eps))
  {
    hide Hulls, Fits, Tight, RaiseAll, FlipAll, Anchored;
    TwoPoints(q, p, eps, r);
    var pts := [q, p];
    assert pts[0..] == pts;
    HullsFit(r, Chain(pts, 0, eps), FlipAll(Chain(pts, 0, -eps)), pts, eps);
  }

  lemma OnePointFits(p: Point, eps: real)
    requires eps >= 0.0
    ensures Fits([p], eps)
  {
    assert Feasible(Line(0.0, p.y), [p], eps);
  }

  lemma HullsFit(r: Rectangle, cu: seq<Point>, fl: seq<Point>, pts: seq<Point>, eps: real)
    requires Hulls(r, cu, fl, RaiseAll(pts, -eps), RaiseAll(pts, eps))
    ensures Tight(r, RaiseAll(pts, -eps), RaiseAll(pts, eps)) && r.p0.x < r.p2.x && r.p1.x < r.p3.x
    ensures Anchored(r, RaiseAll(pts, -eps), RaiseAll(pts, eps))
    ensures Fits(pts, eps)
  {
    FeasibleIsBetween(MinLine(r), pts, eps);
  }

  /** The four comparisons of add_point say on which side of an extreme line a point lies. */
  lemma Sides(r: Rectangle, p: Point)
    requires r.p0.x < r.p2.x < p.x && r.p1.x < r.p3.x < p.x
    ensures Less(Minus(p, r.p2), Minus(r.p2, r.p0)) <==> p.y < At(MinLine(r), p.x)
    ensures Greater(Minus(p, r.p0), Minus(r.p2, r.p0)) <==> p.y > At(MinLine(r), p.x)
    ensures Greater(Minus(p, r.p3), Minus(r.p3, r.p1)) <==> p.y > At(MaxLine(r), p.x)
    ensures Less(Minus(p, r.p1), Minus(r.p3, r.p1)) <==> p.y < At(MaxLine(r), p.x)
  {
    hide At, Less, Greater, Through;
    ThroughEnds(r.p0, r.p2);
    ThroughEnds(r.p1, r.p3);
    LessIsBelow(p, r.p2, r.p0, r.p2);
    LessIsBelow(p, r.p3, r.p1, r.p3);
    LessIsBelow(p, r.p1, r.p1, r.p3);
    LessIsBelow(p, r.p0, r.p0, r.p2);
  }

  lemma FlipTwiceAt(p: Point)
    ensures Flip(Flip(p)) == p
  {}

  lemma RaiseSnoc(s: seq<Point>, p: Point, d: real)
    ensures RaiseAll(s + [p], d) == RaiseAll(s, d) + [Raise(p, d)]
  {}

  lemma LeftSnoc(s: seq<Point>, eps: real, p: Point, p1: Point)
    requires LeftStrictly(s, p.x) && p1.x == p.x
    ensures LeftOf(RaiseAll(s, -eps), p.x) && LeftOf(RaiseAll(s, eps) + [p1], p.x)
  {}

  lemma FlipSides(r: Rectangle, p: Point)
    requires r.p0.x < r.p2.x && r.p1.x < r.p3.x
    ensures At(MinLine(FlipRectangle(r)), p.x) == -At(MaxLine(r), p.x)
    ensures At(MaxLine(FlipRectangle(r)), p.x) == -At(MinLine(r), p.x)
  {
    FlipLines(r);
    FlipAt(MaxLine(r), p.x);
    FlipAt(MinLine(r), p.x);
  }

  lemma AnchorsLeft(r: Rectangle, pts: seq<Point>, eps: real, x: real)
    requires Anchored(r, RaiseAll(pts, -eps), RaiseAll(pts, eps))
    requires LeftStrictly(pts, x)
    ensures r.p0.x < x && r.p1.x < x && r.p2.x < x && r.p3.x < x
  {
    var los, ups := RaiseAll(pts, -eps), RaiseAll(pts, eps);
    var a :| 0 <= a < |ups| && ups[a] == r.p0;
    var b :| 0 <= b < |los| && los[b] == r.p1;
    var c :| 0 <= c < |los| && los[c] == r.p2;
    var d :| 0 <= d < |ups| && ups[d] == r.p3;
  }

  /** With epsilon 0 the two extreme lines coincide, so no accepted point can turn either. */
  lemma SameLinesAtZero(r: Rectangle, pts: seq<Point>, eps: real, x: real)
    requires Tight(r, RaiseAll(pts, -eps), RaiseAll(pts, eps)) && eps >= 0.0
    ensures eps == 0.0 ==> At(MinLine(r), x) == At(MaxLine(r), x)
  {
    if eps == 0.0 {
      var los, ups := RaiseAll(pts, -eps), RaiseAll(pts, eps);
      assert los == ups;
      var l1, l2 := MinLine(r), MaxLine(r);
      ThroughEnds(r.p0, r.p2);
      assert At(l2, r.p0.x) == r.p0.y && At(l2, r.p2.x) == r.p2.y;
      GradeVersusLine(l2, r.p0, r.p2);
      Rise(l1, r.p0.x, x);
      Rise(l2, r.p0.x, x);
    }
  }

  lemma SkipUpper(r: Rectangle, cu: seq<Point>, fl: seq<Point>, los: seq<Point>, ups: seq<Point>, p: Point)
    requires Hulls(r, cu, fl, los, ups) && LeftOf(los, p.x) && LeftOf(ups, p.x)
    requires p.y >= At(MaxLine(r), p.x)
    ensures Hulls(r, cu, fl, los, ups + [p])
  {
    FlipHulls(r, cu, fl, los, ups);
    FlipSides(r, p);
    SkipLower(FlipRectangle(r), fl, cu, FlipAll(ups), FlipAll(los), Flip(p));
    FlipHulls(FlipRectangle(r), fl, cu, FlipAll(ups) + [Flip(p)], FlipAll(los));
    FlipTwice(los);
    FlipTwice(ups);
    FlipSnoc(FlipAll(ups), Flip(p));
    FlipTwiceAt(p);
    assert FlipRectangle(FlipRectangle(r)) == r;
  }

  lemma TwoPoints(q: Point, p: Point, eps: real, r: Rectangle)
    requires q.x < p.x && eps >= 0.0
    requires r == Rectangle(Raise(q, eps), Raise(q, -eps), Raise(p, -eps), Raise(p, eps))
    ensures Hulls(r, RaiseAll([q, p], eps), FlipAll(RaiseAll([q, p], -eps)),
                  RaiseAll([q, p], -eps), RaiseAll([q, p], eps))
  {
    var los, ups := RaiseAll([q, p], -eps), RaiseAll([q, p], eps);
    assert ups[0] == r.p0 && ups[1] == r.p3 && los[0] == r.p1 && los[1] == r.p2;
    ThroughEnds(r.p0, r.p2);
    ThroughEnds(r.p1, r.p3);
    assert Tight(r, los, ups);
    assert UpperHalf(r, ups, ups);
    assert UpperHalf(FlipRectangle(r), FlipAll(los), FlipAll(los));
  }
}
