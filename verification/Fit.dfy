/** The streaming optimal piecewise-linear fit: two extreme lines and two pruned hulls. */
module Fit {
  import opened Geometry
  import opened Envelope

  /** p0-p2 is the feasible line of least slope, p1-p3 the one of greatest slope. */
  datatype Rectangle = Rectangle(p0: Point, p1: Point, p2: Point, p3: Point)

  datatype Outcome = Accepted | Rejected | NotIncreasing

  function Raise(p: Point, d: real): Point {
    Point(p.x, p.y + d)
  }

  function RaiseAll(s: seq<Point>, d: real): seq<Point> {
    seq(|s|, i requires 0 <= i < |s| => Raise(s[i], d))
  }

  // ----- what the fit is for

  predicate Near(l: Line, p: Point, eps: real) {
    -eps <= At(l, p.x) - p.y <= eps
  }

  ghost predicate Feasible(l: Line, pts: seq<Point>, eps: real) {
    forall i :: 0 <= i < |pts| ==> Near(l, pts[i], eps)
  }

  ghost predicate Fits(pts: seq<Point>, eps: real) {
    exists l :: Feasible(l, pts, eps)
  }

  lemma FeasibleIsBetween(l: Line, pts: seq<Point>, eps: real)
    ensures Feasible(l, pts, eps) <==> Between(l, RaiseAll(pts, -eps), RaiseAll(pts, eps))
  {
    var los, ups := RaiseAll(pts, -eps), RaiseAll(pts, eps);
    if Feasible(l, pts, eps) {
      forall i | 0 <= i < |pts| ensures los[i].y <= At(l, los[i].x) && At(l, ups[i].x) <= ups[i].y {
        assert Near(l, pts[i], eps);
      }
    }
    if Between(l, los, ups) {
      forall i | 0 <= i < |pts| ensures Near(l, pts[i], eps) {
        assert los[i].y <= At(l, los[i].x) && At(l, ups[i].x) <= ups[i].y;
      }
    }
  }

  // ----- invariant of the four anchor points and of the hulls

  ghost predicate Anchored(r: Rectangle, los: seq<Point>, ups: seq<Point>) {
    && r.p0 in ups && r.p2 in los && r.p0.x < r.p2.x
    && r.p1 in los && r.p3 in ups && r.p1.x < r.p3.x
  }

  function MinLine(r: Rectangle): Line
    requires r.p0.x < r.p2.x
  {
    Through(r.p0, r.p2)
  }

  function MaxLine(r: Rectangle): Line
    requires r.p1.x < r.p3.x
  {
    Through(r.p1, r.p3)
  }

  ghost predicate Tight(r: Rectangle, los: seq<Point>, ups: seq<Point>) {
    && Anchored(r, los, ups)
    && Between(MinLine(r), los, ups)
    && Between(MaxLine(r), los, ups)
  }

  function FlipRectangle(r: Rectangle): Rectangle {
    Rectangle(Flip(r.p1), Flip(r.p0), Flip(r.p3), Flip(r.p2))
  }

  ghost predicate UpperHalf(r: Rectangle, c: seq<Point>, ups: seq<Point>)
    requires r.p0.x < r.p2.x && r.p1.x < r.p3.x
  {
    && |c| > 0 && c[0] == r.p0 && Convex(c) && Within(c, ups)
    && Covers(c, ups, MinLine(r).a, MaxLine(r).a)
  }

  /** cu is the active upper chain, fl the reflection of the active lower chain. */
  ghost predicate Hulls(r: Rectangle, cu: seq<Point>, fl: seq<Point>, los: seq<Point>, ups: seq<Point>) {
    && Tight(r, los, ups)
    && UpperHalf(r, cu, ups)
    && UpperHalf(FlipRectangle(r), fl, FlipAll(los))
  }

  lemma HullFacts(r: Rectangle, cu: seq<Point>, fl: seq<Point>, los: seq<Point>, ups: seq<Point>)
    requires Hulls(r, cu, fl, los, ups)
    ensures Tight(r, los, ups) && r.p0.x < r.p2.x && r.p1.x < r.p3.x
    ensures |cu| > 0 && cu[0] == r.p0 && Convex(cu) && Within(cu, ups)
    ensures |fl| > 0 && fl[0] == Flip(r.p1) && Convex(fl) && Within(fl, FlipAll(los))
  {}

  lemma FlipLines(r: Rectangle)
    requires r.p0.x < r.p2.x && r.p1.x < r.p3.x
    ensures MinLine(FlipRectangle(r)) == FlipLine(MaxLine(r))
    ensures MaxLine(FlipRectangle(r)) == FlipLine(MinLine(r))
  {
    FlipThrough(r.p1, r.p3);
    FlipThrough(r.p0, r.p2);
  }

  lemma FlipTwice(s: seq<Point>)
    ensures FlipAll(FlipAll(s)) == s
  {}

  lemma FlipIn(p: Point, s: seq<Point>)
    requires p in s
    ensures Flip(p) in FlipAll(s)
  {
    var i :| 0 <= i < |s| && s[i] == p;
    assert FlipAll(s)[i] == Flip(p);
  }

  /** Reflection exchanges the two halves of the state. */
  lemma FlipHulls(r: Rectangle, cu: seq<Point>, fl: seq<Point>, los: seq<Point>, ups: seq<Point>)
    requires Hulls(r, cu, fl, los, ups)
    ensures Hulls(FlipRectangle(r), fl, cu, FlipAll(ups), FlipAll(los))
  {
    FlipLines(r);
    FlipTwice(ups);
    FlipIn(r.p0, ups);
    FlipIn(r.p1, los);
    FlipIn(r.p2, los);
    FlipIn(r.p3, ups);
    FlipUnder(MinLine(r), los);
    FlipUnder(MinLine(r), ups);
    FlipUnder(MaxLine(r), los);
    FlipUnder(MaxLine(r), ups);
    assert FlipRectangle(FlipRectangle(r)) == r;
  }

  /** Every feasible line has its slope between the two extremes, and leaves the extremes' right anchors
      on the side of its own. */
  lemma ExtremeLines(r: Rectangle, los: seq<Point>, ups: seq<Point>, l: Line)
    requires Anchored(r, los, ups) && Between(l, los, ups)
    ensures MinLine(r).a <= l.a <= MaxLine(r).a
    ensures forall x :: x >= r.p2.x ==> At(MinLine(r), x) <= At(l, x)
    ensures forall x :: x >= r.p3.x ==> At(l, x) <= At(MaxLine(r), x)
  {
    ThroughEnds(r.p0, r.p2);
    ThroughEnds(r.p1, r.p3);
    GradeVersusLine(l, r.p0, r.p2);
    GradeVersusLine(l, r.p1, r.p3);
    forall x | x >= r.p2.x ensures At(MinLine(r), x) <= At(l, x) {
      Diverge(MinLine(r), l, r.p2.x, x);
    }
    forall x | x >= r.p3.x ensures At(l, x) <= At(MaxLine(r), x) {
      Diverge(l, MaxLine(r), r.p3.x, x);
    }
  }

  ghost predicate LeftOf(s: seq<Point>, x: real) {
    forall i :: 0 <= i < |s| ==> s[i].x <= x
  }

  lemma BetweenMore(l: Line, los: seq<Point>, ups: seq<Point>, p: Point)
    requires Between(l, los, ups) && At(l, p.x) >= p.y
    ensures Between(l, los + [p], ups)
  {}

  lemma FlipSnoc(s: seq<Point>, p: Point)
    ensures FlipAll(s + [p]) == FlipAll(s) + [Flip(p)]
  {}

  /** A lower point on or below the least-slope line changes nothing. */
  lemma SkipLower(r: Rectangle, cu: seq<Point>, fl: seq<Point>, los: seq<Point>, ups: seq<Point>, p: Point)
    requires Hulls(r, cu, fl, los, ups) && LeftOf(los, p.x) && LeftOf(ups, p.x)
    requires p.y <= At(MinLine(r), p.x)
    ensures Hulls(r, cu, fl, los + [p], ups)
  {
    var l1, l2 := MinLine(r), MaxLine(r);
    ThroughEnds(r.p0, r.p2);
    ExtremeLines(r, los, ups, l2);
    BetweenMore(l1, los, ups, p);
    BetweenMore(l2, los, ups, p);
    FlipLines(r);
    FlipIn(r.p2, los);
    FlipAt(l1, r.p2.x);
    FlipAt(l1, p.x);
    SkipCovers(fl, FlipAll(los), -l2.a, FlipLine(l1), Flip(r.p2), Flip(p));
    FlipSnoc(los, p);
  }

  /** A lower point above the least-slope line rotates that line about the tangent point of the upper chain
      and joins the lower chain. */
  lemma PushLower(r: Rectangle, cu: seq<Point>, fl: seq<Point>, los: seq<Point>, ups: seq<Point>, p: Point,
                  m: int, d: seq<Point>)
    requires Hulls(r, cu, fl, los, ups) && LeftOf(los, p.x) && LeftOf(ups, p.x)
    requires At(MinLine(r), p.x) < p.y <= At(MaxLine(r), p.x)
    requires IsTangent(cu, m, p)
    requires |d| > 0 && d[0] == fl[0] && Convex(d)
    requires Within(d, fl + [Flip(p)]) && Dominates(d, fl + [Flip(p)])
    ensures Hulls(r.(p0 := cu[m], p2 := p), cu[m..], d, los + [p], ups)
    ensures forall q :: q in ups && q.x < p.x ==> Grade(q, p) <= Grade(cu[m], p)
  {
    var l1, l2 := MinLine(r), MaxLine(r);
    ThroughEnds(r.p0, r.p2);
    ExtremeLines(r, los, ups, l2);
    RotateMin(los, ups, l1, l2, cu, m, p);
    var n := Through(cu[m], p);
    var r' := r.(p0 := cu[m], p2 := p);
    assert MinLine(r') == n && MaxLine(r') == l2;
    ThroughEnds(cu[m], p);
    BetweenMore(n, los, ups, p);
    BetweenMore(l2, los, ups, p);
    SliceConvex(cu, m);
    FlipLines(r);
    FlipLines(r');
    PushCovers(fl, d, FlipAll(los), Flip(p), -l2.a, -l1.a, -l2.a, -n.a);
    FlipSnoc(los, p);
    assert Tight(r', los + [p], ups);
    assert UpperHalf(r', cu[m..], ups);
    assert Within(d, FlipAll(los + [p]));
    forall q | q in ups && q.x < p.x ensures Grade(q, p) <= n.a {
      GradeVersusLine(n, q, p);
    }
  }

  /** The rejection test is complete: a point outside the two extreme lines is within reach of no line. */
  lemma RejectIsFinal(r: Rectangle, pts: seq<Point>, eps: real, p: Point)
    requires Tight(r, RaiseAll(pts, -eps), RaiseAll(pts, eps)) && LeftOf(pts, p.x)
    requires p.y + eps < At(MinLine(r), p.x) || p.y - eps > At(MaxLine(r), p.x)
    ensures !Fits(pts + [p], eps)
  {
    var los, ups := RaiseAll(pts, -eps), RaiseAll(pts, eps);
    forall l ensures !Feasible(l, pts + [p], eps) {
      if Feasible(l, pts + [p], eps) {
        assert Near(l, (pts + [p])[|pts|], eps);
        assert Feasible(l, pts, eps) by {
          forall i | 0 <= i < |pts| ensures Near(l, pts[i], eps) {
            assert Near(l, (pts + [p])[i], eps);
          }
        }
        FeasibleIsBetween(l, pts, eps);
        ExtremeLines(r, los, ups, l);
        assert false;
      }
    }
  }

  // ----- the loops of add_point

  function Chain(hull: seq<Point>, start: nat, off: real): seq<Point>
    requires start <= |hull|
  {
    RaiseAll(hull[start..], off)
  }

  function At0(hull: seq<Point>, off: real, i: nat): Point
    requires i < |hull|
  {
    Raise(hull[i], off)
  }

  /** A chain point straight above p ends the scan. */
  lemma StraightAbove(val: Slope, max: Slope)
    requires max.dx < 0.0
    ensures val.dx == 0.0 && val.dy > 0.0 ==> Less(val, max)
  {
    if val.dx == 0.0 && val.dy > 0.0 {
      PositiveProduct(-max.dx, val.dy);
      NegatedProduct(max.dx, val.dy);
    }
  }

  /** The early-exit scan for the steepest upper point seen from p finds the true maximum over the chain. */
  method ScanUpper(hull: seq<Point>, off: real, start: nat, p: Point) returns (m: nat)
    requires start < |hull| && Convex(Chain(hull, start, off)) && hull[start].x < p.x
    requires forall j :: start <= j < |hull| ==>
                           hull[j].x < p.x || (hull[j].x == p.x && hull[j].y + off > p.y)
    ensures start <= m < |hull| && IsTangent(Chain(hull, start, off), m - start, p)
  {
    ghost var c := Chain(hull, start, off);
    var max := Minus(At0(hull, off, start), p);
    m := start;
    var i := start + 1;
    while i < |hull|
      invariant start < i <= |hull| && m == i - 1 && hull[m].x < p.x
      invariant max == Minus(At0(hull, off, m), p)
      invariant forall j :: 0 <= j <= m - start ==> NotSteeper(c[j], c[m - start], p)
    {
      var val := Minus(At0(hull, off, i), p);
      assert c[i - start] == At0(hull, off, i) && c[m - start] == At0(hull, off, m);
      if Less(val, max) {
        forall j | 0 <= j < |c| ensures NotSteeper(c[j], c[m - start], p) {
          if j > m - start && c[j].x < p.x {
            assert c[i - start].x <= c[j].x;
            LessIsGrade(c[i - start], c[m - start], p);
            Decline(c, m - start, j, p);
          } else if j > m - start {
            assert c[j] == Raise(hull[start + j], off);
          }
        }
        return;
      }
      assert hull[i].x < p.x by {
        StraightAbove(val, max);
      }
      LessIsGrade(c[i - start], c[m - start], p);
      forall j | 0 <= j <= i - start ensures NotSteeper(c[j], c[i - start], p) {
        if j < i - start {
          assert NotSteeper(c[j], c[m - start], p);
          assert c[j].x <= c[m - start].x;
        }
      }
      max := val;
      m := i;
      i := i + 1;
    }
  }

  lemma FlipCompare(q: Point, r: Point, p: Point)
    ensures Greater(Minus(q, p), Minus(r, p)) <==> Less(Minus(Flip(q), Flip(p)), Minus(Flip(r), Flip(p)))
  {
    var s, t := Minus(q, p), Minus(r, p);
    assert Minus(Flip(q), Flip(p)) == Slope(s.dx, -s.dy);
    assert Minus(Flip(r), Flip(p)) == Slope(t.dx, -t.dy);
    assert (-s.dy) * t.dx == -(s.dy * t.dx);
    assert s.dx * (-t.dy) == -(s.dx * t.dy);
  }

  /** The mirror-image scan over the lower hull. */
  method ScanLower(hull: seq<Point>, off: real, start: nat, p: Point) returns (m: nat)
    requires start < |hull| && Convex(FlipAll(Chain(hull, start, off)))
    requires forall j :: start <= j < |hull| ==> hull[j].x < p.x
    ensures start <= m < |hull| && IsTangent(FlipAll(Chain(hull, start, off)), m - start, Flip(p))
  {
    ghost var c := FlipAll(Chain(hull, start, off));
    var min := Minus(At0(hull, off, start), p);
    m := start;
    var i := start + 1;
    while i < |hull|
      invariant start < i <= |hull| && m == i - 1
      invariant min == Minus(At0(hull, off, m), p)
      invariant forall j :: 0 <= j <= m - start ==> NotSteeper(c[j], c[m - start], Flip(p))
    {
      var val := Minus(At0(hull, off, i), p);
      assert c[i - start] == Flip(At0(hull, off, i)) && c[m - start] == Flip(At0(hull, off, m));
      FlipCompare(At0(hull, off, i), At0(hull, off, m), p);
      LessIsGrade(c[i - start], c[m - start], Flip(p));
      if Greater(val, min) {
        forall j | 0 <= j < |c| ensures NotSteeper(c[j], c[m - start], Flip(p)) {
          assert c[j] == Flip(Raise(hull[start + j], off));
          if j > m - start {
            Decline(c, m - start, j, Flip(p));
          }
        }
        return;
      }
      forall j | 0 <= j <= i - start ensures NotSteeper(c[j], c[i - start], Flip(p)) {
        if j < i - start {
          assert NotSteeper(c[j], c[m - start], Flip(p));
          assert c[j] == Flip(Raise(hull[start + j], off));
        }
      }
      min := val;
      m := i;
      i := i + 1;
    }
  }

  // ----- pruning

  lemma SortedSnoc(c: seq<Point>, p: Point)
    requires Sorted(c) && |c| > 0 && c[|c| - 1].x < p.x
    ensures Sorted(c + [p])
  {}

  lemma DominatesSelf(c: seq<Point>)
    ensures Dominates(c, c)
  {}

  lemma PruneStep(c: seq<Point>, k: nat, p: Point, all: seq<Point>)
    requires Convex(c) && 2 <= k <= |c| && c[|c| - 1].x < p.x
    requires Cross(c[k - 2], c[k - 1], p) <= 0.0
    requires Dominates(c[..k] + [p], all)
    ensures Dominates(c[..k - 1] + [p], all)
  {
    var e := c[..k];
    SliceConvex(c, k);
    SortedSnoc(e, p);
    PopDominates(e, p, all);
    assert e[..k - 1] == c[..k - 1];
  }

  lemma PruneDone(c: seq<Point>, k: nat, p: Point)
    requires Convex(c) && 1 <= k <= |c| && c[|c| - 1].x < p.x
    requires k >= 2 ==> Cross(c[k - 2], c[k - 1], p) > 0.0
    ensures Convex(c[..k] + [p])
  {
    SliceConvex(c, k);
    SortedSnoc(c[..k], p);
    PushConvex(c[..k], p);
  }

  lemma ChainPrefix(hull: seq<Point>, off: real, start: nat, end: nat)
    requires start <= end <= |hull|
    ensures Chain(hull[..end], start, off) == Chain(hull, start, off)[..end - start]
    ensures FlipAll(Chain(hull[..end], start, off)) == FlipAll(Chain(hull, start, off))[..end - start]
  {}

  /** Pruning keeps the chain convex with the new point at its end, and loses no constraint. */
  method PruneUpper(hull: seq<Point>, off: real, start: nat, p: Point) returns (end: nat)
    requires start < |hull| && Convex(Chain(hull, start, off)) && hull[|hull| - 1].x < p.x
    ensures start < end <= |hull|
    ensures Convex(Chain(hull[..end], start, off) + [p])
    ensures Dominates(Chain(hull[..end], start, off) + [p], Chain(hull, start, off) + [p])
  {
    hide Convex, Dominates, Cross;
    ghost var c := Chain(hull, start, off);
    end := |hull|;
    assert c[..end - start] == c;
    DominatesSelf(c + [p]);
    while end >= start + 2 && Cross(At0(hull, off, end - 2), At0(hull, off, end - 1), p) <= 0.0
      invariant start < end <= |hull|
      invariant Dominates(c[..end - start] + [p], c + [p])
    {
      PruneStep(c, end - start, p, c + [p]);
      end := end - 1;
    }
    PruneDone(c, end - start, p);
    ChainPrefix(hull, off, start, end);
  }

  lemma FlipCross(a: Point, b: Point, c: Point)
    ensures Cross(Flip(a), Flip(b), Flip(c)) == -Cross(a, b, c)
  {
    var s, t := Minus(b, a), Minus(c, a);
    assert Minus(Flip(b), Flip(a)) == Slope(s.dx, -s.dy);
    assert Minus(Flip(c), Flip(a)) == Slope(t.dx, -t.dy);
    assert s.dx * (-t.dy) == -(s.dx * t.dy);
    assert (-s.dy) * t.dx == -(s.dy * t.dx);
  }

  /** The mirror image on the lower hull. */
  method PruneLower(hull: seq<Point>, off: real, start: nat, p: Point) returns (end: nat)
    requires start < |hull| && Convex(FlipAll(Chain(hull, start, off))) && hull[|hull| - 1].x < p.x
    ensures start < end <= |hull|
    ensures Convex(FlipAll(Chain(hull[..end], start, off)) + [Flip(p)])
    ensures Dominates(FlipAll(Chain(hull[..end], start, off)) + [Flip(p)],
                      FlipAll(Chain(hull, start, off)) + [Flip(p)])
  {
    hide Convex, Dominates, Cross;
    ghost var c := FlipAll(Chain(hull, start, off));
    ghost var q := Flip(p);
    end := |hull|;
    assert c[..end - start] == c;
    DominatesSelf(c + [q]);
    while end >= start + 2 && Cross(At0(hull, off, end - 2), At0(hull, off, end - 1), p) >= 0.0
      invariant start < end <= |hull|
      invariant Dominates(c[..end - start] + [q], c + [q])
    {
      FlipCross(At0(hull, off, end - 2), At0(hull, off, end - 1), p);
      PruneStep(c, end - start, q, c + [q]);
      end := end - 1;
    }
    if end >= start + 2 {
      FlipCross(At0(hull, off, end - 2), At0(hull, off, end - 1), p);
    }
    PruneDone(c, end - start, q);
    ChainPrefix(hull, off, start, end);
  }
}
