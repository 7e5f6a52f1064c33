/** Convex chains of constraint points, and what one rotation of an extreme line does to them.
    Everything is stated for the upper constraints; the lower side is the reflection. */
module Envelope {
  import opened Geometry

  ghost predicate Sorted(c: seq<Point>) {
    forall i, j :: 0 <= i < j < |c| ==> c[i].x < c[j].x
  }

  ghost predicate LeftTurn(c: seq<Point>, i: nat)
    requires i + 2 < |c|
  {
    Cross(c[i], c[i + 1], c[i + 2]) > 0.0
  }

  ghost predicate Convex(c: seq<Point>) {
    Sorted(c) && forall i: nat :: i + 2 < |c| ==> LeftTurn(c, i)
  }

  ghost predicate Under(l: Line, c: seq<Point>) {
    forall i :: 0 <= i < |c| ==> At(l, c[i].x) <= c[i].y
  }

  ghost predicate Over(l: Line, c: seq<Point>) {
    forall i :: 0 <= i < |c| ==> At(l, c[i].x) >= c[i].y
  }

  ghost predicate Between(l: Line, los: seq<Point>, ups: seq<Point>) {
    Over(l, los) && Under(l, ups)
  }

  /** Among lines of slope in [lo, hi], staying under the chain c is staying under all of `all`. */
  ghost predicate Covers(c: seq<Point>, all: seq<Point>, lo: real, hi: real) {
    forall l: Line :: lo <= l.a <= hi && Under(l, c) ==> Under(l, all)
  }

  ghost predicate Dominates(c: seq<Point>, d: seq<Point>) {
    forall l :: Under(l, c) ==> Under(l, d)
  }

  ghost predicate Within(c: seq<Point>, all: seq<Point>) {
    forall i :: 0 <= i < |c| ==> c[i] in all
  }

  /** c[m] is seen from p under the greatest grade; a chain point straight above p is not in the race. */
  ghost predicate IsTangent(c: seq<Point>, m: int, p: Point) {
    && 0 <= m < |c| && c[m].x < p.x
    && forall j :: 0 <= j < |c| ==> NotSteeper(c[j], c[m], p)
  }

  ghost predicate NotSteeper(q: Point, t: Point, p: Point)
    requires t.x < p.x
  {
    if q.x < p.x then Grade(q, p) <= Grade(t, p) else q.x == p.x && q.y >= p.y
  }

  lemma FlipUnder(l: Line, c: seq<Point>)
    ensures Under(FlipLine(l), FlipAll(c)) <==> Over(l, c)
    ensures Over(FlipLine(l), FlipAll(c)) <==> Under(l, c)
  {
    forall i | 0 <= i < |c|
      ensures At(FlipLine(l), FlipAll(c)[i].x) == -At(l, c[i].x)
    {
      FlipAt(l, c[i].x);
    }
    if Under(FlipLine(l), FlipAll(c)) {
      forall i | 0 <= i < |c| ensures At(l, c[i].x) >= c[i].y {
        assert At(FlipLine(l), FlipAll(c)[i].x) <= FlipAll(c)[i].y;
      }
    }
    if Over(FlipLine(l), FlipAll(c)) {
      forall i | 0 <= i < |c| ensures At(l, c[i].x) <= c[i].y {
        assert At(FlipLine(l), FlipAll(c)[i].x) >= FlipAll(c)[i].y;
      }
    }
  }

  // ----- the early exit of the tangent scan

  /** On a convex chain, once the grade to p drops it keeps dropping. */
  lemma {:induction false} Decline(c: seq<Point>, i: int, j: int, p: Point)
    requires Convex(c) && 0 <= i < i + 1 <= j < |c| && c[j].x < p.x
    requires Grade(c[i + 1], p) < Grade(c[i], p)
    ensures Grade(c[j], p) < Grade(c[j - 1], p)
    ensures Grade(c[j], p) < Grade(c[i], p)
  {
    if j > i + 1 {
      Decline(c, i, j - 1, p);
      assert LeftTurn(c, j - 2);
      CrossIsTurn(c[j - 2], c[j - 1], c[j]);
      Mediant(c[j - 2], c[j - 1], p);
      Mediant(c[j - 1], c[j], p);
    }
  }

  // ----- the rotation

  function Mix(u: real, v: real, t: real): real {
    u + Times(t, v - u)
  }

  function Blend(l: Line, m: Line, t: real): Line {
    Line(Mix(l.a, m.a, t), Mix(l.b, m.b, t))
  }

  lemma BlendAt(l: Line, m: Line, t: real, x: real)
    ensures At(Blend(l, m, t), x) == Mix(At(l, x), At(m, x), t)
  {
    MixLinear(l.a, m.a, l.b, m.b, t, x);
  }

  lemma MixLinear(a: real, c: real, b: real, d: real, t: real, x: real)
    ensures Mix(a, c, t) * x + Mix(b, d, t) == Mix(a * x + b, c * x + d, t)
  {
    assert (a + t * (c - a)) * x == a * x + t * (c * x) - t * (a * x);
    assert t * (c * x + d - (a * x + b)) == t * (c * x) + t * d - t * (a * x) - t * b;
    assert t * (d - b) == t * d - t * b;
  }

  lemma BlendBetween(l: Line, m: Line, t: real, los: seq<Point>, ups: seq<Point>)
    requires 0.0 <= t <= 1.0
    requires Between(l, los, ups) && Between(m, los, ups)
    ensures Between(Blend(l, m, t), los, ups)
  {
    forall i | 0 <= i < |ups|
      ensures At(Blend(l, m, t), ups[i].x) <= ups[i].y
    {
      var u, v := At(l, ups[i].x), At(m, ups[i].x);
      BlendAt(l, m, t, ups[i].x);
      Convexity(u, v, t);
    }
    forall i | 0 <= i < |los|
      ensures At(Blend(l, m, t), los[i].x) >= los[i].y
    {
      var u, v := At(l, los[i].x), At(m, los[i].x);
      BlendAt(l, m, t, los[i].x);
      Convexity(u, v, t);
    }
  }

  lemma Convexity(u: real, v: real, t: real)
    requires 0.0 <= t <= 1.0
    ensures u <= v ==> u <= Mix(u, v, t) <= v
    ensures v <= u ==> v <= Mix(u, v, t) <= u
  {
    var d := v - u;
    assert Times(0.0, d) == 0.0 && Times(1.0, d) == d;
    hide Times;
    if d >= 0.0 {
      MonotoneTimes(0.0, t, d);
      MonotoneTimes(t, 1.0, d);
    } else {
      MonotoneTimes(t, 0.0, d);
      MonotoneTimes(1.0, t, d);
    }
  }

  /** Between two feasible lines there is a feasible line through every height in between. */
  lemma Interpolate(l: Line, m: Line, los: seq<Point>, ups: seq<Point>, p: Point) returns (k: Line)
    requires Between(l, los, ups) && Between(m, los, ups) && l.a <= m.a
    requires At(l, p.x) < p.y <= At(m, p.x)
    ensures Between(k, los, ups) && l.a <= k.a <= m.a && At(k, p.x) == p.y
  {
    var u, v := At(l, p.x), At(m, p.x);
    var t := (p.y - u) / (v - u);
    Fraction(u, v, p.y);
    k := Blend(l, m, t);
    BlendAt(l, m, t, p.x);
    BlendBetween(l, m, t, los, ups);
    Convexity(l.a, m.a, t);
  }

  lemma Fraction(u: real, v: real, y: real)
    requires u < y <= v
    ensures var t := (y - u) / (v - u); 0.0 <= t <= 1.0 && Mix(u, v, t) == y
  {
    var h := v - u;
    var t := (y - u) / h;
    assert Times(t, h) == y - u;
    assert Times(0.0, h) == 0.0 && Times(1.0, h) == h;
    OrderTimes(0.0, t, h);
    OrderTimes(t, 1.0, h);
  }

  /** Rotating the least-slope line onto a new lower point p, about the tangent point of the upper chain:
      the new line is feasible, its slope lies between the old extremes, and the part of the chain before
      the tangent point is no longer needed. */
  lemma RotateMin(los: seq<Point>, ups: seq<Point>, l1: Line, l2: Line, c: seq<Point>, m: int, p: Point)
    requires Between(l1, los, ups) && Between(l2, los, ups) && l1.a <= l2.a
    requires At(l1, p.x) < p.y <= At(l2, p.x)
    requires Sorted(c) && IsTangent(c, m, p) && Within(c, ups) && At(l1, c[0].x) == c[0].y
    requires Covers(c, ups, l1.a, l2.a)
    requires forall i :: 0 <= i < |los| ==> los[i].x <= p.x
    ensures var n := Through(c[m], p);
            && Between(n, los, ups) && l1.a <= n.a <= l2.a
            && Covers(c[m..], ups, n.a, l2.a)
  {
    var n := Through(c[m], p);
    ThroughEnds(c[m], p);
    var k := Interpolate(l1, l2, los, ups, p);
    assert n.a <= k.a by {
      assert c[m] in ups;
      GradeVersusLine(k, c[m], p);
    }
    assert l1.a <= n.a by {
      assert NotSteeper(c[0], c[m], p);
      assert c[0].x < p.x;
      GradeVersusLine(l1, c[0], p);
    }
    assert Under(n, c) by {
      forall j | 0 <= j < |c| ensures At(n, c[j].x) <= c[j].y {
        assert NotSteeper(c[j], c[m], p);
        if c[j].x < p.x {
          GradeVersusLine(n, c[j], p);
        }
      }
    }
    assert Over(n, los) by {
      forall i | 0 <= i < |los| ensures At(n, los[i].x) >= los[i].y {
        Diverge(k, n, p.x, los[i].x);
      }
    }
    RestCovers(ups, n, l1.a, l2.a, c, m);
  }

  lemma RestCovers(ups: seq<Point>, n: Line, lo: real, hi: real, c: seq<Point>, m: int)
    requires Sorted(c) && 0 <= m < |c| && lo <= n.a
    requires Under(n, c) && At(n, c[m].x) == c[m].y
    requires Covers(c, ups, lo, hi)
    ensures Covers(c[m..], ups, n.a, hi)
  {
    forall l: Line | n.a <= l.a <= hi && Under(l, c[m..]) ensures Under(l, ups) {
      forall j | 0 <= j < |c| ensures At(l, c[j].x) <= c[j].y {
        if j < m {
          assert c[m..][0] == c[m];
          Diverge(l, n, c[m].x, c[j].x);
        } else {
          assert c[m..][j - m] == c[j];
        }
      }
      assert Under(l, c);
    }
  }

  // ----- what a new point does to the covering chain

  /** A new upper point on or above the steepest line adds nothing to the chain. */
  lemma SkipCovers(c: seq<Point>, ups: seq<Point>, lo: real, l2: Line, q: Point, p: Point)
    requires Covers(c, ups, lo, l2.a)
    requires q in ups && At(l2, q.x) == q.y && q.x <= p.x && At(l2, p.x) <= p.y
    ensures Covers(c, ups + [p], lo, l2.a)
  {
    forall l: Line | lo <= l.a <= l2.a && Under(l, c) ensures Under(l, ups + [p]) {
      assert Under(l, ups);
      Diverge(l, l2, q.x, p.x);
    }
  }

  lemma PushCovers(c: seq<Point>, d: seq<Point>, ups: seq<Point>, p: Point,
                   lo: real, hi: real, lo': real, hi': real)
    requires Covers(c, ups, lo, hi) && lo <= lo' && hi' <= hi
    requires Dominates(d, c + [p])
    ensures Covers(d, ups + [p], lo', hi')
  {
    forall l: Line | lo' <= l.a <= hi' && Under(l, d) ensures Under(l, ups + [p]) {
      assert Under(l, c + [p]);
      forall i | 0 <= i < |c| ensures At(l, c[i].x) <= c[i].y {
        assert (c + [p])[i] == c[i];
      }
      assert Under(l, c) && Under(l, ups);
      assert (c + [p])[|c|] == p;
    }
  }

  /** Dropping the last chain point is harmless when it is on or above the chord to the new point. */
  lemma PopDominates(c: seq<Point>, p: Point, all: seq<Point>)
    requires |c| >= 2 && Sorted(c + [p])
    requires Cross(c[|c| - 2], c[|c| - 1], p) <= 0.0
    requires Dominates(c + [p], all)
    ensures Dominates(c[..|c| - 1] + [p], all)
  {
    var e := |c| - 1;
    forall l | Under(l, c[..e] + [p]) ensures Under(l, all) {
      assert (c[..e] + [p])[e - 1] == c[e - 1];
      assert (c[..e] + [p])[e] == p;
      assert (c + [p])[e - 1].x < (c + [p])[e].x < (c + [p])[e + 1].x;
      ChordCovers(l, c[e - 1], c[e], p);
      forall i | 0 <= i < |c| + 1 ensures At(l, (c + [p])[i].x) <= (c + [p])[i].y {
        if i < e {
          assert (c[..e] + [p])[i] == c[i];
        }
      }
      assert Under(l, c + [p]);
    }
  }

  lemma PushConvex(c: seq<Point>, p: Point)
    requires Convex(c) && Sorted(c + [p])
    requires |c| >= 2 ==> Cross(c[|c| - 2], c[|c| - 1], p) > 0.0
    ensures Convex(c + [p])
  {
    var d := c + [p];
    forall i: nat | i + 2 < |d| ensures LeftTurn(d, i) {
      if i + 2 < |c| {
        assert LeftTurn(c, i);
      }
    }
  }

  lemma SliceConvex(c: seq<Point>, m: nat)
    requires Convex(c) && m <= |c|
    ensures Convex(c[m..]) && Convex(c[..m])
  {
    forall i: nat | i + 2 < |c[m..]| ensures LeftTurn(c[m..], i) {
      assert LeftTurn(c, i + m);
    }
    forall i: nat | i + 2 < |c[..m]| ensures LeftTurn(c[..m], i) {
      assert LeftTurn(c, i);
    }
  }
}
