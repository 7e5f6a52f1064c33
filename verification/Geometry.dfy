/** Exact plane geometry behind the streaming linear fit: points, lines and slopes over the reals. */
module Geometry {

  datatype Point = Point(x: real, y: real)

  /** A difference of two points; slopes are compared by cross multiplication, never by division. */
  datatype Slope = Slope(dx: real, dy: real)

  /** The line y = a*x + b. */
  datatype Line = Line(a: real, b: real)

  function Minus(p: Point, q: Point): Slope {
    Slope(p.x - q.x, p.y - q.y)
  }

  predicate Less(s: Slope, t: Slope) {
    s.dy * t.dx < s.dx * t.dy
  }

  predicate Greater(s: Slope, t: Slope) {
    s.dy * t.dx > s.dx * t.dy
  }

  function Cross(o: Point, a: Point, b: Point): real {
    var oa, ob := Minus(a, o), Minus(b, o);
    oa.dx * ob.dy - oa.dy * ob.dx
  }

  function At(l: Line, x: real): real {
    l.a * x + l.b
  }

  /** The slope of the segment from q to p. */
  function Grade(q: Point, p: Point): real
    requires q.x != p.x
  {
    (p.y - q.y) / (p.x - q.x)
  }

  function Through(q: Point, p: Point): Line
    requires q.x != p.x
  {
    Line(Grade(q, p), q.y - Grade(q, p) * q.x)
  }

  // ----- reflection in the x axis: swaps the upper and the lower side of the fit

  function Flip(p: Point): Point {
    Point(p.x, -p.y)
  }

  function FlipAll(s: seq<Point>): seq<Point> {
    seq(|s|, i requires 0 <= i < |s| => Flip(s[i]))
  }

  function FlipLine(l: Line): Line {
    Line(-l.a, -l.b)
  }

  lemma FlipAt(l: Line, x: real)
    ensures At(FlipLine(l), x) == -At(l, x)
  {
    assert (-l.a) * x == -(l.a * x);
  }

  lemma FlipThrough(q: Point, p: Point)
    requires q.x != p.x
    ensures Through(Flip(q), Flip(p)) == FlipLine(Through(q, p))
  {
    hide Grade, Times;
    GradeTimes(q, p);
    GradeTimes(Flip(q), Flip(p));
    var g, h, w := Grade(q, p), Grade(Flip(q), Flip(p)), p.x - q.x;
    TimesNegated(g, w);
    SameTimes(-g, h, w);
    NegatedProduct(g, q.x);
  }

  // ----- products of reals

  lemma NegatedProduct(a: real, b: real)
    ensures (-a) * b == -(a * b) && a * (-b) == -(a * b)
  {}

  lemma ZeroProduct(z: real, w: real)
    requires w != 0.0 && z * w == 0.0
    ensures z == 0.0
  {}

  lemma PositiveProduct(a: real, b: real)
    ensures a > 0.0 && b > 0.0 ==> a * b > 0.0
  {}

  /** Multiplication under a name of its own: proofs that hide it reason with the laws below only. */
  function Times(a: real, w: real): real {
    a * w
  }

  lemma TimesAdd(a: real, u: real, v: real)
    ensures Times(a, u + v) == Times(a, u) + Times(a, v)
  {}

  lemma TimesNegated(a: real, w: real)
    ensures Times(-a, w) == -Times(a, w)
  {}

  lemma SameTimes(a: real, b: real, w: real)
    requires w != 0.0 && Times(a, w) == Times(b, w)
    ensures a == b
  {
    assert (a - b) * w == a * w - b * w;
    ZeroProduct(a - b, w);
  }

  lemma OrderTimes(a: real, b: real, w: real)
    requires w > 0.0
    ensures a <= b <==> Times(a, w) <= Times(b, w)
    ensures a < b <==> Times(a, w) < Times(b, w)
  {
    assert (a - b) * w == a * w - b * w;
  }

  lemma MonotoneTimes(a: real, b: real, w: real)
    requires (a <= b && w >= 0.0) || (a >= b && w <= 0.0)
    ensures Times(a, w) <= Times(b, w)
  {
    assert (a - b) * w == a * w - b * w;
    assert (a - b) * w <= 0.0;
  }

  // ----- lines and grades

  lemma GradeTimes(q: Point, p: Point)
    requires q.x != p.x
    ensures Times(Grade(q, p), p.x - q.x) == p.y - q.y
  {}

  lemma Rise(l: Line, x0: real, x: real)
    ensures At(l, x) == At(l, x0) + Times(l.a, x - x0)
  {
    assert l.a * (x - x0) == l.a * x - l.a * x0;
  }

  lemma ThroughEnds(q: Point, p: Point)
    requires q.x != p.x
    ensures At(Through(q, p), q.x) == q.y
    ensures At(Through(q, p), p.x) == p.y
  {
    hide Grade, Times;
    GradeTimes(q, p);
    assert At(Through(q, p), q.x) == q.y;
    Rise(Through(q, p), q.x, p.x);
  }

  /** Two lines that agree on order at x0 keep that order on the side where the upper one is steeper. */
  lemma Diverge(l: Line, m: Line, x0: real, x: real)
    requires At(l, x0) <= At(m, x0)
    requires (l.a <= m.a && x >= x0) || (l.a >= m.a && x <= x0)
    ensures At(l, x) <= At(m, x)
  {
    hide At, Times;
    Rise(l, x0, x);
    Rise(m, x0, x);
    MonotoneTimes(l.a, m.a, x - x0);
  }

  /** Where a line runs relative to q on the left and p on the right compares its slope with the grade. */
  lemma GradeVersusLine(l: Line, q: Point, p: Point)
    requires q.x < p.x
    ensures At(l, p.x) == p.y ==> (At(l, q.x) <= q.y <==> Grade(q, p) <= l.a)
    ensures At(l, q.x) == q.y ==> (At(l, p.x) < p.y <==> l.a < Grade(q, p))
    ensures At(l, q.x) <= q.y && At(l, p.x) >= p.y ==> Grade(q, p) <= l.a
    ensures At(l, q.x) >= q.y && At(l, p.x) <= p.y ==> l.a <= Grade(q, p)
  {
    hide At, Grade, Times;
    GradeTimes(q, p);
    Rise(l, q.x, p.x);
    OrderTimes(Grade(q, p), l.a, p.x - q.x);
    OrderTimes(l.a, Grade(q, p), p.x - q.x);
  }

  lemma CompareByProducts(g: real, h: real, u: real, v: real)
    requires u > 0.0 && v > 0.0
    ensures (-Times(g, u)) * (-v) < (-u) * (-Times(h, v)) <==> g < h
    ensures (-Times(g, u)) * (-v) > (-u) * (-Times(h, v)) <==> g > h
  {
    var w := u * v;
    PositiveProduct(u, v);
    assert (-(g * u)) * (-v) == g * w;
    assert (-u) * (-(h * v)) == h * w;
    OrderTimes(g, h, w);
    OrderTimes(h, g, w);
  }

  /** Comparing point differences as the code does is comparing grades, for points left of p. */
  lemma LessIsGrade(q: Point, r: Point, p: Point)
    requires q.x < p.x && r.x < p.x
    ensures Less(Minus(q, p), Minus(r, p)) <==> Grade(q, p) < Grade(r, p)
    ensures Greater(Minus(q, p), Minus(r, p)) <==> Grade(q, p) > Grade(r, p)
  {
    hide Grade, Times;
    var u, v := p.x - q.x, p.x - r.x;
    var g, h := Grade(q, p), Grade(r, p);
    GradeTimes(q, p);
    GradeTimes(r, p);
    CompareByProducts(g, h, u, v);
    assert Minus(q, p) == Slope(-u, -Times(g, u));
    assert Minus(r, p) == Slope(-v, -Times(h, v));
  }

  lemma SideByProducts(d: real, a: real, u: real, v: real)
    requires v > 0.0
    ensures (d + Times(a, u)) * v < u * Times(a, v) <==> d < 0.0
    ensures (d + Times(a, u)) * v > u * Times(a, v) <==> d > 0.0
  {
    assert (d + a * u) * v == d * v + a * u * v;
    assert u * (a * v) == a * u * v;
    OrderTimes(d, 0.0, v);
    OrderTimes(0.0, d, v);
  }

  /** Comparing p - q with the slope of a line through q tells on which side of the line p lies. */
  lemma LessIsBelow(p: Point, q: Point, a: Point, b: Point)
    requires q.x < p.x && a.x < b.x
    requires At(Through(a, b), q.x) == q.y
    ensures Less(Minus(p, q), Minus(b, a)) <==> p.y < At(Through(a, b), p.x)
    ensures Greater(Minus(p, q), Minus(b, a)) <==> p.y > At(Through(a, b), p.x)
  {
    hide At, Grade, Times;
    var l := Through(a, b);
    var u, v := p.x - q.x, b.x - a.x;
    GradeTimes(a, b);
    Rise(l, q.x, p.x);
    var d := p.y - At(l, p.x);
    SideByProducts(d, l.a, u, v);
    assert Minus(p, q) == Slope(u, d + Times(l.a, u));
    assert Minus(b, a) == Slope(v, Times(l.a, v));
  }

  /** The grade across a middle point is between the grades of its two halves. */
  lemma Mediant(a: Point, b: Point, p: Point)
    requires a.x < b.x < p.x
    ensures Grade(b, p) < Grade(a, p) <==> Grade(b, p) < Grade(a, b)
    ensures Grade(b, p) > Grade(a, p) <==> Grade(b, p) > Grade(a, b)
    ensures Grade(a, p) < Grade(a, b) <==> Grade(b, p) < Grade(a, p)
  {
    hide Grade, Times;
    var u, v := b.x - a.x, p.x - b.x;
    var s, t, m := Grade(a, b), Grade(b, p), Grade(a, p);
    GradeTimes(a, b);
    GradeTimes(b, p);
    GradeTimes(a, p);
    assert p.x - a.x == u + v;
    TimesAdd(m, u, v);
    OrderTimes(m, s, u);
    OrderTimes(s, m, u);
    OrderTimes(t, m, v);
    OrderTimes(m, t, v);
  }

  lemma TurnProducts(s: real, t: real, u: real, v: real)
    requires u > 0.0 && v > 0.0
    ensures u * (Times(s, u) + Times(t, v)) - Times(s, u) * (u + v) > 0.0 <==> s < t
  {
    var w := u * v;
    PositiveProduct(u, v);
    assert u * (s * u + t * v) - (s * u) * (u + v) == t * w - s * w;
    OrderTimes(s, t, w);
  }

  lemma CrossIsTurn(a: Point, b: Point, c: Point)
    requires a.x < b.x < c.x
    ensures Cross(a, b, c) > 0.0 <==> Grade(a, b) < Grade(b, c)
  {
    hide Grade, Times;
    var u, v := b.x - a.x, c.x - b.x;
    var s, t := Grade(a, b), Grade(b, c);
    GradeTimes(a, b);
    GradeTimes(b, c);
    TurnProducts(s, t, u, v);
    assert Minus(b, a) == Slope(u, Times(s, u));
    assert Minus(c, a) == Slope(u + v, Times(s, u) + Times(t, v));
  }

  /** A line under both ends of a segment is under any point on or above that segment. */
  lemma ChordCovers(l: Line, a: Point, b: Point, c: Point)
    requires a.x < b.x < c.x
    requires Cross(a, b, c) <= 0.0
    requires At(l, a.x) <= a.y && At(l, c.x) <= c.y
    ensures At(l, b.x) <= b.y
  {
    hide At, Grade, Cross, Times;
    CrossIsTurn(a, b, c);
    if At(l, b.x) > b.y {
      GradeVersusLine(l, b, c);
      GradeVersusLine(l, a, b);
      assert Grade(a, b) == l.a;
      GradeTimes(a, b);
      Rise(l, a.x, b.x);
    }
  }
}
