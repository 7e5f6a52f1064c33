/** Greedy segmentation of a key sequence, and why no other segmentation has fewer pieces. */
module Segmentation {
  import opened Geometry
  import Envelope
  import opened Fit
  import opened Model

  datatype Result = Ok(segments: seq<CanonicalSegment>) | NotSorted

  ghost predicate NonDecreasing(points: seq<Point>) {
    forall i, j :: 0 <= i <= j < |points| ==> points[i].x <= points[j].x
  }

  /** Position k of a run that starts at i is fitted, not skipped as a repeated key. */
  ghost predicate IsHead(points: seq<Point>, i: nat, k: nat)
    requires k < |points|
  {
    k == i || (k > i && points[k].x != points[k - 1].x)
  }

  /** The fitted points of the run [i, j): every key once, at its first position. */
  ghost function Heads(points: seq<Point>, i: nat, j: nat): seq<Point>
    requires i <= j <= |points|
    decreases j
  {
    if i == j then []
    else if IsHead(points, i, j - 1) then Heads(points, i, j - 1) + [points[j - 1]]
    else Heads(points, i, j - 1)
  }

  lemma {:induction false} HeadsHave(points: seq<Point>, i: nat, j: nat, k: nat)
    requires i <= k < j <= |points| && IsHead(points, i, k)
    ensures points[k] in Heads(points, i, j)
  {
    if k < j - 1 {
      HeadsHave(points, i, j - 1, k);
    } else {
      var h := Heads(points, i, j - 1) + [points[j - 1]];
      assert h[|h| - 1] == points[k];
    }
  }

  lemma {:induction false} HeadsOnly(points: seq<Point>, i: nat, j: nat, q: Point) returns (k: nat)
    requires i <= j <= |points| && q in Heads(points, i, j)
    ensures i <= k < j && IsHead(points, i, k) && points[k] == q
  {
    if IsHead(points, i, j - 1) && points[j - 1] == q {
      k := j - 1;
    } else {
      k := HeadsOnly(points, i, j - 1, q);
    }
  }

  /** A run that starts later, at a new key, asks no more of a line. */
  lemma SubRunFits(points: seq<Point>, eps: real, i: nat, j: nat, i': nat, j': nat)
    requires i <= i' <= j' <= j <= |points| && i' < |points|
    requires IsHead(points, i, i')
    requires Fits(Heads(points, i, j), eps)
    ensures Fits(Heads(points, i', j'), eps)
  {
    var big, small := Heads(points, i, j), Heads(points, i', j');
    var l :| Feasible(l, big, eps);
    forall n | 0 <= n < |small| ensures Near(l, small[n], eps) {
      var k := HeadsOnly(points, i', j', small[n]);
      HeadsHave(points, i, j, k);
      var b :| 0 <= b < |big| && big[b] == small[n];
      assert Near(l, big[b], eps);
    }
    assert Feasible(l, small, eps);
  }

  // ----- partitions into consecutive runs

  ghost predicate IsPartition(cuts: seq<nat>, n: nat) {
    && |cuts| >= 1 && cuts[0] == 0 && cuts[|cuts| - 1] == n
    && forall a, b :: 0 <= a < b < |cuts| ==> cuts[a] < cuts[b]
  }

  ghost predicate RunFits(points: seq<Point>, eps: real, lo: nat, hi: nat) {
    lo < hi <= |points| && Fits(Heads(points, lo, hi), eps)
  }

  /** The run [lo, hi) cannot be stretched by one more position, and ends where a new key begins. */
  ghost predicate Maximal(points: seq<Point>, eps: real, lo: nat, hi: nat) {
    && lo < hi <= |points|
    && (hi < |points| ==> points[hi].x != points[hi - 1].x && !RunFits(points, eps, lo, hi + 1))
  }

  ghost predicate AllFit(points: seq<Point>, eps: real, cuts: seq<nat>) {
    forall a: nat :: a + 1 < |cuts| ==> RunFits(points, eps, cuts[a], cuts[a + 1])
  }

  ghost predicate AllMaximal(points: seq<Point>, eps: real, cuts: seq<nat>) {
    forall a: nat :: a + 1 < |cuts| ==> Maximal(points, eps, cuts[a], cuts[a + 1])
  }

  ghost predicate Greedy(points: seq<Point>, eps: real, cuts: seq<nat>) {
    IsPartition(cuts, |points|) && AllFit(points, eps, cuts) && AllMaximal(points, eps, cuts)
  }

  /** The greedy cuts stay ahead of any other cuts, run by run. */
  lemma {:induction false} GreedyAhead(points: seq<Point>, eps: real, g: seq<nat>, cuts: seq<nat>, a: nat)
    requires Greedy(points, eps, g)
    requires IsPartition(cuts, |points|) && AllFit(points, eps, cuts)
    requires a < |g| && a < |cuts|
    ensures cuts[a] <= g[a]
  {
    hide Fits, Heads;
    if a > 0 {
      GreedyAhead(points, eps, g, cuts, a - 1);
      if g[a] < cuts[a] {
        assert Maximal(points, eps, g[a - 1], g[a]) && RunFits(points, eps, cuts[a - 1], cuts[a]);
        assert IsHead(points, cuts[a - 1], g[a - 1]) by {
          if a > 1 {
            assert Maximal(points, eps, g[a - 2], g[a - 1]);
          }
        }
        SubRunFits(points, eps, cuts[a - 1], cuts[a], g[a - 1], g[a] + 1);
        assert false;
      }
    }
  }

  /** Optimality: no partition into runs that fit has fewer runs than the greedy one. */
  lemma GreedyIsOptimal(points: seq<Point>, eps: real, g: seq<nat>, cuts: seq<nat>)
    requires Greedy(points, eps, g)
    requires IsPartition(cuts, |points|) && AllFit(points, eps, cuts)
    ensures |g| <= |cuts|
  {
    if |g| > |cuts| {
      GreedyAhead(points, eps, g, cuts, |cuts| - 1);
    }
  }

  /** The segment emitted for the run [lo, hi). A run with a single key reports one record,
      however many copies of the key it spans. */
  ghost predicate Emitted(points: seq<Point>, eps: real, lo: nat, hi: nat, s: CanonicalSegment)
    requires lo < hi <= |points|
  {
    && SegmentOf(s, Heads(points, lo, hi), eps)
    && s.number == (if |Heads(points, lo, hi)| == 1 then 1 else hi - lo)
  }

  ghost predicate GoodRun(points: seq<Point>, eps: real, lo: nat, hi: nat, s: CanonicalSegment) {
    && RunFits(points, eps, lo, hi) && Maximal(points, eps, lo, hi)
    && Emitted(points, eps, lo, hi, s)
  }

  /** The cuts made so far: runs fit, are maximal, and their segments have been emitted. */
  ghost predicate Progress(points: seq<Point>, eps: real, cuts: seq<nat>, out: seq<CanonicalSegment>) {
    && |cuts| == |out| + 1 && cuts[0] == 0
    && (forall a, b :: 0 <= a < b < |cuts| ==> cuts[a] < cuts[b])
    && (forall a: nat :: a < |out| ==> GoodRun(points, eps, cuts[a], cuts[a + 1], out[a]))
  }

  lemma ProgressSnoc(points: seq<Point>, eps: real, cuts: seq<nat>, out: seq<CanonicalSegment>, i: nat,
                     s: CanonicalSegment)
    requires Progress(points, eps, cuts, out) && GoodRun(points, eps, cuts[|cuts| - 1], i, s)
    ensures Progress(points, eps, cuts + [i], out + [s])
  {
    assert cuts[|cuts| - 1] < i;
    hide GoodRun;
    var c, o := cuts + [i], out + [s];
    forall a: nat | a < |o| ensures GoodRun(points, eps, c[a], c[a + 1], o[a]) {
      if a < |out| {
        assert GoodRun(points, eps, cuts[a], cuts[a + 1], out[a]);
      }
    }
  }

  lemma ProgressDone(points: seq<Point>, eps: real, cuts: seq<nat>, out: seq<CanonicalSegment>)
    requires Progress(points, eps, cuts, out) && cuts[|cuts| - 1] == |points|
    ensures Greedy(points, eps, cuts) && |cuts| == |out| + 1
    ensures forall a: nat :: a < |out| ==> GoodRun(points, eps, cuts[a], cuts[a + 1], out[a])
  {
    hide Fits, Heads, SegmentOf;
    forall a: nat | a + 1 < |cuts|
      ensures RunFits(points, eps, cuts[a], cuts[a + 1]) && Maximal(points, eps, cuts[a], cuts[a + 1])
    {
      assert GoodRun(points, eps, cuts[a], cuts[a + 1], out[a]);
    }
  }

  /** The segmentation loop, with its index that steps back to retry the rejected point.
      It fails exactly on unsorted keys; otherwise the segments cover all positions, each is an
      epsilon-accurate fit of its run, and no partition into runs that fit is shorter. */
  method MakeSegmentation(points: seq<Point>, eps: real) returns (r: Result, ghost cuts: seq<nat>)
    requires eps >= 0.0
    ensures r.NotSorted? <==> !NonDecreasing(points)
    ensures r.Ok? && points == [] ==> r.segments == []
    ensures r.Ok? && points != [] ==>
      && Greedy(points, eps, cuts) && |r.segments| == |cuts| - 1
      && (forall a: nat :: a < |r.segments| ==> GoodRun(points, eps, cuts[a], cuts[a + 1], r.segments[a]))
      && (forall other :: IsPartition(other, |points|) && AllFit(points, eps, other) ==>
                            |r.segments| <= |other| - 1)
  {
    hide Fits, SegmentOf, Progress, GoodRun, NonDecreasing, Greedy, SortedTo, OptimalPiecewiseLinearModel.Valid;
    if |points| == 0 {
      NonDecreasingIs(points);
      return Ok([]), [0];
    }
    var out: seq<CanonicalSegment> := [];
    var n, start := |points|, 0;
    var p := points[0];
    var opt := new OptimalPiecewiseLinearModel(eps);
    var o := opt.AddPoint(p);
    OnePointFits(p, eps);
    cuts := [0];
    StartFacts(points, eps);
    var i: int := 1;
    while i < n
      invariant fresh(opt) && opt.Valid() && opt.epsilon == eps
      invariant 0 <= start <= i <= n && 1 <= i
      invariant Progress(points, eps, cuts, out) && |cuts| > 0 && start == cuts[|cuts| - 1]
      invariant SortedTo(points, i)
      invariant opt.pointsInHull == 0 ==> i == start && i < n && points[i - 1].x <= points[i].x
      invariant opt.pointsInHull > 0 ==>
                  && start < i && opt.Current() == Heads(points, start, i) != []
                  && opt.pointsInHull == |opt.Current()|
                  && opt.lastX == p.x == points[i - 1].x
                  && Fits(opt.Current(), eps)
      decreases n - i, opt.pointsInHull > 0
    {
      var next := points[i];
      HeadsStep(points, start, i);
      SortedStep(points, i);
      if i != start && next.x == p.x {
        i := i + 1;
        continue;
      }
      p := next;
      o := opt.AddPoint(p);
      if o == NotIncreasing {
        return NotSorted, cuts;
      }
      if o == Rejected {
        var s := opt.GetSegment(i - start);
        RejectedRun(points, eps, start, i, s);
        ProgressSnoc(points, eps, cuts, out, i, s);
        out, cuts, start := out + [s], cuts + [i], i;
      } else {
        i := i + 1;
      }
    }
    var s := opt.GetSegment(n - start);
    LastRun(points, eps, start, s);
    ProgressSnoc(points, eps, cuts, out, n, s);
    out, cuts := out + [s], cuts + [n];
    ProgressDone(points, eps, cuts, out);
    NonDecreasingIs(points);
    forall other | IsPartition(other, |points|) && AllFit(points, eps, other) ensures |out| <= |other| - 1 {
      GreedyIsOptimal(points, eps, cuts, other);
    }
    return Ok(out), cuts;
  }

  ghost predicate SortedTo(points: seq<Point>, i: nat)
    requires i <= |points|
  {
    forall a, b :: 0 <= a <= b < i ==> points[a].x <= points[b].x
  }

  lemma NonDecreasingIs(points: seq<Point>)
    ensures NonDecreasing(points) <==> SortedTo(points, |points|)
    ensures points == [] ==> NonDecreasing(points)
  {}

  lemma SortedStep(points: seq<Point>, i: nat)
    requires 1 <= i < |points| && SortedTo(points, i)
    ensures points[i - 1].x <= points[i].x ==> SortedTo(points, i + 1)
    ensures points[i - 1].x > points[i].x ==> !NonDecreasing(points)
  {}

  lemma StartFacts(points: seq<Point>, eps: real)
    requires |points| > 0
    ensures Progress(points, eps, [0], []) && SortedTo(points, 1)
    ensures Heads(points, 0, 1) == [points[0]]
  {
    assert Heads(points, 0, 0) == [];
  }

  lemma HeadsStep(points: seq<Point>, start: nat, i: nat)
    requires start <= i < |points|
    ensures Heads(points, start, start) == []
    ensures i == start || points[i].x != points[i - 1].x ==>
              Heads(points, start, i + 1) == Heads(points, start, i) + [points[i]]
    ensures i != start && points[i].x == points[i - 1].x ==> Heads(points, start, i + 1) == Heads(points, start, i)
  {}

  lemma RejectedRun(points: seq<Point>, eps: real, lo: nat, hi: nat, s: CanonicalSegment)
    requires lo < hi < |points| && points[hi].x != points[hi - 1].x
    requires var h := Heads(points, lo, hi);
             |h| >= 2 && SegmentOf(s, h, eps) && Fits(h, eps) && !Fits(h + [points[hi]], eps)
    requires s.number == hi - lo
    ensures GoodRun(points, eps, lo, hi, s)
  {
    HeadsStep(points, lo, hi);
  }

  lemma LastRun(points: seq<Point>, eps: real, lo: nat, s: CanonicalSegment)
    requires lo < |points|
    requires var h := Heads(points, lo, |points|);
             && SegmentOf(s, h, eps) && Fits(h, eps)
             && s.number == if |h| == 1 then 1 else |points| - lo
    ensures GoodRun(points, eps, lo, |points|, s)
  {}

  // ----- repeated keys

  /** A sorted run has a second key exactly when its last key differs from its first. */
  lemma {:induction false} HeadsCount(points: seq<Point>, lo: nat, hi: nat)
    requires lo < hi <= |points| && NonDecreasing(points)
    ensures |Heads(points, lo, hi)| >= 1
    ensures |Heads(points, lo, hi)| >= 2 <==> points[lo].x < points[hi - 1].x
  {
    if lo + 1 == hi {
      assert Heads(points, lo, lo) == [];
    } else {
      HeadsCount(points, lo, hi - 1);
      assert points[lo].x <= points[hi - 2].x <= points[hi - 1].x;
    }
  }

  /** A segment reports the length of its run exactly when the run has two different keys or one position. */
  lemma NumberIff(points: seq<Point>, eps: real, lo: nat, hi: nat, s: CanonicalSegment)
    requires NonDecreasing(points) && GoodRun(points, eps, lo, hi, s)
    ensures s.number == hi - lo <==> points[lo].x < points[hi - 1].x || hi - lo == 1
    ensures s.number == hi - lo <==> |Heads(points, lo, hi)| >= 2 || hi - lo == 1
  {
    HeadsCount(points, lo, hi);
  }

  /** Two copies of one key are reported as one record. */
  method TwoCopiesReportOne() returns (r: Result)
    ensures r.Ok? && |r.segments| == 1 && r.segments[0].number == 1
  {
    hide Greedy, Progress;
    var points := [Point(1.0, 0.0), Point(1.0, 1.0)];
    ghost var cuts;
    r, cuts := MakeSegmentation(points, 0.0);
    assert NonDecreasing(points);
    TwoCopiesCuts(points, 0.0, cuts);
    NumberIff(points, 0.0, cuts[0], cuts[1], r.segments[0]);
  }

  lemma TwoCopiesCuts(points: seq<Point>, eps: real, cuts: seq<nat>)
    requires points == [Point(1.0, 0.0), Point(1.0, 1.0)] && Greedy(points, eps, cuts)
    ensures cuts == [0, 2]
  {
    assert IsPartition(cuts, 2);
    assert Maximal(points, eps, cuts[0], cuts[1]);
  }

  // ----- strictly increasing keys

  lemma {:induction false} DistinctHeads(points: seq<Point>, i: nat, j: nat)
    requires i <= j <= |points| && forall k :: 0 < k < |points| ==> points[k].x != points[k - 1].x
    ensures Heads(points, i, j) == points[i..j]
  {
    if i < j {
      DistinctHeads(points, i, j - 1);
      assert points[i..j] == points[i..j - 1] + [points[j - 1]];
    }
  }

  /** On distinct keys every segment reports the length of its run, so the segments count every key once. */
  lemma NumbersAreRunLengths(points: seq<Point>, eps: real, lo: nat, hi: nat, s: CanonicalSegment)
    requires forall k :: 0 < k < |points| ==> points[k].x != points[k - 1].x
    requires GoodRun(points, eps, lo, hi, s)
    ensures s.number == hi - lo && SegmentOf(s, points[lo..hi], eps)
  {
    DistinctHeads(points, lo, hi);
  }

  ghost predicate Ranks(points: seq<Point>) {
    && Envelope.Sorted(points)
    && forall k :: 0 <= k < |points| ==> points[k].y == k as real
  }

  /** Any 2 epsilon + 1 consecutive ranks fit a horizontal line. */
  lemma ShortRunFits(points: seq<Point>, eps: nat, lo: nat, hi: nat)
    requires Ranks(points) && lo < hi <= |points| && hi - lo <= 2 * eps + 1
    ensures RunFits(points, eps as real, lo, hi)
  {
    DistinctHeads(points, lo, hi);
    var l := Line(0.0, (lo + eps) as real);
    var run := points[lo..hi];
    forall i | 0 <= i < |run| ensures Near(l, run[i], eps as real) {
      assert run[i].y == (lo + i) as real;
      assert At(l, run[i].x) == (lo + eps) as real;
    }
    assert Feasible(l, run, eps as real);
  }

  /** So every segment but the last covers at least 2 epsilon + 1 keys ... */
  lemma LongRuns(points: seq<Point>, eps: nat, cuts: seq<nat>, a: nat)
    requires Ranks(points) && Greedy(points, eps as real, cuts) && a + 2 < |cuts|
    ensures cuts[a + 1] - cuts[a] >= 2 * eps + 1
  {
    assert Maximal(points, eps as real, cuts[a], cuts[a + 1]);
    assert cuts[a + 1] < cuts[|cuts| - 1];
    if cuts[a + 1] - cuts[a] < 2 * eps + 1 {
      ShortRunFits(points, eps, cuts[a], cuts[a + 1] + 1);
    }
  }

  lemma {:induction false} CutsGrow(points: seq<Point>, eps: nat, cuts: seq<nat>, a: nat)
    requires Ranks(points) && Greedy(points, eps as real, cuts) && a + 1 < |cuts|
    ensures cuts[a] >= a * (2 * eps + 1)
  {
    hide Ranks, Greedy;
    if a > 0 {
      CutsGrow(points, eps, cuts, a - 1);
      LongRuns(points, eps, cuts, a - 1);
      OneMore(a, 2 * eps + 1);
    }
  }

  lemma OneMore(a: nat, k: nat)
    requires a > 0
    ensures a * k == (a - 1) * k + k
  {}

  /** ... and the number of segments is at most one more than the keys before the last divided by that,
      so building a level over at least two nodes strictly shrinks the level: the level loop ends. */
  lemma LevelShrinks(points: seq<Point>, eps: nat, cuts: seq<nat>)
    requires Ranks(points) && |points| > 0 && Greedy(points, eps as real, cuts)
    ensures (|cuts| - 2) * (2 * eps + 1) < |points|
    ensures eps >= 1 && |points| >= 2 ==> |cuts| - 1 < |points|
  {
    LastCut(points, eps as real, cuts);
    hide Ranks, Greedy;
    CutsGrow(points, eps, cuts, |cuts| - 2);
    if eps >= 1 {
      ThreeTimes(|cuts| - 2, 2 * eps + 1);
    }
  }

  lemma LastCut(points: seq<Point>, eps: real, cuts: seq<nat>)
    requires |points| > 0 && Greedy(points, eps, cuts)
    ensures |cuts| >= 2 && cuts[|cuts| - 2] < |points|
  {}

  lemma ThreeTimes(c: nat, k: nat)
    requires k >= 3
    ensures c * k >= 3 * c
  {
    assert c * k == 3 * c + c * (k - 3);
  }
}
