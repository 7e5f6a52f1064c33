/** The levels of inner nodes above the leaves: construction from segments and descent to a leaf. */
module PlinTree {
  import opened Geometry
  import opened Placement
  import IN = InnerNode
  import Fit
  import opened Model
  import Segmentation
  import Envelope

  const ROOT_SIZE := 8

  datatype Node = LeafRef(index: nat) | Inner(model: NodeModel, slots: seq<IN.Slot<Node>>)

  // ----- what a node covers

  /** The occupied slots, in key order, start at the leaves cuts[0], cuts[1], ... and end before hi. */
  ghost predicate Spread(slots: seq<IN.Slot<Node>>, at: seq<nat>, cuts: seq<nat>, lo: nat, hi: nat, firsts: seq<real>) {
    && |at| >= 1 && |cuts| == |at| + 1 && cuts[0] == lo && cuts[|at|] == hi && hi <= |firsts|
    && (forall i, j :: 0 <= i < j < |cuts| ==> cuts[i] < cuts[j])
    && (forall j :: 0 <= j < |at| ==>
          at[j] < |slots| && slots[at[j]].Used? && slots[at[j]].minKey == firsts[cuts[j]])
    && (forall v :: 0 <= v < |slots| && slots[v].Used? ==> v in at)
  }

  /** The subtree reaches exactly the leaves lo .. hi - 1, whose first keys are given by `firsts`. */
  ghost predicate TreeOver(n: Node, lo: nat, hi: nat, firsts: seq<real>)
    decreases n, 1
  {
    match n
    case LeafRef(i) => i == lo && hi == lo + 1 && hi <= |firsts|
    case Inner(m, slots) =>
      IN.Inv(m, slots) && exists at, cuts :: ChildrenOver(n, at, cuts, lo, hi, firsts)
  }

  ghost predicate ChildrenOver(n: Node, at: seq<nat>, cuts: seq<nat>, lo: nat, hi: nat, firsts: seq<real>)
    requires n.Inner?
    decreases n, 0
  {
    && Spread(n.slots, at, cuts, lo, hi, firsts)
    && forall j :: 0 <= j < |at| ==> TreeOver(n.slots[at[j]].node, cuts[j], cuts[j + 1], firsts)
  }

  lemma SpreadOne(slots: seq<IN.Slot<Node>>, at: seq<nat>, cuts: seq<nat>, lo: nat, hi: nat, firsts: seq<real>,
                  key: real, slot: nat) returns (j: nat)
    requires Spread(slots, at, cuts, lo, hi, firsts) && Increasing(firsts) && IN.IsPredecessor(slots, key, slot)
    ensures j < |at| && at[j] == slot && firsts[cuts[j]] <= key
    ensures cuts[j + 1] < hi ==> key < firsts[cuts[j + 1]]
  {
    j :| 0 <= j < |at| && at[j] == slot;
    if cuts[j + 1] < hi {
      assert j + 1 < |at|;
      var next := slots[at[j + 1]];
      assert cuts[j] < cuts[j + 1];
    }
  }

  /** Descends to the leaf with the greatest first key at or below the key. */
  method FindLeafNode(n: Node, key: real, ghost lo: nat, ghost hi: nat, ghost firsts: seq<real>) returns (i: nat)
    requires TreeOver(n, lo, hi, firsts) && Increasing(firsts) && lo < |firsts| && firsts[lo] <= key
    ensures lo <= i < hi <= |firsts| && firsts[i] <= key && (i + 1 < hi ==> key < firsts[i + 1])
    decreases n
  {
    if n.LeafRef? {
      return n.index;
    }
    ghost var at, cuts :| ChildrenOver(n, at, cuts, lo, hi, firsts);
    assert n.slots[at[0]].minKey <= key;
    var slot := IN.FindSlot(n.model, n.slots, key);
    ghost var j := SpreadOne(n.slots, at, cuts, lo, hi, firsts, key, slot);
    assert TreeOver(n.slots[at[j]].node, cuts[j], cuts[j + 1], firsts);
    assert lo <= cuts[j] < cuts[j + 1] <= hi;
    i := FindLeafNode(n.slots[slot].node, key, cuts[j], cuts[j + 1], firsts);
  }

  // ----- building a level

  /** A level: node j covers the leaves b[j] .. b[j + 1] - 1 and its key is the first of those leaves' keys. */
  ghost predicate LevelOver(keys: seq<real>, nodes: seq<Node>, b: seq<nat>, firsts: seq<real>) {
    && |keys| == |nodes| >= 1 && |b| == |keys| + 1 && b[0] == 0 && b[|keys|] == |firsts|
    && (forall i, j :: 0 <= i < j < |b| ==> b[i] < b[j])
    && (forall j :: 0 <= j < |keys| ==> keys[j] == firsts[b[j]] && TreeOver(nodes[j], b[j], b[j + 1], firsts))
  }

  function RankPoints(keys: seq<real>): (r: seq<Point>)
    ensures |r| == |keys| && forall i :: 0 <= i < |keys| ==> r[i] == Point(keys[i], i as real)
  {
    seq(|keys|, i requires 0 <= i < |keys| => Point(keys[i], i as real))
  }

  /** An emitted segment over ranks is an accurate, climbing model of its keys. */
  lemma SegmentModels(keys: seq<real>, eps: nat, lo: nat, hi: nat, s: CanonicalSegment)
    requires Increasing(keys) && Segmentation.GoodRun(RankPoints(keys), eps as real, lo, hi, s)
    ensures lo < hi <= |keys| && s.number == hi - lo && s.Shaped() && s.first == keys[lo]
    ensures Accurate(s.FittedLine(s.first), keys[lo..hi], lo, eps)
    ensures hi - lo >= 2 ==> s.FittedLine(s.first).a > 0.0
  {
    hide Segmentation.GoodRun, CanonicalSegment.FittedLine, CanonicalSegment.Shaped, CanonicalSegment.OnePoint;
    hide Fit.Feasible, Describes, Accurate;
    var points := RankPoints(keys);
    Segmentation.NumbersAreRunLengths(points, eps as real, lo, hi, s);
    RunBounds(points, eps as real, lo, hi, s);
    var run := points[lo..hi];
    SegmentIsSound(s, run, eps as real, s.first);
    RankAccurate(s.FittedLine(s.first), keys, eps, lo, hi);
    if hi - lo >= 2 {
      RanksClimb(keys, lo, hi);
      SegmentClimbs(s, run, eps as real, s.first);
    }
  }

  lemma RunBounds(points: seq<Point>, eps: real, lo: nat, hi: nat, s: CanonicalSegment)
    requires Segmentation.GoodRun(points, eps, lo, hi, s)
    ensures lo < hi <= |points|
  {
    hide Segmentation.Maximal, Segmentation.Emitted;
  }

  /** A line within epsilon of the ranks is an accurate model of the keys. */
  lemma RankAccurate(fit: Line, keys: seq<real>, eps: nat, lo: nat, hi: nat)
    requires lo <= hi <= |keys| && Fit.Feasible(fit, RankPoints(keys)[lo..hi], eps as real)
    ensures Accurate(fit, keys[lo..hi], lo, eps)
  {
    hide At;
    var run := RankPoints(keys)[lo..hi];
    forall i | 0 <= i < hi - lo
      ensures -(eps as real) <= At(fit, keys[lo..hi][i]) - (lo + i) as real <= eps as real
    {
      assert Fit.Near(fit, run[i], eps as real);
    }
  }

  lemma RanksClimb(keys: seq<real>, lo: nat, hi: nat)
    requires Increasing(keys) && lo <= hi <= |keys|
    ensures var run := RankPoints(keys)[lo..hi];
            Envelope.Sorted(run) && forall i, j :: 0 <= i < j < |run| ==> run[i].y < run[j].y
  {}

  /** One inner node over a segment of the level below; `nan` is whatever position the model arithmetic of a
      one-key node yields. */
  method BuildNode(keys: seq<real>, nodes: seq<Node>, s: CanonicalSegment, start: nat, nan: real,
                   ghost b: seq<nat>, ghost firsts: seq<real>) returns (n: Node)
    requires Increasing(keys) && LevelOver(keys, nodes, b, firsts)
    requires Segmentation.GoodRun(RankPoints(keys), EPSILON_INNER_NODE as real, start, start + s.number, s)
    ensures start + s.number <= |keys| && TreeOver(n, b[start], b[start + s.number], firsts)
  {
    hide IN.Inv, Segmentation.GoodRun, Correct, TreeOver;
    var end := start + s.number;
    SegmentModels(keys, EPSILON_INNER_NODE, start, end, s);
    var run := keys[start..end];
    var fit := s.FittedLine(s.first);
    var m := if s.number == 1 then NodeModel(Line(0.0, nan), InnerBlocks(1))
             else InnerModel(fit, start, s.number, run[0], run[|run| - 1]);
    var slots, at := IN.Build(run, nodes[start..end], start, fit, m);
    n := Inner(m, slots[..]);
    NodeCovers(n, keys, nodes, start, end, at, b, firsts);
  }

  lemma NodeCovers(n: Node, keys: seq<real>, nodes: seq<Node>, start: nat, end: nat, at: seq<nat>,
                   b: seq<nat>, firsts: seq<real>)
    requires LevelOver(keys, nodes, b, firsts) && start < end <= |keys| && n.Inner? && IN.Inv(n.model, n.slots)
    requires IN.HoldsAll(n.slots, keys[start..end], nodes[start..end], at)
    requires forall v :: 0 <= v < |n.slots| && n.slots[v].Used? ==> v in at
    ensures TreeOver(n, b[start], b[end], firsts)
  {
    hide IN.Inv;
    var cuts := b[start..end + 1];
    assert b[end] <= |firsts| by {
      assert end < |keys| ==> b[end] < b[|keys|];
    }
    forall j | 0 <= j < |at|
      ensures at[j] < |n.slots| && n.slots[at[j]].Used? && n.slots[at[j]].minKey == firsts[cuts[j]]
      ensures TreeOver(n.slots[at[j]].node, cuts[j], cuts[j + 1], firsts)
    {
      assert n.slots[at[j]] == IN.Used(keys[start..end][j], nodes[start..end][j]);
      assert TreeOver(nodes[start + j], b[start + j], b[start + j + 1], firsts);
    }
    assert Spread(n.slots, at, cuts, b[start], b[end], firsts);
    assert ChildrenOver(n, at, cuts, b[start], b[end], firsts);
  }

  /** Segments the keys of a level and builds the level above. It is strictly shorter unless it has one node. */
  method BuildLevel(keys: seq<real>, nodes: seq<Node>, nan: real, ghost b: seq<nat>, ghost firsts: seq<real>)
    returns (keys': seq<real>, nodes': seq<Node>, ghost b': seq<nat>)
    requires Increasing(keys) && LevelOver(keys, nodes, b, firsts)
    ensures Increasing(keys') && LevelOver(keys', nodes', b', firsts)
    ensures |keys| >= 2 ==> |keys'| < |keys|
    ensures |keys| == 1 ==> |keys'| == 1
  {
    hide TreeOver, Increasing, LevelOver, LevelPart, CutsOf, RankPoints, Segmentation.GoodRun, Segmentation.Greedy;
    var points := RankPoints(keys);
    LevelNotEmpty(keys, nodes, b, firsts);
    RanksAre(keys);
    var r, cuts := Segmentation.MakeSegmentation(points, EPSILON_INNER_NODE as real);
    var segments := r.segments;
    GreedyFacts(points, EPSILON_INNER_NODE as real, cuts);
    Segmentation.LevelShrinks(points, EPSILON_INNER_NODE, cuts);
    keys', nodes', b' := [], [], [0];
    StartLevel(keys, nodes, b, firsts, cuts);
    var start := 0;
    for a := 0 to |segments|
      invariant start == cuts[a]
      invariant LevelPart(keys, b, firsts, cuts, a, keys', nodes', b')
    {
      var s := segments[a];
      assert Segmentation.GoodRun(points, EPSILON_INNER_NODE as real, cuts[a], cuts[a + 1], s);
      SegmentModels(keys, EPSILON_INNER_NODE, cuts[a], cuts[a + 1], s);
      var n := BuildNode(keys, nodes, s, start, nan, b, firsts);
      LevelSnoc(keys, nodes, b, firsts, cuts, a, keys', nodes', b', s.first, n);
      keys', nodes', b' := keys' + [s.first], nodes' + [n], b' + [b[cuts[a + 1]]];
      start := start + s.number;
    }
    NextLevel(keys, nodes, b, firsts, cuts, keys', nodes', b');
  }

  ghost predicate CutsOf(cuts: seq<nat>, n: nat) {
    && |cuts| >= 2 && cuts[0] == 0 && cuts[|cuts| - 1] == n
    && forall i, j :: 0 <= i < j < |cuts| ==> cuts[i] < cuts[j]
  }

  /** The first a nodes of the new level. */
  ghost predicate LevelPart(keys: seq<real>, b: seq<nat>, firsts: seq<real>, cuts: seq<nat>, a: nat,
                            keys': seq<real>, nodes': seq<Node>, b': seq<nat>)
  {
    && CutsOf(cuts, |keys|) && |b| == |keys| + 1 && |keys'| == |nodes'| == a && |b'| == a + 1 <= |cuts|
    && (forall j :: 0 <= j <= a ==> cuts[j] < |b| && b'[j] == b[cuts[j]])
    && (forall j :: 0 <= j < a ==>
          cuts[j] < |keys| && keys'[j] == keys[cuts[j]] && TreeOver(nodes'[j], b'[j], b'[j + 1], firsts))
  }

  lemma LevelNotEmpty(keys: seq<real>, nodes: seq<Node>, b: seq<nat>, firsts: seq<real>)
    requires LevelOver(keys, nodes, b, firsts)
    ensures |keys| == |nodes| >= 1 && |b| == |keys| + 1
  {}

  lemma StartLevel(keys: seq<real>, nodes: seq<Node>, b: seq<nat>, firsts: seq<real>, cuts: seq<nat>)
    requires LevelOver(keys, nodes, b, firsts) && CutsOf(cuts, |keys|)
    ensures LevelPart(keys, b, firsts, cuts, 0, [], [], [0])
  {}

  lemma LevelSnoc(keys: seq<real>, nodes: seq<Node>, b: seq<nat>, firsts: seq<real>, cuts: seq<nat>, a: nat,
                  keys': seq<real>, nodes': seq<Node>, b': seq<nat>, first: real, n: Node)
    requires LevelPart(keys, b, firsts, cuts, a, keys', nodes', b') && a + 1 < |cuts| && cuts[a] < cuts[a + 1] <= |keys|
    requires first == keys[cuts[a]] && TreeOver(n, b[cuts[a]], b[cuts[a + 1]], firsts)
    ensures LevelPart(keys, b, firsts, cuts, a + 1, keys' + [first], nodes' + [n], b' + [b[cuts[a + 1]]])
  {
    hide TreeOver;
    var ks, ns, bs := keys' + [first], nodes' + [n], b' + [b[cuts[a + 1]]];
    forall j | 0 <= j < a + 1
      ensures cuts[j] < |keys| && ks[j] == keys[cuts[j]] && TreeOver(ns[j], bs[j], bs[j + 1], firsts)
    {
      if j < a {
        assert bs[j] == b'[j] && bs[j + 1] == b'[j + 1];
      }
    }
  }

  lemma RanksAre(keys: seq<real>)
    requires Increasing(keys)
    ensures Segmentation.Ranks(RankPoints(keys)) && Segmentation.NonDecreasing(RankPoints(keys))
  {
    var p := RankPoints(keys);
    forall i, j | 0 <= i <= j < |p| ensures p[i].x <= p[j].x {
      if i < j {
        assert keys[i] < keys[j];
      }
    }
  }

  lemma GreedyFacts(points: seq<Point>, eps: real, cuts: seq<nat>)
    requires Segmentation.Greedy(points, eps, cuts) && points != []
    ensures |cuts| >= 2 && cuts[0] == 0 && CutsOf(cuts, |points|)
    ensures forall a: nat :: a + 1 < |cuts| ==> cuts[a] < cuts[a + 1]
  {}

  lemma NextLevel(keys: seq<real>, nodes: seq<Node>, b: seq<nat>, firsts: seq<real>, cuts: seq<nat>,
                  keys': seq<real>, nodes': seq<Node>, b': seq<nat>)
    requires Increasing(keys) && LevelOver(keys, nodes, b, firsts)
    requires |cuts| >= 1 && LevelPart(keys, b, firsts, cuts, |cuts| - 1, keys', nodes', b')
    ensures Increasing(keys') && LevelOver(keys', nodes', b', firsts) && |keys'| == |cuts| - 1
  {
    hide TreeOver;
    forall j | 0 <= j < |keys'| ensures keys'[j] == firsts[b'[j]] {
      assert keys[cuts[j]] == firsts[b[cuts[j]]];
    }
  }

  /** The root array: at least one level is built, and levels are added until at most ROOT_SIZE nodes are left. */
  method BuildRoots(firsts: seq<real>, nan: real) returns (keys: seq<real>, nodes: seq<Node>, ghost b: seq<nat>)
    requires |firsts| >= 1 && Increasing(firsts)
    ensures Increasing(keys) && LevelOver(keys, nodes, b, firsts) && |keys| <= ROOT_SIZE
  {
    hide Increasing;
    keys := firsts;
    nodes := seq(|firsts|, (i: nat) => LeafRef(i));
    b := seq(|firsts| + 1, (i: nat) => i);
    assert LevelOver(keys, nodes, b, firsts);
    var level := 0;
    while level == 0 || |keys| > ROOT_SIZE
      invariant Increasing(keys) && LevelOver(keys, nodes, b, firsts)
      decreases |keys|, level == 0
    {
      keys, nodes, b := BuildLevel(keys, nodes, nan, b, firsts);
      level := level + 1;
    }
  }
}
