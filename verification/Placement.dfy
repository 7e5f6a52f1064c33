/** From a fitted segment to slots: the corrected node model, block prediction and room for every key. */
module Placement {
  import opened Geometry

  /** Real-to-integer conversion that drops the fraction, towards zero. */
  function Truncate(r: real): int {
    if r >= 0.0 then r.Floor else -(-r).Floor
  }

  lemma TruncateMonotone(r: real, s: real)
    requires r <= s
    ensures Truncate(r) <= Truncate(s)
  {}

  // ----- model correction

  /** Stretches a model so that it spans the positions 0 .. size - 1 on the keys minKey .. maxKey. */
  function Correct(l: Line, size: nat, minKey: real, maxKey: real): Line
    requires minKey < maxKey
  {
    var minPos, maxPos := At(l, minKey), At(l, maxKey) + 1.0;
    var top := size as real - 1.0;
    if minPos > 0.0 && maxPos < top then
      var slope := top / (maxKey - minKey);
      Line(slope, 0.0 - slope * minKey)
    else if minPos > 0.0 then
      var slope := maxPos / (maxKey - minKey);
      Line(slope, 0.0 - slope * minKey)
    else if maxPos < size as real then
      var slope := (size as real - minPos - 1.0) / (maxKey - minKey);
      Line(slope, top - slope * maxKey)
    else l
  }

  lemma QuotientTimes(n: real, w: real)
    requires w > 0.0
    ensures Times(n / w, w) == n
  {}

  /** The corrected model never contracts, sends the first key to at most 0 and the last to at least size - 1;
      its last position is size - 1 or at most one past where the old model put it. */
  lemma CorrectSpans(l: Line, size: nat, minKey: real, maxKey: real)
    requires minKey < maxKey && size >= 1
    ensures var c := Correct(l, size, minKey, maxKey);
            && l.a <= c.a
            && At(c, minKey) <= 0.0
            && size as real - 1.0 <= At(c, maxKey)
            && (At(c, maxKey) == size as real - 1.0 || At(c, maxKey) <= At(l, maxKey) + 1.0)
  {
    var c := Correct(l, size, minKey, maxKey);
    var w := maxKey - minKey;
    var minPos, maxPos := At(l, minKey), At(l, maxKey) + 1.0;
    var top := size as real - 1.0;
    Rise(l, minKey, maxKey);
    Rise(c, minKey, maxKey);
    QuotientTimes(top, w);
    QuotientTimes(maxPos, w);
    QuotientTimes(size as real - minPos - 1.0, w);
    if minPos > 0.0 || maxPos < size as real {
      if minPos > 0.0 {
        assert At(c, minKey) == 0.0;
      } else {
        assert At(c, maxKey) == top;
      }
    }
    hide At;
    OrderTimes(l.a, c.a, w);
  }

  /** The corrected model stays near the old one: below it by at most what the first key was shifted down, above it by
      at most what the last key was shifted up, or one. */
  lemma CorrectNear(l: Line, size: nat, minKey: real, maxKey: real, k: real)
    requires minKey < maxKey && size >= 1 && minKey <= k <= maxKey
    ensures var c := Correct(l, size, minKey, maxKey);
            && At(c, k) >= At(l, k) - (if At(l, minKey) > 0.0 then At(l, minKey) else 0.0)
            && (At(c, k) <= At(l, k) + 1.0 || At(c, k) <= At(l, k) + (size as real - 1.0 - At(l, maxKey)))
  {
    var c := Correct(l, size, minKey, maxKey);
    CorrectSpans(l, size, minKey, maxKey);
    CorrectStart(l, size, minKey, maxKey);
    SteeperLags(l, c, k, maxKey);
    SteeperLags(l, c, minKey, k);
    hide At;
  }

  /** The first key is moved down to 0 if it was above, and otherwise stays where it was. */
  lemma CorrectStart(l: Line, size: nat, minKey: real, maxKey: real)
    requires minKey < maxKey
    ensures At(Correct(l, size, minKey, maxKey), minKey) == if At(l, minKey) > 0.0 then 0.0 else At(l, minKey)
  {
    var w := maxKey - minKey;
    var c := Correct(l, size, minKey, maxKey);
    Rise(c, minKey, maxKey);
    QuotientTimes(size as real - At(l, minKey) - 1.0, w);
  }

  // ----- inner nodes

  const SLOTS_PER_BLOCK := 8
  const EPSILON_INNER_NODE := 8

  /** A node's model together with its number of blocks, as the parent's accelerator slot carries it. */
  datatype NodeModel = NodeModel(line: Line, blocks: nat)

  /** Block number of an inner node over n children: n / (0.2 * 8) + 1 + 3, rounded down. */
  function InnerBlocks(n: nat): nat {
    5 * n / 8 + EPSILON_INNER_NODE / SLOTS_PER_BLOCK + 3
  }

  /** The fit scaled by the fill ratio 0.2 and shifted to positions inside the node, then corrected. */
  function InnerModel(fit: Line, start: nat, n: nat, minKey: real, maxKey: real): NodeModel
    requires minKey < maxKey
  {
    var spread := Line(fit.a / 0.2, (fit.b - start as real) / 0.2);
    NodeModel(Correct(spread, (InnerBlocks(n) - 3) * SLOTS_PER_BLOCK, minKey, maxKey), InnerBlocks(n))
  }

  /** A node over a single key divides by a key range of zero; its model then predicts one fixed position. */
  predicate Flat(m: NodeModel) {
    m.line.a == 0.0
  }

  ghost predicate IsInnerModel(m: NodeModel, fit: Line, start: nat, keys: seq<real>)
    requires |keys| >= 1 && Increasing(keys)
  {
    if |keys| == 1 then Flat(m) && m.blocks == InnerBlocks(1)
    else m == InnerModel(fit, start, |keys|, keys[0], keys[|keys| - 1])
  }

  function PredictBlock(m: NodeModel, key: real): (b: nat)
    requires m.blocks >= 4
    ensures b <= m.blocks - 2
  {
    var t := Truncate((At(m.line, key) + 0.5) / SLOTS_PER_BLOCK as real);
    if t < 0 then 0 else if t > m.blocks - 4 then m.blocks - 2 else t + 1
  }

  function Home(m: NodeModel, key: real): nat
    requires m.blocks >= 4
  {
    PredictBlock(m, key) * SLOTS_PER_BLOCK
  }

  lemma HomeMonotone(m: NodeModel, k: real, k': real)
    requires m.blocks >= 4 && m.line.a >= 0.0 && k <= k'
    ensures Home(m, k) <= Home(m, k')
  {
    assert At(m.line, k) <= At(m.line, k') by {
      hide At, Times;
      Rise(m.line, k, k');
      MonotoneTimes(0.0, m.line.a, k' - k);
      assert Times(0.0, k' - k) == 0.0 by { ZeroTimes(k' - k); }
    }
    TruncateMonotone((At(m.line, k) + 0.5) / 8.0, (At(m.line, k') + 0.5) / 8.0);
  }

  lemma HomeInside(m: NodeModel, key: real)
    requires m.blocks >= 4
    ensures Home(m, key) % SLOTS_PER_BLOCK == 0 && Home(m, key) + 2 * SLOTS_PER_BLOCK <= m.blocks * SLOTS_PER_BLOCK
  {}

  lemma ZeroTimes(w: real)
    ensures Times(0.0, w) == 0.0
  {}

  /** A predicted block past the first two is backed by a position that far. */
  lemma BlockIsReached(m: NodeModel, key: real)
    requires m.blocks >= 4 && PredictBlock(m, key) >= 2
    ensures 8.0 * (PredictBlock(m, key) as real - 1.0) <= At(m.line, key) + 0.5
  {
    var v := (At(m.line, key) + 0.5) / 8.0;
    assert Truncate(v) >= PredictBlock(m, key) - 1 >= 1;
    assert v >= 0.0 && v.Floor as real <= v;
  }

  /** The block of a key is the one its model position lies in, shifted by one; positions before the first block and
      behind the last but two are collected at the ends. */
  lemma PredictsItsBlock(m: NodeModel, key: real, c: nat)
    requires m.blocks >= 4
    ensures var b, pos := PredictBlock(m, key), At(m.line, key) + 0.5;
            && (b == 0 <==> pos <= -8.0)
            && (b == 1 <==> -8.0 < pos < 8.0)
            && (2 <= c <= m.blocks - 3 ==> (b == c <==> 8.0 * (c as real - 1.0) <= pos < 8.0 * c as real))
            && (b == m.blocks - 2 <==> pos >= 8.0 * (m.blocks as real - 3.0))
  {
    hide At;
    var pos := At(m.line, key) + 0.5;
    var v := pos / 8.0;
    FloorIs(v, c - 1);
    FloorIs(v, m.blocks - 3);
    FloorIs(-v, 1);
    FloorIs(v, 1);
  }

  lemma FloorIs(v: real, n: int)
    ensures v.Floor >= n <==> v >= n as real
    ensures v.Floor == n <==> n as real <= v < n as real + 1.0
  {}

  ghost predicate Increasing(keys: seq<real>) {
    forall i, j :: 0 <= i < j < |keys| ==> keys[i] < keys[j]
  }

  /** The fit is within eps of the rank start + i of every key. */
  ghost predicate Accurate(fit: Line, keys: seq<real>, start: nat, eps: nat) {
    forall i :: 0 <= i < |keys| ==>
      -(eps as real) <= At(fit, keys[i]) - (start + i) as real <= eps as real
  }

  lemma SpreadAt(fit: Line, start: nat, x: real)
    ensures At(Line(fit.a / 0.2, (fit.b - start as real) / 0.2), x) == 5.0 * (At(fit, x) - start as real)
  {
    assert fit.a / 0.2 == 5.0 * fit.a;
    assert (5.0 * fit.a) * x == 5.0 * (fit.a * x);
  }

  /** Room: d keys after key j still fit behind key j's home block. Placement runs off the array
      only if this fails for some j and d. */
  lemma RoomForAll(fit: Line, keys: seq<real>, start: nat, j: nat, d: nat)
    requires |keys| >= 2 && Increasing(keys) && j + d < |keys|
    requires fit.a > 0.0 && Accurate(fit, keys, start, EPSILON_INNER_NODE)
    ensures var m := InnerModel(fit, start, |keys|, keys[0], keys[|keys| - 1]);
            Home(m, keys[j]) + d < m.blocks * SLOTS_PER_BLOCK
  {
    var n, last := |keys|, keys[|keys| - 1];
    var m := InnerModel(fit, start, n, keys[0], last);
    var spread := Line(fit.a / 0.2, (fit.b - start as real) / 0.2);
    var size := (m.blocks - 3) * SLOTS_PER_BLOCK;
    var b := PredictBlock(m, keys[j]);
    assert At(fit, keys[j]) <= (start + j) as real + 8.0;
    assert At(fit, last) >= (start + n - 1) as real - 8.0;
    if b >= 2 {
      BlockIsReached(m, keys[j]);
    }
    CorrectSpans(spread, size, keys[0], last);
    SpreadAt(fit, start, keys[j]);
    SpreadAt(fit, start, last);
    assert keys[j] <= last;
    SteeperLags(spread, m.line, keys[j], last);
    SizeCoversFill(n);
  }

  /** The j-th key of a node is predicted within a constant distance of five times its rank. */
  lemma InnerPositions(fit: Line, keys: seq<real>, start: nat, j: nat)
    requires |keys| >= 2 && Increasing(keys) && j < |keys|
    requires fit.a > 0.0 && Accurate(fit, keys, start, EPSILON_INNER_NODE)
    ensures var m := InnerModel(fit, start, |keys|, keys[0], keys[|keys| - 1]);
            5.0 * j as real - 80.0 <= At(m.line, keys[j]) <= 5.0 * j as real + 100.0
  {
    var n, last := |keys|, keys[|keys| - 1];
    var spread := Line(fit.a / 0.2, (fit.b - start as real) / 0.2);
    SpreadAt(fit, start, keys[0]);
    SpreadAt(fit, start, keys[j]);
    SpreadAt(fit, start, last);
    assert forall i :: 0 <= i < n ==>
             -8.0 <= At(fit, keys[i]) - (start + i) as real <= 8.0;
    assert keys[0] <= keys[j] <= last;
    assert (InnerBlocks(n) - 3) * SLOTS_PER_BLOCK <= 5 * n + 8;
    CorrectNear(spread, (InnerBlocks(n) - 3) * SLOTS_PER_BLOCK, keys[0], last, keys[j]);
    hide At;
  }

  lemma SizeCoversFill(n: nat)
    ensures (InnerBlocks(n) - 3) * SLOTS_PER_BLOCK >= 5 * n + 1
  {}

  /** Going left from x, the steeper line falls at least as far. */
  lemma SteeperLags(l: Line, m: Line, k: real, x: real)
    requires l.a <= m.a && k <= x
    ensures At(m, k) - At(m, x) <= At(l, k) - At(l, x)
  {
    hide At, Times;
    Rise(l, x, k);
    Rise(m, x, k);
    MonotoneTimes(m.a, l.a, k - x);
  }
}
