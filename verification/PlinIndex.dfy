/** The whole index: bulk load, point lookup, upsert and range query over the chain of leaves. */
module PlinIndex {
  import opened Geometry
  import opened Placement
  import opened Wrappers
  import opened SortedRecords
  import opened TreePages
  import opened LeafNode
  import opened PlinTree
  import opened Model
  import Segmentation

  // ----- the chain of leaves

  function FirstKeys(leaves: seq<Leaf>): (r: seq<real>)
    ensures |r| == |leaves| && forall i :: 0 <= i < |leaves| ==> r[i] == leaves[i].firstKey
  {
    seq(|leaves|, i requires 0 <= i < |leaves| => leaves[i].firstKey)
  }

  /** Leaf i is responsible for the keys from its first key up to the next leaf's first key. */
  ghost predicate InDomain(leaves: seq<Leaf>, i: nat, key: real)
    requires i < |leaves|
  {
    leaves[i].firstKey <= key && (i + 1 < |leaves| ==> key < leaves[i + 1].firstKey)
  }

  ghost predicate ChainInv(leaves: seq<Leaf>) {
    && |leaves| >= 1 && Increasing(FirstKeys(leaves))
    && (forall i :: 0 <= i < |leaves| ==> LeafInv(leaves[i]))
    && (forall i, e :: 0 <= i < |leaves| && Stored(leaves[i].blocks, e) ==> InDomain(leaves, i, e.key))
  }

  ghost predicate InLeaves(leaves: seq<Leaf>, e: Entry) {
    exists i :: 0 <= i < |leaves| && Stored(leaves[i].blocks, e)
  }

  /** From leaf i the forwarding test of the leaf operations leads to the responsible leaf. */
  ghost predicate Routed(leaves: seq<Leaf>, i: nat, key: real)
    requires i < |leaves|
    decreases |leaves| - i
  {
    && leaves[i].firstKey <= key && leaves[i].model.blocks >= 3
    && (i + 1 < |leaves| && leaves[i + 1].firstKey <= key ==>
          PredictLeafBlock(leaves[i].model, key) >= leaves[i].model.blocks - 2 && Routed(leaves, i + 1, key))
  }

  lemma OneDomain(leaves: seq<Leaf>, i: nat, j: nat, key: real)
    requires i < |leaves| && j < |leaves| && Increasing(FirstKeys(leaves))
    requires InDomain(leaves, i, key) && InDomain(leaves, j, key)
    ensures i == j
  {
    if i < j {
      LaterDomains(leaves, i, j);
    } else if j < i {
      LaterDomains(leaves, j, i);
    }
  }

  /** A search of the responsible leaf for the key ends the process. */
  ghost predicate ChainStops(leaves: seq<Leaf>, key: real) {
    exists i :: 0 <= i < |leaves| && InDomain(leaves, i, key) && StopsAt(leaves[i], key)
  }

  ghost predicate StopsAt(l: Leaf, key: real) {
    l.model.blocks >= 3 && |l.blocks| == l.model.blocks && LeafStops(l, key)
  }

  lemma ChainStopsHere(leaves: seq<Leaf>, i: nat, key: real)
    requires ChainInv(leaves) && i < |leaves| && InDomain(leaves, i, key)
    ensures LeafInv(leaves[i]) && (ChainStops(leaves, key) <==> LeafStops(leaves[i], key))
  {
    hide LeafStops, Stored;
    assert LeafInv(leaves[i]);
    if ChainStops(leaves, key) {
      var j :| 0 <= j < |leaves| && InDomain(leaves, j, key) && StopsAt(leaves[j], key);
      OneDomain(leaves, i, j, key);
    }
  }

  /** Lookup from a leaf of the chain, forwarding to the next leaf when the key lies beyond this one. */
  method FindFrom(leaves: seq<Leaf>, i: nat, key: real) returns (stopped: bool, r: Option<nat>)
    requires ChainInv(leaves) && i < |leaves| && Routed(leaves, i, key)
    ensures stopped <==> ChainStops(leaves, key)
    ensures !stopped ==> forall p: nat :: r == Some(p) <==> InLeaves(leaves, Entry(key, p))
    decreases |leaves| - i
  {
    hide LeafInv, Stored, PredictLeafBlock, LeafStops, ChainStops;
    var l := leaves[i];
    var block := PredictLeafBlock(l.model, key);
    if block >= l.model.blocks - 2 && i + 1 < |leaves| && leaves[i + 1].firstKey <= key {
      stopped, r := FindFrom(leaves, i + 1, key);
    } else {
      ChainStopsHere(leaves, i, key);
      stopped, r := FindHere(l, key);
      OnlyHere(leaves, i, key);
    }
  }

  lemma OnlyHere(leaves: seq<Leaf>, i: nat, key: real)
    requires ChainInv(leaves) && i < |leaves| && InDomain(leaves, i, key)
    ensures forall e: Entry :: e.key == key ==> (InLeaves(leaves, e) <==> Stored(leaves[i].blocks, e))
  {
    hide LeafInv, Stored;
    forall e: Entry | e.key == key ensures InLeaves(leaves, e) <==> Stored(leaves[i].blocks, e) {
      if InLeaves(leaves, e) {
        var j :| 0 <= j < |leaves| && Stored(leaves[j].blocks, e);
        OneDomain(leaves, i, j, key);
      }
    }
  }

  ghost predicate ChainRewrites(leaves: seq<Leaf>, leaves': seq<Leaf>, e: Entry) {
    forall x :: InLeaves(leaves', x) <==> if x.key == e.key then x == e else InLeaves(leaves, x)
  }

  ghost predicate ChainNullFree(leaves: seq<Leaf>) {
    forall i :: 0 <= i < |leaves| ==> NullFree(leaves[i].blocks)
  }

  /** Upsert from a leaf of the chain, forwarding as a lookup does. The code tells what happened in the responsible leaf
      j, and whether it was reached by forwarding. */
  method UpsertFrom(leaves: seq<Leaf>, i: nat, e: Entry, orphan: bool)
    returns (stopped: bool, leaves': seq<Leaf>, ret: nat)
    requires ChainInv(leaves) && i < |leaves| && Routed(leaves, i, e.key)
    ensures stopped <==> ChainStops(leaves, e.key)
    ensures stopped ==> leaves' == leaves
    ensures ChainInv(leaves') && FirstKeys(leaves') == FirstKeys(leaves)
    ensures !stopped ==> ChainRewrites(leaves, leaves', e)
    ensures !stopped ==> exists j :: i <= j < |leaves| && InDomain(leaves, j, e.key) &&
                                     CodeAt(leaves[j], e.key, orphan || j > i, ret)
    ensures !stopped && ChainNullFree(leaves) && e.payload != 0 ==> ChainNullFree(leaves')
    decreases |leaves| - i
  {
    hide LeafInv, Stored, PredictLeafBlock, ChainInv, ChainRewrites, LeafRewrites, LeafStops, ChainStops, NullFree;
    hide CodeAt;
    ChainHas(leaves, i);
    var l := leaves[i];
    var block := PredictLeafBlock(l.model, e.key);
    if block >= l.model.blocks - 2 && i + 1 < |leaves| && leaves[i + 1].firstKey <= e.key {
      stopped, leaves', ret := UpsertFrom(leaves, i + 1, e, true);
    } else {
      ChainStopsHere(leaves, i, e.key);
      var l';
      stopped, l', ret := UpsertHere(l, e, orphan);
      if stopped {
        return true, leaves, 0;
      }
      ChainUpdate(leaves, i, l', e);
      leaves' := leaves[i := l'];
    }
  }

  ghost predicate OverLimit(l: Leaf, key: real) {
    && l.model.blocks >= 3 && |l.blocks| == l.model.blocks
    && Overflows(l.blocks[PredictLeafBlock(l.model, key)], key) && l.overflowNumber + 1 > l.numberToSplit
  }

  lemma CodeDecides(leaves: seq<Leaf>, i: nat, key: real, ret: nat)
    requires ChainInv(leaves) && i < |leaves| && InDomain(leaves, i, key)
    requires exists j :: i <= j < |leaves| && InDomain(leaves, j, key) && CodeAt(leaves[j], key, j > i, ret)
    ensures ret == 5 <==> exists j :: 0 <= j < |leaves| && InDomain(leaves, j, key) && OverLimit(leaves[j], key)
  {
    hide LeafInv, Stored, PredictLeafBlock, Overflows, InCells, HasVacant, HasKey;
    var j :| i <= j < |leaves| && InDomain(leaves, j, key) && CodeAt(leaves[j], key, j > i, ret);
    OneDomain(leaves, i, j, key);
    if k :| 0 <= k < |leaves| && InDomain(leaves, k, key) && OverLimit(leaves[k], key) {
      OneDomain(leaves, i, k, key);
    }
  }

  lemma ChainHas(leaves: seq<Leaf>, i: nat)
    requires ChainInv(leaves) && i < |leaves|
    ensures LeafInv(leaves[i])
  {}

  lemma ChainUpdate(leaves: seq<Leaf>, i: nat, l': Leaf, e: Entry)
    requires ChainInv(leaves) && i < |leaves| && InDomain(leaves, i, e.key)
    requires LeafInv(l') && l'.firstKey == leaves[i].firstKey && LeafRewrites(leaves[i].blocks, l'.blocks, e)
    ensures var u := leaves[i := l'];
            ChainInv(u) && FirstKeys(u) == FirstKeys(leaves) && ChainRewrites(leaves, u, e)
  {
    hide LeafInv, Stored;
    var u := leaves[i := l'];
    assert FirstKeys(u) == FirstKeys(leaves);
    forall j, x | 0 <= j < |u| && Stored(u[j].blocks, x) ensures InDomain(u, j, x.key) {
      assert j == i && x.key != e.key ==> Stored(leaves[i].blocks, x);
    }
    OnlyHere(leaves, i, e.key);
    forall x ensures InLeaves(u, x) <==> if x.key == e.key then x == e else InLeaves(leaves, x) {
      if x == e {
        assert Stored(u[i].blocks, x);
      }
      if x.key != e.key && InLeaves(leaves, x) {
        var j :| 0 <= j < |leaves| && Stored(leaves[j].blocks, x);
        assert Stored(u[j].blocks, x);
      }
      if InLeaves(u, x) {
        var j :| 0 <= j < |u| && Stored(u[j].blocks, x);
        if x.key == e.key && j != i {
          OneDomain(leaves, i, j, x.key);
        }
        assert x.key != e.key ==> Stored(leaves[j].blocks, x);
      }
    }
  }

  // ----- range query along the chain

  /** What scans of the leaves list. */
  ghost predicate ShownByLeaves(leaves: seq<Leaf>, e: Entry) {
    exists i :: 0 <= i < |leaves| && Shown(leaves[i].blocks, e)
  }

  lemma ShownHere(leaves: seq<Leaf>, i: nat, e: Entry)
    requires ChainInv(leaves) && i < |leaves| && Shown(leaves[i].blocks, e)
    ensures InDomain(leaves, i, e.key) && InLeaves(leaves, e)
  {
    hide LeafInv, Stored, Shown;
    ShownIsStored(leaves[i].blocks);
  }

  ghost predicate ChainRange(leaves: seq<Leaf>, lo: real, hi: real, es: seq<Entry>) {
    NoDuplicates(es) && forall e :: e in es <==> ShownByLeaves(leaves, e) && InRange(e.key, lo, hi)
  }

  /** The scan of the leaves i, i + 1, ... until a leaf shows a key above the bound. */
  method RangeFrom(leaves: seq<Leaf>, i: nat, lo: real, hi: real, start: bool) returns (es: seq<Entry>)
    requires ChainInv(leaves) && i < |leaves|
    ensures ChainRange(leaves[i..], lo, hi, es)
    decreases |leaves| - i
  {
    hide LeafInv, Stored, Shown, NoDuplicates, ChainInv, PredictLeafBlock;
    ChainHas(leaves, i);
    var l := leaves[i];
    LeafHasModel(l);
    if start && PredictLeafBlock(l.model, lo) >= l.model.blocks - 2 && i + 1 < |leaves| &&
       leaves[i + 1].firstKey <= lo {
      es := RangeFrom(leaves, i + 1, lo, hi, true);
      RangeSkips(leaves, i, lo, hi, es);
      return;
    }
    var stop;
    es, stop := RangeHere(leaves[i], lo, hi, start);
    if !stop && i + 1 < |leaves| {
      var more := RangeFrom(leaves, i + 1, lo, hi, false);
      RangeJoin(leaves, i, lo, hi, es, more);
      es := es + more;
    } else {
      RangeEnds(leaves, i, lo, hi, es, stop);
    }
  }

  lemma LeafHasModel(l: Leaf)
    requires LeafInv(l)
    ensures l.model.blocks >= 3
  {}

  /** A scan that begins at or after the next leaf's first key loses nothing by moving on at once. */
  lemma RangeSkips(leaves: seq<Leaf>, i: nat, lo: real, hi: real, es: seq<Entry>)
    requires ChainInv(leaves) && i + 1 < |leaves| && leaves[i + 1].firstKey <= lo
    requires ChainRange(leaves[i + 1..], lo, hi, es)
    ensures ChainRange(leaves[i..], lo, hi, es)
  {
    hide LeafInv, Stored, Shown, NoDuplicates;
    forall e
      ensures ShownByLeaves(leaves[i..], e) && InRange(e.key, lo, hi) <==>
                ShownByLeaves(leaves[i + 1..], e) && InRange(e.key, lo, hi)
    {
      TailContents(leaves, i, e);
      if Shown(leaves[i].blocks, e) {
        ShownHere(leaves, i, e);
      }
    }
  }

  lemma LaterDomains(leaves: seq<Leaf>, i: nat, j: nat)
    requires Increasing(FirstKeys(leaves)) && i < j < |leaves|
    ensures leaves[i + 1].firstKey <= leaves[j].firstKey
  {
    var f := FirstKeys(leaves);
    assert i + 1 < j ==> f[i + 1] < f[j];
  }

  lemma TailContents(leaves: seq<Leaf>, i: nat, e: Entry)
    requires i < |leaves|
    ensures ShownByLeaves(leaves[i..], e) <==> Shown(leaves[i].blocks, e) || ShownByLeaves(leaves[i + 1..], e)
  {
    hide Shown;
    var t, r := leaves[i..], leaves[i + 1..];
    if ShownByLeaves(t, e) {
      var j :| 0 <= j < |t| && Shown(t[j].blocks, e);
      assert j > 0 ==> Shown(r[j - 1].blocks, e);
    }
    if ShownByLeaves(r, e) {
      var j :| 0 <= j < |r| && Shown(r[j].blocks, e);
      assert Shown(t[j + 1].blocks, e);
    }
    assert t[0] == leaves[i];
  }

  lemma RangeJoin(leaves: seq<Leaf>, i: nat, lo: real, hi: real, es: seq<Entry>, more: seq<Entry>)
    requires ChainInv(leaves) && i + 1 < |leaves|
    requires LeafRange(leaves[i].blocks, lo, hi, es) && ChainRange(leaves[i + 1..], lo, hi, more)
    ensures ChainRange(leaves[i..], lo, hi, es + more)
  {
    hide LeafInv, Stored, Shown;
    forall e
      ensures ShownByLeaves(leaves[i..], e) <==> Shown(leaves[i].blocks, e) || ShownByLeaves(leaves[i + 1..], e)
    {
      TailContents(leaves, i, e);
    }
    forall a, b | 0 <= a < |es| && 0 <= b < |more| ensures es[a].key != more[b].key {
      assert es[a] in es && more[b] in more;
      ShownHere(leaves, i, es[a]);
      var j :| 0 <= j < |leaves[i + 1..]| && Shown(leaves[i + 1..][j].blocks, more[b]);
      ShownHere(leaves, i + 1 + j, more[b]);
      LaterDomains(leaves, i, i + 1 + j);
    }
  }

  lemma RangeEnds(leaves: seq<Leaf>, i: nat, lo: real, hi: real, es: seq<Entry>, stop: bool)
    requires ChainInv(leaves) && i < |leaves| && LeafRange(leaves[i].blocks, lo, hi, es)
    requires stop ==> exists e :: Stored(leaves[i].blocks, e) && e.key > hi
    requires stop || i + 1 == |leaves|
    ensures ChainRange(leaves[i..], lo, hi, es)
  {
    hide LeafInv, Stored, Shown, NoDuplicates;
    forall e
      ensures ShownByLeaves(leaves[i..], e) && InRange(e.key, lo, hi) <==>
                Shown(leaves[i].blocks, e) && InRange(e.key, lo, hi)
    {
      TailContents(leaves, i, e);
      if ShownByLeaves(leaves[i + 1..], e) {
        var j :| 0 <= j < |leaves[i + 1..]| && Shown(leaves[i + 1..][j].blocks, e);
        ShownHere(leaves, i + 1 + j, e);
        LaterDomains(leaves, i, i + 1 + j);
        var big :| Stored(leaves[i].blocks, big) && big.key > hi;
        assert InDomain(leaves, i, big.key);
      }
    }
  }

  // ----- building the leaves

  function Entries(keys: seq<real>, payloads: seq<nat>): (r: seq<Entry>)
    requires |keys| == |payloads|
    ensures |r| == |keys| && forall i :: 0 <= i < |keys| ==> r[i] == Entry(keys[i], payloads[i])
  {
    seq(|keys|, i requires 0 <= i < |keys| => Entry(keys[i], payloads[i]))
  }

  ghost predicate LeafOf(es: seq<Entry>, lo: nat, hi: nat, l: Leaf) {
    && lo < hi <= |es| && LeafInv(l) && l.firstKey == es[lo].key
    && HoldsExactly(l.blocks, es[lo..hi]) && !Doomed(l.model, es[lo..hi])
  }

  ghost predicate LeavesPart(es: seq<Entry>, cuts: seq<nat>, a: nat, leaves: seq<Leaf>) {
    && CutsOf(cuts, |es|) && |leaves| == a < |cuts|
    && forall j :: 0 <= j < a ==> LeafOf(es, cuts[j], cuts[j + 1], leaves[j])
  }

  lemma EntriesSorted(keys: seq<real>, payloads: seq<nat>)
    requires |keys| == |payloads| && Increasing(keys)
    ensures SortedByKey(Entries(keys, payloads))
  {}

  lemma RunSorted(keys: seq<real>, es: seq<Entry>, lo: nat, hi: nat)
    requires Increasing(keys) && SortedByKey(es) && lo <= hi <= |keys| && hi <= |es|
    ensures Increasing(keys[lo..hi]) && SortedByKey(es[lo..hi])
  {}

  /** The model of the leaf over a segment; `nan` is the position a one-key leaf predicts. */
  function SegmentLeafModel(keys: seq<real>, s: CanonicalSegment, start: nat, nan: real): NodeModel
    requires Increasing(keys) && start < start + s.number <= |keys| && s.Shaped()
  {
    if s.number == 1 then NodeModel(Line(0.0, nan), LeafBlocks(1))
    else LeafModel(s.FittedLine(s.first), start, s.number, keys[start], keys[start + s.number - 1])
  }

  /** One leaf over a segment of the records; building it ends the process exactly when its records are doomed. */
  method LeafOverSegment(keys: seq<real>, es: seq<Entry>, s: CanonicalSegment, start: nat, nan: real)
    returns (stopped: bool, l: Leaf)
    requires |keys| == |es| && Increasing(keys) && SortedByKey(es)
    requires start < start + s.number <= |keys| && s.Shaped()
    requires s.number >= 2 ==> s.FittedLine(s.first).a > 0.0
    ensures l.model == SegmentLeafModel(keys, s, start, nan) && l.model.blocks >= 3
    ensures stopped <==> Doomed(l.model, es[start..start + s.number])
    ensures !stopped ==> LeafOf(es, start, start + s.number, l)
    ensures !stopped && (forall i :: 0 <= i < |es| ==> es[i].payload != 0) ==> NullFree(l.blocks)
  {
    hide LeafInv, HoldsExactly, Correct, SortedByKey, CanonicalSegment.FittedLine, Doomed, NullFree;
    var end := start + s.number;
    RunSorted(keys, es, start, end);
    var run, fit := keys[start..end], s.FittedLine(s.first);
    RunOrder(run);
    var m := SegmentLeafModel(keys, s, start, nan);
    assert s.number >= 2 ==> run[0] == keys[start] && run[|run| - 1] == keys[end - 1];
    LeafModelIsMonotone(m, fit, start, run);
    stopped, l := BuildLeaf(es[start..end], m);
  }

  lemma RunOrder(run: seq<real>)
    requires Increasing(run)
    ensures |run| >= 2 ==> run[0] < run[|run| - 1]
  {}

  /** The a-th segment is doomed: building its leaf ends the process. */
  ghost predicate DoomedAt(es: seq<Entry>, cuts: seq<nat>, models: seq<NodeModel>, a: nat) {
    && a < |models| && a + 1 < |cuts| && cuts[a] <= cuts[a + 1] <= |es| && models[a].blocks >= 3
    && Doomed(models[a], es[cuts[a]..cuts[a + 1]])
  }

  /** The models of the leaves built, and of the one whose construction ended the process: that one is doomed and the
      others are not. */
  ghost predicate LoadOutcome(es: seq<Entry>, cuts: seq<nat>, models: seq<NodeModel>, stopped: bool) {
    && |models| < |cuts|
    && (forall a :: 0 <= a < |models| ==> (DoomedAt(es, cuts, models, a) <==> stopped && a == |models| - 1))
    && (stopped ==> |models| >= 1) && (!stopped ==> |models| == |cuts| - 1)
  }

  /** The segmentation of the keys by rank: each segment fits its keys and climbs. */
  method SegmentKeys(keys: seq<real>) returns (segments: seq<CanonicalSegment>, ghost cuts: seq<nat>)
    requires 1 <= |keys| && Increasing(keys)
    ensures Segmentation.Greedy(RankPoints(keys), EPSILON_LEAF_NODE as real, cuts)
    ensures |cuts| >= 2 && cuts[0] == 0 && CutsOf(cuts, |keys|) && |segments| == |cuts| - 1
    ensures forall a: nat :: a < |segments| ==> SegmentFits(keys, cuts, a, segments[a])
  {
    hide RankPoints, CutsOf, Increasing, Segmentation.GoodRun, Segmentation.Greedy, SegmentFits;
    var points := RankPoints(keys);
    RanksAre(keys);
    var r;
    r, cuts := Segmentation.MakeSegmentation(points, EPSILON_LEAF_NODE as real);
    segments := r.segments;
    GreedyFacts(points, EPSILON_LEAF_NODE as real, cuts);
    forall a: nat | a < |segments| ensures SegmentFits(keys, cuts, a, segments[a]) {
      SegmentIsFit(keys, cuts, a, segments[a]);
    }
  }

  ghost predicate SegmentFits(keys: seq<real>, cuts: seq<nat>, a: nat, s: CanonicalSegment) {
    && a + 1 < |cuts| && cuts[a] < cuts[a + 1] <= |keys| && s.number == cuts[a + 1] - cuts[a] && s.Shaped()
    && (s.number >= 2 ==> s.FittedLine(s.first).a > 0.0)
    && Segmentation.GoodRun(RankPoints(keys), EPSILON_LEAF_NODE as real, cuts[a], cuts[a + 1], s)
  }

  /** The models belong to segments that the segmentation of the keys emits, in order. */
  ghost predicate ModelsOf(keys: seq<real>, cuts: seq<nat>, models: seq<NodeModel>, nan: real)
    requires Increasing(keys)
  {
    forall a: nat :: a < |models| ==> ModelAt(keys, cuts, a, models[a], nan)
  }

  ghost predicate ModelAt(keys: seq<real>, cuts: seq<nat>, a: nat, m: NodeModel, nan: real)
    requires Increasing(keys)
  {
    exists s :: SegmentFits(keys, cuts, a, s) && m == SegmentLeafModel(keys, s, cuts[a], nan)
  }

  lemma ModelHere(keys: seq<real>, cuts: seq<nat>, a: nat, s: CanonicalSegment, m: NodeModel, nan: real)
    requires Increasing(keys) && SegmentFits(keys, cuts, a, s) && m == SegmentLeafModel(keys, s, cuts[a], nan)
    ensures ModelAt(keys, cuts, a, m, nan)
  {}

  lemma NoModels(keys: seq<real>, cuts: seq<nat>, nan: real)
    requires Increasing(keys)
    ensures ModelsOf(keys, cuts, [], nan)
  {}

  lemma ModelsNext(keys: seq<real>, cuts: seq<nat>, models: seq<NodeModel>, m: NodeModel, nan: real)
    requires Increasing(keys) && ModelsOf(keys, cuts, models, nan) && ModelAt(keys, cuts, |models|, m, nan)
    ensures ModelsOf(keys, cuts, models + [m], nan)
  {
    hide ModelAt, Increasing;
  }

  lemma SegmentIsFit(keys: seq<real>, cuts: seq<nat>, a: nat, s: CanonicalSegment)
    requires Increasing(keys) && a + 1 < |cuts|
    requires Segmentation.GoodRun(RankPoints(keys), EPSILON_LEAF_NODE as real, cuts[a], cuts[a + 1], s)
    ensures SegmentFits(keys, cuts, a, s)
  {
    hide Segmentation.GoodRun, RankPoints, CanonicalSegment.FittedLine;
    SegmentModels(keys, EPSILON_LEAF_NODE, cuts[a], cuts[a + 1], s);
  }

  /** The leaves over the segments of the records. The process exits exactly when the records of some segment are
      doomed. */
  method BuildLeaves(keys: seq<real>, payloads: seq<nat>, nan: real)
    returns (stopped: bool, leaves: seq<Leaf>, ghost cuts: seq<nat>, ghost models: seq<NodeModel>)
    requires 1 <= |keys| == |payloads| && Increasing(keys)
    ensures Segmentation.Greedy(RankPoints(keys), EPSILON_LEAF_NODE as real, cuts)
    ensures LoadOutcome(Entries(keys, payloads), cuts, models, stopped) && ModelsOf(keys, cuts, models, nan)
    ensures !stopped ==> ChainInv(leaves) && leaves[0].firstKey == keys[0]
    ensures !stopped ==> forall e :: InLeaves(leaves, e) <==> e in Entries(keys, payloads)
    ensures !stopped && (forall i :: 0 <= i < |payloads| ==> payloads[i] != 0) ==> ChainNullFree(leaves)
  {
    hide LeafInv, HoldsExactly, LeavesPart, RankPoints, CutsOf, SortedByKey, ChainInv, InLeaves, Doomed, NullFree;
    hide Segmentation.Greedy, Correct, SegmentLeafModel, LoadOutcome, Undoomed, ChainNullFree, LeafOf, ModelAt;
    hide Increasing, CanonicalSegment.FittedLine, Segmentation.GoodRun, ModelsOf;
    var es := Entries(keys, payloads);
    EntriesSorted(keys, payloads);
    var segments;
    segments, cuts := SegmentKeys(keys);
    stopped, leaves, models := false, [], [];
    NoLeaves();
    LeavesStart(es, cuts);
    UndoomedStart(es, cuts);
    NoModels(keys, cuts, nan);
    var start := 0;
    ghost var full := forall i :: 0 <= i < |es| ==> es[i].payload != 0;
    for a := 0 to |segments|
      invariant start == cuts[a]
      invariant LeavesPart(es, cuts, a, leaves)
      invariant Undoomed(es, cuts, models) && ModelsOf(keys, cuts, models, nan) && |models| == a
      invariant full ==> ChainNullFree(leaves)
    {
      var s := segments[a];
      assert SegmentFits(keys, cuts, a, s);
      var stop, l := LeafOverSegment(keys, es, s, start, nan);
      CutsInside(cuts, |es|, a);
      UndoomedNext(es, cuts, models, l.model);
      ModelHere(keys, cuts, a, s, l.model, nan);
      ModelsNext(keys, cuts, models, l.model, nan);
      if stop {
        return true, leaves, cuts, models + [l.model];
      }
      LeavesSnoc(es, cuts, a, leaves, l);
      NullFreeNext(leaves, l);
      leaves := leaves + [l];
      models := models + [l.model];
      start := start + s.number;
    }
    LeavesDone(es, cuts, leaves);
    OutcomeDone(es, cuts, models);
  }

  ghost predicate Undoomed(es: seq<Entry>, cuts: seq<nat>, models: seq<NodeModel>) {
    |models| < |cuts| && forall a :: 0 <= a < |models| ==> !DoomedAt(es, cuts, models, a)
  }

  lemma UndoomedStart(es: seq<Entry>, cuts: seq<nat>)
    requires |cuts| >= 1
    ensures Undoomed(es, cuts, [])
  {}

  lemma UndoomedNext(es: seq<Entry>, cuts: seq<nat>, models: seq<NodeModel>, m: NodeModel)
    requires Undoomed(es, cuts, models) && |models| + 1 < |cuts| && m.blocks >= 3
    requires cuts[|models|] <= cuts[|models| + 1] <= |es|
    ensures Doomed(m, es[cuts[|models|]..cuts[|models| + 1]]) ==> LoadOutcome(es, cuts, models + [m], true)
    ensures !Doomed(m, es[cuts[|models|]..cuts[|models| + 1]]) ==> Undoomed(es, cuts, models + [m])
  {
    hide Doomed;
    var ms, n := models + [m], |models|;
    forall a | 0 <= a < n ensures !DoomedAt(es, cuts, ms, a) {
      assert !DoomedAt(es, cuts, models, a);
    }
    assert DoomedAt(es, cuts, ms, n) <==> Doomed(m, es[cuts[n]..cuts[n + 1]]);
  }

  lemma OutcomeDone(es: seq<Entry>, cuts: seq<nat>, models: seq<NodeModel>)
    requires Undoomed(es, cuts, models) && |models| == |cuts| - 1
    ensures LoadOutcome(es, cuts, models, false)
  {}

  lemma NoLeaves()
    ensures ChainNullFree([])
  {}

  lemma NullFreeNext(leaves: seq<Leaf>, l: Leaf)
    ensures ChainNullFree(leaves) && NullFree(l.blocks) ==> ChainNullFree(leaves + [l])
  {
    hide NullFree;
  }

  lemma CutsInside(cuts: seq<nat>, n: nat, a: nat)
    requires CutsOf(cuts, n) && a + 1 < |cuts|
    ensures cuts[a] <= cuts[a + 1] <= n
  {}

  lemma LeavesStart(es: seq<Entry>, cuts: seq<nat>)
    requires CutsOf(cuts, |es|)
    ensures LeavesPart(es, cuts, 0, [])
  {}

  lemma LeavesSnoc(es: seq<Entry>, cuts: seq<nat>, a: nat, leaves: seq<Leaf>, l: Leaf)
    requires LeavesPart(es, cuts, a, leaves) && a + 1 < |cuts| && cuts[a] < cuts[a + 1] <= |es|
    requires LeafOf(es, cuts[a], cuts[a + 1], l)
    ensures LeavesPart(es, cuts, a + 1, leaves + [l])
  {
    hide LeafOf;
  }

  lemma {:induction false} CutOf(cuts: seq<nat>, n: nat, k: nat, a: nat) returns (j: nat)
    requires CutsOf(cuts, n) && a < |cuts| && k < cuts[a]
    ensures j + 1 <= a && cuts[j] <= k < cuts[j + 1]
  {
    if k >= cuts[a - 1] {
      j := a - 1;
    } else {
      j := CutOf(cuts, n, k, a - 1);
    }
  }

  lemma LeavesDone(es: seq<Entry>, cuts: seq<nat>, leaves: seq<Leaf>)
    requires SortedByKey(es) && 1 <= |es| && |cuts| >= 2 && LeavesPart(es, cuts, |cuts| - 1, leaves)
    ensures ChainInv(leaves) && leaves[0].firstKey == es[0].key
    ensures forall e :: InLeaves(leaves, e) <==> e in es
  {
    hide LeafInv, Stored;
    forall i | 0 <= i < |leaves|
      ensures cuts[i] < |es| && leaves[i].firstKey == es[cuts[i]].key && LeafInv(leaves[i])
    {
      assert LeafOf(es, cuts[i], cuts[i + 1], leaves[i]);
    }
    forall i, e | 0 <= i < |leaves| && Stored(leaves[i].blocks, e) ensures InDomain(leaves, i, e.key) && e in es {
      assert LeafOf(es, cuts[i], cuts[i + 1], leaves[i]);
      var run := es[cuts[i]..cuts[i + 1]];
      assert e in run;
      var k :| 0 <= k < |run| && run[k] == e;
      assert es[cuts[i] + k] == e;
      assert i + 1 < |leaves| ==> LeafOf(es, cuts[i + 1], cuts[i + 2], leaves[i + 1]);
    }
    forall e | e in es ensures InLeaves(leaves, e) {
      var k :| 0 <= k < |es| && es[k] == e;
      var j := CutOf(cuts, |es|, k, |cuts| - 1);
      assert es[cuts[j]..cuts[j + 1]][k - cuts[j]] == e;
      assert Stored(leaves[j].blocks, e);
    }
  }

  // ----- the index object

  class Index {
    var minKey: real
    var maxKey: real
    var leaves: seq<Leaf>
    var rootKeys: seq<real>
    var rootNodes: seq<Node>
    var left: Pages
    var right: Pages
    /** The bulk load ended the process. */
    var stopped: bool
    ghost var cover: seq<nat>
    ghost var cuts: seq<nat>
    ghost var models: seq<NodeModel>

    ghost predicate Valid()
      reads this
    {
      && !stopped && ChainInv(leaves) && leaves[0].firstKey == minKey <= maxKey
      && Increasing(rootKeys) && LevelOver(rootKeys, rootNodes, cover, FirstKeys(leaves)) && |rootKeys| <= ROOT_SIZE
      && Ordered(left) && Ordered(right) && BuffersInPlace(left, right, minKey, maxKey)
      && (forall e :: InLeaves(leaves, e) ==> e.key <= maxKey)
    }

    /** What is stored where a lookup searches: the leaves inside the loaded key range, the buffers outside it. */
    ghost predicate Visible(e: Entry)
      reads this
    {
      if e.key < minKey then e in Flatten(left)
      else if e.key > maxKey then e in Flatten(right)
      else InLeaves(leaves, e)
    }

    /** A lookup of the key reaches a tree page that holds a value of 0, and the process exits. */
    ghost predicate LookupStops(key: real)
      reads this
      requires Valid()
    {
      if key < minKey then Stops(left, key)
      else if key > maxKey then Stops(right, key)
      else ChainStops(leaves, key)
    }

    /** An upsert of the key does. */
    ghost predicate UpsertStops(key: real)
      reads this
      requires Valid()
    {
      if minKey < key < maxKey then ChainStops(leaves, key)
      else if key < minKey then Stops(left, key)
      else Stops(right, key)
    }

    /** No tree holds a value of 0. */
    ghost predicate TreesNullFree()
      reads this
    {
      ChainNullFree(leaves) && !HasNull(Flatten(left)) && !HasNull(Flatten(right))
    }

    /** Bulk load of strictly increasing keys. The process exits exactly when, in some segment, a value of 0 goes to an
        overflow tree and a later record to the same block; otherwise the index holds exactly the loaded records. */
    constructor BulkLoad(keys: seq<real>, payloads: seq<nat>, nan: real)
      requires 1 <= |keys| == |payloads| && Increasing(keys)
      ensures Segmentation.Greedy(RankPoints(keys), EPSILON_LEAF_NODE as real, cuts)
      ensures LoadOutcome(Entries(keys, payloads), cuts, models, stopped) && ModelsOf(keys, cuts, models, nan)
      ensures !stopped ==> Valid() && minKey == keys[0] && maxKey == keys[|keys| - 1] && left == right == [[]]
      ensures !stopped ==> forall e :: Visible(e) <==> e in Entries(keys, payloads)
      ensures !stopped && (forall i :: 0 <= i < |payloads| ==> payloads[i] != 0) ==> TreesNullFree()
    {
      hide ChainInv, LevelOver, InLeaves, Increasing, Segmentation.Greedy, LoadOutcome, ModelsOf, ChainNullFree;
      var stop, ls, cs, ms := BuildLeaves(keys, payloads, nan);
      stopped, cuts, models := stop, cs, ms;
      minKey, maxKey := keys[0], keys[|keys| - 1];
      left, right := [[]], [[]];
      if stop {
        leaves, rootKeys, rootNodes, cover := [], [], [], [];
      } else {
        ChainFirsts(ls);
        var ks, ns, c := BuildRoots(FirstKeys(ls), nan);
        leaves, rootKeys, rootNodes, cover := ls, ks, ns, c;
        LoadedRange(keys, payloads);
        EmptyBuffer();
      }
    }

    /** Root scan and descent: the responsible leaf of a key at or above the first key. */
    method Locate(key: real) returns (i: nat)
      requires Valid() && minKey <= key
      ensures i < |leaves| && InDomain(leaves, i, key)
    {
      hide LeafInv, Stored, TreeOver, Ordered, BuffersInPlace, InLeaves;
      var r := 0;
      assert rootKeys[0] == FirstKeys(leaves)[0];
      while r < |rootKeys| && key >= rootKeys[r]
        invariant 0 <= r <= |rootKeys|
        invariant r > 0 ==> rootKeys[r - 1] <= key
      {
        r := r + 1;
      }
      r := r - 1;
      ghost var lo, hi := cover[r], cover[r + 1];
      assert r + 1 < |rootKeys| ==> rootKeys[r + 1] == FirstKeys(leaves)[hi];
      i := FindLeafNode(rootNodes[r], key, lo, hi, FirstKeys(leaves));
    }

    /** The process exits exactly when the search reaches a value of 0 in a tree page; otherwise lookup returns the
        payload of the key when there is a visible record, and nothing when there is none. */
    method Find(key: real) returns (exits: bool, r: Option<nat>)
      requires Valid()
      ensures exits <==> LookupStops(key)
      ensures !exits ==> forall p: nat :: r == Some(p) <==> Visible(Entry(key, p))
      ensures TreesNullFree() ==> !exits
    {
      hide ChainInv, InLeaves, LevelOver, Increasing, Ordered, Flatten, FindSorted, PageOf, HasNull, SortedByKey;
      hide ChainStops, ChainNullFree, BuffersInPlace;
      NullFreeGoesOn(leaves, left, right, key);
      if minKey <= key <= maxKey {
        var i := Locate(key);
        DomainIsRouted(leaves, i, key);
        exits, r := FindFrom(leaves, i, key);
      } else {
        var tree := if key < minKey then left else right;
        OrderedSorted(tree);
        LookupIs(tree, key);
        exits, r := Stops(tree, key), Lookup(tree, key);
        forall p: nat ensures r == Some(p) <==> Visible(Entry(key, p)) {
          FindSortedIs(Flatten(tree), key, p);
        }
      }
    }

    /** An upsert of the key adds a record to the overflow trees of its leaf past the limit. */
    ghost predicate SplitDue(key: real)
      reads this
    {
      minKey < key < maxKey && exists j :: 0 <= j < |leaves| && InDomain(leaves, j, key) && OverLimit(leaves[j], key)
    }

    /** Unless the process exits, upsert acts as a map update exactly when the key is not one of the two bounds of the
        loaded range: a bound is written to the right buffer, where lookups do not see it. A split of the leaf is due
        exactly when its overflow count passes the limit. */
    method Upsert(key: real, payload: nat) returns (exits: bool, split: bool)
      requires Valid()
      modifies this
      ensures Valid() && minKey == old(minKey) && maxKey == old(maxKey)
      ensures exits <==> old(UpsertStops(key))
      ensures split <==> !exits && old(SplitDue(key))
      ensures exits ==> forall x: Entry :: Visible(x) <==> old(Visible(x))
      ensures !exits && key != minKey && key != maxKey ==>
        forall x: Entry :: Visible(x) <==> if x.key == key then x == Entry(key, payload) else old(Visible(x))
      ensures key == minKey || key == maxKey ==> forall x: Entry :: Visible(x) <==> old(Visible(x))
      ensures !exits && (key == minKey || key == maxKey) ==> Entry(key, payload) in Flatten(right)
      ensures old(CleanBuffers()) && key != minKey && key != maxKey ==> CleanBuffers()
      ensures old(TreesNullFree()) ==> !exits && (payload != 0 ==> TreesNullFree())
    {
      hide ChainInv, InLeaves, LevelOver, Increasing, SortedByKey, ChainRewrites, ChainStops, Ordered, Flatten, Put;
      hide HasNull, PageOf, ChainNullFree, BuffersInPlace, CleanIn, CodeAt;
      var e := Entry(key, payload);
      split := false;
      NullFreeGoesOn(leaves, left, right, key);
      if minKey < key < maxKey {
        var i := Locate(key);
        DomainIsRouted(leaves, i, key);
        var ls, ret;
        exits, ls, ret := UpsertFrom(leaves, i, e, false);
        ChainKeepsStart(leaves, ls);
        if !exits {
          CodeDecides(leaves, i, key, ret);
          split := ret == 5;
          RewriteSpecified(leaves, ls, e);
          leaves := ls;
        }
      } else if key < minKey {
        exits := Stops(left, key);
        if !exits {
          BufferPut(left, e);
          BuffersStay(left, right, Put(left, e, CARDINALITY), right, minKey, maxKey, e);
          left := Put(left, e, CARDINALITY);
        }
      } else {
        exits := Stops(right, key);
        if !exits {
          BufferPut(right, e);
          BuffersStay(left, right, left, Put(right, e, CARDINALITY), minKey, maxKey, e);
          right := Put(right, e, CARDINALITY);
        }
      }
    }

    /** No record of a bound has strayed into the right buffer. */
    ghost predicate CleanBuffers()
      reads this
    {
      CleanIn(right, maxKey)
    }

    /** What a range query can list: records in slots, and records in trees that have a value. */
    ghost predicate Listable(e: Entry)
      reads this
    {
      ListableIn(leaves, left, right, minKey, maxKey, e)
    }

    /** A record of a bound in the right buffer that a scan of the buffer lists. */
    ghost predicate Stray(lower: real, upper: real, e: Entry)
      reads this
    {
      StrayIn(right, maxKey, lower, upper, e)
    }

    /** A range query lists the listable records with keys in the range and the strayed bounds it meets. It lists every
        key once exactly when no stray repeats a key of the leaves. */
    method RangeQuery(lower: real, upper: real) returns (es: seq<Entry>)
      requires Valid()
      ensures forall e :: e in es <==> (Listable(e) && InRange(e.key, lower, upper)) || Stray(lower, upper, e)
      ensures NoDuplicates(es) <==>
              forall e, x :: Stray(lower, upper, e) && ShownByLeaves(leaves, x) ==> e.key != x.key
      ensures CleanBuffers() && TreesNullFree() ==>
              NoDuplicates(es) && forall e :: e in es <==> Visible(e) && InRange(e.key, lower, upper)
    {
      hide ChainInv, LevelOver, Increasing, Ordered, Flatten, InLeaves, ShownByLeaves, NoDuplicates;
      hide ChainNullFree, HasNull, BuffersInPlace, CleanIn, ListableIn, StrayIn, LeafPartOf, LeftPartOf, RightPartOf;
      LeafKeys(leaves, minKey, maxKey);
      var a, b := ScanBuffers(left, right, minKey, maxKey, lower, upper);
      var c := ScanLeaves(lower, upper);
      es := a + b + c;
      RangeIs(leaves, left, right, minKey, maxKey, lower, upper, a, b, c);
      RangeRepeats(leaves, left, right, minKey, maxKey, lower, upper, a, b, c);
      CleanRange(leaves, left, right, minKey, maxKey, lower, upper);
    }

    /** The part of a range query between the bounds. */
    method ScanLeaves(lower: real, upper: real) returns (c: seq<Entry>)
      requires Valid()
      ensures LeafPartOf(leaves, lower, upper, c)
    {
      hide ChainInv, LevelOver, Increasing, Ordered, Flatten, InLeaves, ShownByLeaves, NoDuplicates, BuffersInPlace;
      var lo, hi := if lower < minKey then minKey else lower, if upper > maxKey then maxKey else upper;
      c := [];
      EmptyDistinct();
      LeafKeys(leaves, minKey, maxKey);
      if hi >= minKey && lo <= maxKey {
        var i := Locate(lo);
        c := RangeFrom(leaves, i, lo, hi, true);
        BeforeDomain(leaves, i, lo, hi, c);
      }
      LeafPartIs(leaves, minKey, maxKey, lower, upper, lo, hi, c);
    }
  }

  /** The parts of a range query outside the bounds. */
  method ScanBuffers(left: Pages, right: Pages, minKey: real, maxKey: real, lower: real, upper: real)
    returns (a: seq<Entry>, b: seq<Entry>)
    requires Ordered(left) && Ordered(right) && BuffersInPlace(left, right, minKey, maxKey) && minKey <= maxKey
    ensures LeftPartOf(left, minKey, lower, upper, a) && RightPartOf(right, minKey, maxKey, lower, upper, b)
  {
    hide Ordered, Flatten, BuffersInPlace, SortedByKey;
    var lo := lower;
    a, b := [], [];
    EmptyDistinct();
    if lo < minKey {
      a := ScanBuffer(left, lo, upper);
      lo := minKey;
    }
    if upper > maxKey {
      b := ScanBuffer(right, lo, upper);
    }
    PartsAre(left, right, minKey, maxKey, lower, upper, a, b, lo);
  }

  /** What a range query can list: records in slots, and records in trees that have a value. */
  ghost predicate ListableIn(leaves: seq<Leaf>, left: Pages, right: Pages, minKey: real, maxKey: real, e: Entry) {
    if e.key < minKey then e in Flatten(left) && e.payload != 0
    else if e.key > maxKey then e in Flatten(right) && e.payload != 0
    else ShownByLeaves(leaves, e)
  }

  /** A record of a bound in the right buffer that the scan of the buffer lists. */
  ghost predicate StrayIn(right: Pages, maxKey: real, lower: real, upper: real, e: Entry) {
    upper > maxKey && e in Flatten(right) && e.payload != 0 && e.key <= maxKey && lower <= e.key
  }

  /** The three parts of an answer. */
  ghost predicate LeftPartOf(left: Pages, minKey: real, lower: real, upper: real, a: seq<Entry>) {
    && SortedByKey(a)
    && forall e :: e in a <==> e in Flatten(left) && e.payload != 0 && InRange(e.key, lower, upper) && e.key < minKey
  }

  ghost predicate RightPartOf(right: Pages, minKey: real, maxKey: real, lower: real, upper: real, b: seq<Entry>) {
    && SortedByKey(b) && (forall e :: e in b ==> minKey <= e.key)
    && forall e :: e in b <==> upper > maxKey && e in Flatten(right) && e.payload != 0 && InRange(e.key, lower, upper)
  }

  ghost predicate LeafPartOf(leaves: seq<Leaf>, lower: real, upper: real, c: seq<Entry>) {
    NoDuplicates(c) && forall e :: e in c <==> ShownByLeaves(leaves, e) && InRange(e.key, lower, upper)
  }

  lemma PartsAre(left: Pages, right: Pages, minKey: real, maxKey: real, lower: real, upper: real, a: seq<Entry>,
                 b: seq<Entry>, lo: real)
    requires BuffersInPlace(left, right, minKey, maxKey) && minKey <= maxKey && SortedByKey(a) && SortedByKey(b)
    requires lo == if lower < minKey then minKey else lower
    requires if lower < minKey
             then forall e :: e in a <==> e in Flatten(left) && e.payload != 0 && InRange(e.key, lower, upper)
             else a == []
    requires if upper > maxKey
             then forall e :: e in b <==> e in Flatten(right) && e.payload != 0 && InRange(e.key, lo, upper)
             else b == []
    ensures LeftPartOf(left, minKey, lower, upper, a) && RightPartOf(right, minKey, maxKey, lower, upper, b)
  {
    hide Flatten, SortedByKey;
  }

  lemma LeafPartIs(leaves: seq<Leaf>, minKey: real, maxKey: real, lower: real, upper: real, lo: real, hi: real,
                   c: seq<Entry>)
    requires forall e :: ShownByLeaves(leaves, e) ==> minKey <= e.key <= maxKey
    requires lo == (if lower < minKey then minKey else lower) && hi == (if upper > maxKey then maxKey else upper)
    requires if hi >= minKey && lo <= maxKey then ChainRange(leaves, lo, hi, c) else c == []
    ensures LeafPartOf(leaves, lower, upper, c)
  {
    hide ShownByLeaves;
  }

  lemma RangeIs(leaves: seq<Leaf>, left: Pages, right: Pages, minKey: real, maxKey: real, lower: real, upper: real,
                a: seq<Entry>, b: seq<Entry>, c: seq<Entry>)
    requires LeftPartOf(left, minKey, lower, upper, a) && RightPartOf(right, minKey, maxKey, lower, upper, b)
    requires LeafPartOf(leaves, lower, upper, c) && BuffersInPlace(left, right, minKey, maxKey) && minKey <= maxKey
    requires forall e :: ShownByLeaves(leaves, e) ==> minKey <= e.key <= maxKey
    ensures forall e :: e in a + b + c <==>
              (ListableIn(leaves, left, right, minKey, maxKey, e) && InRange(e.key, lower, upper)) ||
              StrayIn(right, maxKey, lower, upper, e)
  {
    hide Flatten, ShownByLeaves, SortedByKey, NoDuplicates;
    forall e ensures e in a + b + c <==> e in a || e in b || e in c {}
  }

  lemma RangeRepeats(leaves: seq<Leaf>, left: Pages, right: Pages, minKey: real, maxKey: real, lower: real, upper: real,
                     a: seq<Entry>, b: seq<Entry>, c: seq<Entry>)
    requires LeftPartOf(left, minKey, lower, upper, a) && RightPartOf(right, minKey, maxKey, lower, upper, b)
    requires LeafPartOf(leaves, lower, upper, c) && minKey <= maxKey
    requires forall e :: ShownByLeaves(leaves, e) ==> minKey <= e.key <= maxKey
    ensures NoDuplicates(a + b + c) <==>
            forall e, x :: StrayIn(right, maxKey, lower, upper, e) && ShownByLeaves(leaves, x) ==> e.key != x.key
  {
    hide Flatten, ShownByLeaves, SortedByKey, NoDuplicates;
    if e, x :| StrayIn(right, maxKey, lower, upper, e) && ShownByLeaves(leaves, x) && e.key == x.key {
      Repeats(a, b, c, e, x);
    } else {
      forall e, x | e in b && x in c ensures e.key != x.key {
        assert e.key <= maxKey ==> StrayIn(right, maxKey, lower, upper, e);
      }
      JoinRanges(a, b, c, minKey);
    }
  }

  lemma CleanRange(leaves: seq<Leaf>, left: Pages, right: Pages, minKey: real, maxKey: real, lower: real, upper: real)
    requires ChainInv(leaves)
    ensures CleanIn(right, maxKey) ==> forall e :: !StrayIn(right, maxKey, lower, upper, e)
    ensures ChainNullFree(leaves) && !HasNull(Flatten(left)) && !HasNull(Flatten(right)) ==>
              forall e :: ListableIn(leaves, left, right, minKey, maxKey, e) <==>
                          if e.key < minKey then e in Flatten(left)
                          else if e.key > maxKey then e in Flatten(right)
                          else InLeaves(leaves, e)
  {
    hide ChainInv, ChainNullFree, Flatten, HasNull, ShownByLeaves, InLeaves;
    ListableIsVisible(leaves, left, right);
  }

  /** The scan of a buffer. */
  method ScanBuffer(ps: Pages, lo: real, hi: real) returns (es: seq<Entry>)
    requires Ordered(ps)
    ensures SortedByKey(es) && forall e :: e in es <==> e in Flatten(ps) && e.payload != 0 && InRange(e.key, lo, hi)
  {
    OrderedSorted(ps);
    FilterShownIs(Flatten(ps), lo, hi);
    es := FilterShown(Flatten(ps), lo, hi);
  }

  // ----- the buffers

  /** The left buffer holds keys below the loaded range, the right one keys above it or one of its bounds. */
  ghost predicate BuffersInPlace(left: Pages, right: Pages, minKey: real, maxKey: real) {
    && (forall e :: e in Flatten(left) ==> e.key < minKey)
    && (forall e :: e in Flatten(right) ==> e.key > maxKey || e.key == minKey || e.key == maxKey)
  }

  ghost predicate CleanIn(right: Pages, maxKey: real) {
    forall e :: e in Flatten(right) ==> e.key > maxKey
  }

  lemma BufferKeys(left: Pages, right: Pages, minKey: real, maxKey: real)
    requires BuffersInPlace(left, right, minKey, maxKey)
    ensures forall e :: e in Flatten(left) ==> e.key < minKey
    ensures forall e :: e in Flatten(right) ==> e.key > maxKey || e.key == minKey || e.key == maxKey
  {}

  lemma EmptyBuffer()
    ensures Ordered([[]]) && Flatten([[]]) == [] && !HasNull(Flatten([[]]))
    ensures forall minKey, maxKey :: BuffersInPlace([[]], [[]], minKey, maxKey)
  {
    FlatOne([]);
  }

  lemma BufferPut(ps: Pages, e: Entry)
    requires Ordered(ps)
    ensures Ordered(Put(ps, e, CARDINALITY))
    ensures forall x ::
              x in Flatten(Put(ps, e, CARDINALITY)) <==> if x.key == e.key then x == e else x in Flatten(ps)
    ensures !HasNull(Flatten(ps)) && e.payload != 0 ==> !HasNull(Flatten(Put(ps, e, CARDINALITY)))
  {
    OrderedSorted(ps);
    hide Ordered, Flatten, Put, Upserted, SortedByKey;
    PutIs(ps, e, CARDINALITY);
    var o, o' := Flatten(ps), Flatten(Put(ps, e, CARDINALITY));
    forall x ensures x in o' <==> if x.key == e.key then x == e else x in o {
      UpsertedContents(o, e, x);
    }
    if !HasNull(o) && e.payload != 0 {
      forall i | 0 <= i < |o'| ensures o'[i].payload != 0 {
        assert o'[i] in o';
        if o'[i] != e {
          var j :| 0 <= j < |o| && o[j] == o'[i];
        }
      }
    }
  }

  lemma BuffersStay(left: Pages, right: Pages, left': Pages, right': Pages, minKey: real, maxKey: real, e: Entry)
    requires BuffersInPlace(left, right, minKey, maxKey)
    requires if e.key < minKey then right' == right else left' == left && (e.key >= maxKey || e.key == minKey)
    requires forall x :: x in Flatten(left') ==> x == e || x in Flatten(left)
    requires forall x :: x in Flatten(right') ==> x == e || x in Flatten(right)
    ensures BuffersInPlace(left', right', minKey, maxKey)
    ensures CleanIn(right, maxKey) && e.key != minKey && e.key != maxKey ==> CleanIn(right', maxKey)
  {
    hide Flatten;
  }

  // ----- values of 0

  lemma LeafNullFree(leaves: seq<Leaf>, key: real)
    requires ChainInv(leaves) && ChainNullFree(leaves)
    ensures !ChainStops(leaves, key)
  {
    hide Stored, PredictLeafBlock;
    forall i | 0 <= i < |leaves| && InDomain(leaves, i, key) ensures !StopsAt(leaves[i], key) {
      assert LeafInv(leaves[i]) && NullFree(leaves[i].blocks);
      var x := leaves[i].blocks[PredictLeafBlock(leaves[i].model, key)];
      assert BlockInv(x) && !HasNull(Flatten(x.overflow));
      TreeNullFree(x.overflow, key);
    }
  }

  lemma TreeNullFree(ps: Pages, key: real)
    requires ps != [] ==> Ordered(ps)
    ensures ps != [] && !HasNull(Flatten(ps)) ==> !Stops(ps, key)
  {
    if ps != [] {
      NullStops(ps);
    }
  }

  lemma NullFreeGoesOn(leaves: seq<Leaf>, left: Pages, right: Pages, key: real)
    requires ChainInv(leaves) && Ordered(left) && Ordered(right)
    ensures |left| >= 1 && |right| >= 1
    ensures ChainNullFree(leaves) ==> !ChainStops(leaves, key)
    ensures !HasNull(Flatten(left)) ==> !Stops(left, key)
    ensures !HasNull(Flatten(right)) ==> !Stops(right, key)
  {
    assert |left| >= 1 && |right| >= 1;
    hide ChainInv, ChainStops, ChainNullFree, Flatten, HasNull, Ordered;
    if ChainNullFree(leaves) {
      LeafNullFree(leaves, key);
    }
    TreeNullFree(left, key);
    TreeNullFree(right, key);
  }

  /** A value of 0 in a tree is fatal, and nothing else is: some lookup or upsert ends the process exactly when
      some tree holds a value of 0. */
  lemma NullIsFatal(ix: Index)
    requires ix.Valid()
    ensures ix.TreesNullFree() <==> forall key :: !ix.LookupStops(key) && !ix.UpsertStops(key)
  {
    hide ChainInv, LevelOver, Ordered, Flatten, HasNull, InLeaves, ChainStops, PageOf, ChainNullFree, Increasing;
    forall key ensures ix.TreesNullFree() ==> !ix.LookupStops(key) && !ix.UpsertStops(key) {
      NullFreeGoesOn(ix.leaves, ix.left, ix.right, key);
    }
    BufferKeys(ix.left, ix.right, ix.minKey, ix.maxKey);
    hide BuffersInPlace;
    if !ChainNullFree(ix.leaves) {
      var key := LeafNullStops(ix.leaves, ix.minKey, ix.maxKey);
      assert ix.LookupStops(key);
    } else if HasNull(Flatten(ix.left)) {
      var e := NullOf(ix.left);
      assert ix.LookupStops(e.key);
    } else if HasNull(Flatten(ix.right)) {
      var e := NullOf(ix.right);
      assert ix.UpsertStops(e.key);
    }
  }

  lemma NullOf(ps: Pages) returns (e: Entry)
    requires Ordered(ps) && HasNull(Flatten(ps))
    ensures e in Flatten(ps) && Stops(ps, e.key)
  {
    NullStops(ps);
    var i :| 0 <= i < |Flatten(ps)| && Flatten(ps)[i].payload == 0;
    e := Flatten(ps)[i];
  }

  /** A value of 0 in an overflow tree stops the search for its own key. */
  lemma LeafNullStops(leaves: seq<Leaf>, minKey: real, maxKey: real) returns (key: real)
    requires ChainInv(leaves) && !ChainNullFree(leaves) && leaves[0].firstKey == minKey
    requires forall e :: InLeaves(leaves, e) ==> e.key <= maxKey
    ensures minKey <= key <= maxKey && ChainStops(leaves, key)
  {
    hide Flatten, PredictLeafBlock;
    var i :| 0 <= i < |leaves| && !NullFree(leaves[i].blocks);
    var l := leaves[i];
    assert LeafInv(l);
    var b :| 0 <= b < |l.blocks| && HasNull(Flatten(l.blocks[b].overflow));
    var x := l.blocks[b];
    assert BlockInv(x);
    NoTreeNoRecords(x);
    var e := NullOf(x.overflow);
    key := e.key;
    assert StoredIn(x, e);
    assert Stored(l.blocks, e);
    assert InDomain(leaves, i, e.key) && InLeaves(leaves, e);
    assert PredictLeafBlock(l.model, e.key) == b;
    assert StopsAt(l, key);
    LeafKeys(leaves, minKey, maxKey);
  }

  /** Keys in the leaves are in the loaded range. */
  lemma LeafKeys(leaves: seq<Leaf>, minKey: real, maxKey: real)
    requires ChainInv(leaves) && leaves[0].firstKey == minKey && forall e :: InLeaves(leaves, e) ==> e.key <= maxKey
    ensures forall e :: InLeaves(leaves, e) ==> minKey <= e.key <= maxKey
    ensures forall e :: ShownByLeaves(leaves, e) ==> minKey <= e.key <= maxKey
  {
    hide LeafInv, Stored, Shown;
    forall e | InLeaves(leaves, e) ensures minKey <= e.key {
      var i :| 0 <= i < |leaves| && Stored(leaves[i].blocks, e);
      var f := FirstKeys(leaves);
      assert i > 0 ==> f[0] < f[i];
    }
    forall e | ShownByLeaves(leaves, e) ensures InLeaves(leaves, e) {
      var i :| 0 <= i < |leaves| && Shown(leaves[i].blocks, e);
      ShownHere(leaves, i, e);
    }
  }

  lemma ListableIsVisible(leaves: seq<Leaf>, left: Pages, right: Pages)
    requires ChainInv(leaves)
    ensures ChainNullFree(leaves) ==> forall e :: ShownByLeaves(leaves, e) <==> InLeaves(leaves, e)
    ensures !HasNull(Flatten(left)) ==> forall e :: e in Flatten(left) ==> e.payload != 0
    ensures !HasNull(Flatten(right)) ==> forall e :: e in Flatten(right) ==> e.payload != 0
  {
    hide LeafInv, Stored, Shown, NullFree, Flatten;
    if ChainNullFree(leaves) {
      forall e ensures ShownByLeaves(leaves, e) <==> InLeaves(leaves, e) {
        if i :| 0 <= i < |leaves| && Shown(leaves[i].blocks, e) {
          ShownHere(leaves, i, e);
        }
        if i :| 0 <= i < |leaves| && Stored(leaves[i].blocks, e) {
          ShownIsStored(leaves[i].blocks);
          assert NullFree(leaves[i].blocks);
          assert Shown(leaves[i].blocks, e);
        }
      }
    }
  }

  lemma Repeats(a: seq<Entry>, b: seq<Entry>, c: seq<Entry>, e: Entry, x: Entry)
    requires e in b && x in c && e.key == x.key
    ensures !NoDuplicates(a + b + c)
  {
    var i :| 0 <= i < |b| && b[i] == e;
    var j :| 0 <= j < |c| && c[j] == x;
    var es := a + b + c;
    assert es[|a| + i] == e && es[|a| + |b| + j] == x;
  }

  /** A lost update: the only loaded key is both bounds, and after overwriting it a lookup still returns
      the loaded payload. */
  method BoundUpsertIsLost(nan: real) returns (r: Option<nat>)
    ensures r == Some(7)
  {
    var ix := new Index.BulkLoad([1.0], [7], nan);
    OneRecordLoads(ix.cuts, ix.models, ix.stopped);
    assert Entries([1.0], [7])[0] == Entry(1.0, 7);
    assert ix.Visible(Entry(1.0, 7));
    var exits, _ := ix.Upsert(1.0, 9);
    exits, r := ix.Find(1.0);
  }

  /** A value of 0 in a buffer: the upsert goes through and the lookup of the same key ends the process. */
  method NullUpsertIsFatal(nan: real) returns (exits: bool)
    ensures exits
  {
    hide ChainStops, ChainNullFree;
    var ix := new Index.BulkLoad([1.0], [7], nan);
    OneRecordLoads(ix.cuts, ix.models, ix.stopped);
    assert forall i :: 0 <= i < |[7]| ==> [7][i] != 0;
    var stopped, _ := ix.Upsert(0.5, 0);
    assert ix.Visible(Entry(0.5, 0));
    NullStops(ix.left);
    var r;
    exits, r := ix.Find(0.5);
  }

  /** A single record goes to a slot, so loading it succeeds. */
  lemma OneRecordLoads(cuts: seq<nat>, models: seq<NodeModel>, stopped: bool)
    requires LoadOutcome(Entries([1.0], [7]), cuts, models, stopped)
    ensures !stopped
  {
    hide PredictLeafBlock;
    if |models| >= 1 {
      assert !DoomedAt(Entries([1.0], [7]), cuts, models, |models| - 1);
    }
  }

  lemma EmptyDistinct()
    ensures NoDuplicates([]) && SortedByKey([])
  {}

  lemma JoinRanges(a: seq<Entry>, b: seq<Entry>, c: seq<Entry>, minKey: real)
    requires SortedByKey(a) && SortedByKey(b) && NoDuplicates(c)
    requires (forall e :: e in a ==> e.key < minKey) && (forall e :: e in b ==> e.key >= minKey)
    requires (forall e :: e in c ==> minKey <= e.key) && (forall e, x :: e in b && x in c ==> e.key != x.key)
    ensures NoDuplicates(a + b + c)
  {
    var es := a + b + c;
    forall i, j | 0 <= i < j < |es| ensures es[i].key != es[j].key {
      assert i < |a| ==> es[i] in a;
      assert |a| <= i < |a| + |b| ==> es[i] in b;
      assert |a| + |b| <= i ==> es[i] in c;
      assert j < |a| ==> es[j] in a;
      assert |a| <= j < |a| + |b| ==> es[j] in b;
      assert |a| + |b| <= j ==> es[j] in c;
    }
  }

  lemma BeforeDomain(leaves: seq<Leaf>, i: nat, lo: real, hi: real, es: seq<Entry>)
    requires ChainInv(leaves) && i < |leaves| && InDomain(leaves, i, lo) && ChainRange(leaves[i..], lo, hi, es)
    ensures ChainRange(leaves, lo, hi, es)
  {
    hide LeafInv, Stored, Shown, NoDuplicates;
    forall e
      ensures ShownByLeaves(leaves, e) && InRange(e.key, lo, hi) <==>
                ShownByLeaves(leaves[i..], e) && InRange(e.key, lo, hi)
    {
      if ShownByLeaves(leaves, e) && InRange(e.key, lo, hi) {
        var j :| 0 <= j < |leaves| && Shown(leaves[j].blocks, e);
        ShownHere(leaves, j, e);
        if j < i {
          LaterDomains(leaves, j, i);
        }
        assert leaves[i..][j - i] == leaves[j];
      }
      if ShownByLeaves(leaves[i..], e) {
        var j :| 0 <= j < |leaves[i..]| && Shown(leaves[i..][j].blocks, e);
        assert leaves[i + j] == leaves[i..][j];
      }
    }
  }

  lemma ChainFirsts(leaves: seq<Leaf>)
    requires ChainInv(leaves)
    ensures |leaves| >= 1 && Increasing(FirstKeys(leaves))
  {}

  lemma ChainKeepsStart(leaves: seq<Leaf>, leaves': seq<Leaf>)
    requires ChainInv(leaves) && ChainInv(leaves') && FirstKeys(leaves') == FirstKeys(leaves)
    ensures |leaves'| >= 1 && |leaves| >= 1 && leaves'[0].firstKey == leaves[0].firstKey
  {
    assert FirstKeys(leaves')[0] == FirstKeys(leaves)[0];
  }

  lemma RewriteSpecified(leaves: seq<Leaf>, leaves': seq<Leaf>, e: Entry)
    requires ChainRewrites(leaves, leaves', e)
    ensures forall x :: InLeaves(leaves', x) <==> if x.key == e.key then x == e else InLeaves(leaves, x)
  {}

  lemma LoadedRange(keys: seq<real>, payloads: seq<nat>)
    requires 1 <= |keys| == |payloads| && Increasing(keys)
    ensures keys[0] <= keys[|keys| - 1]
    ensures forall e :: e in Entries(keys, payloads) ==> keys[0] <= e.key <= keys[|keys| - 1]
  {}

  lemma DomainIsRouted(leaves: seq<Leaf>, i: nat, key: real)
    requires ChainInv(leaves) && i < |leaves| && InDomain(leaves, i, key)
    ensures Routed(leaves, i, key)
  {}
}
