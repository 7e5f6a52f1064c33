/** The remote-read snapshot: records grouped by predicted leaf on the Edge, looked up by the End. */
module Snapshot {
  import opened Geometry
  import opened Placement
  import opened Wrappers
  import opened SortedRecords
  import PS = ParamStream

  // ----- the shipped model

  const U32 := 0x1_0000_0000

  /** One segment: its first key and the model of the inner node behind it. */
  datatype Segment = Segment(firstKey: real, model: NodeModel)

  ghost predicate Usable(levels: seq<seq<Segment>>) {
    forall l :: 0 <= l < |levels| ==> |levels[l]| >= 1
  }

  /** The block a parameter set predicts. The block number is a 32-bit word, so its subtractions wrap. */
  function PredictSegmentBlock(m: NodeModel, key: real): nat {
    var t := Truncate((At(m.line, key) + 0.5) / SLOTS_PER_BLOCK as real);
    if t < 0 then 0
    else if t > (m.blocks % U32 + U32 - 4) % U32 then (m.blocks % U32 + U32 - 2) % U32
    else t + 1
  }

  /** For every block number the index builds, the shipped model predicts what the node itself predicts. */
  lemma AgreesWithNode(m: NodeModel, key: real)
    requires 4 <= m.blocks < U32
    ensures PredictSegmentBlock(m, key) == PredictBlock(m, key)
  {
    hide At;
  }

  /** Number of leading first keys that are at most v. */
  function Leading(level: seq<Segment>, v: real, k: nat): (r: nat)
    requires k <= |level|
    ensures k <= r <= |level|
    ensures forall j :: k <= j < r ==> level[j].firstKey <= v
    ensures r < |level| ==> v < level[r].firstKey
    decreases |level| - k
  {
    if k < |level| && v >= level[k].firstKey then Leading(level, v, k + 1) else k
  }

  function Slot(level: seq<Segment>, v: real): nat
    requires |level| >= 1
  {
    var k := Leading(level, v, 0);
    var pos := if k >= |level| then |level| - 1 else k;
    PredictSegmentBlock(level[pos].model, v) * SLOTS_PER_BLOCK
  }

  /** From the top level down, the slot predicted on one level is the key looked up on the next. */
  function PredictPos(levels: seq<seq<Segment>>, v: real): int
    requires Usable(levels)
  {
    if levels == [] then Truncate(v)
    else PredictPos(levels[..|levels| - 1], Slot(levels[|levels| - 1], v) as real)
  }

  lemma {:induction false} PredictsNonNegative(levels: seq<seq<Segment>>, v: real)
    requires Usable(levels) && (levels != [] || v >= 0.0)
    ensures PredictPos(levels, v) >= 0
  {
    if levels != [] {
      PredictsNonNegative(levels[..|levels| - 1], Slot(levels[|levels| - 1], v) as real);
    }
  }

  /** The two nested loops of predict_pos. */
  method PredictPosLoop(levels: seq<seq<Segment>>, key: real) returns (pos: int)
    requires Usable(levels)
    ensures pos == PredictPos(levels, key)
  {
    hide Truncate, PredictSegmentBlock;
    var v := key;
    var level := |levels|;
    assert levels[..level] == levels;
    while level > 0
      invariant 0 <= level <= |levels|
      invariant PredictPos(levels[..level], v) == PredictPos(levels, key)
    {
      var segs := levels[level - 1];
      var k := 0;
      while k < |segs| && v >= segs[k].firstKey
        invariant 0 <= k <= |segs| && Leading(segs, v, k) == Leading(segs, v, 0)
      {
        k := k + 1;
      }
      var at := if k >= |segs| then |segs| - 1 else k;
      assert levels[..level][..level - 1] == levels[..level - 1];
      v := (PredictSegmentBlock(segs[at].model, v) * SLOTS_PER_BLOCK) as real;
      level := level - 1;
    }
    pos := Truncate(v);
  }

  /** The segment a value belongs to: the first one whose first key is above it, or the last one when there is none. */
  ghost predicate BelongsTo(level: seq<Segment>, k: nat, v: real) {
    && k < |level| && (forall j :: 0 <= j < k ==> level[j].firstKey <= v)
    && (v < level[k].firstKey || k == |level| - 1)
  }

  /** The home that the node behind the segment of v has for v. */
  ghost predicate LeadsTo(level: seq<Segment>, v: real, v': real) {
    exists k: nat :: BelongsTo(level, k, v) && level[k].model.blocks >= 4 && v' == Home(level[k].model, v) as real
  }

  /** The values a prediction goes through, from the key down to the leaf level. */
  ghost predicate Trail(levels: seq<seq<Segment>>, key: real, vs: seq<real>) {
    && |vs| == |levels| + 1 && vs[|levels|] == key
    && forall l :: 0 <= l < |levels| ==> LeadsTo(levels[l], vs[l + 1], vs[l])
  }

  /** Block numbers as the index builds them. */
  ghost predicate Shipped(levels: seq<seq<Segment>>) {
    forall l, k :: 0 <= l < |levels| && 0 <= k < |levels[l]| ==> 4 <= levels[l][k].model.blocks < U32
  }

  lemma BelongsToOne(level: seq<Segment>, j: nat, k: nat, v: real)
    requires BelongsTo(level, j, v) && BelongsTo(level, k, v)
    ensures j == k
  {}

  lemma SlotLeads(level: seq<Segment>, v: real, v': real)
    requires |level| >= 1 && forall k :: 0 <= k < |level| ==> 4 <= level[k].model.blocks < U32
    ensures LeadsTo(level, v, v') <==> v' == Slot(level, v) as real
  {
    hide At, PredictBlock, PredictSegmentBlock;
    var k := Leading(level, v, 0);
    var pos := if k >= |level| then |level| - 1 else k;
    assert BelongsTo(level, pos, v);
    AgreesWithNode(level[pos].model, v);
    if LeadsTo(level, v, v') {
      var j: nat :| BelongsTo(level, j, v) && level[j].model.blocks >= 4 && v' == Home(level[j].model, v) as real;
      BelongsToOne(level, j, pos, v);
    }
  }

  /** The prediction follows, on every level, the node whose range holds the value: there is exactly one trail, and the
      result is where it ends. */
  lemma {:induction false} PredictFollows(levels: seq<seq<Segment>>, key: real) returns (vs: seq<real>)
    requires Usable(levels) && Shipped(levels)
    ensures Trail(levels, key, vs) && PredictPos(levels, key) == Truncate(vs[0])
    ensures forall us :: Trail(levels, key, us) ==> us == vs
  {
    hide LeadsTo, Slot, Truncate;
    var n := |levels|;
    if n == 0 {
      vs := [key];
    } else {
      var front, top := levels[..n - 1], levels[n - 1];
      var v := Slot(top, key) as real;
      SlotLeads(top, key, v);
      vs := PredictFollows(front, v);
      vs := vs + [key];
      forall us | Trail(levels, key, us) ensures us == vs {
        SlotLeads(top, key, us[n - 1]);
        assert LeadsTo(levels[n - 1], us[n], us[n - 1]);
        assert Trail(front, v, us[..n]);
        assert us == us[..n] + [key];
      }
    }
  }

  // ----- grouping by leaf

  /** The predicted leaf, clamped to the table. */
  function LeafId(levels: seq<seq<Segment>>, leaves: nat, key: real): (l: nat)
    requires Usable(levels) && leaves > 0
    ensures l < leaves
  {
    var p := PredictPos(levels, key);
    if p < 0 then 0 else if p >= leaves then leaves - 1 else p
  }

  function Distance(a: int, b: int): int {
    if a <= b then b - a else a - b
  }

  /** The leaf is the one whose number is nearest to the prediction. */
  lemma LeafIsNearest(levels: seq<seq<Segment>>, leaves: nat, key: real, l: nat)
    requires Usable(levels) && l < leaves
    ensures var p := PredictPos(levels, key); Distance(LeafId(levels, leaves, key), p) <= Distance(l, p)
  {
    hide PredictPos;
  }

  /** The records of one leaf, in dataset order. */
  ghost function Group(levels: seq<seq<Segment>>, n: nat, ds: seq<Entry>, l: nat): (g: seq<Entry>)
    requires Usable(levels) && n > 0
  {
    if ds == [] then []
    else
      var x := ds[|ds| - 1];
      Group(levels, n, ds[..|ds| - 1], l) + if LeafId(levels, n, x.key) == l then [x] else []
  }

  /** Where a leaf's records begin: behind those of all smaller leaves. */
  ghost function Offset(levels: seq<seq<Segment>>, n: nat, ds: seq<Entry>, l: nat): nat
    requires Usable(levels) && n > 0
  {
    if l == 0 then 0 else Offset(levels, n, ds, l - 1) + |Group(levels, n, ds, l - 1)|
  }

  /** All groups one after the other. */
  ghost function Joined(levels: seq<seq<Segment>>, n: nat, ds: seq<Entry>, l: nat): (j: seq<Entry>)
    requires Usable(levels) && n > 0
    ensures |j| == Offset(levels, n, ds, l)
  {
    if l == 0 then [] else Joined(levels, n, ds, l - 1) + Group(levels, n, ds, l - 1)
  }

  lemma GroupStep(levels: seq<seq<Segment>>, n: nat, ds: seq<Entry>, i: nat, l: nat)
    requires Usable(levels) && n > 0 && i < |ds|
    ensures Group(levels, n, ds[..i + 1], l) ==
            Group(levels, n, ds[..i], l) + if LeafId(levels, n, ds[i].key) == l then [ds[i]] else []
  {
    assert ds[..i + 1][..i] == ds[..i];
  }

  lemma {:induction false} GroupGrows(levels: seq<seq<Segment>>, n: nat, ds: seq<Entry>, i: nat, l: nat)
    requires Usable(levels) && n > 0 && i <= |ds|
    ensures |Group(levels, n, ds[..i], l)| <= |Group(levels, n, ds, l)|
    decreases |ds| - i
  {
    if i == |ds| {
      assert ds[..i] == ds;
    } else {
      GroupStep(levels, n, ds, i, l);
      GroupGrows(levels, n, ds, i + 1, l);
    }
  }

  lemma {:induction false} OffsetStep(levels: seq<seq<Segment>>, n: nat, ds: seq<Entry>, i: nat, l: nat)
    requires Usable(levels) && n > 0 && i < |ds|
    ensures Offset(levels, n, ds[..i + 1], l) ==
            Offset(levels, n, ds[..i], l) + if LeafId(levels, n, ds[i].key) < l then 1 else 0
  {
    hide LeafId, Group;
    if l > 0 {
      GroupStep(levels, n, ds, i, l - 1);
      OffsetStep(levels, n, ds, i, l - 1);
    }
  }

  lemma {:induction false} OffsetNone(levels: seq<seq<Segment>>, n: nat, l: nat)
    requires Usable(levels) && n > 0
    ensures Offset(levels, n, [], l) == 0
  {
    if l > 0 {
      OffsetNone(levels, n, l - 1);
    }
  }

  lemma {:induction false} OffsetTotal(levels: seq<seq<Segment>>, n: nat, ds: seq<Entry>, i: nat)
    requires Usable(levels) && n > 0 && i <= |ds|
    ensures Offset(levels, n, ds[..i], n) == i
  {
    hide Offset, Group;
    if i == 0 {
      assert ds[..0] == [];
      OffsetNone(levels, n, n);
    } else {
      OffsetTotal(levels, n, ds, i - 1);
      OffsetStep(levels, n, ds, i - 1, n);
      assert LeafId(levels, n, ds[i - 1].key) < n;
    }
  }

  lemma {:induction false} OffsetMonotone(levels: seq<seq<Segment>>, n: nat, ds: seq<Entry>, l: nat, m: nat)
    requires Usable(levels) && n > 0 && l <= m
    ensures Offset(levels, n, ds, l) <= Offset(levels, n, ds, m)
  {
    if l < m {
      OffsetMonotone(levels, n, ds, l, m - 1);
    }
  }

  lemma {:induction false} JoinedStep(levels: seq<seq<Segment>>, n: nat, ds: seq<Entry>, i: nat, l: nat)
    requires Usable(levels) && n > 0 && i < |ds|
    ensures multiset(Joined(levels, n, ds[..i + 1], l)) ==
            multiset(Joined(levels, n, ds[..i], l)) +
            if LeafId(levels, n, ds[i].key) < l then multiset{ds[i]} else multiset{}
  {
    hide LeafId, Group;
    if l > 0 {
      GroupStep(levels, n, ds, i, l - 1);
      JoinedStep(levels, n, ds, i, l - 1);
    }
  }

  /** The groups together are a permutation of the dataset. */
  lemma {:induction false} JoinedPermutes(levels: seq<seq<Segment>>, n: nat, ds: seq<Entry>, i: nat)
    requires Usable(levels) && n > 0 && i <= |ds|
    ensures multiset(Joined(levels, n, ds[..i], n)) == multiset(ds[..i])
  {
    hide LeafId, Group, Joined, Offset, PredictPos;
    if i == 0 {
      assert ds[..0] == [];
      OffsetNone(levels, n, n);
    } else {
      JoinedPermutes(levels, n, ds, i - 1);
      JoinedStep(levels, n, ds, i - 1, n);
      assert ds[..i] == ds[..i - 1] + [ds[i - 1]];
    }
  }

  /** The first record with a key in its group is the first one in the dataset. */
  lemma {:induction false} GroupFinds(levels: seq<seq<Segment>>, n: nat, ds: seq<Entry>, key: real)
    requires Usable(levels) && n > 0
    ensures FindSorted(Group(levels, n, ds, LeafId(levels, n, key)), key) == FindSorted(ds, key)
  {
    hide LeafId;
    if ds != [] {
      var x, front := ds[|ds| - 1], ds[..|ds| - 1];
      var l := LeafId(levels, n, key);
      GroupFinds(levels, n, front, key);
      assert ds == front + [x];
      FindLast(front, x, key);
      FindLast(Group(levels, n, front, l), x, key);
      assert Group(levels, n, front, l) + [] == Group(levels, n, front, l);
    }
  }

  lemma {:induction false} FindLast(o: seq<Entry>, x: Entry, key: real)
    ensures FindSorted(o + [x], key) ==
            if FindSorted(o, key).Some? then FindSorted(o, key) else if x.key == key then Some(x.payload) else None
  {
    if o == [] {
      assert o + [x] == [x] && [x][1..] == [];
    } else {
      FindLast(o[1..], x, key);
      assert (o + [x])[1..] == o[1..] + [x];
    }
  }

  // ----- the builder

  const SNAPSHOT_VERSION := 1

  datatype Desc = Desc(offset: nat, count: nat, version: nat, firstKey: real)

  /** The descriptors cut the records into the leaves' groups, in leaf order and without gaps. */
  ghost predicate IsSnapshot(levels: seq<seq<Segment>>, ds: seq<Entry>, descs: seq<Desc>, records: seq<Entry>)
    requires Usable(levels) && |descs| > 0
  {
    var n := |descs|;
    && records == Joined(levels, n, ds, n)
    && forall l :: 0 <= l < n ==> IsDesc(levels, n, ds, descs[l], l)
  }

  ghost predicate IsDesc(levels: seq<seq<Segment>>, n: nat, ds: seq<Entry>, d: Desc, l: nat)
    requires Usable(levels) && n > 0
  {
    && d.offset == Offset(levels, n, ds, l) && d.count == |Group(levels, n, ds, l)|
    && d.version == SNAPSHOT_VERSION
  }

  /** Counting sort in three passes over in-place counts, offsets and fill cursors. */
  method BuildSnapshot(levels: seq<seq<Segment>>, table: seq<real>, ds: seq<Entry>)
    returns (descs: seq<Desc>, records: seq<Entry>)
    requires Usable(levels)
    ensures |descs| == |table|
    ensures table == [] || ds == [] ==> records == [] && forall l :: 0 <= l < |descs| ==> descs[l].count == 0
    ensures table != [] && ds != [] ==> IsSnapshot(levels, ds, descs, records) && multiset(records) == multiset(ds)
    ensures table != [] && ds != [] ==> forall l :: 0 <= l < |table| ==> descs[l].firstKey == table[l]
  {
    hide LeafId, Group, Offset, Joined;
    var n := |table|;
    if n == 0 || ds == [] {
      return seq(n, _ => Desc(0, 0, SNAPSHOT_VERSION, 0.0)), [];
    }
    var counts := CountLeaves(levels, n, ds);
    var offsets := PrefixSums(levels, n, ds, counts);
    records := Scatter(levels, n, ds, offsets);
    descs := seq(n, l requires 0 <= l < n => Desc(offsets[l], counts[l], SNAPSHOT_VERSION, table[l]));
    assert ds[..|ds|] == ds;
    JoinedPermutes(levels, n, ds, |ds|);
  }

  method CountLeaves(levels: seq<seq<Segment>>, n: nat, ds: seq<Entry>) returns (counts: seq<nat>)
    requires Usable(levels) && n > 0
    ensures |counts| == n && forall l :: 0 <= l < n ==> counts[l] == |Group(levels, n, ds, l)|
  {
    hide LeafId;
    var count := new nat[n](_ => 0);
    assert ds[..0] == [];
    for i := 0 to |ds|
      invariant forall l :: 0 <= l < n ==> count[l] == |Group(levels, n, ds[..i], l)|
    {
      forall l | 0 <= l < n
        ensures Group(levels, n, ds[..i + 1], l) ==
                Group(levels, n, ds[..i], l) + if LeafId(levels, n, ds[i].key) == l then [ds[i]] else []
      {
        GroupStep(levels, n, ds, i, l);
      }
      hide Group;
      var predicted := PredictPosLoop(levels, ds[i].key);
      var leaf := if predicted < 0 then 0 else if predicted >= n then n - 1 else predicted;
      LeafIdIs(levels, n, ds[i].key, predicted, leaf);
      count[leaf] := count[leaf] + 1;
    }
    assert ds[..|ds|] == ds;
    counts := count[..];
  }

  lemma LeafIdIs(levels: seq<seq<Segment>>, n: nat, key: real, predicted: int, leaf: nat)
    requires Usable(levels) && n > 0 && predicted == PredictPos(levels, key)
    requires leaf == if predicted < 0 then 0 else if predicted >= n then n - 1 else predicted
    ensures leaf == LeafId(levels, n, key)
  {
  }

  lemma OffsetNext(levels: seq<seq<Segment>>, n: nat, ds: seq<Entry>, l: nat)
    requires Usable(levels) && n > 0
    ensures Offset(levels, n, ds, 0) == 0
    ensures Offset(levels, n, ds, l + 1) == Offset(levels, n, ds, l) + |Group(levels, n, ds, l)|
  {
  }

  method PrefixSums(levels: seq<seq<Segment>>, n: nat, ds: seq<Entry>, counts: seq<nat>) returns (offsets: seq<nat>)
    requires Usable(levels) && n > 0
    requires |counts| == n && forall l :: 0 <= l < n ==> counts[l] == |Group(levels, n, ds, l)|
    ensures |offsets| == n && forall l :: 0 <= l < n ==> offsets[l] == Offset(levels, n, ds, l)
  {
    hide Group, Offset;
    var offs := new nat[n](_ => 0);
    var offset := 0;
    OffsetNext(levels, n, ds, 0);
    for l := 0 to n
      invariant offset == Offset(levels, n, ds, l)
      invariant forall m :: 0 <= m < l ==> offs[m] == Offset(levels, n, ds, m)
    {
      OffsetNext(levels, n, ds, l);
      offs[l] := offset;
      offset := offset + counts[l];
    }
    offsets := offs[..];
  }

  /** What the first i records of the dataset have filled in. */
  ghost predicate FilledUpTo(levels: seq<seq<Segment>>, n: nat, ds: seq<Entry>, i: nat, out: seq<Entry>, l: nat)
    requires Usable(levels) && n > 0 && i <= |ds|
  {
    var g := Group(levels, n, ds[..i], l);
    var o := Offset(levels, n, ds, l);
    o + |g| <= |out| && out[o..o + |g|] == g
  }

  ghost predicate AllFilled(levels: seq<seq<Segment>>, n: nat, ds: seq<Entry>, i: nat, out: seq<Entry>)
    requires Usable(levels) && n > 0 && i <= |ds|
  {
    forall l :: 0 <= l < n ==> FilledUpTo(levels, n, ds, i, out, l)
  }

  method Scatter(levels: seq<seq<Segment>>, n: nat, ds: seq<Entry>, offsets: seq<nat>) returns (records: seq<Entry>)
    requires Usable(levels) && n > 0
    requires |offsets| == n && forall l :: 0 <= l < n ==> offsets[l] == Offset(levels, n, ds, l)
    ensures records == Joined(levels, n, ds, n)
  {
    hide LeafId, Group, Offset, Joined, FilledUpTo;
    var cursor := new nat[n](_ => 0);
    var out := new Entry[|ds|](_ => Entry(0.0, 0));
    ScatterStarts(levels, n, ds, out[..]);
    for i := 0 to |ds|
      invariant out.Length == |ds|
      invariant forall l :: 0 <= l < n ==> cursor[l] == |Group(levels, n, ds[..i], l)|
      invariant AllFilled(levels, n, ds, i, out[..])
    {
      var leaf := LeafId(levels, n, ds[i].key);
      var pos := offsets[leaf] + cursor[leaf];
      ScatterStep(levels, n, ds, i, out[..], pos);
      ghost var before := out[..];
      out[pos] := ds[i];
      assert out[..] == before[pos := ds[i]];
      cursor[leaf] := cursor[leaf] + 1;
    }
    ScatterEnds(levels, n, ds, out[..]);
    records := out[..];
  }

  lemma ScatterStarts(levels: seq<seq<Segment>>, n: nat, ds: seq<Entry>, out: seq<Entry>)
    requires Usable(levels) && n > 0 && |out| == |ds|
    ensures AllFilled(levels, n, ds, 0, out) && forall l :: 0 <= l < n ==> |Group(levels, n, ds[..0], l)| == 0
  {
    hide Offset, LeafId;
    assert ds[..0] == [];
    forall l | 0 <= l < n ensures Group(levels, n, ds[..0], l) == [] && FilledUpTo(levels, n, ds, 0, out, l) {
      Inside(levels, n, ds, l);
    }
  }

  /** A leaf's whole group lies inside the record array. */
  lemma Inside(levels: seq<seq<Segment>>, n: nat, ds: seq<Entry>, l: nat)
    requires Usable(levels) && l < n
    ensures Offset(levels, n, ds, l) + |Group(levels, n, ds, l)| == Offset(levels, n, ds, l + 1) <= |ds|
  {
    hide LeafId, Group;
    assert ds[..|ds|] == ds;
    OffsetTotal(levels, n, ds, |ds|);
    OffsetMonotone(levels, n, ds, l + 1, n);
  }

  lemma ScatterStep(levels: seq<seq<Segment>>, n: nat, ds: seq<Entry>, i: nat, out: seq<Entry>, pos: nat)
    requires Usable(levels) && n > 0 && i < |ds| && |out| == |ds|
    requires AllFilled(levels, n, ds, i, out)
    requires var leaf := LeafId(levels, n, ds[i].key);
             pos == Offset(levels, n, ds, leaf) + |Group(levels, n, ds[..i], leaf)|
    ensures pos < |out|
    ensures AllFilled(levels, n, ds, i + 1, out[pos := ds[i]])
    ensures forall l :: 0 <= l < n ==>
              |Group(levels, n, ds[..i + 1], l)| ==
              |Group(levels, n, ds[..i], l)| + if l == LeafId(levels, n, ds[i].key) then 1 else 0
  {
    hide LeafId, Group, Offset, FilledUpTo;
    var leaf := LeafId(levels, n, ds[i].key);
    GroupStep(levels, n, ds, i, leaf);
    GroupGrows(levels, n, ds, i + 1, leaf);
    Inside(levels, n, ds, leaf);
    var out', next := out[pos := ds[i]], i + 1;
    forall l | 0 <= l < n ensures FilledUpTo(levels, n, ds, next, out', l) {
      assert FilledUpTo(levels, n, ds, i, out, l);
      ScatterOne(levels, n, ds, i, out, pos, leaf, l);
    }
    forall l | 0 <= l < n
      ensures |Group(levels, n, ds[..i + 1], l)| == |Group(levels, n, ds[..i], l)| + if l == leaf then 1 else 0
    {
      GroupStep(levels, n, ds, i, l);
    }
  }

  lemma ScatterOne(levels: seq<seq<Segment>>, n: nat, ds: seq<Entry>, i: nat, out: seq<Entry>, pos: nat, leaf: nat,
                   l: nat)
    requires Usable(levels) && l < n && leaf < n && i < |ds| && |out| == |ds|
    requires leaf == LeafId(levels, n, ds[i].key)
    requires pos == Offset(levels, n, ds, leaf) + |Group(levels, n, ds[..i], leaf)| && pos < |out|
    requires FilledUpTo(levels, n, ds, i, out, l)
    ensures FilledUpTo(levels, n, ds, i + 1, out[pos := ds[i]], l)
  {
    hide LeafId, Group, Offset;
    GroupStep(levels, n, ds, i, l);
    var g := Group(levels, n, ds[..i], l);
    var o := Offset(levels, n, ds, l);
    if l == leaf {
      assert out[pos := ds[i]][o..o + |g| + 1] == out[o..o + |g|] + [ds[i]];
    } else {
      GroupGrows(levels, n, ds, i, l);
      GroupStep(levels, n, ds, i, leaf);
      GroupGrows(levels, n, ds, i + 1, leaf);
      Inside(levels, n, ds, l);
      Inside(levels, n, ds, leaf);
      if l < leaf {
        OffsetMonotone(levels, n, ds, l + 1, leaf);
      } else {
        OffsetMonotone(levels, n, ds, leaf + 1, l);
      }
      assert out[pos := ds[i]][o..o + |g|] == out[o..o + |g|];
      assert g + [] == g;
    }
  }

  lemma ScatterEnds(levels: seq<seq<Segment>>, n: nat, ds: seq<Entry>, out: seq<Entry>)
    requires Usable(levels) && n > 0 && |out| == |ds|
    requires AllFilled(levels, n, ds, |ds|, out)
    ensures out == Joined(levels, n, ds, n)
  {
    hide LeafId, Group, Offset, Joined, FilledUpTo;
    assert ds[..|ds|] == ds;
    OffsetTotal(levels, n, ds, |ds|);
    JoinedPrefix(levels, n, ds, out, n);
    assert out[..|ds|] == out;
  }

  lemma {:induction false} JoinedPrefix(levels: seq<seq<Segment>>, n: nat, ds: seq<Entry>, out: seq<Entry>, l: nat)
    requires Usable(levels) && 0 < n && l <= n && |out| == |ds|
    requires AllFilled(levels, n, ds, |ds|, out)
    ensures Offset(levels, n, ds, l) <= |out| && out[..Offset(levels, n, ds, l)] == Joined(levels, n, ds, l)
  {
    hide LeafId, Group;
    if l > 0 {
      JoinedPrefix(levels, n, ds, out, l - 1);
      Inside(levels, n, ds, l - 1);
      assert ds[..|ds|] == ds;
      assert FilledUpTo(levels, n, ds, |ds|, out, l - 1);
      var o, o' := Offset(levels, n, ds, l - 1), Offset(levels, n, ds, l);
      assert out[..o'] == out[..o] + out[o..o'];
    }
  }

  /** A descriptor's window of the records is its leaf's group. */
  lemma {:induction false} Window(levels: seq<seq<Segment>>, n: nat, ds: seq<Entry>, l: nat, m: nat)
    requires Usable(levels) && l < m && n > 0
    ensures var j := Joined(levels, n, ds, m); var o := Offset(levels, n, ds, l);
            o + |Group(levels, n, ds, l)| <= |j| && j[o..o + |Group(levels, n, ds, l)|] == Group(levels, n, ds, l)
  {
    hide LeafId, Group;
    if l + 1 < m {
      Window(levels, n, ds, l, m - 1);
      var o, g := Offset(levels, n, ds, l), Group(levels, n, ds, l);
      var j, j' := Joined(levels, n, ds, m - 1), Joined(levels, n, ds, m);
      assert j'[o..o + |g|] == j[o..o + |g|];
    }
  }

  // ----- the End's lookup

  datatype Lookup = Hit(payload: nat) | Miss | Unavailable

  /** What the Edge announced, and whether the End accepted it. */
  datatype Info = Info(loaded: bool, version: nat, leafCount: nat, recordCount: nat)

  function Announce(descs: seq<Desc>, records: seq<Entry>): Info {
    Info(|descs| > 0 && |records| > 0, SNAPSHOT_VERSION, |descs|, |records|)
  }

  /** One remote read for the descriptor and one for its window; either may fail. */
  method EndLookup(info: Info, descs: seq<Desc>, records: seq<Entry>, key: real, slot: int, descRead: bool,
                   windowRead: bool)
    returns (r: Lookup)
    requires info.leafCount <= |descs| && info.recordCount <= |records|
    ensures slot < 0 || !info.loaded || !descRead ==> r == Unavailable
    ensures r.Hit? ==> Entry(key, r.payload) in records
    ensures r == LookupIn(info, descs, records, key, slot, descRead, windowRead)
  {
    if !info.loaded || info.leafCount == 0 || slot < 0 {
      return Unavailable;
    }
    var leaf := if slot >= info.leafCount then info.leafCount - 1 else slot;
    if !descRead {
      return Unavailable;
    }
    var d := descs[leaf];
    if d.version != info.version || d.count == 0 || d.offset + d.count > info.recordCount || !windowRead {
      return Unavailable;
    }
    var window := records[d.offset..d.offset + d.count];
    assert window[0..] == window;
    for i := 0 to |window|
      invariant FindSorted(window[i..], key) == FindSorted(window, key)
    {
      if window[i].key == key {
        assert window[i] in records;
        assert FindSorted(window[i..], key) == Some(window[i].payload);
        return Hit(window[i].payload);
      }
      assert window[i..][1..] == window[i + 1..];
    }
    r := Miss;
  }

  function LookupIn(info: Info, descs: seq<Desc>, records: seq<Entry>, key: real, slot: int, descRead: bool,
                    windowRead: bool): Lookup
    requires info.leafCount <= |descs| && info.recordCount <= |records|
  {
    if !info.loaded || info.leafCount == 0 || slot < 0 || !descRead then Unavailable
    else
      var d := descs[if slot >= info.leafCount then info.leafCount - 1 else slot];
      if d.version != info.version || d.count == 0 || d.offset + d.count > info.recordCount ||
         !windowRead then Unavailable
      else
        match FindSorted(records[d.offset..d.offset + d.count], key)
        case Some(p) => Hit(p)
        case None => Miss
  }

  /** With successful reads, a lookup hits exactly the keys of the dataset, with the payload of the first
      record that has the key; it says nothing only when the leaf of the key is empty. */
  lemma SnapshotIsExact(levels: seq<seq<Segment>>, ds: seq<Entry>, descs: seq<Desc>, records: seq<Entry>, key: real,
                        p: nat)
    requires Usable(levels) && levels != [] && |descs| > 0 && ds != [] && IsSnapshot(levels, ds, descs, records)
    ensures |records| == |ds|
    ensures LookupIn(Announce(descs, records), descs, records, key, PredictPos(levels, key), true, true) == Hit(p)
            <==> FindSorted(ds, key) == Some(p)
    ensures LookupIn(Announce(descs, records), descs, records, key, PredictPos(levels, key), true, true) == Unavailable
            <==> descs[LeafId(levels, |descs|, key)].count == 0
  {
    hide Group, Offset, Joined, PredictPos;
    var n := |descs|;
    assert ds[..|ds|] == ds;
    OffsetTotal(levels, n, ds, |ds|);
    PredictsNonNegative(levels, key);
    var l := LeafId(levels, n, key);
    assert IsDesc(levels, n, ds, descs[l], l);
    Window(levels, n, ds, l, n);
    GroupFinds(levels, n, ds, key);
  }

  // ----- the model that crossed the wire

  /** The numbers behind the bit patterns; `val` is the meaning of a 64-bit pattern as a double. */
  ghost function Meaning(raw: seq<seq<PS.RawParam>>, val: nat -> real): seq<seq<Segment>> {
    seq(|raw|, l requires 0 <= l < |raw| => LevelMeaning(raw[l], val))
  }

  ghost function LevelMeaning(level: seq<PS.RawParam>, val: nat -> real): (r: seq<Segment>)
    ensures |r| == |level|
  {
    seq(|level|, i requires 0 <= i < |level| =>
      Segment(val(level[i].firstKey), NodeModel(Line(val(level[i].slope), val(level[i].intercept)), level[i].blockNum)))
  }

  /** The End, predicting with the parameters it read from the pushed bytes, hits every key the Edge put into the
      snapshot and no other. */
  lemma EndHitsExactly(raw: seq<seq<PS.RawParam>>, val: nat -> real, rest: seq<PS.Byte>, ds: seq<Entry>,
                       descs: seq<Desc>, records: seq<Entry>, key: real, p: nat)
    requires PS.AllFit(raw) && 1 <= |raw| <= PS.MAX_LEVELS && (forall l :: 0 <= l < |raw| ==> |raw[l]| >= 1)
    requires |descs| > 0 && ds != [] && IsSnapshot(Meaning(raw, val), ds, descs, records)
    ensures var got := PS.Take(PS.Put(raw) + rest);
            && got.Got? && Usable(Meaning(got.value, val)) && |records| == |ds|
            && (LookupIn(Announce(descs, records), descs, records, key, PredictPos(Meaning(got.value, val), key), true,
                         true) == Hit(p)
                <==> FindSorted(ds, key) == Some(p))
  {
    hide PS.Put, PS.Take, LookupIn, IsSnapshot, PredictPos;
    PS.RoundTripIff(raw, rest);
    SnapshotIsExact(Meaning(raw, val), ds, descs, records, key, p);
  }
}
