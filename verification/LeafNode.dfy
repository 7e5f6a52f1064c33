/** Leaf nodes: blocks of 15 data slots with an overflow tree each, addressed by a linear model. */
module LeafNode {
  import opened Wrappers
  import opened SortedRecords
  import opened TreePages
  import opened Geometry
  import opened Placement

  const LEAF_SLOTS := 16
  const REAL_SLOTS := 15

  datatype Cell = Vacant | Filled(e: Entry)

  /** One block: the data slots, and the overflow tree as its leaf pages (none when there is no tree yet). */
  datatype Block = Block(cells: seq<Cell>, overflow: Pages)

  datatype Leaf = Leaf(firstKey: real, model: NodeModel, blocks: seq<Block>, overflowNumber: nat, numberToSplit: nat)

  // ----- the leaf model

  /** Block number of a leaf over n records: n / (0.5 * 15) + 3, rounded down. */
  function LeafBlocks(n: nat): nat {
    2 * n / 15 + 3
  }

  function LeafModel(fit: Line, start: nat, n: nat, minKey: real, maxKey: real): NodeModel
    requires minKey < maxKey
  {
    var scale := 16.0 / 7.5;
    var spread := Line(fit.a * scale, (fit.b - start as real) * scale);
    NodeModel(Correct(spread, (LeafBlocks(n) - 2) * LEAF_SLOTS, minKey, maxKey), LeafBlocks(n))
  }

  ghost predicate IsLeafModel(m: NodeModel, fit: Line, start: nat, keys: seq<real>)
    requires |keys| >= 1 && Increasing(keys)
  {
    if |keys| == 1 then Flat(m) && m.blocks == LeafBlocks(1)
    else m == LeafModel(fit, start, |keys|, keys[0], keys[|keys| - 1])
  }

  function PredictLeafBlock(m: NodeModel, key: real): (b: nat)
    requires m.blocks >= 3
    ensures b < m.blocks
  {
    var t := Truncate((At(m.line, key) + 0.5) / LEAF_SLOTS as real);
    if t < 0 then 0 else if t > m.blocks - 3 then m.blocks - 1 else t + 1
  }

  /** The block of a key is the one its model position lies in, shifted by one; positions before the first block and
      behind the last but one are collected at the ends. */
  lemma LeafPredictsItsBlock(m: NodeModel, key: real, c: nat)
    requires m.blocks >= 3
    ensures var b, pos := PredictLeafBlock(m, key), At(m.line, key) + 0.5;
            && (b == 0 <==> pos <= -16.0)
            && (b == 1 <==> -16.0 < pos < 16.0)
            && (2 <= c <= m.blocks - 2 ==> (b == c <==> 16.0 * (c as real - 1.0) <= pos < 16.0 * c as real))
            && (b == m.blocks - 1 <==> pos >= 16.0 * (m.blocks as real - 2.0))
  {
    hide At;
    var pos := At(m.line, key) + 0.5;
    var v := pos / 16.0;
    FloorIs(v, c - 1);
    FloorIs(v, m.blocks - 2);
    FloorIs(-v, 1);
    FloorIs(v, 1);
  }

  const EPSILON_LEAF_NODE := 256

  /** The j-th record of a leaf is predicted within a constant distance of 32/15 times its rank, the position it has at
      the initial fill ratio of one half. */
  lemma LeafPositions(fit: Line, keys: seq<real>, start: nat, j: nat)
    requires |keys| >= 2 && Increasing(keys) && j < |keys|
    requires fit.a > 0.0 && Accurate(fit, keys, start, EPSILON_LEAF_NODE)
    ensures var m := LeafModel(fit, start, |keys|, keys[0], keys[|keys| - 1]);
            32.0 / 15.0 * j as real - 1100.0 <= At(m.line, keys[j]) <= 32.0 / 15.0 * j as real + 1120.0
  {
    var n, last := |keys|, keys[|keys| - 1];
    var scale := 16.0 / 7.5;
    var spread := Line(fit.a * scale, (fit.b - start as real) * scale);
    LeafSpreadAt(fit, start, keys[0]);
    LeafSpreadAt(fit, start, keys[j]);
    LeafSpreadAt(fit, start, last);
    assert forall i :: 0 <= i < n ==> -256.0 <= At(fit, keys[i]) - (start + i) as real <= 256.0;
    assert keys[0] <= keys[j] <= last;
    LeafSizeIs(n);
    CorrectNear(spread, (LeafBlocks(n) - 2) * LEAF_SLOTS, keys[0], last, keys[j]);
    hide At;
  }

  lemma LeafSizeIs(n: nat)
    ensures 1 <= (LeafBlocks(n) - 2) * LEAF_SLOTS
    ensures (LeafBlocks(n) - 2) as real * 16.0 <= 32.0 / 15.0 * n as real + 16.0
  {
    var q := 2 * n / 15;
    assert 15 * q <= 2 * n;
    assert 15.0 * q as real <= 2.0 * n as real;
  }

  lemma LeafSpreadAt(fit: Line, start: nat, x: real)
    ensures var scale := 16.0 / 7.5;
            At(Line(fit.a * scale, (fit.b - start as real) * scale), x) == 32.0 / 15.0 * (At(fit, x) - start as real)
  {
    var scale := 32.0 / 15.0;
    assert (fit.a * scale) * x == scale * (fit.a * x);
  }

  lemma LeafBlockMonotone(m: NodeModel, k: real, k': real)
    requires m.blocks >= 3 && m.line.a >= 0.0 && k <= k'
    ensures PredictLeafBlock(m, k) <= PredictLeafBlock(m, k')
  {
    assert At(m.line, k) <= At(m.line, k') by {
      hide At, Times;
      Rise(m.line, k, k');
      MonotoneTimes(0.0, m.line.a, k' - k);
      ZeroTimes(k' - k);
    }
    TruncateMonotone((At(m.line, k) + 0.5) / 16.0, (At(m.line, k') + 0.5) / 16.0);
  }

  lemma LeafModelIsMonotone(m: NodeModel, fit: Line, start: nat, keys: seq<real>)
    requires 1 <= |keys| && Increasing(keys) && (|keys| >= 2 ==> fit.a > 0.0)
    requires IsLeafModel(m, fit, start, keys)
    ensures m.blocks >= 3 && m.line.a >= 0.0
  {
    if |keys| >= 2 {
      var scale := 16.0 / 7.5;
      var spread := Line(fit.a * scale, (fit.b - start as real) * scale);
      CorrectSpans(spread, (LeafBlocks(|keys|) - 2) * LEAF_SLOTS, keys[0], keys[|keys| - 1]);
    }
  }

  // ----- one block

  ghost predicate InCells(b: Block, key: real) {
    exists i :: 0 <= i < |b.cells| && b.cells[i].Filled? && b.cells[i].e.key == key
  }

  ghost predicate StoredIn(b: Block, e: Entry) {
    Filled(e) in b.cells || e in Flatten(b.overflow)
  }

  ghost predicate DistinctCells(cells: seq<Cell>) {
    forall i, j :: 0 <= i < j < |cells| && cells[i].Filled? && cells[j].Filled? ==>
                     cells[i].e.key != cells[j].e.key
  }

  /** A block has 15 slots, no key twice, and an overflow tree only when every slot is full. */
  ghost predicate BlockInv(b: Block) {
    && |b.cells| == REAL_SLOTS && DistinctCells(b.cells) && (b.overflow != [] ==> Ordered(b.overflow))
    && (forall e :: e in Flatten(b.overflow) ==> !InCells(b, e.key))
    && (b.overflow != [] ==> forall i :: 0 <= i < |b.cells| ==> b.cells[i].Filled?)
  }

  /** A search of the block for the key reaches a page of the overflow tree that holds a value of 0. */
  ghost predicate Blocked(b: Block, key: real) {
    !InCells(b, key) && b.overflow != [] && Stops(b.overflow, key)
  }

  ghost predicate Rewrites(b: Block, b': Block, e: Entry) {
    forall x :: StoredIn(b', x) <==> if x.key == e.key then x == e else StoredIn(b, x)
  }

  lemma SetCell(b: Block, i: nat, e: Entry)
    requires BlockInv(b) && i < REAL_SLOTS
    requires (b.cells[i].Filled? && b.cells[i].e.key == e.key) ||
             (b.cells[i].Vacant? && !InCells(b, e.key))
    ensures var b' := b.(cells := b.cells[i := Filled(e)]); BlockInv(b') && Rewrites(b, b', e)
  {
    hide Flatten, Ordered;
    var b' := b.(cells := b.cells[i := Filled(e)]);
    forall k ensures InCells(b', k) <==> InCells(b, k) || k == e.key {
      if InCells(b, k) {
        var j :| 0 <= j < |b.cells| && b.cells[j].Filled? && b.cells[j].e.key == k;
        assert b'.cells[j].Filled? && b'.cells[j].e.key == k;
      }
      if k == e.key {
        assert b'.cells[i].e.key == k;
      }
    }
    NoTreeNoRecords(b);
    forall x ensures StoredIn(b', x) <==> if x.key == e.key then x == e else StoredIn(b, x) {
      if Filled(x) in b.cells && x.key != e.key {
        var j :| 0 <= j < |b.cells| && b.cells[j] == Filled(x);
        assert b'.cells[j] == Filled(x);
      }
      assert b'.cells[i] == Filled(e);
    }
  }

  lemma NoTreeNoRecords(b: Block)
    ensures b.overflow == [] ==> Flatten(b.overflow) == []
  {}

  /** The pages an upsert works on: a tree is created with one empty page. */
  function TreeOf(b: Block): Pages {
    if b.overflow == [] then [[]] else b.overflow
  }

  lemma TreeOfIs(b: Block)
    requires BlockInv(b)
    ensures Ordered(TreeOf(b)) && Flatten(TreeOf(b)) == Flatten(b.overflow)
  {
    FlatOne([]);
  }

  lemma SetOverflow(b: Block, e: Entry)
    requires BlockInv(b) && !InCells(b, e.key)
    requires forall i :: 0 <= i < REAL_SLOTS ==> b.cells[i].Filled?
    ensures var b' := b.(overflow := Put(TreeOf(b), e, CARDINALITY));
            BlockInv(b') && Rewrites(b, b', e) && Flatten(b'.overflow) == Upserted(Flatten(b.overflow), e)
  {
    hide Flatten, Put, Upserted, SortedByKey;
    var b' := b.(overflow := Put(TreeOf(b), e, CARDINALITY));
    TreeOfIs(b);
    PutIs(TreeOf(b), e, CARDINALITY);
    OrderedSorted(TreeOf(b));
    forall x ensures x in Flatten(b'.overflow) <==> if x.key == e.key then x == e else x in Flatten(b.overflow) {
      UpsertedContents(Flatten(b.overflow), e, x);
    }
    forall k ensures InCells(b', k) <==> InCells(b, k) {}
    NotInCells(b, e.key);
  }

  lemma NotInCells(b: Block, key: real)
    requires !InCells(b, key)
    ensures forall x: Entry :: x.key == key ==> Filled(x) !in b.cells
  {}

  lemma OrderedSorted(ps: Pages)
    requires Ordered(ps)
    ensures SortedByKey(Flatten(ps))
  {}

  /** Looks through the slots, then in the overflow tree. The process exits exactly when the tree search does. */
  method FindInBlock(b: Block, key: real) returns (stopped: bool, r: Option<nat>)
    requires BlockInv(b)
    ensures stopped <==> Blocked(b, key)
    ensures !stopped ==> forall p: nat :: r == Some(p) <==> StoredIn(b, Entry(key, p))
  {
    hide Flatten, FindSorted, PageOf, HasNull, SortedByKey;
    var i := 0;
    while i < |b.cells|
      invariant 0 <= i <= |b.cells|
      invariant forall j :: 0 <= j < i && b.cells[j].Filled? ==> b.cells[j].e.key != key
    {
      if b.cells[i].Filled? && b.cells[i].e.key == key {
        CellIsUnique(b, i);
        assert InCells(b, key);
        return false, Some(b.cells[i].e.payload);
      }
      i := i + 1;
    }
    assert !InCells(b, key);
    forall p: nat ensures Filled(Entry(key, p)) !in b.cells {}
    if b.overflow == [] {
      NoTreeNoRecords(b);
      return false, None;
    }
    stopped := Stops(b.overflow, key);
    r := Lookup(b.overflow, key);
    LookupIs(b.overflow, key);
    forall p: nat ensures r == Some(p) <==> StoredIn(b, Entry(key, p)) {
      FindSortedIs(Flatten(b.overflow), key, p);
    }
  }

  lemma CellIsUnique(b: Block, i: nat)
    requires BlockInv(b) && i < |b.cells| && b.cells[i].Filled?
    ensures forall p: nat :: StoredIn(b, Entry(b.cells[i].e.key, p)) <==> p == b.cells[i].e.payload
  {
    hide Flatten, Ordered;
    var key := b.cells[i].e.key;
    assert InCells(b, key);
    forall p: nat ensures StoredIn(b, Entry(key, p)) <==> p == b.cells[i].e.payload {
      assert Entry(key, p) !in Flatten(b.overflow);
      assert p == b.cells[i].e.payload ==> Filled(Entry(key, p)) == b.cells[i];
    }
  }

  ghost predicate HasVacant(b: Block) {
    exists i :: 0 <= i < |b.cells| && b.cells[i].Vacant?
  }

  /** Update in a slot (1), insert in a free slot (2), update (3) or insert (4) in the overflow tree,
      unless the search of the tree ends the process. */
  method UpsertInBlock(b: Block, e: Entry) returns (stopped: bool, b': Block, ret: nat)
    requires BlockInv(b)
    ensures stopped <==> Blocked(b, e.key)
    ensures BlockInv(b') && (stopped ==> b' == b) && (!stopped ==> Rewrites(b, b', e))
    ensures !stopped ==> 1 <= ret <= 4 && (ret == 1 <==> InCells(b, e.key))
    ensures !stopped ==> (ret == 2 <==> !InCells(b, e.key) && HasVacant(b))
    ensures !stopped ==> (ret == 3 <==> HasKey(Flatten(b.overflow), e.key))
    ensures !stopped ==> |Flatten(b'.overflow)| == |Flatten(b.overflow)| + if ret == 4 then 1 else 0
    ensures !stopped && ret == 2 ==> b.overflow == []
    ensures !stopped && ret <= 2 ==> b'.overflow == b.overflow
    ensures !stopped && ret > 2 ==> Flatten(b'.overflow) == Upserted(Flatten(b.overflow), e)
  {
    hide BlockInv, Rewrites, Upserted, Flatten, Put, Stops, SortedByKey;
    BlockFacts(b, e.key);
    stopped, b', ret := false, b, 0;
    var i := 0;
    while i < REAL_SLOTS
      invariant 0 <= i <= REAL_SLOTS
      invariant forall j :: 0 <= j < i && b.cells[j].Filled? ==> b.cells[j].e.key != e.key
    {
      if b.cells[i].Filled? && b.cells[i].e.key == e.key {
        SetCell(b, i, e);
        assert InCells(b, e.key);
        return false, b.(cells := b.cells[i := Filled(e)]), 1;
      }
      i := i + 1;
    }
    assert !InCells(b, e.key);
    i := 0;
    while i < REAL_SLOTS
      invariant 0 <= i <= REAL_SLOTS
      invariant forall j :: 0 <= j < i ==> b.cells[j].Filled?
    {
      if b.cells[i].Vacant? {
        SetCell(b, i, e);
        return false, b.(cells := b.cells[i := Filled(e)]), 2;
      }
      i := i + 1;
    }
    EmptyTree(e.key);
    if Stops(TreeOf(b), e.key) {
      return true, b, 0;
    }
    SetOverflow(b, e);
    UpsertedSorted(Flatten(b.overflow), e);
    var known := Lookup(TreeOf(b), e.key).Some?;
    KnownKey(b, e.key);
    b' := b.(overflow := Put(TreeOf(b), e, CARDINALITY));
    ret := if known then 3 else 4;
  }

  lemma EmptyTree(key: real)
    ensures !Stops([[]], key)
  {}

  lemma KnownKey(b: Block, key: real)
    requires BlockInv(b)
    ensures Lookup(TreeOf(b), key).Some? <==> HasKey(Flatten(b.overflow), key)
  {
    hide Flatten, Lookup, FindSorted;
    TreeOfIs(b);
    LookupIs(TreeOf(b), key);
    OrderedSorted(TreeOf(b));
    var o := Flatten(b.overflow);
    if HasKey(o, key) {
      var i :| 0 <= i < |o| && o[i].key == key;
      FindSortedIs(o, key, o[i].payload);
      assert o[i] == Entry(key, o[i].payload);
    }
    if FindSorted(o, key).Some? {
      var p := FindSorted(o, key).value;
      FindSortedIs(o, key, p);
      var i :| 0 <= i < |o| && o[i] == Entry(key, p);
    }
  }

  lemma BlockFacts(b: Block, key: real)
    requires BlockInv(b)
    ensures |b.cells| == REAL_SLOTS && SortedByKey(Flatten(b.overflow))
    ensures b.overflow != [] ==> forall i :: 0 <= i < |b.cells| ==> b.cells[i].Filled?
    ensures HasKey(Flatten(b.overflow), key) ==> !InCells(b, key) && b.overflow != []
  {
    NoTreeNoRecords(b);
    hide Flatten;
    if HasKey(Flatten(b.overflow), key) {
      var i :| 0 <= i < |Flatten(b.overflow)| && Flatten(b.overflow)[i].key == key;
      assert Flatten(b.overflow)[i] in Flatten(b.overflow);
    }
  }

  // ----- one leaf

  ghost function OverflowTotal(blocks: seq<Block>): nat {
    if blocks == [] then 0 else OverflowTotal(blocks[..|blocks| - 1]) + |Flatten(blocks[|blocks| - 1].overflow)|
  }

  lemma {:induction false} OverflowUpdate(blocks: seq<Block>, b: nat, x: Block)
    requires b < |blocks|
    ensures OverflowTotal(blocks[b := x]) ==
              OverflowTotal(blocks) - |Flatten(blocks[b].overflow)| + |Flatten(x.overflow)|
  {
    var n := |blocks| - 1;
    var u := blocks[b := x];
    if b == n {
      assert u[..n] == blocks[..n];
    } else {
      OverflowUpdate(blocks[..n], b, x);
      assert u[..n] == blocks[..n][b := x];
    }
  }

  ghost predicate Stored(blocks: seq<Block>, e: Entry) {
    exists b :: 0 <= b < |blocks| && StoredIn(blocks[b], e)
  }

  ghost predicate AtHome(m: NodeModel, blocks: seq<Block>)
    requires m.blocks >= 3
  {
    forall b, e :: 0 <= b < |blocks| && StoredIn(blocks[b], e) ==> PredictLeafBlock(m, e.key) == b
  }

  /** Every record is in the block its key predicts, every block is sound, and the overflow count is exact. */
  ghost predicate LeafInv(l: Leaf) {
    && l.model.blocks >= 3 && l.model.line.a >= 0.0 && |l.blocks| == l.model.blocks
    && (forall b :: 0 <= b < |l.blocks| ==> BlockInv(l.blocks[b]))
    && AtHome(l.model, l.blocks)
    && l.overflowNumber == OverflowTotal(l.blocks)
    && IsSplitLimit(l.numberToSplit, l.model.blocks)
  }

  /** The limit of the overflow count is 0.3 of the record slots, rounded down. */
  predicate IsSplitLimit(limit: nat, blocks: nat) {
    10 * limit <= 3 * REAL_SLOTS * blocks < 10 * limit + 10
  }

  /** The key is new to a block whose slots are all full. */
  ghost predicate Overflows(b: Block, key: real) {
    !InCells(b, key) && !HasVacant(b) && !HasKey(Flatten(b.overflow), key)
  }

  /** What an upsert of the key into the leaf returns: in a slot (1), into a vacant slot (2), in the overflow tree (3),
      new in the overflow tree within the limit (4) or past it (5; 6 when the leaf was reached by forwarding). */
  ghost predicate CodeAt(l: Leaf, key: real, orphan: bool, ret: nat) {
    && l.model.blocks >= 3 && |l.blocks| == l.model.blocks
    && var b := l.blocks[PredictLeafBlock(l.model, key)];
    && 1 <= ret <= 6
    && (ret == 1 <==> InCells(b, key))
    && (ret == 2 <==> !InCells(b, key) && HasVacant(b))
    && (ret == 3 <==> HasKey(Flatten(b.overflow), key))
    && (ret == 4 <==> Overflows(b, key) && l.overflowNumber + 1 <= l.numberToSplit)
    && (ret == 5 <==> Overflows(b, key) && l.overflowNumber + 1 > l.numberToSplit && !orphan)
    && (ret == 6 <==> Overflows(b, key) && l.overflowNumber + 1 > l.numberToSplit && orphan)
  }

  /** A search of the leaf for the key ends the process. */
  ghost predicate LeafStops(l: Leaf, key: real)
    requires l.model.blocks >= 3 && |l.blocks| == l.model.blocks
  {
    Blocked(l.blocks[PredictLeafBlock(l.model, key)], key)
  }

  /** A leaf search in the predicted block alone is exact for the whole leaf. */
  method FindHere(l: Leaf, key: real) returns (stopped: bool, r: Option<nat>)
    requires LeafInv(l)
    ensures stopped <==> LeafStops(l, key)
    ensures !stopped ==> forall p: nat :: r == Some(p) <==> Stored(l.blocks, Entry(key, p))
  {
    hide PredictLeafBlock, BlockInv, StoredIn, Blocked;
    stopped, r := FindInBlock(l.blocks[PredictLeafBlock(l.model, key)], key);
  }

  /** The records with the key of e are replaced by e, all others stay. */
  ghost predicate LeafRewrites(blocks: seq<Block>, blocks': seq<Block>, e: Entry) {
    forall x :: Stored(blocks', x) <==> if x.key == e.key then x == e else Stored(blocks, x)
  }

  lemma BlockUpdate(m: NodeModel, blocks: seq<Block>, b: nat, x: Block, e: Entry)
    requires m.blocks >= 3 && |blocks| == m.blocks && b == PredictLeafBlock(m, e.key)
    requires AtHome(m, blocks) && Rewrites(blocks[b], x, e)
    ensures AtHome(m, blocks[b := x]) && LeafRewrites(blocks, blocks[b := x], e)
  {
    hide PredictLeafBlock, StoredIn;
    var u := blocks[b := x];
    forall c, y | 0 <= c < |u| && StoredIn(u[c], y) ensures PredictLeafBlock(m, y.key) == c {
      if c == b && y.key != e.key {
        assert StoredIn(blocks[b], y);
      }
    }
    forall y ensures Stored(u, y) <==> if y.key == e.key then y == e else Stored(blocks, y) {
      if y.key == e.key && y == e {
        assert StoredIn(u[b], y);
      }
      if y.key != e.key && Stored(blocks, y) {
        var c :| 0 <= c < |blocks| && StoredIn(blocks[c], y);
        assert StoredIn(u[c], y);
      }
      if Stored(u, y) {
        var c :| 0 <= c < |u| && StoredIn(u[c], y);
        if c != b {
          assert StoredIn(blocks[c], y);
        }
      }
    }
  }

  /** Upsert in one leaf; 5 and 6 report that the overflow count passed the split threshold. */
  method UpsertHere(l: Leaf, e: Entry, orphan: bool) returns (stopped: bool, l': Leaf, ret: nat)
    requires LeafInv(l)
    ensures stopped <==> LeafStops(l, e.key)
    ensures stopped ==> l' == l
    ensures !stopped ==> LeafInv(l') && LeafRewrites(l.blocks, l'.blocks, e) && CodeAt(l, e.key, orphan, ret)
    ensures !stopped && (NullFree(l.blocks) && e.payload != 0) ==> NullFree(l'.blocks)
    ensures l'.firstKey == l.firstKey && l'.model == l.model && l'.numberToSplit == l.numberToSplit
    ensures !stopped ==> l'.overflowNumber == l.overflowNumber + if ret >= 4 then 1 else 0
  {
    hide PredictLeafBlock, StoredIn, BlockInv, Rewrites, Blocked, Flatten, Upserted, InCells, HasVacant, HasKey;
    var b := PredictLeafBlock(l.model, e.key);
    var x;
    stopped, x, ret := UpsertInBlock(l.blocks[b], e);
    if stopped {
      return true, l, 0;
    }
    BlockUpdate(l.model, l.blocks, b, x, e);
    OverflowUpdate(l.blocks, b, x);
    NullFreeUpdate(l.blocks, b, x, e);
    l' := l.(blocks := l.blocks[b := x]);
    if ret == 4 {
      l' := l'.(overflowNumber := l.overflowNumber + 1);
      if l'.overflowNumber > l'.numberToSplit {
        ret := if orphan then 6 else 5;
      }
    }
  }

  /** No overflow tree of the leaf holds a value of 0. */
  ghost predicate NullFree(blocks: seq<Block>) {
    forall b :: 0 <= b < |blocks| ==> !HasNull(Flatten(blocks[b].overflow))
  }

  lemma NullFreeUpdate(blocks: seq<Block>, b: nat, x: Block, e: Entry)
    requires b < |blocks| && BlockInv(blocks[b])
    requires x.overflow == blocks[b].overflow || Flatten(x.overflow) == Upserted(Flatten(blocks[b].overflow), e)
    ensures NullFree(blocks) && e.payload != 0 ==> NullFree(blocks[b := x])
  {
    BlockFacts(blocks[b], 0.0);
    hide Flatten, Upserted, BlockInv;
    if NullFree(blocks) && e.payload != 0 && x.overflow != blocks[b].overflow {
      var o, o' := Flatten(blocks[b].overflow), Flatten(x.overflow);
      forall i | 0 <= i < |o'| ensures o'[i].payload != 0 {
        assert o'[i] in o';
        UpsertedContents(o, e, o'[i]);
        if o'[i] != e {
          var j :| 0 <= j < |o| && o[j] == o'[i];
        }
      }
    }
  }

  // ----- the constructor

  /** Model-based placement of a new record: first vacant slot of its block (`slot`), else the overflow tree. */
  method PlaceInBlock(b: Block, e: Entry) returns (stopped: bool, b': Block, slot: nat)
    requires BlockInv(b) && (forall p: nat :: !StoredIn(b, Entry(e.key, p)))
    ensures stopped <==> b.overflow != [] && Stops(b.overflow, e.key)
    ensures slot <= REAL_SLOTS && forall j :: 0 <= j < slot ==> b.cells[j].Filled?
    ensures slot < REAL_SLOTS ==> b.cells[slot].Vacant? && b' == b.(cells := b.cells[slot := Filled(e)])
    ensures !stopped ==> BlockInv(b') && Rewrites(b, b', e)
    ensures !stopped && slot == REAL_SLOTS ==>
              b'.cells == b.cells && Flatten(b'.overflow) == Upserted(Flatten(b.overflow), e)
    ensures !stopped && slot == REAL_SLOTS ==> |Flatten(b'.overflow)| == |Flatten(b.overflow)| + 1
  {
    hide BlockInv, Rewrites, Upserted, Flatten, Put, Stops, SortedByKey;
    BlockFacts(b, e.key);
    NotStored(b, e.key);
    stopped, b' := false, b;
    slot := 0;
    while slot < REAL_SLOTS
      invariant 0 <= slot <= REAL_SLOTS
      invariant forall j :: 0 <= j < slot ==> b.cells[j].Filled?
    {
      if b.cells[slot].Vacant? {
        SetCell(b, slot, e);
        return false, b.(cells := b.cells[slot := Filled(e)]), slot;
      }
      slot := slot + 1;
    }
    EmptyTree(e.key);
    if Stops(TreeOf(b), e.key) {
      return true, b, slot;
    }
    SetOverflow(b, e);
    UpsertedSorted(Flatten(b.overflow), e);
    b' := b.(overflow := Put(TreeOf(b), e, CARDINALITY));
  }

  lemma NotStored(b: Block, key: real)
    requires forall p: nat :: !StoredIn(b, Entry(key, p))
    ensures !InCells(b, key) && !HasKey(Flatten(b.overflow), key)
  {
    hide Flatten;
    forall i | 0 <= i < |b.cells| && b.cells[i].Filled? ensures b.cells[i].e.key != key {
      assert StoredIn(b, b.cells[i].e);
      assert b.cells[i].e == Entry(b.cells[i].e.key, b.cells[i].e.payload);
    }
    var o := Flatten(b.overflow);
    forall i | 0 <= i < |o| ensures o[i].key != key {
      assert StoredIn(b, o[i]);
      assert o[i] == Entry(o[i].key, o[i].payload);
    }
  }

  ghost predicate HoldsExactly(blocks: seq<Block>, es: seq<Entry>) {
    forall e :: Stored(blocks, e) <==> e in es
  }

  /** How many of the records are predicted into block b. */
  ghost function Arrivals(m: NodeModel, es: seq<Entry>, b: nat): nat
    requires m.blocks >= 3
  {
    if es == [] then 0
    else Arrivals(m, es[..|es| - 1], b) + if PredictLeafBlock(m, es[|es| - 1].key) == b then 1 else 0
  }

  /** The i-th record finds the slots of its block full. */
  ghost predicate Spills(m: NodeModel, es: seq<Entry>, i: nat)
    requires m.blocks >= 3 && i < |es|
  {
    Arrivals(m, es[..i], PredictLeafBlock(m, es[i].key)) >= REAL_SLOTS
  }

  /** The i-th record is a value of 0 that goes to the overflow tree of block b. */
  ghost predicate NullTo(m: NodeModel, es: seq<Entry>, i: nat, b: nat)
    requires m.blocks >= 3 && i < |es|
  {
    PredictLeafBlock(m, es[i].key) == b && Spills(m, es, i) && es[i].payload == 0
  }

  ghost predicate NullBefore(m: NodeModel, es: seq<Entry>, i: nat, b: nat)
    requires m.blocks >= 3 && i <= |es|
  {
    exists a :: 0 <= a < i && NullTo(m, es, a, b)
  }

  /** A value of 0 goes to an overflow tree and a later record to the same block: that record's search finds it. */
  ghost predicate Doomed(m: NodeModel, es: seq<Entry>)
    requires m.blocks >= 3
  {
    exists j :: 0 <= j < |es| && NullBefore(m, es, j, PredictLeafBlock(m, es[j].key))
  }

  /** What the first i records have left in block b. */
  ghost predicate FillOk(m: NodeModel, es: seq<Entry>, i: nat, b: nat, x: Block)
    requires m.blocks >= 3 && i <= |es|
  {
    && |x.cells| == REAL_SLOTS
    && (forall k :: 0 <= k < REAL_SLOTS ==> (x.cells[k].Filled? <==> k < Arrivals(m, es[..i], b)))
    && NullsLast(Flatten(x.overflow)) && (EndsInNull(Flatten(x.overflow)) <==> NullBefore(m, es, i, b))
  }

  ghost predicate AllFillOk(m: NodeModel, es: seq<Entry>, i: nat, blocks: seq<Block>)
    requires m.blocks >= 3 && i <= |es|
  {
    forall b :: 0 <= b < |blocks| ==> FillOk(m, es, i, b, blocks[b])
  }

  lemma ArrivalsNext(m: NodeModel, es: seq<Entry>, i: nat, b: nat)
    requires m.blocks >= 3 && i < |es|
    ensures Arrivals(m, es[..i + 1], b) ==
              Arrivals(m, es[..i], b) + if PredictLeafBlock(m, es[i].key) == b then 1 else 0
    ensures NullBefore(m, es, i + 1, b) <==> NullBefore(m, es, i, b) || NullTo(m, es, i, b)
  {
    hide PredictLeafBlock;
    assert es[..i + 1][..i] == es[..i];
    if NullBefore(m, es, i + 1, b) && !NullTo(m, es, i, b) {
      var a :| 0 <= a < i + 1 && NullTo(m, es, a, b);
      assert a < i;
    }
  }

  /** A block that the i-th record does not go to. */
  lemma FillOther(m: NodeModel, es: seq<Entry>, i: nat, b: nat, x: Block)
    requires m.blocks >= 3 && i < |es| && FillOk(m, es, i, b, x) && PredictLeafBlock(m, es[i].key) != b
    ensures FillOk(m, es, i + 1, b, x)
  {
    hide PredictLeafBlock, Flatten, Arrivals, NullBefore;
    ArrivalsNext(m, es, i, b);
  }

  /** The block of the i-th record: its tree is searched in vain exactly when a value of 0 went there before. */
  lemma FillStops(m: NodeModel, es: seq<Entry>, i: nat, b: nat, x: Block)
    requires m.blocks >= 3 && i < |es| && FillOk(m, es, i, b, x) && BlockInv(x)
    requires forall e :: e in Flatten(x.overflow) ==> e.key < es[i].key
    ensures x.overflow != [] && Stops(x.overflow, es[i].key) <==> NullBefore(m, es, i, b)
  {
    hide PredictLeafBlock, Flatten, Arrivals, NullBefore, Stops;
    NoTreeNoRecords(x);
    if x.overflow != [] {
      AppendStops(x.overflow, es[i].key);
    }
  }

  lemma FillNext(m: NodeModel, es: seq<Entry>, i: nat, b: nat, x: Block, x': Block, slot: nat)
    requires m.blocks >= 3 && i < |es| && FillOk(m, es, i, b, x) && PredictLeafBlock(m, es[i].key) == b
    requires slot <= REAL_SLOTS && !NullBefore(m, es, i, b) && (forall j :: 0 <= j < slot ==> x.cells[j].Filled?)
    requires slot < REAL_SLOTS ==> x.cells[slot].Vacant? && x' == x.(cells := x.cells[slot := Filled(es[i])])
    requires slot == REAL_SLOTS ==> x'.cells == x.cells && Flatten(x'.overflow) == Flatten(x.overflow) + [es[i]]
    ensures FillOk(m, es, i + 1, b, x')
  {
    hide PredictLeafBlock, Flatten, Arrivals, NullBefore;
    ArrivalsNext(m, es, i, b);
    assert Spills(m, es, i) <==> slot == REAL_SLOTS by {
      if slot < REAL_SLOTS {
        assert !(slot < Arrivals(m, es[..i], b));
      } else {
        assert x.cells[REAL_SLOTS - 1].Filled?;
      }
    }
    if slot < REAL_SLOTS {
      assert Arrivals(m, es[..i], b) == slot by {
        assert slot > 0 ==> x.cells[slot - 1].Filled?;
      }
    }
  }

  /** The leaf constructor. The process exits exactly when a value of 0 goes to an overflow tree and a later record to
      the same block; otherwise the leaf holds exactly the records it was given. */
  method BuildLeaf(es: seq<Entry>, m: NodeModel) returns (stopped: bool, l: Leaf)
    requires 1 <= |es| && SortedByKey(es) && m.blocks >= 3 && m.line.a >= 0.0
    ensures stopped <==> Doomed(m, es)
    ensures l.model == m && l.firstKey == es[0].key
    ensures !stopped ==> LeafInv(l) && HoldsExactly(l.blocks, es)
    ensures !stopped && (forall i :: 0 <= i < |es| ==> es[i].payload != 0) ==> NullFree(l.blocks)
  {
    hide PredictLeafBlock, StoredIn, BlockInv, Rewrites, Flatten, FillOk, NullBefore, SortedByKey, Stops, Upserted;
    var empty := Block(seq(REAL_SLOTS, _ => Vacant), []);
    var blocks := seq(m.blocks, _ => empty);
    EmptyBlocks(m, blocks, empty, es);
    var spilledNumber := 0;
    for i := 0 to |es|
      invariant |blocks| == m.blocks && AtHome(m, blocks)
      invariant forall b :: 0 <= b < |blocks| ==> BlockInv(blocks[b])
      invariant spilledNumber == OverflowTotal(blocks)
      invariant HoldsExactly(blocks, es[..i]) && AllFillOk(m, es, i, blocks)
      invariant forall j :: 0 <= j < i ==> !NullBefore(m, es, j, PredictLeafBlock(m, es[j].key))
    {
      var b := PredictLeafBlock(m, es[i].key);
      NewKey(blocks, es, i, b);
      TreeBelow(blocks, es, i, b);
      assert FillOk(m, es, i, b, blocks[b]);
      FillStops(m, es, i, b, blocks[b]);
      var stop, x, slot := PlaceInBlock(blocks[b], es[i]);
      if stop {
        return true, Leaf(es[0].key, m, blocks, spilledNumber, 0);
      }
      BlockUpdate(m, blocks, b, x, es[i]);
      OverflowUpdate(blocks, b, x);
      HoldsNext(blocks, blocks[b := x], es, i);
      AppendIsLast(Flatten(blocks[b].overflow), es[i]);
      FillNext(m, es, i, b, blocks[b], x, slot);
      FillAll(m, es, i, blocks, b, x);
      blocks := blocks[b := x];
      if slot == REAL_SLOTS {
        spilledNumber := spilledNumber + 1;
      }
    }
    assert es[..|es|] == es;
    stopped := false;
    var limit := (m.blocks as real * 4.5).Floor;
    l := Leaf(es[0].key, m, blocks, spilledNumber, limit);
    LoadedNullFree(blocks, es);
  }

  lemma FillAll(m: NodeModel, es: seq<Entry>, i: nat, blocks: seq<Block>, b: nat, x: Block)
    requires m.blocks >= 3 && i < |es| && b < |blocks| && b == PredictLeafBlock(m, es[i].key)
    requires AllFillOk(m, es, i, blocks) && FillOk(m, es, i + 1, b, x)
    ensures AllFillOk(m, es, i + 1, blocks[b := x])
  {
    hide PredictLeafBlock, FillOk;
    var u, next := blocks[b := x], i + 1;
    forall k | 0 <= k < |u| ensures FillOk(m, es, next, k, u[k]) {
      if k != b {
        assert FillOk(m, es, i, k, blocks[k]);
        FillOther(m, es, i, k, blocks[k]);
      }
    }
  }

  /** The records spilled so far are below the next key. */
  lemma TreeBelow(blocks: seq<Block>, es: seq<Entry>, i: nat, b: nat)
    requires i < |es| && SortedByKey(es) && HoldsExactly(blocks, es[..i]) && b < |blocks|
    ensures forall e :: e in Flatten(blocks[b].overflow) ==> e.key < es[i].key
  {
    hide Flatten;
    forall e | e in Flatten(blocks[b].overflow) ensures e.key < es[i].key {
      assert StoredIn(blocks[b], e);
      assert Stored(blocks, e);
      var j :| 0 <= j < i && es[..i][j] == e;
    }
  }

  lemma LoadedNullFree(blocks: seq<Block>, es: seq<Entry>)
    requires HoldsExactly(blocks, es)
    ensures (forall i :: 0 <= i < |es| ==> es[i].payload != 0) ==> NullFree(blocks)
  {
    hide Flatten;
    if forall i :: 0 <= i < |es| ==> es[i].payload != 0 {
      forall b, i | 0 <= b < |blocks| && 0 <= i < |Flatten(blocks[b].overflow)|
        ensures Flatten(blocks[b].overflow)[i].payload != 0
      {
        assert StoredIn(blocks[b], Flatten(blocks[b].overflow)[i]);
        assert Stored(blocks, Flatten(blocks[b].overflow)[i]);
      }
    }
  }

  lemma EmptyBlocks(m: NodeModel, blocks: seq<Block>, empty: Block, es: seq<Entry>)
    requires m.blocks >= 3 && |blocks| == m.blocks && forall b :: 0 <= b < |blocks| ==> blocks[b] == empty
    requires empty == Block(seq(REAL_SLOTS, _ => Vacant), [])
    ensures forall b :: 0 <= b < |blocks| ==> BlockInv(blocks[b])
    ensures AtHome(m, blocks) && OverflowTotal(blocks) == 0 && HoldsExactly(blocks, [])
    ensures AllFillOk(m, es, 0, blocks)
  {
    hide PredictLeafBlock;
    assert Flatten([]) == [];
    forall e ensures !StoredIn(empty, e) {}
    NoOverflow(blocks);
    assert es[..0] == [];
  }

  lemma {:induction false} NoOverflow(blocks: seq<Block>)
    requires forall b :: 0 <= b < |blocks| ==> blocks[b].overflow == []
    ensures OverflowTotal(blocks) == 0
  {
    if blocks != [] {
      NoOverflow(blocks[..|blocks| - 1]);
    }
  }

  lemma NewKey(blocks: seq<Block>, es: seq<Entry>, i: nat, b: nat)
    requires i < |es| && SortedByKey(es) && HoldsExactly(blocks, es[..i]) && b < |blocks|
    ensures forall p: nat :: !StoredIn(blocks[b], Entry(es[i].key, p))
  {
    forall p: nat ensures !StoredIn(blocks[b], Entry(es[i].key, p)) {
      if StoredIn(blocks[b], Entry(es[i].key, p)) {
        assert Stored(blocks, Entry(es[i].key, p));
      }
    }
  }

  lemma HoldsNext(blocks: seq<Block>, blocks': seq<Block>, es: seq<Entry>, i: nat)
    requires i < |es| && SortedByKey(es) && HoldsExactly(blocks, es[..i]) && LeafRewrites(blocks, blocks', es[i])
    ensures HoldsExactly(blocks', es[..i + 1])
  {
    assert es[..i + 1] == es[..i] + [es[i]];
    forall e ensures Stored(blocks', e) <==> e in es[..i + 1] {
      assert e in es[..i] ==> e.key != es[i].key;
    }
  }

  // ----- range queries

  /** What a scan of the block lists: the slots, and the tree records with a value. */
  ghost predicate ShownIn(b: Block, e: Entry) {
    Filled(e) in b.cells || (e in Flatten(b.overflow) && e.payload != 0)
  }

  /** es lists the shown entries of the block with keys in [lo, hi], each once. */
  ghost predicate BlockRange(b: Block, lo: real, hi: real, es: seq<Entry>) {
    NoDuplicates(es) && forall e :: e in es <==> ShownIn(b, e) && InRange(e.key, lo, hi)
  }

  ghost predicate Shown(blocks: seq<Block>, e: Entry) {
    exists b :: 0 <= b < |blocks| && ShownIn(blocks[b], e)
  }

  lemma ShownInStored(b: Block, e: Entry)
    requires ShownIn(b, e)
    ensures StoredIn(b, e)
  {}

  lemma ShownIsStored(blocks: seq<Block>)
    ensures forall e :: Shown(blocks, e) ==> Stored(blocks, e)
    ensures NullFree(blocks) ==> forall e :: Stored(blocks, e) ==> Shown(blocks, e)
  {
    hide Flatten;
    forall e | Shown(blocks, e) ensures Stored(blocks, e) {
      var b :| 0 <= b < |blocks| && ShownIn(blocks[b], e);
      assert StoredIn(blocks[b], e);
    }
    if NullFree(blocks) {
      forall e | Stored(blocks, e) ensures Shown(blocks, e) {
        var b :| 0 <= b < |blocks| && StoredIn(blocks[b], e);
        assert ShownIn(blocks[b], e);
      }
    }
  }

  /** One block of the scan: matching slots in slot order, then the overflow records in key order;
      `stop` when a slot shows a key above the bound. */
  method RangeInBlock(b: Block, lo: real, hi: real) returns (es: seq<Entry>, stop: bool)
    requires BlockInv(b)
    ensures BlockRange(b, lo, hi, es)
    ensures stop ==> exists e :: StoredIn(b, e) && e.key > hi
  {
    es, stop := [], false;
    var i := 0;
    while i < |b.cells|
      invariant 0 <= i <= |b.cells|
      invariant NoDuplicates(es)
      invariant forall e :: e in es <==> Filled(e) in b.cells[..i] && InRange(e.key, lo, hi)
      invariant stop ==> exists e :: StoredIn(b, e) && e.key > hi
    {
      var c := b.cells[i];
      assert b.cells[..i + 1] == b.cells[..i] + [c];
      if c.Filled? && lo <= c.e.key <= hi {
        assert forall j :: 0 <= j < |es| ==> es[j] in es;
        es := es + [c.e];
      } else if c.Filled? && c.e.key > hi {
        stop := true;
        assert StoredIn(b, c.e);
      }
      i := i + 1;
    }
    assert b.cells[..|b.cells|] == b.cells;
    BlockFacts(b, 0.0);
    var o := ShownRecords(b, lo, hi);
    SlotsThenOverflow(b, es, o);
    es := es + o;
  }

  /** The scan of the overflow tree. */
  method ShownRecords(b: Block, lo: real, hi: real) returns (o: seq<Entry>)
    requires BlockInv(b)
    ensures SortedByKey(o) && forall e :: e in o <==>
              e in Flatten(b.overflow) && InRange(e.key, lo, hi) && e.payload != 0
  {
    hide BlockInv, FilterShown, SortedByKey;
    BlockFacts(b, 0.0);
    o := [];
    NoTreeNoRecords(Block(b.cells, []));
    var i := 0;
    assert b.overflow[..0] == [] && FilterShown([], lo, hi) == [] by { NothingShown(lo, hi); }
    while i < |b.overflow|
      invariant 0 <= i <= |b.overflow| && o == FilterShown(Flatten(b.overflow[..i]), lo, hi)
    {
      FlattenNext(b.overflow, i);
      FilterConcat(Flatten(b.overflow[..i]), b.overflow[i], lo, hi);
      o := o + FilterShown(b.overflow[i], lo, hi);
      i := i + 1;
    }
    assert b.overflow[..|b.overflow|] == b.overflow;
    FilterShownIs(Flatten(b.overflow), lo, hi);
  }

  lemma NothingShown(lo: real, hi: real)
    ensures FilterShown([], lo, hi) == []
  {}

  lemma FlattenNext(ps: Pages, i: nat)
    requires i < |ps|
    ensures Flatten(ps[..i + 1]) == Flatten(ps[..i]) + ps[i]
  {
    assert ps[..i + 1] == ps[..i] + [ps[i]];
    FlatConcat(ps[..i], [ps[i]]);
    FlatOne(ps[i]);
  }

  lemma SlotsThenOverflow(b: Block, es: seq<Entry>, o: seq<Entry>)
    requires BlockInv(b) && NoDuplicates(es) && SortedByKey(o)
    requires forall e :: e in es ==> Filled(e) in b.cells
    requires forall e :: e in o ==> e in Flatten(b.overflow)
    ensures NoDuplicates(es + o)
  {
    hide Flatten, Ordered;
    forall i, j | 0 <= i < |es| && 0 <= j < |o| ensures es[i].key != o[j].key {
      assert es[i] in es && o[j] in o;
      assert InCells(b, es[i].key);
    }
  }

  ghost predicate LeafRange(blocks: seq<Block>, lo: real, hi: real, es: seq<Entry>) {
    NoDuplicates(es) && forall e :: e in es <==> Shown(blocks, e) && InRange(e.key, lo, hi)
  }

  /** Scans a leaf from the block predicted for the lower bound, or from its first block when the scan comes
      from the previous leaf. Nothing is missed, and a stop means no later record is in range. */
  method RangeHere(l: Leaf, lo: real, hi: real, start: bool) returns (es: seq<Entry>, stop: bool)
    requires LeafInv(l)
    ensures LeafRange(l.blocks, lo, hi, es)
    ensures stop ==> exists e :: Stored(l.blocks, e) && e.key > hi
  {
    hide PredictLeafBlock, StoredIn, BlockInv, NoDuplicates;
    var block := if start then PredictLeafBlock(l.model, lo) else 0;
    es, stop := [], false;
    ScanBegins(l, lo, hi, block, start);
    while block < |l.blocks| && !stop
      invariant 0 <= block <= |l.blocks|
      invariant LeafRange(l.blocks[..block], lo, hi, es)
      invariant stop ==> block > 0 && exists e :: StoredIn(l.blocks[block - 1], e) && e.key > hi
      decreases |l.blocks| - block, !stop
    {
      var more;
      more, stop := RangeInBlock(l.blocks[block], lo, hi);
      ScanStep(l, lo, hi, block, es, more);
      es := es + more;
      block := block + 1;
    }
    assert l.blocks[..|l.blocks|] == l.blocks;
    if stop {
      ScanStops(l, lo, hi, block, es);
    }
  }

  lemma ScanBegins(l: Leaf, lo: real, hi: real, block: nat, start: bool)
    requires LeafInv(l) && block <= |l.blocks| && (start ==> block == PredictLeafBlock(l.model, lo)) &&
             (!start ==> block == 0)
    ensures LeafRange(l.blocks[..block], lo, hi, [])
  {
    hide PredictLeafBlock, StoredIn, BlockInv, ShownIn;
    forall e | Shown(l.blocks[..block], e) ensures !InRange(e.key, lo, hi) {
      var b :| 0 <= b < block && ShownIn(l.blocks[..block][b], e);
      ShownInStored(l.blocks[b], e);
      assert PredictLeafBlock(l.model, e.key) == b;
      if lo <= e.key {
        LeafBlockMonotone(l.model, lo, e.key);
      }
    }
  }

  lemma ScanStep(l: Leaf, lo: real, hi: real, block: nat, es: seq<Entry>, more: seq<Entry>)
    requires LeafInv(l) && block < |l.blocks|
    requires LeafRange(l.blocks[..block], lo, hi, es) && BlockRange(l.blocks[block], lo, hi, more)
    ensures LeafRange(l.blocks[..block + 1], lo, hi, es + more)
  {
    hide PredictLeafBlock, StoredIn, BlockInv, ShownIn;
    var u := l.blocks[..block + 1];
    forall e ensures Shown(u, e) <==> Shown(l.blocks[..block], e) || ShownIn(l.blocks[block], e) {
      if Shown(l.blocks[..block], e) {
        var b :| 0 <= b < block && ShownIn(l.blocks[..block][b], e);
        assert ShownIn(u[b], e);
      }
      if ShownIn(l.blocks[block], e) {
        assert ShownIn(u[block], e);
      }
      if Shown(u, e) {
        var b :| 0 <= b < |u| && ShownIn(u[b], e);
        assert b < block ==> ShownIn(l.blocks[..block][b], e);
      }
    }
    forall i, j | 0 <= i < |es| && 0 <= j < |more| ensures es[i].key != more[j].key {
      assert es[i] in es && more[j] in more;
      var b :| 0 <= b < block && ShownIn(l.blocks[..block][b], es[i]);
      ShownInStored(l.blocks[b], es[i]);
      ShownInStored(l.blocks[block], more[j]);
      assert PredictLeafBlock(l.model, es[i].key) == b;
      assert PredictLeafBlock(l.model, more[j].key) == block;
    }
  }

  lemma ScanStops(l: Leaf, lo: real, hi: real, block: nat, es: seq<Entry>)
    requires LeafInv(l) && 0 < block <= |l.blocks| && LeafRange(l.blocks[..block], lo, hi, es)
    requires exists e :: StoredIn(l.blocks[block - 1], e) && e.key > hi
    ensures LeafRange(l.blocks, lo, hi, es)
    ensures exists e :: Stored(l.blocks, e) && e.key > hi
  {
    hide PredictLeafBlock, StoredIn, BlockInv, ShownIn, NoDuplicates;
    var big :| StoredIn(l.blocks[block - 1], big) && big.key > hi;
    assert Stored(l.blocks, big);
    forall e
      ensures Shown(l.blocks, e) && InRange(e.key, lo, hi) <==> Shown(l.blocks[..block], e) && InRange(e.key, lo, hi)
    {
      if Shown(l.blocks, e) && InRange(e.key, lo, hi) {
        var b :| 0 <= b < |l.blocks| && ShownIn(l.blocks[b], e);
        ShownInStored(l.blocks[b], e);
        LeafBlockMonotone(l.model, e.key, big.key);
        assert b < block;
        assert ShownIn(l.blocks[..block][b], e);
      }
      if Shown(l.blocks[..block], e) {
        var b :| 0 <= b < block && ShownIn(l.blocks[..block][b], e);
        assert ShownIn(l.blocks[b], e);
      }
    }
  }
}
