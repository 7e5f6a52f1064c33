/** The overflow B+ tree: every run of upserts keeps the tree invariant and refines an ordered map. */
module OverflowTree {
  import opened Wrappers
  import opened SortedRecords
  import opened PageLevels
  import opened BPlusTree
  import TP = TreePages

  /** Fewest records a page may hold: half the cardinality, except in the root. */
  ghost function MinSize(levels: seq<seq<Link>>, l: nat, card: nat, pend: Pending): nat {
    if l + 1 < |levels| || (pend.Open? && pend.h + 1 == |levels|) then card / 2
    else if l == 0 then 0
    else 2
  }

  /** Occupancy; only the page `big` may be full. */
  ghost predicate Sizes(pages: seq<Page>, levels: seq<seq<Link>>, card: nat, pend: Pending, big: nat) {
    && AllInHeap(pages, levels)
    && (forall l, i :: 0 <= l < |levels| && 0 <= i < |levels[l]| ==>
          HasSize(pages, levels[l][i].id, MinSize(levels, l, card, pend),
                  if levels[l][i].id == big then card else card - 1))
  }

  ghost predicate HasSize(pages: seq<Page>, x: nat, lo: nat, hi: int) {
    x < |pages| && lo <= |pages[x].recs| <= hi
  }

  ghost predicate TreeInv(pages: seq<Page>, levels: seq<seq<Link>>, root: nat, card: nat, pend: Pending, big: nat) {
    && |levels| >= 1 && Structure(pages, levels, root, pend) && LeafPart(pages, levels[0])
    && Sizes(pages, levels, card, pend, big)
  }

  // ----- steps

  lemma SizeAt(pages: seq<Page>, levels: seq<seq<Link>>, card: nat, pend: Pending, big: nat, l: nat, i: nat)
    requires Sizes(pages, levels, card, pend, big) && l < |levels| && i < |levels[l]|
    ensures 1 <= levels[l][i].id < |pages| && MinSize(levels, l, card, pend) <= |pages[levels[l][i].id].recs| <= card
    ensures levels[l][i].id != big ==> |pages[levels[l][i].id].recs| <= card - 1
  {
    assert InHeap(pages, levels[l]);
    assert HasSize(pages, levels[l][i].id, MinSize(levels, l, card, pend),
                   if levels[l][i].id == big then card else card - 1);
  }

  /** A page that is not full is not an exception. */
  lemma NotBig(pages: seq<Page>, levels: seq<seq<Link>>, card: nat, pend: Pending, big: nat)
    requires Sizes(pages, levels, card, pend, big) && (big < |pages| ==> |pages[big].recs| < card)
    ensures Sizes(pages, levels, card, pend, 0)
  {
    forall l, i | 0 <= l < |levels| && 0 <= i < |levels[l]|
      ensures HasSize(pages, levels[l][i].id, MinSize(levels, l, card, pend),
                      if levels[l][i].id == 0 then card else card - 1)
    {
      SizeAt(pages, levels, card, pend, big, l, i);
    }
  }

  /** One page grows by at most one record. */
  lemma SizesGrow(pages: seq<Page>, pages': seq<Page>, levels: seq<seq<Link>>, card: nat, pend: Pending, pend': Pending,
                  x: nat)
    requires Sizes(pages, levels, card, pend, 0) && |pages'| == |pages| && x < |pages|
    requires forall l :: 0 <= l < |levels| ==> MinSize(levels, l, card, pend') <= MinSize(levels, l, card, pend)
    requires forall y :: 0 <= y < |pages| && y != x ==> |pages'[y].recs| == |pages[y].recs|
    requires |pages[x].recs| <= |pages'[x].recs| <= |pages[x].recs| + 1
    ensures Sizes(pages', levels, card, pend', x)
  {
    hide MinSize;
    forall l, i | 0 <= l < |levels| && 0 <= i < |levels[l]|
      ensures HasSize(pages', levels[l][i].id, MinSize(levels, l, card, pend'),
                      if levels[l][i].id == x then card else card - 1)
    {
      SizeAt(pages, levels, card, pend, 0, l, i);
    }
    forall l | 0 <= l < |levels| ensures InHeap(pages', levels[l]) {
      assert InHeap(pages, levels[l]);
    }
  }

  /** A full page is cut into two pages of legal size. */
  lemma SizesCut(pages: seq<Page>, pages': seq<Page>, levels: seq<seq<Link>>, card: nat, g: nat, k: nat, x: Link)
    requires card >= 3 && g < |levels| && k < |levels[g]| && x.id == |pages| && |pages'| == |pages| + 1
    requires Sizes(pages, levels, card, Settled, levels[g][k].id) && levels[g][k].id < |pages|
    requires g + 1 == |levels| ==> |levels[g]| == 1
    requires |pages'[|pages|].recs| == card / 2 && |pages'[levels[g][k].id].recs| == card - card / 2
    requires forall y :: 0 <= y < |pages| && y != levels[g][k].id ==> |pages'[y].recs| == |pages[y].recs|
    ensures Sizes(pages', levels[g := InsertAt(levels[g], k + 1, x)], card, Open(g, k), 0)
  {
    var levels': seq<seq<Link>> := levels[g := InsertAt(levels[g], k + 1, x)];
    assert InHeap(pages, levels[g]);
    assert levels[g][k].id >= 1;
    HeapInsert(pages, pages', levels, g, k, x);
    forall l, i | 0 <= l < |levels'| && 0 <= i < |levels'[l]|
      ensures HasSize(pages', levels'[l][i].id, MinSize(levels', l, card, Open(g, k)),
                      if levels'[l][i].id == 0 then card else card - 1)
    {
      assert InHeap(pages', levels'[l]);
      assert levels'[l][i].id >= 1;
      if !(l == g && i == k + 1) {
        var o := if l == g && i > k then i - 1 else i;
        assert levels'[l][i] == levels[l][o];
        SizeAt(pages, levels, card, Settled, levels[g][k].id, l, o);
      }
    }
  }

  lemma TopIsRoot(pages: seq<Page>, levels: seq<seq<Link>>, root: nat)
    requires Structure(pages, levels, root, Settled)
    ensures levels[|levels| - 1] == [Link(Least, root)]
  {
    KnownSettled(levels);
  }

  /** Upserting into the covering leaf. */
  lemma StepUpsert(pages: seq<Page>, levels: seq<seq<Link>>, root: nat, card: nat, i: nat, e: Entry)
    requires TreeInv(pages, levels, root, card, Settled, 0)
    requires i < |levels[0]| && Covers(levels[0], i, e.key) && levels[0][i].id < |pages|
    ensures var x := levels[0][i].id;
            var pages' := pages[x := pages[x].(recs := Upserted(pages[x].recs, e))];
            TreeInv(pages', levels, root, card, Settled, x) && InHeap(pages', levels[0]) &&
            Gather(pages', levels[0]) == Upserted(Gather(pages, levels[0]), e) && InHeap(pages, levels[0]) &&
            LeafPages(pages', levels[0]) == LeafPages(pages, levels[0])[i := Upserted(pages[x].recs, e)]
  {
    hide Structure, LeafPart, Sizes, Gather, Upserted, Covers;
    var x := levels[0][i].id;
    var R := pages[x].recs;
    var pages' := pages[x := pages[x].(recs := Upserted(R, e))];
    LeafFacts(pages, levels, root, card, Settled, 0, i);
    LevelsUnlikeIn(pages, levels, root, Settled, 0);
    LeafUpserts(pages, levels[0], i, e);
    UpsertedSorted(R, e);
    LeafChange(pages, pages', levels, root);
    SizesGrow(pages, pages', levels, card, Settled, Settled, x);
    PartHeap(pages', levels[0]);
  }

  lemma PartHeap(pages: seq<Page>, level: seq<Link>)
    requires LeafPart(pages, level)
    ensures InHeap(pages, level)
  {
  }

  lemma LevelsUnlikeIn(pages: seq<Page>, levels: seq<seq<Link>>, root: nat, pend: Pending, l: nat)
    requires Structure(pages, levels, root, pend) && l < |levels|
    ensures Unlike(levels[l])
  {
    LevelsUnlike(levels, l, pend);
  }

  lemma LeafFacts(pages: seq<Page>, levels: seq<seq<Link>>, root: nat, card: nat, pend: Pending, big: nat, i: nat)
    requires TreeInv(pages, levels, root, card, pend, big) && i < |levels[0]|
    ensures 1 <= levels[0][i].id < |pages| && pages[levels[0][i].id].isLeaf && SortedByKey(pages[levels[0][i].id].recs)
    ensures InHeap(pages, levels[0]) && SortedByKey(Gather(pages, levels[0]))
    ensures pages[levels[0][i].id].next == if i + 1 < |levels[0]| then levels[0][i + 1].id else 0
    ensures i + 1 < |levels[0]| ==> 1 <= levels[0][i + 1].id < |pages|
  {
    hide Structure, Sizes;
    GatherAround(pages, levels[0], i);
    PartSorted(Gather(pages, levels[0][..i]), pages[levels[0][i].id].recs, Gather(pages, levels[0][i + 1..]));
    assert InChain(pages, levels[0], i);
  }

  /** Splitting a full leaf. */
  lemma StepLeafCut(pages: seq<Page>, pages': seq<Page>, levels: seq<seq<Link>>, root: nat, card: nat, i: nat)
    requires card >= 3 && |levels| >= 1 && i < |levels[0]| && levels[0][i].id < |pages|
    requires TreeInv(pages, levels, root, card, Settled, levels[0][i].id)
    requires |pages[levels[0][i].id].recs| == card && LeafCut(pages, pages', levels[0][i].id, card - card / 2)
    ensures var x := Link(Key(pages[levels[0][i].id].recs[card - card / 2].key), |pages|);
            var levels' := levels[0 := InsertAt(levels[0], i + 1, x)];
            TreeInv(pages', levels', root, card, Open(0, i), 0) && InHeap(pages, levels[0]) &&
            InHeap(pages', levels'[0]) &&
            Gather(pages', levels'[0]) == Gather(pages, levels[0]) &&
            LeafPages(pages', levels'[0]) == CutPages(LeafPages(pages, levels[0]), i, card - card / 2)
  {
    hide Structure, LeafPart, Sizes, Gather;
    var left := card - card / 2;
    var f := levels[0][i].id;
    var sep := pages[f].recs[left].key;
    LeafFacts(pages, levels, root, card, Settled, f, i);
    LevelsUnlikeIn(pages, levels, root, Settled, 0);
    LeafCuts(pages, pages', levels[0], i, left);
    LeafSplit(pages, pages', levels, root, i, sep);
    TopIsRoot(pages, levels, root);
    SizesCut(pages, pages', levels, card, 0, i, Link(Key(sep), |pages|));
    PartHeap(pages', InsertAt(levels[0], i + 1, Link(Key(sep), |pages|)));
  }

  /** Inserting the pending link into the father. */
  lemma StepSettle(pages: seq<Page>, pages': seq<Page>, levels: seq<seq<Link>>, root: nat, card: nat, h: nat, i: nat,
                   k: nat, j: nat, sep: real)
    requires TreeInv(pages, levels, root, card, Open(h, i), 0) && h + 1 < |levels| && k < |levels[h + 1]|
    requires InHeap(pages, levels[h + 1]) && j < |pages[levels[h + 1][k].id].recs| &&
             i == Position(pages, levels[h + 1], k, j)
    requires i + 1 < |levels[h]| && levels[h][i + 1].lo == Key(sep) && 1 <= levels[h][i + 1].id < |pages|
    requires var f := levels[h + 1][k].id; var x := levels[h][i + 1].id;
             pages' == pages[f := pages[f].(recs := InsertAt(pages[f].recs, j + 1, Entry(sep, x)))]
                            [x := pages[x].(parent := f)]
    ensures TreeInv(pages', levels, root, card, Settled, levels[h + 1][k].id) && InHeap(pages, levels[0]) &&
            InHeap(pages', levels[0])
    ensures Gather(pages', levels[0]) == Gather(pages, levels[0])
    ensures LeafPages(pages', levels[0]) == LeafPages(pages, levels[0])
  {
    hide Structure, LeafPart, Sizes, Gather, Position;
    var f := levels[h + 1][k].id;
    var x := levels[h][i + 1].id;
    PageApart(pages, levels, root, Open(h, i), h + 1, k, h, i + 1);
    Settles(pages, pages', levels, root, h, i, k, j, sep);
    PartHeap(pages, levels[0]);
    NotLeafLevel(pages, levels, root, Open(h, i), h + 1, k);
    SettleFacts(pages, pages', f, j, Entry(sep, x));
    LeafFrame(pages, pages', levels[0]);
    PartHeap(pages', levels[0]);
    SizesGrow(pages, pages', levels, card, Open(h, i), Settled, f);
  }

  lemma SettleFacts(pages: seq<Page>, pages': seq<Page>, f: nat, j: nat, e: Entry)
    requires f < |pages| && e.payload < |pages| && f != e.payload && j < |pages[f].recs|
    requires pages' == pages[f := pages[f].(recs := InsertAt(pages[f].recs, j + 1, e))]
                            [e.payload := pages[e.payload].(parent := f)]
    ensures |pages'| == |pages| && |pages'[f].recs| == |pages[f].recs| + 1
    ensures forall y :: 0 <= y < |pages| && y != f ==> pages'[y].recs == pages[y].recs
    ensures forall y :: 0 <= y < |pages| ==> pages'[y].isLeaf == pages[y].isLeaf && pages'[y].next == pages[y].next &&
                                             pages'[y].prev == pages[y].prev
  {
  }

  lemma PageApart(pages: seq<Page>, levels: seq<seq<Link>>, root: nat, pend: Pending, l: nat, i: nat, l': nat, i': nat)
    requires Structure(pages, levels, root, pend) && l < |levels| && i < |levels[l]| && l' < |levels| &&
             i' < |levels[l']|
    requires l != l' || i != i'
    ensures levels[l][i].id != levels[l'][i'].id
  {
    hide Joins, Known;
    Apart(levels, l, i, l', i');
  }

  /** An inner page is not in the leaf level. */
  lemma NotLeafLevel(pages: seq<Page>, levels: seq<seq<Link>>, root: nat, pend: Pending, g: nat, k: nat)
    requires Structure(pages, levels, root, pend) && 1 <= g < |levels| && k < |levels[g]|
    ensures forall i :: 0 <= i < |levels[0]| ==> levels[0][i].id != levels[g][k].id
  {
    forall i | 0 <= i < |levels[0]| ensures levels[0][i].id != levels[g][k].id {
      PageApart(pages, levels, root, pend, 0, i, g, k);
    }
  }

  /** Splitting a full inner page. */
  lemma StepSplit(pages: seq<Page>, pages': seq<Page>, levels: seq<seq<Link>>, root: nat, card: nat, g: nat, k: nat)
    requires card >= 3 && 1 <= g < |levels| && k < |levels[g]| && levels[g][k].id < |pages|
    requires TreeInv(pages, levels, root, card, Settled, levels[g][k].id)
    requires |pages[levels[g][k].id].recs| == card && InnerSplit(pages, pages', levels[g][k].id, card - card / 2)
    ensures var x := Link(Key(pages[levels[g][k].id].recs[card - card / 2].key), |pages|);
            var levels' := levels[g := InsertAt(levels[g], k + 1, x)];
            TreeInv(pages', levels', root, card, Open(g, k), 0) && InHeap(pages, levels[0]) &&
            InHeap(pages', levels'[0]) &&
            Gather(pages', levels'[0]) == Gather(pages, levels[0]) &&
            LeafPages(pages', levels'[0]) == LeafPages(pages, levels[0])
  {
    hide Structure, LeafPart, Sizes, Gather, InnerSplit;
    var left := card - card / 2;
    var f := levels[g][k].id;
    SplitFrame(pages, pages', f, left);
    Splits(pages, pages', levels, root, g, k, left);
    PartHeap(pages, levels[0]);
    NotLeafLevel(pages, levels, root, Settled, g, k);
    LeafFrame(pages, pages', levels[0]);
    PartHeap(pages', levels[0]);
    TopIsRoot(pages, levels, root);
    SizesCut(pages, pages', levels, card, g, k, Link(Key(pages[f].recs[left].key), |pages|));
  }

  /** A new root above the split root. */
  lemma StepRoot(pages: seq<Page>, pages': seq<Page>, levels: seq<seq<Link>>, root: nat, card: nat, h: nat, i: nat,
                 sep: real, first: real)
    requires card >= 3 && TreeInv(pages, levels, root, card, Open(h, i), 0) && h == |levels| - 1
    requires i + 1 < |levels[h]| && levels[h][i + 1].lo == Key(sep) && 1 <= levels[h][i + 1].id < |pages| &&
             1 <= root < |pages|
    requires var x := levels[h][i + 1].id; var n := |pages|;
             pages' == (pages + [Page(false, [Entry(first, root), Entry(sep, x)], 0, 0, 0)])
                       [root := pages[root].(parent := n)][x := pages[x].(parent := n)]
    ensures var levels' := levels + [[Link(Least, |pages|)]];
            TreeInv(pages', levels', |pages|, card, Settled, 0) && InHeap(pages, levels[0]) &&
            InHeap(pages', levels'[0]) &&
            Gather(pages', levels'[0]) == Gather(pages, levels[0]) &&
            LeafPages(pages', levels'[0]) == LeafPages(pages, levels[0])
  {
    hide Structure, LeafPart, Sizes, Gather;
    var levels' := levels + [[Link(Least, |pages|)]];
    NewRoot(pages, pages', levels, root, h, i, sep, first);
    PartHeap(pages, levels[0]);
    RootFacts(pages, pages', root, levels[h][i + 1].id, Entry(first, root), Entry(sep, levels[h][i + 1].id));
    LeafFrame(pages, pages', levels[0]);
    PartHeap(pages', levels[0]);
    SizesRoot(pages, pages', levels, card, i);
  }

  lemma RootFacts(pages: seq<Page>, pages': seq<Page>, root: nat, x: nat, a: Entry, b: Entry)
    requires root < |pages| && x < |pages|
    requires pages' == (pages + [Page(false, [a, b], 0, 0, 0)])
                       [root := pages[root].(parent := |pages|)][x := pages[x].(parent := |pages|)]
    ensures |pages'| == |pages| + 1 && |pages'[|pages|].recs| == 2
    ensures forall y :: 0 <= y < |pages| ==> pages'[y].recs == pages[y].recs
    ensures forall y :: 0 <= y < |pages| ==> pages'[y].isLeaf == pages[y].isLeaf && pages'[y].next == pages[y].next &&
                                             pages'[y].prev == pages[y].prev
  {
  }

  lemma SizesRoot(pages: seq<Page>, pages': seq<Page>, levels: seq<seq<Link>>, card: nat, i: nat)
    requires card >= 3 && |levels| >= 1 && Sizes(pages, levels, card, Open(|levels| - 1, i), 0)
    requires |pages'| == |pages| + 1 && |pages'[|pages|].recs| == 2 && |pages| >= 1
    requires forall y :: 0 <= y < |pages| ==> pages'[y].recs == pages[y].recs
    ensures Sizes(pages', levels + [[Link(Least, |pages|)]], card, Settled, 0)
  {
    var levels': seq<seq<Link>> := levels + [[Link(Least, |pages|)]];
    forall l | 0 <= l < |levels'| ensures InHeap(pages', levels'[l]) {
      if l < |levels| {
        assert InHeap(pages, levels[l]);
      }
    }
    forall l, m | 0 <= l < |levels'| && 0 <= m < |levels'[l]|
      ensures HasSize(pages', levels'[l][m].id, MinSize(levels', l, card, Settled),
                      if levels'[l][m].id == 0 then card else card - 1)
    {
      if l < |levels| {
        SizeAt(pages, levels, card, Open(|levels| - 1, i), 0, l, m);
      }
    }
  }

  // ----- search inside a page

  /** lower_bound: the first record whose key is not below the target. */
  method LowerBound(recs: seq<Entry>, key: real) returns (id: nat)
    ensures IsLowerBound(recs, id, key)
  {
    id := 0;
    while id < |recs| && recs[id].key < key
      invariant id <= |recs|
      invariant forall j :: 0 <= j < id ==> recs[j].key < key
    {
      id := id + 1;
    }
  }

  /** upper_bound minus one: the child to descend into. The scan starts at the second separator. */
  method InnerLookup(recs: seq<Entry>, key: real) returns (id: nat)
    requires |recs| >= 1
    ensures Selects(recs, id, key)
    ensures forall j :: 1 <= j <= id ==> recs[j].key <= key
  {
    var i := 1;
    while i < |recs| && recs[i].key <= key
      invariant 1 <= i <= |recs|
      invariant forall j :: 1 <= j < i ==> recs[j].key <= key
    {
      i := i + 1;
    }
    id := i - 1;
  }

  method FindChildRank(recs: seq<Entry>, child: nat) returns (k: int)
    ensures k == -1 <==> !IsKid(recs, child)
    ensures k != -1 ==> 0 <= k < |recs| && recs[k].payload == child
    ensures k <= |recs| && forall j :: 0 <= j < k ==> recs[j].payload != child
  {
    for j := 0 to |recs|
      invariant forall m :: 0 <= m < j ==> recs[m].payload != child
    {
      if recs[j].payload == child {
        return j;
      }
    }
    k := -1;
  }

  class BTree {
    const cardinality: nat
    var pages: seq<Page>
    var root: nat
    ghost var levels: seq<seq<Link>>

    ghost predicate Valid()
      reads this
    {
      cardinality >= 3 && TreeInv(pages, levels, root, cardinality, Settled, 0)
    }

    /** The leaf pages from left to right. */
    ghost function Leaves(): TP.Pages
      reads this
      requires Valid()
    {
      LeafPages(pages, levels[0])
    }

    /** The records in leaf-chain order. */
    ghost function Contents(): seq<Entry>
      reads this
      requires Valid()
    {
      Gather(pages, levels[0])
    }

    constructor (cardinality: nat)
      requires cardinality >= 3
      ensures Valid() && Contents() == [] && Leaves() == [[]]
    {
      this.cardinality := cardinality;
      pages := [Page(false, [], 0, 0, 0), Page(true, [], 0, 0, 0)];
      root := 1;
      levels := [[Link(Least, 1)]];
      EmptyTree(cardinality);
    }

    /** Descends from the root to the leaf whose fences enclose the key. */
    method FindLeafPage(key: real) returns (x: nat, ghost i: nat)
      requires Valid()
      ensures i < |levels[0]| && levels[0][i].id == x && Covers(levels[0], i, key)
      ensures 1 <= x < |pages| && pages[x].isLeaf
    {
      hide LeafPart, Sizes, Structure, Joins, Covers, Position;
      x := root;
      i := 0;
      ghost var l := |levels| - 1;
      TopIsRoot(pages, levels, root);
      RootCovers(root, key);
      PageKind(pages, levels, root, cardinality, l, i);
      while !pages[x].isLeaf
        invariant 0 <= l < |levels| && i < |levels[l]| && levels[l][i].id == x && Covers(levels[l], i, key)
        invariant x < |pages| && (pages[x].isLeaf <==> l == 0)
        decreases l
      {
        PageKind(pages, levels, root, cardinality, l, i);
        var id := InnerLookup(pages[x].recs, key);
        Descends(pages, levels[l], levels[l - 1], i, id, key);
        i := Position(pages, levels[l], i, id);
        l := l - 1;
        x := pages[x].recs[id].payload;
        PageKind(pages, levels, root, cardinality, l, i);
      }
      LeafFacts(pages, levels, root, cardinality, Settled, 0, i);
    }

    /** The process exits exactly when the page of the key holds a value of 0; otherwise the search finds what the
        contents hold. */
    method Find(key: real) returns (stopped: bool, r: Option<nat>)
      requires Valid()
      ensures |Leaves()| >= 1 && (stopped <==> TP.Stops(Leaves(), key))
      ensures !stopped ==> r == FindSorted(Contents(), key) == TP.Lookup(Leaves(), key)
      ensures !stopped ==> forall p: nat :: r == Some(p) <==> Entry(key, p) in Contents()
    {
      hide LeafPart, Sizes, Structure, Covers, FindSorted, Gather, TP.PageOf, TP.HasNull;
      var x, i := FindLeafPage(key);
      LeafFacts(pages, levels, root, cardinality, Settled, 0, i);
      CoveringPage(pages, levels[0], i, key);
      var recs := pages[x].recs;
      stopped := TP.HasNull(recs);
      if stopped {
        return true, None;
      }
      var id := LowerBound(recs, key);
      FoundAtLowerBound(recs, id, key);
      r := if id < |recs| && recs[id].key == key then Some(recs[id].payload) else None;
      FindsInLeaf(pages, levels[0], i, key);
      forall p: nat ensures r == Some(p) <==> Entry(key, p) in Gather(pages, levels[0]) {
        FindSortedIs(Gather(pages, levels[0]), key, p);
      }
    }

    /** Moves the upper half of a full page to a fresh right sibling: chained in for a leaf,
        adopted by its children for an inner page. */
    method Split(x: nat) returns (sibling: nat)
      requires 1 <= x < |pages| && |pages[x].recs| >= 2
      requires !pages[x].isLeaf ==> forall j :: 0 <= j < |pages[x].recs| ==> pages[x].recs[j].payload < |pages|
      requires pages[x].isLeaf ==> pages[x].next < |pages| && pages[x].next != x
      modifies this`pages
      ensures sibling == old(|pages|)
      ensures var left := old(|pages[x].recs| - |pages[x].recs| / 2);
              if old(pages[x].isLeaf) then LeafCut(old(pages), pages, x, left)
              else InnerSplit(old(pages), pages, x, left)
    {
      ghost var before := pages;
      var p := pages[x];
      sibling := |pages|;
      var right := |p.recs| / 2;
      var left := |p.recs| - right;
      if p.isLeaf {
        pages := pages + [Page(true, p.recs[left..], 0, p.next, x)];
        pages := pages[x := p.(recs := p.recs[..left], next := sibling)];
        if p.next != 0 {
          pages := pages[p.next := pages[p.next].(prev := sibling)];
        }
      } else {
        pages := pages + [Page(false, p.recs[left..], 0, 0, 0)];
        pages := pages[x := p.(recs := p.recs[..left])];
        ghost var cut := pages;
        assert cut == before[x := p.(recs := p.recs[..left])] + [Page(false, p.recs[left..], 0, 0, 0)];
        var kids := p.recs[left..];
        assert kids[..0] == [];
        for k := 0 to |kids|
          invariant Adopted(cut, pages, kids[..k], sibling)
        {
          Adopts(cut, pages, kids, k, sibling);
          var child := kids[k].payload;
          pages := pages[child := pages[child].(parent := sibling)];
        }
        assert kids[..|kids|] == kids;
      }
    }

    /** A new root above the two halves of the old one. */
    method GrowRoot(key: real, sibling: nat, ghost h: nat, ghost i: nat)
      requires cardinality >= 3 && TreeInv(pages, levels, root, cardinality, Open(h, i), 0)
      requires h < |levels| && i + 1 < |levels[h]| && levels[h][i].id == root &&
               levels[h][i + 1] == Link(Key(key), sibling)
      modifies this
      ensures Valid() && old(InHeap(pages, levels[0])) && Contents() == old(Gather(pages, levels[0]))
      ensures Leaves() == old(LeafPages(pages, levels[0]))
    {
      hide LeafPart, Sizes, Structure, Gather, TreeInv;
      OpenFacts(pages, levels, root, cardinality, h, i);
      var newRoot := |pages|;
      ghost var before := pages;
      pages := pages + [Page(false, [Entry(pages[root].recs[0].key, root), Entry(key, sibling)], 0, 0, 0)];
      pages := pages[root := pages[root].(parent := newRoot)];
      pages := pages[sibling := pages[sibling].(parent := newRoot)];
      StepRoot(before, pages, levels, root, cardinality, h, i, key, before[root].recs[0].key);
      levels := levels + [[Link(Least, newRoot)]];
      root := newRoot;
    }

    /** Links the sibling into the parent of the page that was split, splitting upwards as far as needed. */
    method InsertIntoParent(node: nat, key: real, sibling: nat, ghost h: nat, ghost i: nat)
      requires cardinality >= 3 && TreeInv(pages, levels, root, cardinality, Open(h, i), 0)
      requires h < |levels| && i + 1 < |levels[h]| && levels[h][i].id == node &&
               levels[h][i + 1] == Link(Key(key), sibling)
      modifies this
      ensures Valid() && old(InHeap(pages, levels[0])) && Contents() == old(Gather(pages, levels[0]))
      ensures Leaves() == old(LeafPages(pages, levels[0]))
      decreases |levels| - h
    {
      hide LeafPart, Sizes, Structure, Gather, InnerSplit, LeafCut, Position, MinSize, TreeInv;
      OpenFacts(pages, levels, root, cardinality, h, i);
      if node == root {
        GrowRoot(key, sibling, h, i);
        return;
      }
      ghost var k, j := FatherOf(pages, levels, root, cardinality, h, i);
      var father := pages[node].parent;
      var rank := FindChildRank(pages[father].recs, node);
      assert rank == j;
      ghost var before := pages;
      pages := pages[sibling := pages[sibling].(parent := father)];
      pages := pages[father := pages[father].(recs := InsertAt(pages[father].recs, rank + 1, Entry(key, sibling)))];
      assert pages == before[father := before[father].(recs :=
                                         InsertAt(before[father].recs, j + 1, Entry(key, sibling)))]
                            [sibling := before[sibling].(parent := father)];
      StepSettle(before, pages, levels, root, cardinality, h, i, k, j, key);
      SizeIn(pages, levels, root, cardinality, father, h + 1, k);
      if |pages[father].recs| >= cardinality {
        ghost var full := pages;
        var fatherSibling := Split(father);
        SplitFrame(full, pages, father, cardinality - cardinality / 2);
        StepSplit(full, pages, levels, root, cardinality, h + 1, k);
        ghost var x := Link(Key(full[father].recs[cardinality - cardinality / 2].key), fatherSibling);
        KnownInsert(levels, h + 1, k, x);
        LevelKeeps(levels, h + 1, k, x);
        levels := levels[h + 1 := InsertAt(levels[h + 1], k + 1, x)];
        InsertIntoParent(father, pages[fatherSibling].recs[0].key, fatherSibling, h + 1, k);
      } else {
        Settled0(pages, levels, root, cardinality, father);
      }
    }

    /** Insert or update. The process exits exactly when the page of the key already holds a value of 0; otherwise the
        pages and the contents change as an ordered map does. 3: the key was there, 4: it is new. */
    method Upsert(key: real, payload: nat) returns (stopped: bool, ret: nat)
      requires Valid()
      modifies this
      ensures Valid() && |old(Leaves())| >= 1 && (stopped <==> TP.Stops(old(Leaves()), key))
      ensures stopped ==> Leaves() == old(Leaves()) && Contents() == old(Contents())
      ensures !stopped ==> Leaves() == TP.Put(old(Leaves()), Entry(key, payload), cardinality)
      ensures !stopped ==> Contents() == Upserted(old(Contents()), Entry(key, payload))
      ensures !stopped ==> ret == if HasKey(old(Contents()), key) then 3 else 4
    {
      hide LeafPart, Sizes, Structure, Covers, Gather, Upserted, LeafCut, InnerSplit, MinSize, TreeInv;
      hide TP.PageOf, TP.HasNull;
      var x, i := FindLeafPage(key);
      LeafFacts(pages, levels, root, cardinality, Settled, 0, i);
      InvFacts(pages, levels, root, cardinality, 0);
      CoveringPage(pages, levels[0], i, key);
      var e := Entry(key, payload);
      var recs := pages[x].recs;
      stopped, ret := TP.HasNull(recs), 0;
      if stopped {
        return;
      }
      ghost var ps := LeafPages(pages, levels[0]);
      var id := LowerBound(recs, key);
      InsertedIsUpserted(recs, id, e);
      UpsertedSorted(recs, e);
      StepUpsert(pages, levels, root, cardinality, i, e);
      UpsertedSorted(Gather(pages, levels[0]), e);
      HasKeyInLeaf(pages, levels[0], i, key);
      pages := pages[x := pages[x].(recs := InsertedInNode(recs, id, e))];
      SizeIn(pages, levels, root, cardinality, x, 0, i);
      ret := if |pages[x].recs| == |recs| then 3 else 4;
      PutPages(ps, i, pages[x].recs, cardinality);
      if |pages[x].recs| >= cardinality {
        SplitLeaf(x, i);
      } else {
        Settled0(pages, levels, root, cardinality, x);
      }
    }

    /** Splits a leaf that has become full and links its sibling into the tree. */
    method SplitLeaf(x: nat, ghost i: nat)
      requires cardinality >= 3 && TreeInv(pages, levels, root, cardinality, Settled, x)
      requires i < |levels[0]| && levels[0][i].id == x < |pages| && |pages[x].recs| == cardinality
      modifies this
      ensures Valid() && old(InHeap(pages, levels[0])) && Contents() == old(Gather(pages, levels[0]))
      ensures Leaves() == CutPages(old(LeafPages(pages, levels[0])), i, cardinality - cardinality / 2)
    {
      hide LeafPart, Sizes, Structure, Gather, LeafCut, InnerSplit, MinSize, TreeInv;
      InvFacts(pages, levels, root, cardinality, x);
      ghost var full := pages;
      LeafNext(pages, levels, root, cardinality, x, i);
      var sibling := Split(x);
      StepLeafCut(full, pages, levels, root, cardinality, i);
      ghost var y := Link(Key(full[x].recs[cardinality - cardinality / 2].key), sibling);
      KnownInsert(levels, 0, i, y);
      LevelKeeps(levels, 0, i, y);
      CutFirst(full, pages, x, cardinality - cardinality / 2);
      levels := levels[0 := InsertAt(levels[0], i + 1, y)];
      InsertIntoParent(x, pages[sibling].recs[0].key, sibling, 0, i);
    }

    /** All records in key order, by the leaf chain. */
    method GetData() returns (keys: seq<real>, payloads: seq<nat>)
      requires Valid()
      ensures |keys| == |payloads| == |Contents()|
      ensures forall m :: 0 <= m < |keys| ==> Contents()[m] == Entry(keys[m], payloads[m])
      ensures forall m, n :: 0 <= m < n < |keys| ==> keys[m] < keys[n]
    {
      hide LeafPart, Sizes, Structure, Gather, TreeInv, Lists, SortedByKey;
      var curr := LeftmostLeaf();
      InvFacts(pages, levels, root, cardinality, 0);
      keys, payloads := [], [];
      ghost var n := 0;
      GatherNone(pages, levels[0][..0]);
      ListsNothing();
      while curr != 0
        invariant 0 <= n <= |levels[0]| && InHeap(pages, levels[0][..n])
        invariant curr == if n < |levels[0]| then levels[0][n].id else 0
        invariant Lists(Gather(pages, levels[0][..n]), keys, payloads)
        decreases |levels[0]| - n
      {
        LeafFacts(pages, levels, root, cardinality, Settled, 0, n);
        GatherNext(pages, levels[0], n);
        keys, payloads := AppendPage(pages[curr].recs, keys, payloads, Gather(pages, levels[0][..n]));
        curr := pages[curr].next;
        n := n + 1;
      }
      assert levels[0][..n] == levels[0];
      ListsSorted(Gather(pages, levels[0]), keys, payloads);
    }

    /** Follows the first child of every page down to a leaf. */
    method LeftmostLeaf() returns (curr: nat)
      requires Valid()
      ensures |levels[0]| > 0 && curr == levels[0][0].id
    {
      hide LeafPart, Sizes, Structure, Gather, Joins, TreeInv, Expand;
      curr := root;
      InvFacts(pages, levels, root, cardinality, 0);
      ghost var l := |levels| - 1;
      TopIn(pages, levels, root, cardinality);
      PageKind(pages, levels, root, cardinality, l, 0);
      while !pages[curr].isLeaf
        invariant 0 <= l < |levels| && 0 < |levels[l]| && levels[l][0].id == curr
        invariant curr < |pages| && (pages[curr].isLeaf <==> l == 0)
        decreases l
      {
        PageKind(pages, levels, root, cardinality, l, 0);
        FirstChild(pages, levels[l], levels[l - 1]);
        curr := pages[curr].recs[0].payload;
        l := l - 1;
        PageKind(pages, levels, root, cardinality, l, 0);
      }
    }

    /** The records with a value and a key in [lo, hi], in key order, by the leaf chain; no page is counted. */
    method RangeQuery(lo: real, hi: real) returns (es: seq<Entry>)
      requires Valid()
      ensures es == FilterShown(Contents(), lo, hi)
      ensures SortedByKey(es) && forall e :: e in es <==> e in Contents() && InRange(e.key, lo, hi) && e.payload != 0
    {
      hide LeafPart, Sizes, Structure, Gather, TreeInv, Covers, FilterShown, SortedByKey;
      var curr, i := FindLeafPage(lo);
      InvFacts(pages, levels, root, cardinality, 0);
      Skipped(pages, levels[0], i, lo, hi);
      es := [];
      ghost var n := i;
      while curr != 0
        invariant i <= n <= |levels[0]| && InHeap(pages, levels[0][..n])
        invariant curr == if n < |levels[0]| then levels[0][n].id else 0
        invariant es == FilterShown(Gather(pages, levels[0][..n]), lo, hi)
        decreases |levels[0]| - n
      {
        LeafFacts(pages, levels, root, cardinality, Settled, 0, n);
        GatherNext(pages, levels[0], n);
        var recs := pages[curr].recs;
        ghost var g := Gather(pages, levels[0][..n]);
        assert g + recs[..0] == g;
        for m := 0 to |recs|
          invariant es == FilterShown(g + recs[..m], lo, hi)
        {
          FilterNext(g, recs, m, lo, hi);
          if lo <= recs[m].key <= hi && recs[m].payload != 0 {
            es := es + [recs[m]];
          }
        }
        assert recs[..|recs|] == recs;
        curr := pages[curr].next;
        n := n + 1;
      }
      assert levels[0][..n] == levels[0];
      FilterShownIs(Gather(pages, levels[0]), lo, hi);
    }
  }

  /** The new page in place of the old one, cut when it is full, is the upsert into the pages. */
  lemma PutPages(ps: TP.Pages, i: nat, page: seq<Entry>, card: nat)
    requires i < |ps| && card >= 3 && |page| <= card
    ensures |page| < card ==> ps[i := page] == ps[..i] + TP.Halves(page, card) + ps[i + 1..]
    ensures |page| == card ==>
              CutPages(ps[i := page], i, card - card / 2) == ps[..i] + TP.Halves(page, card) + ps[i + 1..]
  {}

  /** Giving the k-th child its new parent. */
  lemma Adopts(cut: seq<Page>, pages: seq<Page>, kids: seq<Entry>, k: nat, parent: nat)
    requires k < |kids| && Adopted(cut, pages, kids[..k], parent) && kids[k].payload < |cut|
    ensures Adopted(cut, pages[kids[k].payload := pages[kids[k].payload].(parent := parent)], kids[..k + 1], parent)
  {
    forall x ensures IsKid(kids[..k + 1], x) <==> IsKid(kids[..k], x) || x == kids[k].payload {
      if IsKid(kids[..k], x) {
        var j :| 0 <= j < k && kids[..k][j].payload == x;
        assert kids[..k + 1][j].payload == x;
      }
      assert kids[..k + 1][k] == kids[k];
      if IsKid(kids[..k + 1], x) && x != kids[k].payload {
        var j :| 0 <= j < k + 1 && kids[..k + 1][j].payload == x;
        assert kids[..k][j].payload == x;
      }
    }
  }

  lemma RootCovers(root: nat, key: real)
    ensures Covers([Link(Least, root)], 0, key)
  {
  }

  /** Pages of level 0 are leaves, pages above have children. */
  lemma PageKind(pages: seq<Page>, levels: seq<seq<Link>>, root: nat, card: nat, l: nat, i: nat)
    requires TreeInv(pages, levels, root, card, Settled, 0) && l < |levels| && i < |levels[l]|
    ensures 1 <= levels[l][i].id < |pages| && (pages[levels[l][i].id].isLeaf <==> l == 0)
    ensures InHeap(pages, levels[l])
    ensures l > 0 ==> |pages[levels[l][i].id].recs| >= 1 && Joins(pages, levels[l], levels[l - 1])
  {
    hide Sizes;
    KnownSettled(levels);
    assert InHeap(pages, levels[l]);
    if l > 0 {
      assert Joins(pages, levels[l], Known(levels, l - 1, Settled));
    } else {
      assert InChain(pages, levels[0], i);
    }
  }

  /** An inner page holds no null pointer, so its count is always its record number and the descent never exits. */
  lemma InnerNeverNull(pages: seq<Page>, levels: seq<seq<Link>>, root: nat, card: nat, l: nat, i: nat)
    requires TreeInv(pages, levels, root, card, Settled, 0) && 0 < l < |levels| && i < |levels[l]|
    ensures levels[l][i].id < |pages| && !TP.HasNull(pages[levels[l][i].id].recs)
  {
    hide Sizes, LeafPart, Structure, Joins, Expand;
    PageKind(pages, levels, root, card, l, i);
    var recs := pages[levels[l][i].id].recs;
    StructureHeap(pages, levels, root, Settled, l - 1);
    hide TreeInv;
    forall j | 0 <= j < |recs| ensures recs[j].payload != 0 {
      var m := ChildAt(pages, levels[l], levels[l - 1], i, j);
    }
  }

  lemma FindsInLeaf(pages: seq<Page>, level: seq<Link>, i: nat, key: real)
    requires LeafPart(pages, level) && i < |level| && Covers(level, i, key)
    ensures InHeap(pages, level) && FindSorted(Gather(pages, level), key) == FindSorted(pages[level[i].id].recs, key)
  {
    hide FindSorted, Gather;
    Around(pages, level, i, key);
    GatherAround(pages, level, i);
    var a, c := Gather(pages, level[..i]), Gather(pages, level[i + 1..]);
    var R := pages[level[i].id].recs;
    assert a + R + c == a + (R + c);
    FindPrefix(a, R + c, key);
    FindSuffix(R, c, key);
  }

  // ----- facts the methods use

  lemma EmptyTree(card: nat)
    requires card >= 3
    ensures TreeInv([Page(false, [], 0, 0, 0), Page(true, [], 0, 0, 0)], [[Link(Least, 1)]], 1, card, Settled, 0)
    ensures Gather([Page(false, [], 0, 0, 0), Page(true, [], 0, 0, 0)], [Link(Least, 1)]) == []
  {
    hide Structure, LeafPart, Sizes;
    var pages := [Page(false, [], 0, 0, 0), Page(true, [], 0, 0, 0)];
    var level := [Link(Least, 1)];
    GatherOne(pages, Link(Least, 1));
    assert Structure(pages, [level], 1, Settled) by { EmptyStructure(pages, level); }
    assert LeafPart(pages, level) by { EmptyLeaf(pages, level); }
    assert Sizes(pages, [level], card, Settled, 0) by { EmptySizes(pages, level, card); }
  }

  lemma EmptyStructure(pages: seq<Page>, level: seq<Link>)
    requires level == [Link(Least, 1)] && |pages| == 2 && pages[1].parent == 0
    ensures Structure(pages, [level], 1, Settled)
  {
  }

  lemma EmptyLeaf(pages: seq<Page>, level: seq<Link>)
    requires level == [Link(Least, 1)] && |pages| == 2 && pages[1] == Page(true, [], 0, 0, 0)
    ensures LeafPart(pages, level)
  {
    GatherOne(pages, Link(Least, 1));
    assert InChain(pages, level, 0);
  }

  lemma EmptySizes(pages: seq<Page>, level: seq<Link>, card: nat)
    requires level == [Link(Least, 1)] && |pages| == 2 && pages[1].recs == [] && card >= 3
    ensures Sizes(pages, [level], card, Settled, 0)
  {
  }

  /** A pending tree: the root is split exactly when the pending link is at the top. */
  lemma OpenFacts(pages: seq<Page>, levels: seq<seq<Link>>, root: nat, card: nat, h: nat, i: nat)
    requires card >= 3 && TreeInv(pages, levels, root, card, Open(h, i), 0) && h < |levels| && i + 1 < |levels[h]|
    ensures levels[h][i].id == root <==> h == |levels| - 1
    ensures 1 <= levels[h][i].id < |pages| && 1 <= levels[h][i + 1].id < |pages|
    ensures levels[h][i].id == root ==> |pages[root].recs| >= 1
    ensures |levels| >= 1 && InHeap(pages, levels[0])
  {
    hide Structure, LeafPart, Sizes;
    SizeAt(pages, levels, card, Open(h, i), 0, h, i);
    SizeAt(pages, levels, card, Open(h, i), 0, h, i + 1);
    PartHeap(pages, levels[0]);
    OpenRoot(pages, levels, root, h, i);
  }

  lemma OpenRoot(pages: seq<Page>, levels: seq<seq<Link>>, root: nat, h: nat, i: nat)
    requires Structure(pages, levels, root, Open(h, i))
    ensures levels[h][i].id == root <==> h == |levels| - 1
  {
    hide Joins, Distinct, Known, AllInHeap;
    if h == |levels| - 1 {
      TopOpen(levels, h, i, root);
    } else {
      KnownOpen(levels, h, i);
      Apart(levels, h, i, |levels| - 1, 0);
    }
  }

  lemma FatherOf(pages: seq<Page>, levels: seq<seq<Link>>, root: nat, card: nat, h: nat, i: nat)
    returns (k: nat, j: nat)
    requires TreeInv(pages, levels, root, card, Open(h, i), 0) && h + 1 < |levels| && i + 1 < |levels[h]|
    ensures k < |levels[h + 1]| && InHeap(pages, levels[h + 1])
    ensures levels[h][i].id < |pages| && pages[levels[h][i].id].parent == levels[h + 1][k].id
    ensures j < |pages[levels[h + 1][k].id].recs| && pages[levels[h + 1][k].id].recs[j].payload == levels[h][i].id
    ensures i == Position(pages, levels[h + 1], k, j)
    ensures OnlyAt(pages[levels[h + 1][k].id].recs, j, levels[h][i].id)
    ensures levels[h + 1][k].id != levels[h][i + 1].id
  {
    hide LeafPart, Sizes, Structure;
    StructureHeap(pages, levels, root, Open(h, i), h);
    StructureHeap(pages, levels, root, Open(h, i), h + 1);
    KnownOpen(levels, h, i);
    k, j := Father(pages, levels, root, Open(h, i), h, i);
    PageApart(pages, levels, root, Open(h, i), h + 1, k, h, i + 1);
  }

  lemma StructureHeap(pages: seq<Page>, levels: seq<seq<Link>>, root: nat, pend: Pending, l: nat)
    requires Structure(pages, levels, root, pend) && l < |levels|
    ensures InHeap(pages, levels[l])
  {
  }

  /** Size of the one page that may be full, and the children an inner page points to. */
  lemma SizeIn(pages: seq<Page>, levels: seq<seq<Link>>, root: nat, card: nat, x: nat, l: nat, i: nat)
    requires TreeInv(pages, levels, root, card, Settled, x) && l < |levels| && i < |levels[l]| && levels[l][i].id == x
    ensures 1 <= x < |pages| && |pages[x].recs| <= card && InHeap(pages, levels[0])
    ensures l > 0 ==> !pages[x].isLeaf && forall j :: 0 <= j < |pages[x].recs| ==> pages[x].recs[j].payload < |pages|
  {
    hide LeafPart, Sizes;
    SizeAt(pages, levels, card, Settled, x, l, i);
    PartHeap(pages, levels[0]);
    if l > 0 {
      assert Joins(pages, levels[l], Known(levels, l - 1, Settled));
    }
  }

  lemma Settled0(pages: seq<Page>, levels: seq<seq<Link>>, root: nat, card: nat, x: nat)
    requires TreeInv(pages, levels, root, card, Settled, x) && x < |pages| && |pages[x].recs| < card
    ensures TreeInv(pages, levels, root, card, Settled, 0)
  {
    hide Structure, LeafPart, Sizes;
    NotBig(pages, levels, card, Settled, x);
  }

  lemma LevelKeeps(levels: seq<seq<Link>>, g: nat, k: nat, x: Link)
    requires g < |levels| && k < |levels[g]|
    ensures InsertAt(levels[g], k + 1, x)[k] == levels[g][k]
  {
  }

  lemma InvFacts(pages: seq<Page>, levels: seq<seq<Link>>, root: nat, card: nat, big: nat)
    requires TreeInv(pages, levels, root, card, Settled, big)
    ensures |levels| >= 1 && InHeap(pages, levels[0]) && LeafPart(pages, levels[0]) &&
            SortedByKey(Gather(pages, levels[0]))
  {
    hide Structure, Sizes;
  }

  lemma TopIn(pages: seq<Page>, levels: seq<seq<Link>>, root: nat, card: nat)
    requires TreeInv(pages, levels, root, card, Settled, 0)
    ensures levels[|levels| - 1] == [Link(Least, root)]
  {
    hide LeafPart, Sizes, Structure;
    TopIsRoot(pages, levels, root);
  }

  lemma LeafNext(pages: seq<Page>, levels: seq<seq<Link>>, root: nat, card: nat, big: nat, i: nat)
    requires TreeInv(pages, levels, root, card, Settled, big) && i < |levels[0]|
    ensures var x := levels[0][i].id;
            x < |pages| && pages[x].isLeaf && pages[x].next != x && pages[x].next < |pages|
  {
    hide LeafPart, Sizes, Structure;
    LeafFacts(pages, levels, root, card, Settled, big, i);
    if i + 1 < |levels[0]| {
      PageApart(pages, levels, root, Settled, 0, i, 0, i + 1);
    }
  }

  lemma CutFirst(pages: seq<Page>, pages': seq<Page>, x: nat, left: nat)
    requires x < |pages| && left < |pages[x].recs| && LeafCut(pages, pages', x, left)
    ensures |pages'| == |pages| + 1 && |pages'[|pages|].recs| > 0 && pages'[|pages|].recs[0] == pages[x].recs[left]
  {
  }

  /** A key is in the contents exactly when it is in the covering leaf. */
  lemma HasKeyInLeaf(pages: seq<Page>, level: seq<Link>, i: nat, key: real)
    requires LeafPart(pages, level) && i < |level| && Covers(level, i, key)
    ensures InHeap(pages, level) && (HasKey(Gather(pages, level), key) <==> HasKey(pages[level[i].id].recs, key))
  {
    hide Gather;
    Around(pages, level, i, key);
    GatherAround(pages, level, i);
    var a, c := Gather(pages, level[..i]), Gather(pages, level[i + 1..]);
    var R := pages[level[i].id].recs;
    var all := Gather(pages, level);
    forall m | 0 <= m < |R| ensures all[|a| + m] == R[m] {}
    forall m | 0 <= m < |a| ensures all[m].key != key {
      assert a[m] in a;
    }
    forall m | |a| + |R| <= m < |all| ensures all[m].key != key {
      assert c[m - |a| - |R|] in c;
    }
    if HasKey(all, key) {
      var m :| 0 <= m < |all| && all[m].key == key;
      assert R[m - |a|].key == key;
    }
    if HasKey(R, key) {
      var m :| 0 <= m < |R| && R[m].key == key;
      assert all[|a| + m].key == key;
    }
  }

  lemma FirstChild(pages: seq<Page>, upper: seq<Link>, lower: seq<Link>)
    requires Joins(pages, upper, lower) && |upper| > 0
    ensures |lower| > 0 && lower[0].id == pages[upper[0].id].recs[0].payload
  {
  }

  lemma GatherNone(pages: seq<Page>, level: seq<Link>)
    requires level == []
    ensures InHeap(pages, level) && Gather(pages, level) == []
  {
  }

  lemma GatherNext(pages: seq<Page>, level: seq<Link>, n: nat)
    requires InHeap(pages, level) && n < |level|
    ensures InHeap(pages, level[..n]) && InHeap(pages, level[..n + 1])
    ensures Gather(pages, level[..n + 1]) == Gather(pages, level[..n]) + pages[level[n].id].recs
  {
    assert level[..n + 1] == level[..n] + [level[n]];
    GatherConcat(pages, level[..n], [level[n]]);
    GatherOne(pages, level[n]);
  }

  /** Appends the records of one page to the two output vectors. */
  method AppendPage(recs: seq<Entry>, keys0: seq<real>, payloads0: seq<nat>, ghost g: seq<Entry>)
    returns (keys: seq<real>, payloads: seq<nat>)
    requires Lists(g, keys0, payloads0)
    ensures Lists(g + recs, keys, payloads)
  {
    keys, payloads := keys0, payloads0;
    assert g + recs[..0] == g;
    for m := 0 to |recs|
      invariant Lists(g + recs[..m], keys, payloads)
    {
      assert g + recs[..m + 1] == (g + recs[..m]) + [recs[m]];
      keys := keys + [recs[m].key];
      payloads := payloads + [recs[m].payload];
    }
    assert recs[..|recs|] == recs;
  }

  lemma ListsNothing()
    ensures Lists([], [], [])
  {}

  lemma ListsSorted(es: seq<Entry>, keys: seq<real>, payloads: seq<nat>)
    requires Lists(es, keys, payloads) && SortedByKey(es)
    ensures |es| == |keys| == |payloads| && forall m :: 0 <= m < |keys| ==> es[m] == Entry(keys[m], payloads[m])
    ensures forall m, n :: 0 <= m < n < |keys| ==> keys[m] < keys[n]
  {
    forall m, n | 0 <= m < n < |keys| ensures keys[m] < keys[n] {
      assert es[m].key < es[n].key;
    }
  }

  ghost predicate Lists(es: seq<Entry>, keys: seq<real>, payloads: seq<nat>) {
    |es| == |keys| == |payloads| && forall m :: 0 <= m < |es| ==> es[m] == Entry(keys[m], payloads[m])
  }

  lemma Skipped(pages: seq<Page>, level: seq<Link>, i: nat, lo: real, hi: real)
    requires LeafPart(pages, level) && i < |level| && Covers(level, i, lo)
    ensures InHeap(pages, level[..i]) && FilterShown(Gather(pages, level[..i]), lo, hi) == []
  {
    Around(pages, level, i, lo);
    FilterNothing(Gather(pages, level[..i]), lo, hi);
  }

  lemma FilterNext(g: seq<Entry>, recs: seq<Entry>, m: nat, lo: real, hi: real)
    requires m < |recs|
    ensures FilterShown(g + recs[..m + 1], lo, hi) ==
            FilterShown(g + recs[..m], lo, hi) +
            if InRange(recs[m].key, lo, hi) && recs[m].payload != 0 then [recs[m]] else []
  {
    assert g + recs[..m + 1] == (g + recs[..m]) + [recs[m]];
    FilterConcat(g + recs[..m], [recs[m]], lo, hi);
    assert FilterShown([recs[m]][1..], lo, hi) == [];
  }
}
