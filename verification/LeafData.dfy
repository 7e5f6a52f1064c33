/** Reading a whole leaf back in key order, as splitting a leaf does. */
module LeafData {
  import opened SortedRecords
  import opened TreePages
  import opened LeafNode

  /** The filled slots in slot order. */
  function FilledOf(cells: seq<Cell>): seq<Entry> {
    if cells == [] then [] else (if cells[0].Filled? then [cells[0].e] else []) + FilledOf(cells[1..])
  }

  lemma {:induction false} FilledOfIs(cells: seq<Cell>)
    requires DistinctCells(cells)
    ensures NoDuplicates(FilledOf(cells))
    ensures forall e :: e in FilledOf(cells) <==> Filled(e) in cells
  {
    if cells != [] {
      FilledOfIs(cells[1..]);
      var rest := FilledOf(cells[1..]);
      forall e ensures Filled(e) in cells <==> Filled(e) == cells[0] || Filled(e) in cells[1..] {}
      if cells[0].Filled? {
        forall i | 0 <= i < |rest| ensures rest[i].key != cells[0].e.key {
          assert rest[i] in rest;
          var j :| 0 <= j < |cells[1..]| && cells[1..][j] == Filled(rest[i]);
          assert cells[j + 1] == Filled(rest[i]);
        }
      }
    }
  }

  /** Sorting by key; on distinct keys the result is unique, whatever the algorithm. */
  method SortEntries(es: seq<Entry>) returns (r: seq<Entry>)
    requires NoDuplicates(es)
    ensures SortedByKey(r) && |r| == |es|
    ensures forall e :: e in r <==> e in es
  {
    hide Upserted, SortedByKey;
    r := [];
    assert SortedByKey([]) by { NothingSorted(); }
    for i := 0 to |es|
      invariant SortedByKey(r) && |r| == i
      invariant forall e :: e in r <==> e in es[..i]
    {
      assert es[..i + 1] == es[..i] + [es[i]];
      NewInPrefix(es, i, r);
      UpsertedSorted(r, es[i]);
      forall e: Entry ensures e in Upserted(r, es[i]) <==> e in es[..i + 1] {
        UpsertedContents(r, es[i], e);
      }
      r := Upserted(r, es[i]);
    }
    assert es[..|es|] == es;
  }

  lemma NothingSorted()
    ensures SortedByKey([])
  {
  }

  lemma NewInPrefix(es: seq<Entry>, i: nat, r: seq<Entry>)
    requires NoDuplicates(es) && i < |es| && forall e :: e in r <==> e in es[..i]
    ensures !HasKey(r, es[i].key) && forall e :: e in es[..i] ==> e.key != es[i].key
  {
    forall j | 0 <= j < |r| ensures r[j].key != es[i].key {
      assert r[j] in r;
    }
  }

  ghost predicate BlockLists(b: Block, es: seq<Entry>) {
    NoDuplicates(es) && forall e :: e in es <==> StoredIn(b, e)
  }

  ghost predicate Before(es: seq<Entry>, rest: seq<Entry>) {
    forall i, j :: 0 <= i < |es| && 0 <= j < |rest| ==> es[i].key < rest[j].key
  }

  /** Appending the smaller head of two sorted rests keeps the merge going. */
  lemma MergeStep(es: seq<Entry>, a: seq<Entry>, b: seq<Entry>)
    requires SortedByKey(es) && SortedByKey(a) && SortedByKey(b) && Before(es, a) && Before(es, b)
    requires a != [] && (b != [] ==> a[0].key < b[0].key)
    ensures SortedByKey(es + [a[0]]) && Before(es + [a[0]], a[1..]) && Before(es + [a[0]], b)
  {
  }

  lemma RestSorted(a: seq<Entry>)
    requires SortedByKey(a) && a != []
    ensures SortedByKey(a[1..])
  {
  }

  /** Merges the sorted slots with the records of the overflow tree. */
  method MergeSorted(a: seq<Entry>, b: seq<Entry>) returns (es: seq<Entry>)
    requires SortedByKey(a) && SortedByKey(b)
    requires forall x, y :: x in a && y in b ==> x.key != y.key
    ensures SortedByKey(es) && |es| == |a| + |b|
    ensures forall e :: e in es <==> e in a || e in b
  {
    hide SortedByKey, Before;
    es := [];
    var i, j := 0, 0;
    MergeBegins(a, b);
    while i < |a| || j < |b|
      invariant 0 <= i <= |a| && 0 <= j <= |b| && |es| == i + j
      invariant SortedByKey(es) && SortedByKey(a[i..]) && SortedByKey(b[j..]) && Before(es, a[i..]) &&
                Before(es, b[j..])
      invariant forall e :: e in es <==> e in a[..i] || e in b[..j]
      decreases |a| - i + |b| - j
    {
      if i == |a| || (j < |b| && a[i].key > b[j].key) {
        MergeStep(es, b[j..], a[i..]);
        RestSorted(b[j..]);
        assert b[j..][1..] == b[j + 1..] && b[..j + 1] == b[..j] + [b[j]];
        es := es + [b[j]];
        j := j + 1;
      } else {
        assert j < |b| ==> a[i] in a && b[j] in b;
        MergeStep(es, a[i..], b[j..]);
        RestSorted(a[i..]);
        assert a[i..][1..] == a[i + 1..] && a[..i + 1] == a[..i] + [a[i]];
        es := es + [a[i]];
        i := i + 1;
      }
    }
    assert a[..i] == a && b[..j] == b;
  }

  lemma MergeBegins(a: seq<Entry>, b: seq<Entry>)
    requires SortedByKey(a) && SortedByKey(b)
    ensures SortedByKey([]) && SortedByKey(a[0..]) && SortedByKey(b[0..]) && Before([], a[0..]) && Before([], b[0..])
  {
  }

  lemma SortedHasNoDuplicates(es: seq<Entry>)
    requires SortedByKey(es)
    ensures NoDuplicates(es)
  {
  }

  /** The records of one block in key order. */
  method BlockData(b: Block) returns (es: seq<Entry>)
    requires BlockInv(b)
    ensures SortedByKey(es) && BlockLists(b, es)
  {
    BlockFacts(b, 0.0);
    NoTreeNoRecords(b);
    hide FilledOf, SortedByKey, NoDuplicates, Flatten, Ordered;
    FilledOfIs(b.cells);
    var slots := SortEntries(FilledOf(b.cells));
    if b.overflow == [] {
      es := slots;
    } else {
      var records := Flatten(b.overflow);
      forall x, y | x in slots && y in records ensures x.key != y.key {
        assert Filled(x) in b.cells;
        SlotIsIn(b, x);
      }
      es := MergeSorted(slots, records);
    }
    SortedHasNoDuplicates(es);
  }

  lemma SlotIsIn(b: Block, x: Entry)
    requires Filled(x) in b.cells
    ensures InCells(b, x.key)
  {
    var i :| 0 <= i < |b.cells| && b.cells[i] == Filled(x);
  }

  ghost predicate LeafLists(blocks: seq<Block>, es: seq<Entry>) {
    NoDuplicates(es) && forall e :: e in es <==> Stored(blocks, e)
  }

  lemma ListStep(l: Leaf, block: nat, es: seq<Entry>, more: seq<Entry>)
    requires LeafInv(l) && block < |l.blocks|
    requires LeafLists(l.blocks[..block], es) && BlockLists(l.blocks[block], more)
    ensures LeafLists(l.blocks[..block + 1], es + more)
  {
    hide PredictLeafBlock, StoredIn, BlockInv;
    var u := l.blocks[..block + 1];
    forall e ensures Stored(u, e) <==> Stored(l.blocks[..block], e) || StoredIn(l.blocks[block], e) {
      if Stored(l.blocks[..block], e) {
        var b :| 0 <= b < block && StoredIn(l.blocks[..block][b], e);
        assert StoredIn(u[b], e);
      }
      if StoredIn(l.blocks[block], e) {
        assert StoredIn(u[block], e);
      }
      if Stored(u, e) {
        var b :| 0 <= b < |u| && StoredIn(u[b], e);
        assert b < block ==> StoredIn(l.blocks[..block][b], e);
      }
    }
    forall i, j | 0 <= i < |es| && 0 <= j < |more| ensures es[i].key != more[j].key {
      assert es[i] in es && more[j] in more;
      var b :| 0 <= b < block && StoredIn(l.blocks[..block][b], es[i]);
      assert PredictLeafBlock(l.model, es[i].key) == b;
      assert PredictLeafBlock(l.model, more[j].key) == block;
    }
  }

  /** Exactly the contents of the leaf, each record once, in key order. */
  method GetData(l: Leaf) returns (es: seq<Entry>)
    requires LeafInv(l)
    ensures SortedByKey(es) && forall e :: e in es <==> Stored(l.blocks, e)
  {
    hide BlockInv, StoredIn, NoDuplicates, SortedByKey, PredictLeafBlock;
    var all := [];
    NothingListed();
    for block := 0 to |l.blocks|
      invariant LeafLists(l.blocks[..block], all)
    {
      var more := BlockData(l.blocks[block]);
      ListStep(l, block, all, more);
      all := all + more;
    }
    assert l.blocks[..|l.blocks|] == l.blocks;
    es := SortEntries(all);
  }

  lemma NothingListed()
    ensures LeafLists([], [])
  {
  }
}
