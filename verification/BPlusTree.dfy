/** Insertion, search and scans of the overflow B+ tree. */
module BPlusTree {
  import opened Wrappers
  import opened SortedRecords
  import opened PageLevels
  import TP = TreePages

  // ----- search along fences

  ghost predicate AtLeast(b: Bound, key: real) {
    b.Least? || b.k <= key
  }

  /** The key lies between the fence of the i-th link and the fence of the next one. */
  ghost predicate Covers(level: seq<Link>, i: nat, key: real)
    requires i < |level|
  {
    AtLeast(level[i].lo, key) && (i + 1 < |level| ==> level[i + 1].lo.Key? && key < level[i + 1].lo.k)
  }

  /** The child `upper_bound` selects: the last one whose separator is at most the key, the first separator aside. */
  ghost predicate Selects(recs: seq<Entry>, j: nat, key: real) {
    && j < |recs| && (j > 0 ==> recs[j].key <= key)
    && (j + 1 < |recs| ==> key < recs[j + 1].key)
  }

  /** The selected child covers the key in the level below. */
  lemma Descends(pages: seq<Page>, upper: seq<Link>, lower: seq<Link>, k: nat, j: nat, key: real)
    requires Joins(pages, upper, lower) && k < |upper| && Covers(upper, k, key)
    requires Selects(pages[upper[k].id].recs, j, key)
    ensures Position(pages, upper, k, j) < |lower|
    ensures Covers(lower, Position(pages, upper, k, j), key)
    ensures lower[Position(pages, upper, k, j)].id == pages[upper[k].id].recs[j].payload
  {
    var m := Position(pages, upper, k, j);
    ExpandAround(pages, upper, k);
    if k + 1 < |upper| {
      var rest := upper[k + 1..];
      assert rest[0] == upper[k + 1];
      assert Expand(pages, rest)[0].lo == upper[k + 1].lo;
    } else {
      assert upper[k + 1..] == [];
    }
  }

  // ----- contents

  /** The records of the leaves from left to right. */
  ghost function Gather(pages: seq<Page>, level: seq<Link>): seq<Entry>
    requires InHeap(pages, level)
  {
    if level == [] then [] else pages[level[0].id].recs + Gather(pages, level[1..])
  }

  lemma {:induction false} GatherConcat(pages: seq<Page>, a: seq<Link>, b: seq<Link>)
    requires InHeap(pages, a) && InHeap(pages, b)
    ensures InHeap(pages, a + b) && Gather(pages, a + b) == Gather(pages, a) + Gather(pages, b)
  {
    if a == [] {
      assert a + b == b;
    } else {
      GatherConcat(pages, a[1..], b);
      assert (a + b)[1..] == a[1..] + b;
    }
  }

  lemma GatherOne(pages: seq<Page>, x: Link)
    requires 1 <= x.id < |pages|
    ensures Gather(pages, [x]) == pages[x.id].recs
  {
    assert Gather(pages, [x][1..]) == [];
  }

  lemma GatherAround(pages: seq<Page>, level: seq<Link>, i: nat)
    requires InHeap(pages, level) && i < |level|
    ensures InHeap(pages, level[..i]) && InHeap(pages, level[i + 1..])
    ensures Gather(pages, level) == Gather(pages, level[..i]) + pages[level[i].id].recs + Gather(pages, level[i + 1..])
  {
    assert level == level[..i] + ([level[i]] + level[i + 1..]);
    GatherConcat(pages, [level[i]], level[i + 1..]);
    GatherConcat(pages, level[..i], [level[i]] + level[i + 1..]);
    GatherOne(pages, level[i]);
  }

  lemma {:induction false} GatherSame(pages: seq<Page>, pages': seq<Page>, level: seq<Link>)
    requires InHeap(pages, level) && |pages| <= |pages'|
    requires forall i :: 0 <= i < |level| ==> pages'[level[i].id].recs == pages[level[i].id].recs
    ensures InHeap(pages', level) && Gather(pages', level) == Gather(pages, level)
  {
    if level != [] {
      GatherSame(pages, pages', level[1..]);
      assert pages'[level[0].id].recs == pages[level[0].id].recs;
    }
  }

  lemma {:induction false} GatherFrom(pages: seq<Page>, level: seq<Link>, e: Entry) returns (i: nat)
    requires InHeap(pages, level) && e in Gather(pages, level)
    ensures i < |level| && e in pages[level[i].id].recs
  {
    if e in pages[level[0].id].recs {
      i := 0;
    } else {
      i := GatherFrom(pages, level[1..], e);
      i := i + 1;
    }
  }

  // ----- the leaf level

  ghost predicate Chained(pages: seq<Page>, level: seq<Link>)
    requires InHeap(pages, level)
  {
    forall i :: 0 <= i < |level| ==> InChain(pages, level, i)
  }

  /** The i-th leaf points to its two neighbours. */
  ghost predicate InChain(pages: seq<Page>, level: seq<Link>, i: nat)
    requires InHeap(pages, level) && i < |level|
  {
    && pages[level[i].id].isLeaf
    && pages[level[i].id].next == (if i + 1 < |level| then level[i + 1].id else 0)
    && pages[level[i].id].prev == (if i > 0 then level[i - 1].id else 0)
  }

  ghost predicate Rises(a: Link, b: Link) {
    b.lo.Key? && (a.lo.Key? ==> a.lo.k < b.lo.k)
  }

  ghost predicate Ordered(level: seq<Link>) {
    forall i, j :: 0 <= i < j < |level| ==> Rises(level[i], level[j])
  }

  ghost predicate Fenced(pages: seq<Page>, level: seq<Link>)
    requires InHeap(pages, level)
  {
    forall i, e :: 0 <= i < |level| && e in pages[level[i].id].recs ==> Covers(level, i, e.key)
  }

  /** Every leaf but the first begins with its fence. */
  ghost predicate FirstIsFence(pages: seq<Page>, level: seq<Link>)
    requires InHeap(pages, level)
  {
    forall i :: 1 <= i < |level| ==> BeginsAt(pages[level[i].id].recs, level[i].lo)
  }

  ghost predicate BeginsAt(recs: seq<Entry>, lo: Bound) {
    recs != [] && lo == Key(recs[0].key)
  }

  /** Leaf chain, fences and order of the records. */
  ghost predicate LeafPart(pages: seq<Page>, level: seq<Link>) {
    && InHeap(pages, level) && Chained(pages, level) && Ordered(level) && Fenced(pages, level)
    && SortedByKey(Gather(pages, level)) && FirstIsFence(pages, level)
  }

  /** The records of the leaves, page by page. */
  ghost function LeafPages(pages: seq<Page>, level: seq<Link>): (r: TP.Pages)
    requires InHeap(pages, level)
    ensures |r| == |level| && forall i :: 0 <= i < |level| ==> r[i] == pages[level[i].id].recs
  {
    seq(|level|, i requires 0 <= i < |level| => pages[level[i].id].recs)
  }

  lemma {:induction false} GatherIsFlat(pages: seq<Page>, level: seq<Link>)
    requires InHeap(pages, level)
    ensures Gather(pages, level) == TP.Flatten(LeafPages(pages, level))
  {
    if level != [] {
      GatherIsFlat(pages, level[1..]);
      assert LeafPages(pages, level)[1..] == LeafPages(pages, level[1..]);
    }
  }

  /** The leaves of a tree are ordered pages that hold its contents, so all that holds of ordered pages holds of it. */
  lemma LeavesOrdered(pages: seq<Page>, level: seq<Link>)
    requires LeafPart(pages, level) && |level| >= 1
    ensures TP.Ordered(LeafPages(pages, level)) && TP.Flatten(LeafPages(pages, level)) == Gather(pages, level)
  {
    hide Gather, SortedByKey, Chained;
    GatherIsFlat(pages, level);
    forall i | 1 <= i < |level| ensures LeafPages(pages, level)[i] != [] {
      assert BeginsAt(pages[level[i].id].recs, level[i].lo);
    }
  }

  /** The leaf whose fences enclose a key is the page the key belongs to. */
  lemma CoveringPage(pages: seq<Page>, level: seq<Link>, i: nat, key: real)
    requires LeafPart(pages, level) && i < |level| && Covers(level, i, key)
    ensures TP.PageOf(LeafPages(pages, level), key) == i
  {
    hide Gather, SortedByKey, Chained, Fenced;
    var ps: TP.Pages := LeafPages(pages, level);
    forall j | i < j < |level| ensures ps[j] != [] && key < ps[j][0].key {
      assert BeginsAt(pages[level[j].id].recs, level[j].lo);
      assert i + 1 < j ==> Rises(level[i + 1], level[j]);
    }
    if i > 0 {
      assert BeginsAt(pages[level[i].id].recs, level[i].lo);
    }
    TP.PageOfIs(ps, key, i);
  }

  /** Everything left of the covering leaf is smaller than the key, everything right of it larger. */
  lemma Around(pages: seq<Page>, level: seq<Link>, i: nat, key: real)
    requires LeafPart(pages, level) && i < |level| && Covers(level, i, key)
    ensures InHeap(pages, level[..i]) && InHeap(pages, level[i + 1..])
    ensures forall e :: e in Gather(pages, level[..i]) ==> e.key < key
    ensures forall e :: e in Gather(pages, level[i + 1..]) ==> key < e.key
  {
    hide Chained, SortedByKey, Gather, FirstIsFence, Covers;
    forall e | e in Gather(pages, level[..i]) ensures e.key < key {
      var m := GatherFrom(pages, level[..i], e);
      assert Covers(level, m, e.key);
      CoverLess(level, m, e.key, i, key);
    }
    forall e | e in Gather(pages, level[i + 1..]) ensures key < e.key {
      var m := GatherFrom(pages, level[i + 1..], e);
      assert level[i + 1..][m] == level[i + 1 + m];
      assert Covers(level, i + 1 + m, e.key);
      CoverLess(level, i, key, i + 1 + m, e.key);
    }
  }

  /** Keys of an earlier leaf are smaller. */
  lemma CoverLess(level: seq<Link>, m: nat, k: real, i: nat, key: real)
    requires Ordered(level) && m < i < |level| && Covers(level, m, k) && Covers(level, i, key)
    ensures k < key
  {
    assert m + 1 < i ==> Rises(level[m + 1], level[i]);
  }

  // ----- one page

  /** First position whose key is not below the key sought. */
  ghost predicate IsLowerBound(recs: seq<Entry>, id: nat, key: real) {
    && id <= |recs| && (forall j :: 0 <= j < id ==> recs[j].key < key)
    && (id < |recs| ==> recs[id].key >= key)
  }

  /** What `insert_in_node` leaves: a value replaced in place, or a record shifted in. */
  function InsertedInNode(recs: seq<Entry>, id: nat, e: Entry): seq<Entry>
    requires id <= |recs|
  {
    if id < |recs| && recs[id].key == e.key then recs[id := e] else InsertAt(recs, id, e)
  }

  lemma InsertedIsUpserted(recs: seq<Entry>, id: nat, e: Entry)
    requires IsLowerBound(recs, id, e.key)
    ensures InsertedInNode(recs, id, e) == Upserted(recs, e)
  {
    var a, b := recs[..id], recs[id..];
    hide Upserted, InsertAt;
    UpsertPrefix(a, b, e);
    UpsertHead(b, e);
    RecordParts(recs, id, e);
  }

  lemma RecordParts(recs: seq<Entry>, id: nat, e: Entry)
    requires id <= |recs|
    ensures recs[..id] + recs[id..] == recs
    ensures InsertAt(recs, id, e) == recs[..id] + ([e] + recs[id..])
    ensures id < |recs| ==> recs[id := e] == recs[..id] + ([e] + recs[id..][1..])
  {}

  lemma UpsertHead(b: seq<Entry>, e: Entry)
    requires b == [] || e.key <= b[0].key
    ensures Upserted(b, e) == if b != [] && b[0].key == e.key then [e] + b[1..] else [e] + b
  {
  }

  lemma FoundAtLowerBound(recs: seq<Entry>, id: nat, key: real)
    requires SortedByKey(recs) && IsLowerBound(recs, id, key)
    ensures FindSorted(recs, key) == if id < |recs| && recs[id].key == key then Some(recs[id].payload) else None
  {
    var a, b := recs[..id], recs[id..];
    assert recs == a + b;
    FindPrefix(a, b, key);
    if b != [] && b[0].key != key {
      FindNothing(b, key);
    }
  }

  // ----- leaf steps

  /** Upserting into the covering leaf upserts into the contents. */
  lemma LeafUpserts(pages: seq<Page>, level: seq<Link>, i: nat, e: Entry)
    requires LeafPart(pages, level) && i < |level| && Covers(level, i, e.key) && Unlike(level)
    ensures var x := level[i].id;
            x < |pages| && var pages' := pages[x := pages[x].(recs := Upserted(pages[x].recs, e))];
                           && LeafPart(pages', level) && Gather(pages', level) == Upserted(Gather(pages, level), e)
                           && LeafPages(pages', level) == LeafPages(pages, level)[i := Upserted(pages[x].recs, e)]
  {
    hide Upserted, SortedByKey, Gather, FirstIsFence, Ordered, Covers, Chained, LeafPages;
    var x := level[i].id;
    var R := pages[x].recs;
    var pages' := pages[x := pages[x].(recs := Upserted(R, e))];
    UpsertGathers(pages, pages', level, i, e);
    forall m, y | 0 <= m < |level| && y in pages'[level[m].id].recs ensures Covers(level, m, y.key) {
      if m == i {
        UpsertedContents(R, e, y);
      }
    }
    ChainFrame(pages, pages', level);
    UpsertBegins(pages, pages', level, i, e);
  }

  lemma UpsertGathers(pages: seq<Page>, pages': seq<Page>, level: seq<Link>, i: nat, e: Entry)
    requires LeafPart(pages, level) && i < |level| && Covers(level, i, e.key) && Unlike(level)
    requires pages' == pages[level[i].id := pages[level[i].id].(recs := Upserted(pages[level[i].id].recs, e))]
    ensures InHeap(pages', level) && SortedByKey(pages[level[i].id].recs)
    ensures Gather(pages', level) == Upserted(Gather(pages, level), e) && SortedByKey(Gather(pages', level))
  {
    hide Upserted, SortedByKey, Gather, FirstIsFence, Ordered, Fenced, Covers, Chained;
    var R := pages[level[i].id].recs;
    GatherAround(pages, level, i);
    GatherAround(pages', level, i);
    GatherSame(pages, pages', level[..i]);
    GatherSame(pages, pages', level[i + 1..]);
    Around(pages, level, i, e.key);
    var a, c := Gather(pages, level[..i]), Gather(pages, level[i + 1..]);
    TP.UpsertMiddle(a, R, c, e);
    UpsertedSorted(Gather(pages, level), e);
    PartSorted(a, R, c);
  }

  /** A record that is not below the first one leaves the first key in place. */
  lemma UpsertBegins(pages: seq<Page>, pages': seq<Page>, level: seq<Link>, i: nat, e: Entry)
    requires InHeap(pages, level) && FirstIsFence(pages, level) && Unlike(level)
    requires i < |level| && Covers(level, i, e.key)
    requires pages' == pages[level[i].id := pages[level[i].id].(recs := Upserted(pages[level[i].id].recs, e))]
    ensures InHeap(pages', level) && FirstIsFence(pages', level)
    ensures LeafPages(pages', level) == LeafPages(pages, level)[i := Upserted(pages[level[i].id].recs, e)]
  {
    forall m | 1 <= m < |level| ensures BeginsAt(pages'[level[m].id].recs, level[m].lo) {
      assert BeginsAt(pages[level[m].id].recs, level[m].lo);
    }
  }

  lemma PartSorted(a: seq<Entry>, b: seq<Entry>, c: seq<Entry>)
    requires SortedByKey(a + b + c)
    ensures SortedByKey(b)
  {
    forall i, j | 0 <= i < j < |b| ensures b[i].key < b[j].key {
      assert (a + b + c)[|a| + i] == b[i] && (a + b + c)[|a| + j] == b[j];
    }
  }

  /** The heap after the leaf x was split at `left`: the new page n is chained in after it. */
  ghost predicate LeafCut(pages: seq<Page>, pages': seq<Page>, x: nat, left: nat)
    requires x < |pages| && left <= |pages[x].recs|
  {
    var n := |pages|;
    var p := pages[x];
    && |pages'| == n + 1
    && pages'[n] == Page(true, p.recs[left..], 0, p.next, x)
    && pages'[x] == p.(recs := p.recs[..left], next := n)
    && (forall y :: 0 <= y < n && y != x ==>
          pages'[y] == if y == p.next && y != 0 then pages[y].(prev := n) else pages[y])
  }

  lemma LeafCuts(pages: seq<Page>, pages': seq<Page>, level: seq<Link>, i: nat, left: nat)
    requires LeafPart(pages, level) && Unlike(level) && i < |level| && level[i].id < |pages|
    requires 1 <= left < |pages[level[i].id].recs| && LeafCut(pages, pages', level[i].id, left)
    ensures var level' := InsertAt(level, i + 1, Link(Key(pages[level[i].id].recs[left].key), |pages|));
            && LeafPart(pages', level') && Gather(pages', level') == Gather(pages, level)
            && LeafPages(pages', level') == CutPages(LeafPages(pages, level), i, left)
  {
    hide Chained, Ordered, Fenced, SortedByKey, Gather, FirstIsFence;
    CutBegins(pages, pages', level, i, left);
    CutContents(pages, pages', level, i, left);
    CutChain(pages, pages', level, i, left);
    CutFences(pages, pages', level, i, left);
  }

  /** Pages after the i-th was cut. */
  ghost function CutPages(ps: TP.Pages, i: nat, left: nat): TP.Pages
    requires i < |ps| && left <= |ps[i]|
  {
    ps[..i] + [ps[i][..left], ps[i][left..]] + ps[i + 1..]
  }

  lemma CutBegins(pages: seq<Page>, pages': seq<Page>, level: seq<Link>, i: nat, left: nat)
    requires InHeap(pages, level) && Unlike(level) && i < |level| && FirstIsFence(pages, level)
    requires 1 <= left < |pages[level[i].id].recs| && LeafCut(pages, pages', level[i].id, left)
    ensures var level' := InsertAt(level, i + 1, Link(Key(pages[level[i].id].recs[left].key), |pages|));
            && InHeap(pages', level') && FirstIsFence(pages', level')
            && LeafPages(pages', level') == CutPages(LeafPages(pages, level), i, left)
  {
    var level' := InsertAt(level, i + 1, Link(Key(pages[level[i].id].recs[left].key), |pages|));
    CutRecs(pages, pages', level, i, left);
    hide LeafCut, Unlike;
    var c := CutPages(LeafPages(pages, level), i, left);
    forall m | 0 <= m < |level'|
      ensures pages'[level'[m].id].recs == c[m] && (m >= 1 ==> BeginsAt(pages'[level'[m].id].recs, level'[m].lo))
    {
      if m <= i {
        assert level'[m] == level[m];
        assert m >= 1 ==> BeginsAt(pages[level[m].id].recs, level[m].lo);
      } else if m > i + 1 {
        assert level'[m] == level[m - 1];
        assert BeginsAt(pages[level[m - 1].id].recs, level[m - 1].lo);
      }
    }
    assert LeafPages(pages', level') == c;
  }

  lemma CutContents(pages: seq<Page>, pages': seq<Page>, level: seq<Link>, i: nat, left: nat)
    requires InHeap(pages, level) && Unlike(level) && i < |level|
    requires 1 <= left < |pages[level[i].id].recs| && LeafCut(pages, pages', level[i].id, left)
    ensures var level' := InsertAt(level, i + 1, Link(Key(pages[level[i].id].recs[left].key), |pages|));
            InHeap(pages', level') && Gather(pages', level') == Gather(pages, level)
  {
    hide Gather;
    var R := pages[level[i].id].recs;
    var x := Link(Key(R[left].key), |pages|);
    var level' := InsertAt(level, i + 1, x);
    GatherAround(pages, level, i);
    assert InHeap(pages', level');
    GatherAround(pages', level', i);
    assert level'[i + 1..] == [x] + level[i + 1..] && level'[..i] == level[..i];
    GatherSame(pages, pages', level[..i]);
    GatherSame(pages, pages', level[i + 1..]);
    GatherConcat(pages', [x], level[i + 1..]);
    GatherOne(pages', x);
    assert R == R[..left] + R[left..];
  }

  lemma CutChain(pages: seq<Page>, pages': seq<Page>, level: seq<Link>, i: nat, left: nat)
    requires InHeap(pages, level) && Unlike(level) && i < |level| && Chained(pages, level)
    requires 1 <= left < |pages[level[i].id].recs| && LeafCut(pages, pages', level[i].id, left)
    ensures var level' := InsertAt(level, i + 1, Link(Key(pages[level[i].id].recs[left].key), |pages|));
            InHeap(pages', level') && Chained(pages', level')
  {
    var x := Link(Key(pages[level[i].id].recs[left].key), |pages|);
    var level' := InsertAt(level, i + 1, x);
    assert InHeap(pages', level');
    assert InChain(pages, level, i);
    forall m | 0 <= m < |level'| ensures InChain(pages', level', m) {
      if m < i {
        assert InChain(pages, level, m) && level'[m] == level[m] && level'[m + 1] == level[m + 1];
      } else if m > i + 1 {
        assert InChain(pages, level, m - 1) && level'[m] == level[m - 1];
        assert m + 1 < |level'| ==> level'[m + 1] == level[m];
        assert m > i + 2 ==> level'[m - 1] == level[m - 2];
      }
    }
  }

  lemma CutFences(pages: seq<Page>, pages': seq<Page>, level: seq<Link>, i: nat, left: nat)
    requires LeafPart(pages, level) && Unlike(level) && i < |level|
    requires 1 <= left < |pages[level[i].id].recs| && LeafCut(pages, pages', level[i].id, left)
    ensures var level' := InsertAt(level, i + 1, Link(Key(pages[level[i].id].recs[left].key), |pages|));
            InHeap(pages', level') && Ordered(level') && Fenced(pages', level')
  {
    var R := pages[level[i].id].recs;
    var x := Link(Key(R[left].key), |pages|);
    var level' := InsertAt(level, i + 1, x);
    GatherAround(pages, level, i);
    PartSorted(Gather(pages, level[..i]), R, Gather(pages, level[i + 1..]));
    hide Gather, SortedByKey;
    CutOrdered(pages, level, i, left);
    assert SortedByKey(R);
    CutSides(R, left);
    CutRecs(pages, pages', level, i, left);
    hide InsertAt, Covers, LeafCut, Ordered, Chained;
    forall m, e | 0 <= m < |level'| && e in pages'[level'[m].id].recs ensures Covers(level', m, e.key) {
      CutCovers(level, i, x, m, e.key);
    }
  }

  /** Where the records of each page were before the cut. */
  lemma CutRecs(pages: seq<Page>, pages': seq<Page>, level: seq<Link>, i: nat, left: nat)
    requires InHeap(pages, level) && Unlike(level) && i < |level|
    requires 1 <= left < |pages[level[i].id].recs| && LeafCut(pages, pages', level[i].id, left)
    ensures var level' := InsertAt(level, i + 1, Link(Key(pages[level[i].id].recs[left].key), |pages|));
            && |level'| == |level| + 1 && InHeap(pages', level')
            && (forall m :: 0 <= m < i ==> pages'[level'[m].id].recs == pages[level[m].id].recs)
            && pages'[level'[i].id].recs == pages[level[i].id].recs[..left]
            && pages'[level'[i + 1].id].recs == pages[level[i].id].recs[left..]
            && (forall m :: i + 1 < m < |level'| ==> pages'[level'[m].id].recs == pages[level[m - 1].id].recs)
  {
  }

  lemma CutCovers(level: seq<Link>, i: nat, x: Link, m: nat, key: real)
    requires i < |level| && m < |level| + 1 && x.lo.Key?
    requires m <= i ==> Covers(level, m, key)
    requires m > i ==> Covers(level, m - 1, key)
    requires m == i ==> key < x.lo.k
    requires m == i + 1 ==> x.lo.k <= key
    ensures Covers(InsertAt(level, i + 1, x), m, key)
  {
    var level' := InsertAt(level, i + 1, x);
    if m < i {
      assert level'[m] == level[m] && level'[m + 1] == level[m + 1];
    } else if m > i {
      assert m > i + 1 ==> level'[m] == level[m - 1];
      assert m + 1 < |level'| ==> level'[m + 1] == level[m];
    }
  }

  lemma CutSides(R: seq<Entry>, left: nat)
    requires SortedByKey(R) && 1 <= left < |R|
    ensures forall e :: e in R[..left] ==> e.key < R[left].key && e in R
    ensures forall e :: e in R[left..] ==> R[left].key <= e.key && e in R
  {
  }

  lemma CutOrdered(pages: seq<Page>, level: seq<Link>, i: nat, left: nat)
    requires InHeap(pages, level) && Ordered(level) && Fenced(pages, level) && i < |level|
    requires 1 <= left < |pages[level[i].id].recs| && SortedByKey(pages[level[i].id].recs)
    ensures Ordered(InsertAt(level, i + 1, Link(Key(pages[level[i].id].recs[left].key), |pages|)))
  {
    var R := pages[level[i].id].recs;
    assert R[0] in R && R[left] in R;
    assert Covers(level, i, R[0].key) && Covers(level, i, R[left].key);
    OrderedInsert(level, i, Link(Key(R[left].key), |pages|));
  }

  lemma OrderedInsert(level: seq<Link>, i: nat, x: Link)
    requires Ordered(level) && i < |level| && Rises(level[i], x) && (i + 1 < |level| ==> Rises(x, level[i + 1]))
    ensures Ordered(InsertAt(level, i + 1, x))
  {
    var level' := InsertAt(level, i + 1, x);
    forall m, n | 0 <= m < n < |level'| ensures Rises(level'[m], level'[n]) {
      assert m != i + 1 ==> level'[m] == level[if m > i then m - 1 else m];
      assert n != i + 1 ==> level'[n] == level[if n > i then n - 1 else n];
      assert m < i ==> Rises(level[m], level[i]);
      assert n > i + 2 ==> Rises(level[i + 1], level[n - 1]);
    }
  }

  /** Changes of inner pages and parents leave the leaf level alone. */
  lemma LeafFrame(pages: seq<Page>, pages': seq<Page>, level: seq<Link>)
    requires LeafPart(pages, level) && |pages| <= |pages'|
    requires forall x :: 0 <= x < |pages| ==> pages'[x].isLeaf == pages[x].isLeaf && pages'[x].next == pages[x].next &&
                                              pages'[x].prev == pages[x].prev
    requires forall i :: 0 <= i < |level| ==> pages'[level[i].id].recs == pages[level[i].id].recs
    ensures LeafPart(pages', level) && Gather(pages', level) == Gather(pages, level)
    ensures LeafPages(pages', level) == LeafPages(pages, level)
  {
    GatherSame(pages, pages', level);
    forall i | 1 <= i < |level| ensures BeginsAt(pages'[level[i].id].recs, level[i].lo) {
      assert BeginsAt(pages[level[i].id].recs, level[i].lo);
    }
    ChainFrame(pages, pages', level);
  }

  lemma ChainFrame(pages: seq<Page>, pages': seq<Page>, level: seq<Link>)
    requires InHeap(pages, level) && Chained(pages, level) && |pages| <= |pages'|
    requires forall x :: 0 <= x < |pages| ==> pages'[x].isLeaf == pages[x].isLeaf && pages'[x].next == pages[x].next &&
                                              pages'[x].prev == pages[x].prev
    ensures InHeap(pages', level) && Chained(pages', level)
  {
    forall i | 0 <= i < |level| ensures InHeap(pages', level) && InChain(pages', level, i) {
      assert InChain(pages, level, i);
    }
  }
}
