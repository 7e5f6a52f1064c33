/** The overflow B+ tree as a heap of pages, and its shape as levels of links listed from left to right. */
module PageLevels {
  import opened SortedRecords

  /** A page: leaf records, or for an inner page (separator, child page) records. Page numbers stand for
      addresses; page 0 is the null pointer. */
  datatype Page = Page(isLeaf: bool, recs: seq<Entry>, parent: nat, next: nat, prev: nat)

  /** Lower fence of a subtree. */
  datatype Bound = Least | Key(k: real)

  datatype Link = Link(lo: Bound, id: nat)

  /** A split page whose new right sibling (at position i + 1 of level h) is not yet in the parent. */
  datatype Pending = Settled | Open(h: nat, i: nat)

  function InsertAt<T>(s: seq<T>, i: nat, x: T): seq<T>
    requires i <= |s|
  {
    s[..i] + [x] + s[i..]
  }

  function Without<T>(s: seq<T>, i: nat): seq<T>
    requires i < |s|
  {
    s[..i] + s[i + 1..]
  }

  lemma WithoutInsert<T>(s: seq<T>, i: nat, x: T)
    requires i <= |s|
    ensures Without(InsertAt(s, i, x), i) == s
  {
  }

  lemma InsertWithout<T>(s: seq<T>, i: nat)
    requires i < |s|
    ensures InsertAt(Without(s, i), i, s[i]) == s
  {
  }

  // ----- one level expands to the level below

  /** Links of the children of a page; the first separator is ignored in favour of the page's own fence. */
  ghost function Row(p: Page, lo: Bound): (r: seq<Link>)
    ensures |r| == |p.recs|
  {
    seq(|p.recs|, j requires 0 <= j < |p.recs| => Link(if j == 0 then lo else Key(p.recs[j].key), p.recs[j].payload))
  }

  ghost predicate InHeap(pages: seq<Page>, level: seq<Link>) {
    forall i :: 0 <= i < |level| ==> 1 <= level[i].id < |pages|
  }

  ghost function Expand(pages: seq<Page>, level: seq<Link>): seq<Link>
    requires InHeap(pages, level)
  {
    if level == [] then [] else Row(pages[level[0].id], level[0].lo) + Expand(pages, level[1..])
  }

  lemma {:induction false} ExpandConcat(pages: seq<Page>, a: seq<Link>, b: seq<Link>)
    requires InHeap(pages, a) && InHeap(pages, b)
    ensures InHeap(pages, a + b) && Expand(pages, a + b) == Expand(pages, a) + Expand(pages, b)
  {
    if a == [] {
      assert a + b == b;
    } else {
      ExpandConcat(pages, a[1..], b);
      assert (a + b)[1..] == a[1..] + b;
    }
  }

  lemma ExpandOne(pages: seq<Page>, x: Link)
    requires 1 <= x.id < |pages|
    ensures Expand(pages, [x]) == Row(pages[x.id], x.lo)
  {
    assert Expand(pages, [x][1..]) == [];
  }

  lemma ExpandAround(pages: seq<Page>, level: seq<Link>, k: nat)
    requires InHeap(pages, level) && k < |level|
    ensures InHeap(pages, level[..k]) && InHeap(pages, level[k + 1..])
    ensures Expand(pages, level) ==
            Expand(pages, level[..k]) + Row(pages[level[k].id], level[k].lo) + Expand(pages, level[k + 1..])
  {
    assert level == level[..k] + ([level[k]] + level[k + 1..]);
    ExpandConcat(pages, [level[k]], level[k + 1..]);
    ExpandConcat(pages, level[..k], [level[k]] + level[k + 1..]);
    ExpandOne(pages, level[k]);
  }

  lemma {:induction false} ExpandSame(pages: seq<Page>, pages': seq<Page>, level: seq<Link>)
    requires InHeap(pages, level) && |pages| <= |pages'|
    requires forall i :: 0 <= i < |level| ==> pages'[level[i].id].recs == pages[level[i].id].recs
    ensures InHeap(pages', level) && Expand(pages', level) == Expand(pages, level)
  {
    if level != [] {
      ExpandSame(pages, pages', level[1..]);
      assert pages'[level[0].id].recs == pages[level[0].id].recs;
    }
  }

  /** Which page of the level a link of the level below comes from. */
  lemma {:induction false} Owner(pages: seq<Page>, level: seq<Link>, m: nat) returns (k: nat, j: nat)
    requires InHeap(pages, level) && m < |Expand(pages, level)|
    ensures k < |level| && j < |pages[level[k].id].recs| && InHeap(pages, level[..k])
    ensures m == |Expand(pages, level[..k])| + j
  {
    var n := |pages[level[0].id].recs|;
    if m < n {
      assert level[..0] == [];
      return 0, m;
    }
    var k';
    k', j := Owner(pages, level[1..], m - n);
    k := k' + 1;
    assert level[..k][1..] == level[1..][..k'];
    assert InHeap(pages, level[1..][..k']);
    assert forall i :: 0 <= i < k ==> level[..k][i] == level[i];
  }

  /** The j-th child of the k-th page, as a position in the level below. */
  ghost function Position(pages: seq<Page>, level: seq<Link>, k: nat, j: nat): (m: nat)
    requires InHeap(pages, level) && k < |level| && j < |pages[level[k].id].recs|
    ensures m < |Expand(pages, level)|
    ensures Expand(pages, level)[m] == Row(pages[level[k].id], level[k].lo)[j]
    ensures m == |Expand(pages, level[..k])| + j
  {
    ExpandAround(pages, level, k);
    |Expand(pages, level[..k])| + j
  }

  // ----- two adjacent levels

  /** The pages of a level are inner pages, their children are the level below, and point back to them. */
  ghost predicate Joins(pages: seq<Page>, upper: seq<Link>, lower: seq<Link>) {
    && InHeap(pages, upper) && lower == Expand(pages, upper)
    && (forall k :: 0 <= k < |upper| ==> !pages[upper[k].id].isLeaf && |pages[upper[k].id].recs| >= 1)
    && (forall k, j :: 0 <= k < |upper| && 0 <= j < |pages[upper[k].id].recs| ==>
          var child := pages[upper[k].id].recs[j].payload;
          child < |pages| && pages[child].parent == upper[k].id)
  }

  /** Joins depends on the records of the upper pages and the parents of the lower ones only. */
  lemma JoinsFrame(pages: seq<Page>, pages': seq<Page>, upper: seq<Link>, lower: seq<Link>)
    requires Joins(pages, upper, lower) && |pages| <= |pages'| && InHeap(pages, lower)
    requires forall k :: 0 <= k < |upper| ==> pages'[upper[k].id].recs == pages[upper[k].id].recs &&
                                              pages'[upper[k].id].isLeaf == pages[upper[k].id].isLeaf
    requires forall m :: 0 <= m < |lower| ==> pages'[lower[m].id].parent == pages[lower[m].id].parent
    ensures Joins(pages', upper, lower)
  {
    ExpandSame(pages, pages', upper);
    forall k, j | 0 <= k < |upper| && 0 <= j < |pages'[upper[k].id].recs|
      ensures var child := pages'[upper[k].id].recs[j].payload;
              child < |pages'| && pages'[child].parent == upper[k].id
    {
      var m := Position(pages, upper, k, j);
      assert lower[m].id == pages[upper[k].id].recs[j].payload;
    }
  }

  // ----- the whole tree

  /** No page occurs twice in the tree. */
  ghost predicate Distinct(levels: seq<seq<Link>>) {
    forall l, i, l', i' ::
      (0 <= l < |levels| && 0 <= i < |levels[l]| && 0 <= l' < |levels| && 0 <= i' < |levels[l']| &&
       levels[l][i].id == levels[l'][i'].id) ==> l == l' && i == i'
  }

  lemma Apart(levels: seq<seq<Link>>, l: nat, i: nat, l': nat, i': nat)
    requires Distinct(levels) && l < |levels| && i < |levels[l]| && l' < |levels| && i' < |levels[l']|
    requires l != l' || i != i'
    ensures levels[l][i].id != levels[l'][i'].id
  {
  }

  ghost predicate AllInHeap(pages: seq<Page>, levels: seq<seq<Link>>) {
    forall l :: 0 <= l < |levels| ==> InHeap(pages, levels[l])
  }

  /** A level as its parents know it. */
  ghost function Known(levels: seq<seq<Link>>, l: nat, pend: Pending): seq<Link>
    requires l < |levels|
  {
    if pend.Open? && pend.h == l && pend.i + 1 < |levels[l]| then Without(levels[l], pend.i + 1) else levels[l]
  }

  ghost predicate Structure(pages: seq<Page>, levels: seq<seq<Link>>, root: nat, pend: Pending) {
    && |levels| >= 1 && AllInHeap(pages, levels) && Distinct(levels)
    && (pend.Open? ==> pend.h < |levels| && pend.i + 1 < |levels[pend.h]| && levels[pend.h][pend.i + 1].lo.Key?)
    && Known(levels, |levels| - 1, pend) == [Link(Least, root)]
    && root < |pages| && pages[root].parent == 0
    && (forall l :: 1 <= l < |levels| ==> Joins(pages, levels[l], Known(levels, l - 1, pend)))
  }

  /** The page numbers of a known level are page numbers of the level. */
  lemma KnownAt(levels: seq<seq<Link>>, l: nat, pend: Pending, m: nat) returns (i: nat)
    requires l < |levels| && m < |Known(levels, l, pend)|
    ensures i < |levels[l]| && Known(levels, l, pend)[m] == levels[l][i]
    ensures i == if pend.Open? && pend.h == l && pend.i + 1 < |levels[l]| && m > pend.i then m + 1 else m
  {
    i := if pend.Open? && pend.h == l && pend.i + 1 < |levels[l]| && m > pend.i then m + 1 else m;
  }

  lemma KnownInHeap(pages: seq<Page>, levels: seq<seq<Link>>, l: nat, pend: Pending)
    requires AllInHeap(pages, levels) && l < |levels|
    ensures InHeap(pages, Known(levels, l, pend))
  {
    forall m | 0 <= m < |Known(levels, l, pend)| ensures 1 <= Known(levels, l, pend)[m].id < |pages| {
      var i := KnownAt(levels, l, pend, m);
    }
  }

  /** Adding a fresh page to a level keeps pages distinct. */
  lemma DistinctInsert(pages: seq<Page>, levels: seq<seq<Link>>, g: nat, k: nat, x: Link)
    requires Distinct(levels) && AllInHeap(pages, levels) && g < |levels| && k <= |levels[g]| && x.id == |pages|
    ensures Distinct(levels[g := InsertAt(levels[g], k, x)])
  {
    var levels': seq<seq<Link>> := levels[g := InsertAt(levels[g], k, x)];
    forall l, i, l', i' | 0 <= l < |levels'| && 0 <= i < |levels'[l]| && 0 <= l' < |levels'| &&
                          0 <= i' < |levels'[l']| && (l != l' || i != i')
      ensures levels'[l][i].id != levels'[l'][i'].id
    {
      if !(l == g && i == k) && !(l' == g && i' == k) {
        var o := if l == g && i > k then i - 1 else i;
        var o' := if l' == g && i' > k then i' - 1 else i';
        assert levels'[l][i] == levels[l][o] && levels'[l'][i'] == levels[l'][o'];
        Apart(levels, l, o, l', o');
      } else if l == g && i == k {
        var o' := if l' == g && i' > k then i' - 1 else i';
        assert levels'[l'][i'] == levels[l'][o'];
      } else {
        var o := if l == g && i > k then i - 1 else i;
        assert levels'[l][i] == levels[l][o];
      }
    }
  }

  // ----- the steps of an insertion

  ghost predicate OnlyAt(recs: seq<Entry>, j: nat, child: nat) {
    forall j' :: 0 <= j' < |recs| && j' != j ==> recs[j'].payload != child
  }

  lemma KnownInsert(levels: seq<seq<Link>>, g: nat, k: nat, x: Link)
    requires g < |levels| && k < |levels[g]|
    ensures var levels' := levels[g := InsertAt(levels[g], k + 1, x)];
            && (forall l :: 0 <= l < |levels| ==> Known(levels', l, Open(g, k)) == levels[l])
            && k + 1 < |levels'[g]| && levels'[g][k + 1] == x
            && (forall l :: 0 <= l < |levels| && l != g ==> levels'[l] == levels[l])
  {
    WithoutInsert(levels[g], k + 1, x);
  }

  lemma HeapInsert(pages: seq<Page>, pages': seq<Page>, levels: seq<seq<Link>>, g: nat, k: nat, x: Link)
    requires AllInHeap(pages, levels) && g < |levels| && k < |levels[g]| && 1 <= x.id < |pages'| && |pages| <= |pages'|
    ensures AllInHeap(pages', levels[g := InsertAt(levels[g], k + 1, x)])
  {
    var level' := InsertAt(levels[g], k + 1, x);
    assert InHeap(pages, levels[g]);
    assert InHeap(pages', level');
  }

  /** Where the parent of the page at (h, i) holds it. */
  lemma Father(pages: seq<Page>, levels: seq<seq<Link>>, root: nat, pend: Pending, h: nat, i: nat)
    returns (k: nat, j: nat)
    requires Structure(pages, levels, root, pend) && h + 1 < |levels| && i < |Known(levels, h, pend)|
    requires pend.Open? ==> pend == Open(h, i)
    ensures k < |levels[h + 1]| && levels[h][i] == Known(levels, h, pend)[i]
    ensures pages[levels[h][i].id].parent == levels[h + 1][k].id
    ensures j < |pages[levels[h + 1][k].id].recs| && pages[levels[h + 1][k].id].recs[j].payload == levels[h][i].id
    ensures InHeap(pages, levels[h + 1][..k]) && i == |Expand(pages, levels[h + 1][..k])| + j
    ensures OnlyAt(pages[levels[h + 1][k].id].recs, j, levels[h][i].id)
  {
    hide Expand, Row, Known, Distinct, AllInHeap;
    var known := Known(levels, h, pend);
    assert Joins(pages, levels[h + 1], known);
    var here := KnownAt(levels, h, pend, i);
    k, j := Owner(pages, levels[h + 1], i);
    var p := pages[levels[h + 1][k].id];
    var m := ChildAt(pages, levels[h + 1], known, k, j);
    forall j' | 0 <= j' < |p.recs| && j' != j ensures p.recs[j'].payload != levels[h][i].id {
      var m' := ChildAt(pages, levels[h + 1], known, k, j');
      var o := KnownAt(levels, h, pend, m');
      Apart(levels, h, o, h, i);
    }
  }

  /** A change of records, parents or chain pointers outside the inner pages and inner parents is harmless. */
  lemma LeafChange(pages: seq<Page>, pages': seq<Page>, levels: seq<seq<Link>>, root: nat)
    requires Structure(pages, levels, root, Settled) && |pages| <= |pages'|
    requires forall x :: 0 <= x < |pages| ==> pages'[x].parent == pages[x].parent && pages'[x].isLeaf == pages[x].isLeaf
    requires forall x :: 0 <= x < |pages| && !pages[x].isLeaf ==> pages'[x].recs == pages[x].recs
    ensures Structure(pages', levels, root, Settled)
  {
    hide Known, Distinct, Joins;
    forall l | 1 <= l < |levels| ensures Joins(pages', levels[l], Known(levels, l - 1, Settled)) {
      KnownInHeap(pages, levels, l - 1, Settled);
      assert Joins(pages, levels[l], Known(levels, l - 1, Settled));
      LeafChangeJoins(pages, pages', levels[l], Known(levels, l - 1, Settled));
    }
  }

  lemma LeafChangeJoins(pages: seq<Page>, pages': seq<Page>, upper: seq<Link>, lower: seq<Link>)
    requires Joins(pages, upper, lower) && InHeap(pages, lower) && |pages| <= |pages'|
    requires forall x :: 0 <= x < |pages| ==> pages'[x].parent == pages[x].parent && pages'[x].isLeaf == pages[x].isLeaf
    requires forall x :: 0 <= x < |pages| && !pages[x].isLeaf ==> pages'[x].recs == pages[x].recs
    ensures Joins(pages', upper, lower)
  {
    hide Expand;
    JoinsFrame(pages, pages', upper, lower);
  }

  /** A fresh leaf beside a leaf: the tree is the same but for a pending link. */
  lemma LeafSplit(pages: seq<Page>, pages': seq<Page>, levels: seq<seq<Link>>, root: nat, i: nat, sep: real)
    requires Structure(pages, levels, root, Settled) && |pages'| == |pages| + 1 && i < |levels[0]|
    requires forall x :: 0 <= x < |pages| ==> pages'[x].parent == pages[x].parent && pages'[x].isLeaf == pages[x].isLeaf
    requires forall x :: 0 <= x < |pages| && !pages[x].isLeaf ==> pages'[x].recs == pages[x].recs
    ensures Structure(pages', levels[0 := InsertAt(levels[0], i + 1, Link(Key(sep), |pages|))], root, Open(0, i))
  {
    hide Joins, Distinct, Known, InsertAt, AllInHeap;
    var x := Link(Key(sep), |pages|);
    var levels' := levels[0 := InsertAt(levels[0], i + 1, x)];
    LeafChange(pages, pages', levels, root);
    KnownSettled(levels);
    SomePage(pages, levels, root);
    DistinctInsert(pages, levels, 0, i + 1, x);
    HeapInsert(pages, pages', levels, 0, i, x);
    KnownInsert(levels, 0, i, x);
    forall l | 1 <= l < |levels'| ensures Joins(pages', levels'[l], Known(levels', l - 1, Open(0, i))) {
      assert Joins(pages', levels[l], Known(levels, l - 1, Settled));
    }
  }

  lemma KnownSettled(levels: seq<seq<Link>>)
    ensures forall l :: 0 <= l < |levels| ==> Known(levels, l, Settled) == levels[l]
  {
  }

  lemma SomePage(pages: seq<Page>, levels: seq<seq<Link>>, root: nat)
    requires Structure(pages, levels, root, Settled)
    ensures |pages| >= 2
  {
    assert InHeap(pages, levels[|levels| - 1]);
    assert levels[|levels| - 1][0].id == root;
  }

  /** The heap after `kids` were given a new parent. */
  ghost predicate Adopted(pages: seq<Page>, pages': seq<Page>, kids: seq<Entry>, parent: nat) {
    && |pages'| == |pages|
    && (forall x :: 0 <= x < |pages| ==>
          pages'[x] == if IsKid(kids, x) then pages[x].(parent := parent) else pages[x])
  }

  ghost predicate IsKid(kids: seq<Entry>, x: nat) {
    exists j :: 0 <= j < |kids| && kids[j].payload == x
  }

  /** Records before and after an inner page is cut at `left` list the same links. */
  lemma RowCut(p: Page, lo: Bound, left: nat)
    requires 1 <= left < |p.recs|
    ensures Row(p.(recs := p.recs[..left]), lo) + Row(p.(recs := p.recs[left..]), Key(p.recs[left].key)) == Row(p, lo)
  {
  }

  /** Inserting a child after position j of its parent. */
  lemma RowInsert(p: Page, lo: Bound, j: nat, e: Entry)
    requires j < |p.recs|
    ensures Row(p.(recs := InsertAt(p.recs, j + 1, e)), lo) == InsertAt(Row(p, lo), j + 1, Link(Key(e.key), e.payload))
  {
  }

  /** The page numbers of a level are pairwise different. */
  ghost predicate Unlike(level: seq<Link>) {
    forall i, j :: 0 <= i < |level| && 0 <= j < |level| && i != j ==> level[i].id != level[j].id
  }

  /** Between two levels: a child inserted after position j of the k-th page. */
  lemma JoinInsert(pages: seq<Page>, pages': seq<Page>, upper: seq<Link>, lower: seq<Link>, k: nat, j: nat, e: Entry)
    requires Joins(pages, upper, lower) && Unlike(upper) && k < |upper| && InHeap(pages, lower)
    requires e.payload < |pages|
    requires forall m :: 0 <= m < |upper| ==> upper[m].id != e.payload
    requires forall m :: 0 <= m < |lower| ==> lower[m].id != e.payload && lower[m].id != upper[k].id
    requires j < |pages[upper[k].id].recs|
    requires var f := upper[k].id;
             pages' == pages[f := pages[f].(recs := InsertAt(pages[f].recs, j + 1, e))]
                            [e.payload := pages[e.payload].(parent := f)]
    ensures var i := Position(pages, upper, k, j);
            i < |lower| && Joins(pages', upper, InsertAt(lower, i + 1, Link(Key(e.key), e.payload)))
  {
    hide Expand, Row, InsertAt, Position;
    var f := upper[k].id;
    var x := Link(Key(e.key), e.payload);
    InsertRecords(pages, pages', upper, k, j, e);
    InsertExpands(pages, pages', upper, k, j, e);
    var i := ChildAt(pages, upper, lower, k, j);
    forall k', j' | 0 <= k' < |upper| && 0 <= j' < |pages'[upper[k'].id].recs|
      ensures var child := pages'[upper[k'].id].recs[j'].payload;
              child < |pages'| && pages'[child].parent == upper[k'].id
    {
      if k' != k || j' != j + 1 {
        var o := if k' == k && j' > j + 1 then j' - 1 else j';
        assert pages'[upper[k'].id].recs[j'] == pages[upper[k'].id].recs[o];
        var m := ChildAt(pages, upper, lower, k', o);
      }
    }
  }

  lemma InsertRecords(pages: seq<Page>, pages': seq<Page>, upper: seq<Link>, k: nat, j: nat, e: Entry)
    requires InHeap(pages, upper) && Unlike(upper) && k < |upper| && e.payload < |pages|
    requires forall m :: 0 <= m < |upper| ==> upper[m].id != e.payload
    requires j < |pages[upper[k].id].recs|
    requires var f := upper[k].id;
             pages' == pages[f := pages[f].(recs := InsertAt(pages[f].recs, j + 1, e))]
                            [e.payload := pages[e.payload].(parent := f)]
    ensures |pages'| == |pages| && pages'[e.payload].parent == upper[k].id
    ensures forall m :: 0 <= m < |upper| ==> pages'[upper[m].id].isLeaf == pages[upper[m].id].isLeaf
    ensures forall m :: 0 <= m < |upper| && m != k ==> pages'[upper[m].id].recs == pages[upper[m].id].recs
    ensures var R := pages[upper[k].id].recs; var R' := pages'[upper[k].id].recs;
            && R' == InsertAt(R, j + 1, e) && |R'| == |R| + 1 && R'[j + 1] == e
            && (forall o :: 0 <= o < |R'| && o != j + 1 ==> R'[o] == R[if o > j + 1 then o - 1 else o])
    ensures forall x :: 0 <= x < |pages| && x != e.payload ==> pages'[x].parent == pages[x].parent
  {
  }

  lemma InsertExpands(pages: seq<Page>, pages': seq<Page>, upper: seq<Link>, k: nat, j: nat, e: Entry)
    requires InHeap(pages, upper) && k < |upper| && j < |pages[upper[k].id].recs| && |pages'| == |pages|
    requires forall m :: 0 <= m < |upper| && m != k ==> pages'[upper[m].id].recs == pages[upper[m].id].recs
    requires pages'[upper[k].id].recs == InsertAt(pages[upper[k].id].recs, j + 1, e)
    ensures InHeap(pages', upper)
    ensures Expand(pages', upper) ==
            InsertAt(Expand(pages, upper), Position(pages, upper, k, j) + 1, Link(Key(e.key), e.payload))
  {
    hide Expand, Row, InsertAt;
    var u := upper[k];
    var p := pages[u.id];
    var x := Link(Key(e.key), e.payload);
    assert InHeap(pages', upper);
    ExpandAround(pages, upper, k);
    ExpandAround(pages', upper, k);
    ExpandSame(pages, pages', upper[..k]);
    ExpandSame(pages, pages', upper[k + 1..]);
    RowInsert(p, u.lo, j, e);
    RowOf(pages'[u.id], p.(recs := InsertAt(p.recs, j + 1, e)), u.lo);
    InsertMiddle(Expand(pages, upper[..k]), Row(p, u.lo), Expand(pages, upper[k + 1..]), j + 1, x);
  }

  lemma RowOf(p: Page, q: Page, lo: Bound)
    requires p.recs == q.recs
    ensures Row(p, lo) == Row(q, lo)
  {
  }

  lemma InsertMiddle<T>(a: seq<T>, b: seq<T>, c: seq<T>, j: nat, x: T)
    requires j <= |b|
    ensures a + InsertAt(b, j, x) + c == InsertAt(a + b + c, |a| + j, x)
  {
  }

  /** Between two levels: the k-th page is cut, its right part becomes a fresh page. */
  lemma JoinCut(pages: seq<Page>, pages': seq<Page>, upper: seq<Link>, lower: seq<Link>, k: nat, left: nat)
    requires Joins(pages, upper, lower) && Unlike(upper) && k < |upper| && InHeap(pages, lower) && Unlike(lower)
    requires 1 <= left < |pages[upper[k].id].recs|
    requires forall m, n :: 0 <= m < |upper| && 0 <= n < |lower| ==> upper[m].id != lower[n].id
    requires var f := upper[k].id;
             Adopted(pages[f := pages[f].(recs := pages[f].recs[..left])] +
                     [Page(false, pages[f].recs[left..], 0, 0, 0)],
                     pages', pages[f].recs[left..], |pages|)
    ensures Joins(pages', InsertAt(upper, k + 1, Link(Key(pages[upper[k].id].recs[left].key), |pages|)), lower)
  {
    hide Expand, Row;
    var f := upper[k].id;
    var R := pages[f].recs;
    var x := Link(Key(R[left].key), |pages|);
    var upper' := InsertAt(upper, k + 1, x);
    CutRecords(pages, pages', upper, lower, k, left);
    CutExpands(pages, pages', upper, k, left);
    forall k', j' | 0 <= k' < |upper'| && 0 <= j' < |pages'[upper'[k'].id].recs|
      ensures var child := pages'[upper'[k'].id].recs[j'].payload;
              child < |pages'| && pages'[child].parent == upper'[k'].id
    {
      var o := if k' <= k then k' else k' - 1;
      var j := if k' == k + 1 then j' + left else j';
      assert pages'[upper'[k'].id].recs[j'] == pages[upper[o].id].recs[j];
      CutParent(pages, pages', upper, lower, k, left, o, j);
    }
  }

  lemma CutRecords(pages: seq<Page>, pages': seq<Page>, upper: seq<Link>, lower: seq<Link>, k: nat, left: nat)
    requires Joins(pages, upper, lower) && Unlike(upper) && k < |upper| && InHeap(pages, lower)
    requires 1 <= left < |pages[upper[k].id].recs|
    requires var f := upper[k].id;
             Adopted(pages[f := pages[f].(recs := pages[f].recs[..left])] +
                     [Page(false, pages[f].recs[left..], 0, 0, 0)],
                     pages', pages[f].recs[left..], |pages|)
    ensures |pages'| == |pages| + 1
    ensures forall m :: 0 <= m < |upper| ==> !pages'[upper[m].id].isLeaf
    ensures forall m :: 0 <= m < |upper| && m != k ==> pages'[upper[m].id].recs == pages[upper[m].id].recs
    ensures pages'[upper[k].id].recs == pages[upper[k].id].recs[..left]
    ensures pages'[|pages|].recs == pages[upper[k].id].recs[left..] && !pages'[|pages|].isLeaf
  {
  }

  lemma CutExpands(pages: seq<Page>, pages': seq<Page>, upper: seq<Link>, k: nat, left: nat)
    requires InHeap(pages, upper) && k < |upper| && |pages'| == |pages| + 1
    requires 1 <= left < |pages[upper[k].id].recs|
    requires forall m :: 0 <= m < |upper| && m != k ==> pages'[upper[m].id].recs == pages[upper[m].id].recs
    requires pages'[upper[k].id].recs == pages[upper[k].id].recs[..left]
    requires pages'[|pages|].recs == pages[upper[k].id].recs[left..]
    ensures var upper' := InsertAt(upper, k + 1, Link(Key(pages[upper[k].id].recs[left].key), |pages|));
            InHeap(pages', upper') && Expand(pages', upper') == Expand(pages, upper)
  {
    hide Expand;
    var p := pages[upper[k].id];
    var x := Link(Key(p.recs[left].key), |pages|);
    var upper' := InsertAt(upper, k + 1, x);
    ExpandAround(pages, upper, k);
    assert InHeap(pages', upper');
    ExpandAround(pages', upper', k);
    assert upper'[k + 1..][0] == x && upper'[k + 1..][1..] == upper[k + 1..] && upper'[..k] == upper[..k];
    ExpandAround(pages', upper'[k + 1..], 0);
    assert Expand(pages', upper'[k + 1..][..0]) == [] by { ExpandNone(pages', upper'[k + 1..][..0]); }
    assert upper'[k + 1..][0 + 1..] == upper[k + 1..];
    ExpandSame(pages, pages', upper[..k]);
    ExpandSame(pages, pages', upper[k + 1..]);
    RowCut(p, upper[k].lo, left);
    assert Row(pages'[upper[k].id], upper[k].lo) == Row(p.(recs := p.recs[..left]), upper[k].lo);
    assert Row(pages'[|pages|], x.lo) == Row(p.(recs := p.recs[left..]), x.lo);
  }

  lemma ExpandNone(pages: seq<Page>, level: seq<Link>)
    requires level == []
    ensures Expand(pages, level) == []
  {
  }

  lemma CutParent(pages: seq<Page>, pages': seq<Page>, upper: seq<Link>, lower: seq<Link>, k: nat, left: nat, o: nat,
                  j: nat)
    requires Joins(pages, upper, lower) && Unlike(upper) && k < |upper| && InHeap(pages, lower) && Unlike(lower)
    requires 1 <= left < |pages[upper[k].id].recs|
    requires forall m, n :: 0 <= m < |upper| && 0 <= n < |lower| ==> upper[m].id != lower[n].id
    requires var f := upper[k].id;
             Adopted(pages[f := pages[f].(recs := pages[f].recs[..left])] +
                     [Page(false, pages[f].recs[left..], 0, 0, 0)],
                     pages', pages[f].recs[left..], |pages|)
    requires o < |upper| && j < |pages[upper[o].id].recs|
    ensures var child := pages[upper[o].id].recs[j].payload;
            child < |pages| && pages'[child].parent == if o == k && j >= left then |pages| else upper[o].id
  {
    hide Expand, Row;
    var R := pages[upper[k].id].recs;
    var child := pages[upper[o].id].recs[j].payload;
    var m := ChildAt(pages, upper, lower, o, j);
    assert pages'[child].parent == if IsKid(R[left..], child) then |pages| else pages[child].parent;
    if o == k && j >= left {
      assert R[left..][j - left].payload == child;
    } else if IsKid(R[left..], child) {
      var j' :| 0 <= j' < |R[left..]| && R[left..][j'].payload == child;
      var m' := ChildAt(pages, upper, lower, k, j' + left);
      ChildrenDiffer(pages, upper, lower, o, j, k, j' + left);
    }
  }

  lemma ChildAt(pages: seq<Page>, upper: seq<Link>, lower: seq<Link>, k: nat, j: nat) returns (m: nat)
    requires Joins(pages, upper, lower) && k < |upper| && j < |pages[upper[k].id].recs|
    ensures m < |lower| && lower[m].id == pages[upper[k].id].recs[j].payload
    ensures m == Position(pages, upper, k, j)
  {
    m := Position(pages, upper, k, j);
  }

  lemma ChildrenDiffer(pages: seq<Page>, upper: seq<Link>, lower: seq<Link>, k: nat, j: nat, k': nat, j': nat)
    requires Joins(pages, upper, lower) && Unlike(upper) && k < |upper| && j < |pages[upper[k].id].recs|
    requires k' < |upper| && j' < |pages[upper[k'].id].recs|
    requires Unlike(lower) && (k != k' || j != j')
    ensures pages[upper[k].id].recs[j].payload != pages[upper[k'].id].recs[j'].payload
  {
    if k == k' {
      var m := ChildAt(pages, upper, lower, k, j);
      var m' := ChildAt(pages, upper, lower, k', j');
      assert m != m';
    }
  }

  // ----- the same steps on the whole tree

  lemma LevelsUnlike(levels: seq<seq<Link>>, l: nat, pend: Pending)
    requires Distinct(levels) && l < |levels|
    ensures Unlike(levels[l]) && Unlike(Known(levels, l, pend))
  {
    var known := Known(levels, l, pend);
    forall i, j | 0 <= i < |known| && 0 <= j < |known| && i != j ensures known[i].id != known[j].id {
      var i' := KnownAt(levels, l, pend, i);
      var j' := KnownAt(levels, l, pend, j);
      Apart(levels, l, i', l, j');
    }
  }

  /** Pages of a level differ from the pages of the known level below. */
  lemma LevelsApart(levels: seq<seq<Link>>, l: nat, l': nat, pend: Pending)
    requires Distinct(levels) && l < |levels| && l' < |levels| && l != l'
    ensures forall m, n :: 0 <= m < |levels[l]| && 0 <= n < |Known(levels, l', pend)| ==>
                             levels[l][m].id != Known(levels, l', pend)[n].id
  {
    forall m, n | 0 <= m < |levels[l]| && 0 <= n < |Known(levels, l', pend)|
      ensures levels[l][m].id != Known(levels, l', pend)[n].id
    {
      var n' := KnownAt(levels, l', pend, n);
      Apart(levels, l, m, l', n');
    }
  }

  /** insert_pair into the father: the pending link is settled. */
  lemma Settles(pages: seq<Page>, pages': seq<Page>, levels: seq<seq<Link>>, root: nat, h: nat, i: nat, k: nat, j: nat,
                sep: real)
    requires Structure(pages, levels, root, Open(h, i)) && h + 1 < |levels| && k < |levels[h + 1]|
    requires InHeap(pages, levels[h + 1]) && j < |pages[levels[h + 1][k].id].recs| &&
             i == Position(pages, levels[h + 1], k, j)
    requires levels[h][i + 1].lo == Key(sep) && levels[h][i + 1].id < |pages|
    requires var f := levels[h + 1][k].id; var x := levels[h][i + 1].id;
             pages' == pages[f := pages[f].(recs := InsertAt(pages[f].recs, j + 1, Entry(sep, x)))]
                            [x := pages[x].(parent := f)]
    ensures Structure(pages', levels, root, Settled)
  {
    hide Joins, Distinct, Known, InsertAt, Position;
    KnownSettled(levels);
    KnownOpen(levels, h, i);
    RootIsKnown(pages, levels, root, h, i);
    forall l | 1 <= l < |levels| ensures Joins(pages', levels[l], Known(levels, l - 1, Settled)) {
      assert Joins(pages, levels[l], Known(levels, l - 1, Open(h, i)));
      SettleJoins(pages, pages', levels, h, i, k, j, sep, l);
    }
  }

  lemma SettleJoins(pages: seq<Page>, pages': seq<Page>, levels: seq<seq<Link>>, h: nat, i: nat, k: nat, j: nat,
                    sep: real, l: nat)
    requires AllInHeap(pages, levels) && Distinct(levels) && h + 1 < |levels| && k < |levels[h + 1]| &&
             i + 1 < |levels[h]|
    requires InHeap(pages, levels[h + 1]) && j < |pages[levels[h + 1][k].id].recs| &&
             i == Position(pages, levels[h + 1], k, j)
    requires levels[h][i + 1].lo == Key(sep) && levels[h][i + 1].id < |pages|
    requires var f := levels[h + 1][k].id; var x := levels[h][i + 1].id;
             pages' == pages[f := pages[f].(recs := InsertAt(pages[f].recs, j + 1, Entry(sep, x)))]
                            [x := pages[x].(parent := f)]
    requires 1 <= l < |levels| && Joins(pages, levels[l], Known(levels, l - 1, Open(h, i)))
    ensures Joins(pages', levels[l], levels[l - 1])
  {
    hide Joins, Distinct, Known, InsertAt, Position, AllInHeap;
    var f := levels[h + 1][k].id;
    var x := levels[h][i + 1].id;
    KnownOpen(levels, h, i);
    KnownInHeap(pages, levels, l - 1, Open(h, i));
    if l == h + 1 {
      LevelsUnlike(levels, l, Settled);
      LevelsApart(levels, l, h, Open(h, i));
      NotKnown(levels, h, i);
      LevelAvoids(levels, l, h, i + 1);
      JoinInsert(pages, pages', levels[l], Known(levels, h, Open(h, i)), k, j, Entry(sep, x));
    } else {
      LevelAvoids(levels, l, h + 1, k);
      LevelAvoids(levels, l - 1, h, i + 1);
      PageIsIn(pages, levels, l);
      JoinsFrame(pages, pages', levels[l], levels[l - 1]);
    }
  }

  lemma PageIsIn(pages: seq<Page>, levels: seq<seq<Link>>, l: nat)
    requires AllInHeap(pages, levels) && 1 <= l < |levels|
    ensures forall m :: 0 <= m < |levels[l]| ==> levels[l][m].id < |pages|
    ensures InHeap(pages, levels[l]) && InHeap(pages, levels[l - 1])
    ensures var lower := levels[l - 1]; forall m :: 0 <= m < |lower| ==> lower[m].id < |pages|
  {
  }

  ghost predicate Avoids(level: seq<Link>, x: nat) {
    forall m :: 0 <= m < |level| ==> level[m].id != x
  }

  lemma LevelAvoids(levels: seq<seq<Link>>, l: nat, l': nat, i: nat)
    requires Distinct(levels) && l < |levels| && l' < |levels| && l != l' && i < |levels[l']|
    ensures Avoids(levels[l], levels[l'][i].id)
  {
  }

  lemma KnownOpen(levels: seq<seq<Link>>, h: nat, i: nat)
    requires h < |levels| && i + 1 < |levels[h]|
    ensures forall l :: 0 <= l < |levels| && l != h ==> Known(levels, l, Open(h, i)) == levels[l]
    ensures |Known(levels, h, Open(h, i))| == |levels[h]| - 1
    ensures InsertAt(Known(levels, h, Open(h, i)), i + 1, levels[h][i + 1]) == levels[h]
  {
    InsertWithout(levels[h], i + 1);
  }

  /** The pending page is not in the known level. */
  lemma NotKnown(levels: seq<seq<Link>>, h: nat, i: nat)
    requires Distinct(levels) && h < |levels| && i + 1 < |levels[h]|
    ensures forall m :: 0 <= m < |Known(levels, h, Open(h, i))| ==>
              Known(levels, h, Open(h, i))[m].id != levels[h][i + 1].id
  {
    forall m | 0 <= m < |Known(levels, h, Open(h, i))|
      ensures Known(levels, h, Open(h, i))[m].id != levels[h][i + 1].id
    {
      var o := KnownAt(levels, h, Open(h, i), m);
      Apart(levels, h, o, h, i + 1);
    }
  }

  /** The pending page is not the root. */
  lemma RootIsKnown(pages: seq<Page>, levels: seq<seq<Link>>, root: nat, h: nat, i: nat)
    requires Structure(pages, levels, root, Open(h, i))
    ensures root != levels[h][i + 1].id
  {
    hide Distinct, Joins, Known, AllInHeap;
    var m := KnownAt(levels, |levels| - 1, Open(h, i), 0);
    Apart(levels, |levels| - 1, m, h, i + 1);
  }

  /** The heap after an inner page was split and its right children were given their new parent. */
  ghost predicate InnerSplit(pages: seq<Page>, pages': seq<Page>, f: nat, left: nat)
    requires f < |pages| && left < |pages[f].recs|
  {
    Adopted(pages[f := pages[f].(recs := pages[f].recs[..left])] + [Page(false, pages[f].recs[left..], 0, 0, 0)],
            pages', pages[f].recs[left..], |pages|)
  }

  /** An inner split leaves the tree the same but for a pending link one level up. */
  lemma Splits(pages: seq<Page>, pages': seq<Page>, levels: seq<seq<Link>>, root: nat, g: nat, k: nat, left: nat)
    requires Structure(pages, levels, root, Settled) && 1 <= g < |levels| && k < |levels[g]| &&
             levels[g][k].id < |pages|
    requires 1 <= left < |pages[levels[g][k].id].recs| && InnerSplit(pages, pages', levels[g][k].id, left)
    ensures Structure(pages',
                      levels[g := InsertAt(levels[g], k + 1,
                                           Link(Key(pages[levels[g][k].id].recs[left].key), |pages|))],
                      root, Open(g, k))
  {
    hide Joins, Distinct, Known, InsertAt, InnerSplit, AllInHeap, IsKid;
    var f := levels[g][k].id;
    var x := Link(Key(pages[f].recs[left].key), |pages|);
    var levels' := levels[g := InsertAt(levels[g], k + 1, x)];
    KnownSettled(levels);
    SomePage(pages, levels, root);
    DistinctInsert(pages, levels, g, k + 1, x);
    SplitRoot(pages, pages', levels, root, g, k, left);
    HeapInsert(pages, pages', levels, g, k, x);
    KnownInsert(levels, g, k, x);
    forall l | 1 <= l < |levels'| ensures Joins(pages', levels'[l], levels[l - 1]) {
      assert Joins(pages, levels[l], Known(levels, l - 1, Settled));
      SplitJoins(pages, pages', levels, g, k, left, l);
    }
  }

  lemma SplitRoot(pages: seq<Page>, pages': seq<Page>, levels: seq<seq<Link>>, root: nat, g: nat, k: nat, left: nat)
    requires Structure(pages, levels, root, Settled) && 1 <= g < |levels| && k < |levels[g]| &&
             levels[g][k].id < |pages|
    requires 1 <= left < |pages[levels[g][k].id].recs| && InnerSplit(pages, pages', levels[g][k].id, left)
    ensures |pages'| == |pages| + 1 && pages'[root].parent == 0
  {
    hide Joins, Distinct, Known, InnerSplit, AllInHeap, IsKid;
    SplitFrame(pages, pages', levels[g][k].id, left);
    KnownSettled(levels);
    KidsAreBelow(pages, levels, g, k, left, |levels| - 1, 0);
    assert levels[|levels| - 1][0].id == root;
  }

  lemma SplitFrame(pages: seq<Page>, pages': seq<Page>, f: nat, left: nat)
    requires f < |pages| && left < |pages[f].recs| && InnerSplit(pages, pages', f, left)
    ensures |pages'| == |pages| + 1
    ensures forall x :: 0 <= x < |pages| && x != f ==> pages'[x].recs == pages[x].recs
    ensures forall x :: 0 <= x < |pages| ==> pages'[x].isLeaf == pages[x].isLeaf
    ensures forall x :: 0 <= x < |pages| && !IsKid(pages[f].recs[left..], x) ==> pages'[x].parent == pages[x].parent
    ensures pages'[f].recs == pages[f].recs[..left] && pages'[|pages|].recs == pages[f].recs[left..]
    ensures !pages'[|pages|].isLeaf
    ensures forall x :: 0 <= x < |pages| ==> pages'[x].next == pages[x].next && pages'[x].prev == pages[x].prev
  {
  }

  lemma SplitJoins(pages: seq<Page>, pages': seq<Page>, levels: seq<seq<Link>>, g: nat, k: nat, left: nat, l: nat)
    requires AllInHeap(pages, levels) && Distinct(levels)
    requires 1 <= g < |levels| && k < |levels[g]| && levels[g][k].id < |pages|
    requires 1 <= left < |pages[levels[g][k].id].recs| && InnerSplit(pages, pages', levels[g][k].id, left)
    requires Joins(pages, levels[g], levels[g - 1])
    requires 1 <= l < |levels| && Joins(pages, levels[l], levels[l - 1])
    ensures Joins(pages',
                  levels[g := InsertAt(levels[g], k + 1, Link(Key(pages[levels[g][k].id].recs[left].key), |pages|))][l],
                  levels[l - 1])
  {
    hide Joins, Distinct, Known, InsertAt, InnerSplit;
    var f := levels[g][k].id;
    SplitFrame(pages, pages', f, left);
    KnownSettled(levels);
    if l == g {
      LevelsUnlike(levels, g, Settled);
      LevelsUnlike(levels, g - 1, Settled);
      LevelsApart(levels, g, g - 1, Settled);
      JoinCutNamed(pages, pages', levels[g], levels[g - 1], k, left);
    } else {
      LevelAvoids(levels, l, g, k);
      var lower := levels[l - 1];
      forall m | 0 <= m < |lower| ensures !IsKid(pages[f].recs[left..], lower[m].id) {
        KidsAreBelow(pages, levels, g, k, left, l - 1, m);
      }
      JoinsFrame(pages, pages', levels[l], lower);
    }
  }

  lemma JoinCutNamed(pages: seq<Page>, pages': seq<Page>, upper: seq<Link>, lower: seq<Link>, k: nat, left: nat)
    requires Joins(pages, upper, lower) && Unlike(upper) && k < |upper| && InHeap(pages, lower) && Unlike(lower)
    requires upper[k].id < |pages| && 1 <= left < |pages[upper[k].id].recs|
    requires forall m, n :: 0 <= m < |upper| && 0 <= n < |lower| ==> upper[m].id != lower[n].id
    requires InnerSplit(pages, pages', upper[k].id, left)
    ensures Joins(pages', InsertAt(upper, k + 1, Link(Key(pages[upper[k].id].recs[left].key), |pages|)), lower)
  {
    hide Expand, InsertAt, Adopted;
    JoinCut(pages, pages', upper, lower, k, left);
  }

  /** Children of a page of level g are in level g - 1 and nowhere else. */
  lemma KidsAreBelow(pages: seq<Page>, levels: seq<seq<Link>>, g: nat, k: nat, left: nat, l: nat, m: nat)
    requires Distinct(levels) && 1 <= g < |levels| && k < |levels[g]| && Joins(pages, levels[g], levels[g - 1])
    requires left <= |pages[levels[g][k].id].recs| && l < |levels| && l != g - 1 && m < |levels[l]|
    ensures !IsKid(pages[levels[g][k].id].recs[left..], levels[l][m].id)
  {
    hide Distinct;
    var R := pages[levels[g][k].id].recs;
    forall j | 0 <= j < |R[left..]| ensures R[left..][j].payload != levels[l][m].id {
      var o := ChildAt(pages, levels[g], levels[g - 1], k, j + left);
      Apart(levels, l, m, g - 1, o);
    }
  }

  /** A new root above a split root settles the tree. */
  lemma NewRoot(pages: seq<Page>, pages': seq<Page>, levels: seq<seq<Link>>, root: nat, h: nat, i: nat, sep: real,
                first: real)
    requires Structure(pages, levels, root, Open(h, i)) && h == |levels| - 1
    requires levels[h][i + 1].lo == Key(sep) && levels[h][i + 1].id < |pages|
    requires var x := levels[h][i + 1].id; var n := |pages|;
             pages' == (pages + [Page(false, [Entry(first, root), Entry(sep, x)], 0, 0, 0)])
                       [root := pages[root].(parent := n)][x := pages[x].(parent := n)]
    ensures Structure(pages', levels + [[Link(Least, |pages|)]], |pages|, Settled)
    ensures i == 0 && levels[h] == [Link(Least, root), levels[h][1]]
  {
    hide Joins, Distinct, Known, InsertAt, AllInHeap;
    var x := levels[h][i + 1].id;
    var n := |pages|;
    var levels' := levels + [[Link(Least, n)]];
    KnownSettled(levels');
    KnownOpen(levels, h, i);
    TopOpen(levels, h, i, root);
    RootIsKnown(pages, levels, root, h, i);
    HeapGrow(pages, pages', levels, h);
    DistinctGrow(pages, levels);
    forall l | 1 <= l < |levels'| ensures Joins(pages', levels'[l], levels'[l - 1]) {
      if l < |levels| {
        assert Joins(pages, levels[l], Known(levels, l - 1, Open(h, i)));
        LevelAvoids(levels, l - 1, h, 1);
        LevelAvoids(levels, l - 1, h, 0);
        PageIsIn(pages, levels, l);
        RootKeepsJoins(pages, pages', levels[l], levels[l - 1], root, x);
      } else {
        RootJoins(pages', n, first, root, sep, x);
      }
    }
  }

  lemma RootKeepsJoins(pages: seq<Page>, pages': seq<Page>, upper: seq<Link>, lower: seq<Link>, root: nat, x: nat)
    requires Joins(pages, upper, lower) && InHeap(pages, lower) && Avoids(lower, x) && Avoids(lower, root) &&
             |pages| <= |pages'|
    requires forall y :: 0 <= y < |pages| ==> pages'[y].recs == pages[y].recs && pages'[y].isLeaf == pages[y].isLeaf
    requires forall y :: 0 <= y < |pages| && y != x && y != root ==> pages'[y].parent == pages[y].parent
    ensures Joins(pages', upper, lower)
  {
    hide Expand;
    JoinsFrame(pages, pages', upper, lower);
  }

  lemma TopOpen(levels: seq<seq<Link>>, h: nat, i: nat, root: nat)
    requires h < |levels| && i + 1 < |levels[h]| && Known(levels, h, Open(h, i)) == [Link(Least, root)]
    ensures i == 0 && levels[h] == [Link(Least, root), levels[h][1]]
  {
    assert |levels[h]| == 2;
    assert Known(levels, h, Open(h, i))[0] == levels[h][0];
  }

  lemma HeapGrow(pages: seq<Page>, pages': seq<Page>, levels: seq<seq<Link>>, h: nat)
    requires AllInHeap(pages, levels) && h < |levels| && levels[h] != [] && |pages'| == |pages| + 1
    ensures AllInHeap(pages', levels + [[Link(Least, |pages|)]])
  {
    var levels' := levels + [[Link(Least, |pages|)]];
    assert InHeap(pages, levels[h]);
    assert levels[h][0].id < |pages|;
    forall l | 0 <= l < |levels'| ensures InHeap(pages', levels'[l]) {
      if l < |levels| {
        assert InHeap(pages, levels[l]);
      }
    }
  }

  lemma DistinctGrow(pages: seq<Page>, levels: seq<seq<Link>>)
    requires Distinct(levels) && AllInHeap(pages, levels)
    ensures Distinct(levels + [[Link(Least, |pages|)]])
  {
    var levels': seq<seq<Link>> := levels + [[Link(Least, |pages|)]];
    forall l, i | 0 <= l < |levels| && 0 <= i < |levels[l]| ensures levels'[l][i].id < |pages| {
      assert InHeap(pages, levels[l]);
    }
  }

  lemma RootJoins(pages: seq<Page>, n: nat, first: real, left: nat, sep: real, right: nat)
    requires 1 <= n < |pages| && left < |pages| && right < |pages|
    requires pages[n].recs == [Entry(first, left), Entry(sep, right)] && !pages[n].isLeaf
    requires pages[left].parent == n && pages[right].parent == n
    ensures Joins(pages, [Link(Least, n)], [Link(Least, left), Link(Key(sep), right)])
  {
    ExpandOne(pages, Link(Least, n));
  }
}
