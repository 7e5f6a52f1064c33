/** The leaf pages of an overflow tree from left to right, and what a value of 0 does to a search. */
module TreePages {
  import opened Wrappers
  import opened SortedRecords

  /** Leaf pages of a tree; no pages stand for a tree that has not been created. */
  type Pages = seq<seq<Entry>>

  /** Records a page has room for: (256 - 48) / 16. */
  const CARDINALITY := 13

  /** A value of 0 is a null pointer: the page then counts fewer values than it has records. */
  predicate HasNull(o: seq<Entry>) {
    exists i :: 0 <= i < |o| && o[i].payload == 0
  }

  /** All records in key order, as the leaf chain lists them. */
  function Flatten(ps: Pages): seq<Entry> {
    if ps == [] then [] else ps[0] + Flatten(ps[1..])
  }

  /** Pages are in key order, and only the first may be empty. */
  ghost predicate Ordered(ps: Pages) {
    |ps| >= 1 && SortedByKey(Flatten(ps)) && forall i :: 1 <= i < |ps| ==> ps[i] != []
  }

  /** The page a search ends in: the last one that does not begin above the key, or the first. */
  function PageOf(ps: Pages, key: real): (i: nat)
    requires |ps| >= 1
    ensures i < |ps|
  {
    var n := |ps| - 1;
    if n == 0 || (ps[n] != [] && ps[n][0].key <= key) then n else PageOf(ps[..n], key)
  }

  /** The search finds a page whose count differs from its record number, and the process exits. */
  predicate Stops(ps: Pages, key: real)
    requires |ps| >= 1
  {
    HasNull(ps[PageOf(ps, key)])
  }

  /** A page that has become full is cut in two. */
  function Halves(page: seq<Entry>, card: nat): Pages {
    if |page| < card then [page]
    else
      var left := |page| - |page| / 2;
      [page[..left], page[left..]]
  }

  /** Upsert into the page of the key. */
  function Put(ps: Pages, e: Entry, card: nat): Pages
    requires |ps| >= 1
  {
    var i := PageOf(ps, e.key);
    ps[..i] + Halves(Upserted(ps[i], e), card) + ps[i + 1..]
  }

  function Lookup(ps: Pages, key: real): Option<nat>
    requires |ps| >= 1
  {
    FindSorted(ps[PageOf(ps, key)], key)
  }

  // ----- pages and records

  lemma {:induction false} FlatConcat(a: Pages, b: Pages)
    ensures Flatten(a + b) == Flatten(a) + Flatten(b)
  {
    if a == [] {
      assert a + b == b;
    } else {
      FlatConcat(a[1..], b);
      assert (a + b)[0] == a[0] && (a + b)[1..] == a[1..] + b;
      assert a[0] + (Flatten(a[1..]) + Flatten(b)) == a[0] + Flatten(a[1..]) + Flatten(b);
    }
  }

  lemma FlatOne(page: seq<Entry>)
    ensures Flatten([page]) == page
  {
    assert Flatten([page][1..]) == [];
  }

  lemma FlatAround(ps: Pages, i: nat)
    requires i < |ps|
    ensures Flatten(ps) == Flatten(ps[..i]) + ps[i] + Flatten(ps[i + 1..])
  {
    hide Flatten;
    var a, c := ps[..i], ps[i + 1..];
    FlatConcat(a, ps[i..]);
    assert a + ps[i..] == ps;
    FlatConcat([ps[i]], c);
    assert [ps[i]] + c == ps[i..];
    FlatOne(ps[i]);
    assert Flatten(a) + (ps[i] + Flatten(c)) == Flatten(a) + ps[i] + Flatten(c);
  }

  lemma {:induction false} FlatFrom(ps: Pages, e: Entry) returns (i: nat)
    requires e in Flatten(ps)
    ensures i < |ps| && e in ps[i]
  {
    if e in ps[0] {
      i := 0;
    } else {
      i := FlatFrom(ps[1..], e);
      i := i + 1;
    }
  }

  lemma FlatHas(ps: Pages, i: nat, e: Entry)
    requires i < |ps| && e in ps[i]
    ensures e in Flatten(ps)
  {
    FlatAround(ps, i);
  }

  lemma MiddleSorted(a: seq<Entry>, b: seq<Entry>, c: seq<Entry>)
    requires SortedByKey(a + b + c)
    ensures SortedByKey(a) && SortedByKey(b) && SortedByKey(c)
    ensures forall x, y :: x in a && y in b ==> x.key < y.key
    ensures forall x, y :: x in b && y in c ==> x.key < y.key
    ensures forall x, y :: x in a && y in c ==> x.key < y.key
  {
    var s := a + b + c;
    assert forall i :: 0 <= i < |a| ==> a[i] == s[i];
    assert forall i :: 0 <= i < |b| ==> b[i] == s[|a| + i];
    assert forall i :: 0 <= i < |c| ==> c[i] == s[|a| + |b| + i];
  }

  lemma FrontOrdered(ps: Pages, n: nat)
    requires Ordered(ps) && 1 <= n <= |ps|
    ensures Ordered(ps[..n])
  {
    assert ps == ps[..n] + ps[n..];
    FlatConcat(ps[..n], ps[n..]);
    assert Flatten(ps) == Flatten(ps[..n]) + Flatten(ps[n..]) + [];
    MiddleSorted(Flatten(ps[..n]), Flatten(ps[n..]), []);
  }

  /** Left of the page of a key all records are smaller, right of it all are larger. */
  lemma {:induction false} PageSplits(ps: Pages, key: real)
    requires Ordered(ps)
    ensures var i := PageOf(ps, key);
            && (forall e :: e in Flatten(ps[..i]) ==> e.key < key)
            && (forall e :: e in Flatten(ps[i + 1..]) ==> key < e.key)
  {
    hide Flatten, SortedByKey;
    var n, i := |ps| - 1, PageOf(ps, key);
    FlatAround(ps, n);
    MiddleSorted(Flatten(ps[..n]), ps[n], Flatten(ps[n + 1..]));
    NoPages(ps[n + 1..]);
    NoPages(ps[..0]);
    if i < n {
      var front := ps[..n];
      FrontOrdered(ps, n);
      PageSplits(front, key);
      assert ps[..i] == front[..i] && ps[i + 1..] == front[i + 1..] + [ps[n]];
      FlatConcat(front[i + 1..], [ps[n]]);
      FlatOne(ps[n]);
      PageAbove(ps[n], key);
    } else if n > 0 {
      assert ps[n][0] in ps[n];
    }
  }

  lemma NoPages(ps: Pages)
    requires ps == []
    ensures Flatten(ps) == []
  {}

  lemma PageAbove(page: seq<Entry>, key: real)
    requires SortedByKey(page) && page != [] && key < page[0].key
    ensures forall e :: e in page ==> key < e.key
  {
    forall e | e in page ensures key < e.key {
      var j :| 0 <= j < |page| && page[j] == e;
    }
  }

  lemma {:induction false} PageOfIs(ps: Pages, key: real, i: nat)
    requires i < |ps| && (i > 0 ==> ps[i] != [] && ps[i][0].key <= key)
    requires forall j :: i < j < |ps| ==> ps[j] != [] && key < ps[j][0].key
    ensures PageOf(ps, key) == i
  {
    var n := |ps| - 1;
    if i < n {
      PageOfIs(ps[..n], key, i);
    }
  }

  /** A search of the page of a key is a search of all records. */
  lemma LookupIs(ps: Pages, key: real)
    requires Ordered(ps)
    ensures Lookup(ps, key) == FindSorted(Flatten(ps), key)
  {
    hide FindSorted;
    var i := PageOf(ps, key);
    PageSplits(ps, key);
    FlatAround(ps, i);
    assert Flatten(ps[..i]) + ps[i] + Flatten(ps[i + 1..]) == Flatten(ps[..i]) + (ps[i] + Flatten(ps[i + 1..]));
    FindPrefix(Flatten(ps[..i]), ps[i] + Flatten(ps[i + 1..]), key);
    FindSuffix(ps[i], Flatten(ps[i + 1..]), key);
  }

  lemma HalvesFlat(page: seq<Entry>, card: nat)
    requires page != [] && card >= 3
    ensures Flatten(Halves(page, card)) == page && |Halves(page, card)| >= 1
    ensures forall i :: 0 <= i < |Halves(page, card)| ==> Halves(page, card)[i] != []
  {
    if |page| < card {
      FlatOne(page);
    } else {
      var left := |page| - |page| / 2;
      assert Halves(page, card) == [page[..left]] + [page[left..]];
      FlatConcat([page[..left]], [page[left..]]);
      FlatOne(page[..left]);
      FlatOne(page[left..]);
    }
  }

  /** An upsert into the page of a key is an upsert into all records. */
  lemma PutIs(ps: Pages, e: Entry, card: nat)
    requires Ordered(ps) && card >= 3
    ensures Ordered(Put(ps, e, card)) && Flatten(Put(ps, e, card)) == Upserted(Flatten(ps), e)
  {
    hide Upserted, Halves, Flatten, SortedByKey, PageOf;
    var i := PageOf(ps, e.key);
    var a, c := ps[..i], ps[i + 1..];
    var page := Upserted(ps[i], e);
    var h := Halves(page, card);
    PageSplits(ps, e.key);
    FlatAround(ps, i);
    MiddleSorted(Flatten(a), ps[i], Flatten(c));
    UpsertMiddle(Flatten(a), ps[i], Flatten(c), e);
    UpsertedContents(ps[i], e, e);
    HalvesFlat(page, card);
    FlatConcat(a + h, c);
    FlatConcat(a, h);
    UpsertedSorted(Flatten(ps), e);
    PutNotEmpty(ps, i, h);
  }

  lemma UpsertMiddle(a: seq<Entry>, b: seq<Entry>, c: seq<Entry>, e: Entry)
    requires (forall x :: x in a ==> x.key < e.key) && (forall x :: x in c ==> e.key < x.key)
    ensures Upserted(a + b + c, e) == a + Upserted(b, e) + c
  {
    hide Upserted;
    assert a + b + c == a + (b + c);
    UpsertPrefix(a, b + c, e);
    UpsertSuffix(b, c, e);
    assert a + (Upserted(b, e) + c) == a + Upserted(b, e) + c;
  }

  lemma PutNotEmpty(ps: Pages, i: nat, h: Pages)
    requires i < |ps| && (forall j :: 1 <= j < |ps| ==> ps[j] != [])
    requires |h| >= 1 && forall j :: 0 <= j < |h| ==> h[j] != []
    ensures var u := ps[..i] + h + ps[i + 1..]; forall j :: 1 <= j < |u| ==> u[j] != []
  {
    var u := ps[..i] + h + ps[i + 1..];
    forall j | 1 <= j < |u| ensures u[j] != [] {
      if j < i {
        assert u[j] == ps[j];
      } else if j < i + |h| {
        assert u[j] == h[j - i];
      } else {
        assert u[j] == ps[j - |h| + 1];
      }
    }
  }

  // ----- values of 0

  /** A search for a record ends in the page that holds it. */
  lemma OwnPage(ps: Pages, e: Entry)
    requires Ordered(ps) && e in Flatten(ps)
    ensures e in ps[PageOf(ps, e.key)]
  {
    var i := PageOf(ps, e.key);
    PageSplits(ps, e.key);
    FlatAround(ps, i);
    assert e in Flatten(ps[..i]) + ps[i] + Flatten(ps[i + 1..]);
  }

  /** Some search of a tree ends the process exactly when a value of 0 is in the tree: the search for its own key. */
  lemma NullStops(ps: Pages)
    requires Ordered(ps)
    ensures HasNull(Flatten(ps)) <==> exists key :: Stops(ps, key)
    ensures forall e :: e in Flatten(ps) && e.payload == 0 ==> Stops(ps, e.key)
  {
    forall e | e in Flatten(ps) && e.payload == 0 ensures Stops(ps, e.key) {
      OwnPage(ps, e);
    }
    if HasNull(Flatten(ps)) {
      var i :| 0 <= i < |Flatten(ps)| && Flatten(ps)[i].payload == 0;
      assert Flatten(ps)[i] in Flatten(ps);
      assert Stops(ps, Flatten(ps)[i].key);
    }
    if key :| Stops(ps, key) {
      var p := ps[PageOf(ps, key)];
      var j :| 0 <= j < |p| && p[j].payload == 0;
      FlatHas(ps, PageOf(ps, key), p[j]);
      var i :| 0 <= i < |Flatten(ps)| && Flatten(ps)[i] == p[j];
    }
  }

  /** The only value of 0, if any, is the last record. */
  ghost predicate NullsLast(o: seq<Entry>) {
    forall i :: 0 <= i < |o| - 1 ==> o[i].payload != 0
  }

  ghost predicate EndsInNull(o: seq<Entry>) {
    o != [] && o[|o| - 1].payload == 0
  }

  /** Appending in key order: the search stops exactly when the record before was a value of 0. */
  lemma AppendStops(ps: Pages, key: real)
    requires Ordered(ps) && NullsLast(Flatten(ps)) && forall e :: e in Flatten(ps) ==> e.key < key
    ensures Stops(ps, key) <==> EndsInNull(Flatten(ps))
  {
    hide Flatten, SortedByKey, PageOf;
    LastPage(ps, key);
    var n := |ps| - 1;
    FlatAround(ps, n);
    NoPages(ps[n + 1..]);
    var f, p := Flatten(ps[..n]), ps[n];
    assert Flatten(ps) == f + p;
    forall j | 0 <= j < |p| ensures p[j] == Flatten(ps)[|f| + j] {}
    if p == [] {
      NoPages(ps[..0]);
    } else if EndsInNull(Flatten(ps)) {
      assert p[|p| - 1].payload == 0;
    }
  }

  lemma LastPage(ps: Pages, key: real)
    requires Ordered(ps) && forall e :: e in Flatten(ps) ==> e.key < key
    ensures PageOf(ps, key) == |ps| - 1
  {
    hide Flatten, SortedByKey;
    var n := |ps| - 1;
    if n > 0 {
      FlatHas(ps, n, ps[n][0]);
    }
  }

  /** ... and the new record is the last one afterwards. */
  lemma {:induction false} AppendIsLast(o: seq<Entry>, e: Entry)
    requires forall x :: x in o ==> x.key < e.key
    ensures Upserted(o, e) == o + [e]
  {
    assert o + [] == o;
    UpsertPrefix(o, [], e);
  }
}
