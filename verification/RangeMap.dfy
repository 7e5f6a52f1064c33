/** Key ranges of the Ends, and the binary search that routes a key. */
module RangeMap {
  import opened Wrappers

  datatype EndInfo = EndInfo(id: int, edge: int, lo: real, hi: real)

  predicate Contains(e: EndInfo, k: real) {
    e.lo <= k <= e.hi
  }

  ghost predicate SortedByLow(ends: seq<EndInfo>) {
    forall i, j :: 0 <= i < j < |ends| ==> ends[i].lo <= ends[j].lo
  }

  /** Upper bounds do not decrease either; disjoint ranges are the special case. */
  ghost predicate HighsAscend(ends: seq<EndInfo>) {
    forall i, j :: 0 <= i < j < |ends| ==> ends[i].hi <= ends[j].hi
  }

  /** Binary search between two positions, both included. */
  function Search(ends: seq<EndInfo>, k: real, lo: int, hi: int): (r: int)
    requires 0 <= lo && hi < |ends|
    ensures r == -1 || (0 <= r < |ends| && Contains(ends[r], k))
    decreases hi - lo + 1
  {
    if lo > hi then -1
    else
      var mid := (lo + hi) / 2;
      if k < ends[mid].lo then Search(ends, k, lo, mid - 1)
      else if k > ends[mid].hi then Search(ends, k, mid + 1, hi)
      else mid
  }

  /** The End whose range holds the key, or -1. */
  function Locate(ends: seq<EndInfo>, k: real): int {
    var m := Search(ends, k, 0, |ends| - 1);
    if m == -1 then -1 else ends[m].id
  }

  method LocateEnd(ends: seq<EndInfo>, k: real) returns (r: int)
    ensures r == Locate(ends, k)
  {
    var lo, hi := 0, |ends| - 1;
    while lo <= hi
      invariant 0 <= lo && hi < |ends| && lo <= hi + 1
      invariant Search(ends, k, lo, hi) == Search(ends, k, 0, |ends| - 1)
    {
      var mid := (lo + hi) / 2;
      if k < ends[mid].lo {
        hi := mid - 1;
      } else if k > ends[mid].hi {
        lo := mid + 1;
      } else {
        return ends[mid].id;
      }
    }
    r := -1;
  }

  /** Some range at the positions lo .. hi holds the key. */
  ghost predicate HeldIn(ends: seq<EndInfo>, k: real, lo: int, hi: int) {
    exists m :: 0 <= m < |ends| && lo <= m <= hi && Contains(ends[m], k)
  }

  /** Whenever the search turns away from some positions, they hold the key only if the kept ones do as well. */
  ghost predicate NeverLost(ends: seq<EndInfo>, k: real, lo: int, hi: int)
    requires 0 <= lo && hi < |ends|
    decreases hi - lo + 1
  {
    lo > hi ||
    var mid := (lo + hi) / 2;
    if k < ends[mid].lo then
      (HeldIn(ends, k, mid + 1, hi) ==> HeldIn(ends, k, lo, mid - 1)) && NeverLost(ends, k, lo, mid - 1)
    else if k > ends[mid].hi then
      (HeldIn(ends, k, lo, mid - 1) ==> HeldIn(ends, k, mid + 1, hi)) && NeverLost(ends, k, mid + 1, hi)
    else true
  }

  lemma HeldSplits(ends: seq<EndInfo>, k: real, lo: int, hi: int)
    requires 0 <= lo <= hi < |ends| && !Contains(ends[(lo + hi) / 2], k)
    ensures HeldIn(ends, k, lo, hi) <==>
            HeldIn(ends, k, lo, (lo + hi) / 2 - 1) || HeldIn(ends, k, (lo + hi) / 2 + 1, hi)
  {
    var mid := (lo + hi) / 2;
    if m :| 0 <= m < |ends| && lo <= m <= hi && Contains(ends[m], k) {
      assert m != mid;
    }
  }

  lemma {:induction false} SearchIff(ends: seq<EndInfo>, k: real, lo: int, hi: int)
    requires 0 <= lo && hi < |ends|
    ensures (Search(ends, k, lo, hi) != -1 <==> HeldIn(ends, k, lo, hi)) <==> NeverLost(ends, k, lo, hi)
    ensures Search(ends, k, lo, hi) != -1 ==> HeldIn(ends, k, lo, hi)
    decreases hi - lo + 1
  {
    if lo <= hi {
      var mid := (lo + hi) / 2;
      if k < ends[mid].lo {
        HeldSplits(ends, k, lo, hi);
        SearchIff(ends, k, lo, mid - 1);
      } else if k > ends[mid].hi {
        HeldSplits(ends, k, lo, hi);
        SearchIff(ends, k, mid + 1, hi);
      }
    }
  }

  /** A routed key is in the range it is routed to. For each key, the search is exact (unroutable exactly when no
      range holds the key) if and only if it never turns away from the only ranges that hold it. */
  lemma LocateIsExact(ends: seq<EndInfo>, k: real)
    requires forall m :: 0 <= m < |ends| ==> ends[m].id >= 0
    ensures Locate(ends, k) != -1 ==>
              exists m :: 0 <= m < |ends| && ends[m].id == Locate(ends, k) && Contains(ends[m], k)
    ensures (Locate(ends, k) == -1 <==> forall m :: 0 <= m < |ends| ==> !Contains(ends[m], k)) <==>
            NeverLost(ends, k, 0, |ends| - 1)
  {
    SearchIff(ends, k, 0, |ends| - 1);
    assert HeldIn(ends, k, 0, |ends| - 1) <==> exists m :: 0 <= m < |ends| && Contains(ends[m], k);
  }

  // ----- a condition on the ranges alone

  /** The keys for which a search comes to an interval of positions: at least `from`, above `above`, below `below`. */
  datatype Window = Window(from: Option<real>, above: Option<real>, below: Option<real>)

  ghost predicate InWindow(w: Window, k: real) {
    && (w.from.Some? ==> w.from.value <= k)
    && (w.above.Some? ==> w.above.value < k)
    && (w.below.Some? ==> k < w.below.value)
  }

  /** The search turns left at a range: the key is below it. */
  function LeftOf(w: Window, e: EndInfo): Window {
    w.(below := if w.below.Some? && w.below.value < e.lo then w.below else Some(e.lo))
  }

  /** The search turns right: the key is not below the range, but above its upper bound. */
  function RightOf(w: Window, e: EndInfo): Window {
    w.(from := if w.from.Some? && w.from.value > e.lo then w.from else Some(e.lo),
       above := if w.above.Some? && w.above.value > e.hi then w.above else Some(e.hi))
  }

  /** The range and the window have a key in common. */
  predicate Meets(w: Window, e: EndInfo) {
    && e.lo <= e.hi
    && (w.from.Some? ==> w.from.value <= e.hi)
    && (w.above.Some? ==> w.above.value < e.hi)
    && (w.below.Some? ==> e.lo < w.below.value)
    && (w.below.Some? && w.from.Some? ==> w.from.value < w.below.value)
    && (w.below.Some? && w.above.Some? ==> w.above.value < w.below.value)
  }

  /** Wherever the search gives up, no range lies in the window it has come to. */
  predicate GapsClear(ends: seq<EndInfo>, lo: int, hi: int, w: Window)
    requires 0 <= lo && hi < |ends|
    decreases hi - lo + 1
  {
    if lo > hi then forall m :: 0 <= m < |ends| ==> !Meets(w, ends[m])
    else
      var mid := (lo + hi) / 2;
      GapsClear(ends, lo, mid - 1, LeftOf(w, ends[mid])) && GapsClear(ends, mid + 1, hi, RightOf(w, ends[mid]))
  }

  lemma MeetsIff(w: Window, e: EndInfo)
    ensures Meets(w, e) <==> exists k :: InWindow(w, k) && Contains(e, k)
  {
    if Meets(w, e) {
      var low := if w.from.Some? && w.from.value > e.lo then w.from.value else e.lo;
      var high := if w.below.Some? && w.below.value < e.hi then w.below.value else e.hi;
      // above all lower limits and below all upper ones
      var k := if w.above.Some? && w.above.value >= low then (w.above.value + high) / 2.0 else low;
      assert InWindow(w, k) && Contains(e, k);
    }
  }

  /** The search is exact for all keys of the window. */
  ghost predicate ExactIn(ends: seq<EndInfo>, lo: int, hi: int, w: Window)
    requires 0 <= lo && hi < |ends|
  {
    forall k, m :: InWindow(w, k) && 0 <= m < |ends| && Contains(ends[m], k) ==> Search(ends, k, lo, hi) != -1
  }

  lemma {:induction false} GapsClearIff(ends: seq<EndInfo>, lo: int, hi: int, w: Window)
    requires 0 <= lo && hi < |ends|
    ensures GapsClear(ends, lo, hi, w) <==> ExactIn(ends, lo, hi, w)
    decreases hi - lo + 1
  {
    if lo > hi {
      forall m | 0 <= m < |ends| ensures Meets(w, ends[m]) <==> exists k :: InWindow(w, k) && Contains(ends[m], k) {
        MeetsIff(w, ends[m]);
      }
    } else {
      var mid := (lo + hi) / 2;
      GapsClearIff(ends, lo, mid - 1, LeftOf(w, ends[mid]));
      GapsClearIff(ends, mid + 1, hi, RightOf(w, ends[mid]));
      TurnsAre(w, ends[mid]);
      ExactSplits(ends, lo, hi, w);
    }
  }

  lemma TurnsAre(w: Window, e: EndInfo)
    ensures forall k :: InWindow(LeftOf(w, e), k) <==> InWindow(w, k) && k < e.lo
    ensures forall k :: InWindow(RightOf(w, e), k) <==> InWindow(w, k) && k >= e.lo && k > e.hi
  {}

  lemma ExactSplits(ends: seq<EndInfo>, lo: int, hi: int, w: Window)
    requires 0 <= lo <= hi < |ends|
    ensures var mid := (lo + hi) / 2;
            ExactIn(ends, lo, hi, w) <==>
            ExactIn(ends, lo, mid - 1, LeftOf(w, ends[mid])) && ExactIn(ends, mid + 1, hi, RightOf(w, ends[mid]))
  {
    hide InWindow, LeftOf, RightOf;
    var mid := (lo + hi) / 2;
    TurnsAre(w, ends[mid]);
    var l, r := LeftOf(w, ends[mid]), RightOf(w, ends[mid]);
    if ExactIn(ends, lo, mid - 1, l) && ExactIn(ends, mid + 1, hi, r) {
      forall k, m | InWindow(w, k) && 0 <= m < |ends| && Contains(ends[m], k) ensures Search(ends, k, lo, hi) != -1 {
        assert k < ends[mid].lo ==> InWindow(l, k);
        assert k >= ends[mid].lo && k > ends[mid].hi ==> InWindow(r, k);
      }
    }
  }

  /** What an operator can check: the search routes every key that some range holds, if and only if no range lies where
      the search gives up. */
  lemma AllKeysExactIff(ends: seq<EndInfo>)
    requires forall m :: 0 <= m < |ends| ==> ends[m].id >= 0
    ensures GapsClear(ends, 0, |ends| - 1, Window(None, None, None)) <==>
            forall k :: Locate(ends, k) == -1 <==> forall m :: 0 <= m < |ends| ==> !Contains(ends[m], k)
  {
    hide Search;
    var n := |ends| - 1;
    GapsClearIff(ends, 0, n, Window(None, None, None));
    forall k ensures Locate(ends, k) == -1 <==> Search(ends, k, 0, n) == -1 {}
    if GapsClear(ends, 0, n, Window(None, None, None)) {
      forall k ensures Locate(ends, k) == -1 <==> forall m :: 0 <= m < |ends| ==> !Contains(ends[m], k) {
        assert InWindow(Window(None, None, None), k);
        if m :| 0 <= m < |ends| && Contains(ends[m], k) {
          assert Search(ends, k, 0, n) != -1;
        }
      }
    }
  }

  /** Ascending lower and upper bounds suffice; disjoint sorted ranges are a special case. */
  lemma {:induction false} AscendingNeverLost(ends: seq<EndInfo>, k: real, lo: int, hi: int)
    requires 0 <= lo && hi < |ends| && SortedByLow(ends) && HighsAscend(ends)
    ensures NeverLost(ends, k, lo, hi)
    decreases hi - lo + 1
  {
    if lo <= hi {
      var mid := (lo + hi) / 2;
      if k < ends[mid].lo {
        AscendingNeverLost(ends, k, lo, mid - 1);
      } else if k > ends[mid].hi {
        AscendingNeverLost(ends, k, mid + 1, hi);
      }
    }
  }

  /** They are not necessary: two nested ranges are searched exactly. */
  lemma TwoNestedAreFound(k: real)
    ensures var ends := [EndInfo(1, 1, 0.0, 10.0), EndInfo(2, 1, 1.0, 2.0)];
            !HighsAscend(ends) && NeverLost(ends, k, 0, 1)
  {
    var ends := [EndInfo(1, 1, 0.0, 10.0), EndInfo(2, 1, 1.0, 2.0)];
    assert ends[0].hi > ends[1].hi;
    assert HeldIn(ends, k, 0, -1) == false;
    if k > 10.0 {
      assert !HeldIn(ends, k, 0, 0) && !HeldIn(ends, k, 1, 1);
    } else if k < 0.0 {
      assert !HeldIn(ends, k, 1, 1);
    }
  }

  /** With a wide range before two narrow ones it is lost: the search walks away from the range that holds the key. */
  lemma NestedRangesAreMissed()
    ensures var ends := [EndInfo(1, 1, 0.0, 10.0), EndInfo(2, 1, 1.0, 2.0), EndInfo(3, 1, 3.0, 4.0)];
            SortedByLow(ends) && Contains(ends[0], 5.0) && Locate(ends, 5.0) == -1 && !NeverLost(ends, 5.0, 0, 2)
  {
    var ends := [EndInfo(1, 1, 0.0, 10.0), EndInfo(2, 1, 1.0, 2.0), EndInfo(3, 1, 3.0, 4.0)];
    assert Search(ends, 5.0, 3, 2) == -1;
    assert Search(ends, 5.0, 2, 2) == -1;
    assert Search(ends, 5.0, 0, 2) == -1;
    assert Contains(ends[0], 5.0);
    SearchIff(ends, 5.0, 0, 2);
  }

  /** The Edge of the first End with the id, or -1. */
  function EdgeOf(ends: seq<EndInfo>, id: int): int {
    if ends == [] then -1
    else if ends[0].id == id then ends[0].edge
    else EdgeOf(ends[1..], id)
  }

  predicate SameEdge(ends: seq<EndInfo>, a: int, b: int) {
    EdgeOf(ends, a) == EdgeOf(ends, b) && EdgeOf(ends, a) >= 0
  }

  ghost predicate UniqueIds(ends: seq<EndInfo>) {
    forall i, j :: 0 <= i < j < |ends| ==> ends[i].id != ends[j].id
  }

  /** Two Ends share an Edge exactly when both are configured and name the same one. */
  lemma SameEdgeIff(ends: seq<EndInfo>, a: int, b: int)
    requires UniqueIds(ends) && forall m :: 0 <= m < |ends| ==> ends[m].edge >= 0
    ensures SameEdge(ends, a, b) <==>
            exists m, n :: 0 <= m < |ends| && 0 <= n < |ends| && ends[m].id == a && ends[n].id == b &&
                           ends[m].edge == ends[n].edge
  {
    EdgeOfAny(ends, a);
    EdgeOfAny(ends, b);
    if m, n :| 0 <= m < |ends| && 0 <= n < |ends| && ends[m].id == a && ends[n].id == b &&
                ends[m].edge == ends[n].edge {
      EdgeOfIs(ends, m);
      EdgeOfIs(ends, n);
    }
  }

  lemma {:induction false} EdgeOfAny(ends: seq<EndInfo>, a: int)
    ensures EdgeOf(ends, a) == -1 || exists m :: 0 <= m < |ends| && ends[m].id == a && ends[m].edge == EdgeOf(ends, a)
  {
    if ends != [] && ends[0].id != a {
      EdgeOfAny(ends[1..], a);
      if m :| 0 <= m < |ends[1..]| && ends[1..][m].id == a && ends[1..][m].edge == EdgeOf(ends[1..], a) {
        assert ends[m + 1] == ends[1..][m];
      }
    }
  }

  lemma {:induction false} EdgeOfIs(ends: seq<EndInfo>, m: nat)
    requires UniqueIds(ends) && m < |ends|
    ensures EdgeOf(ends, ends[m].id) == ends[m].edge
  {
    if m > 0 {
      EdgeOfIs(ends[1..], m - 1);
    }
  }
}
