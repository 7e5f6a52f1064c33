/** Breadth-first search for a displacement path: what it walks, the size of its queue and the code of its paths. */
module CuckooPath {
  import opened Wrappers
  import opened CuckooIndex
  import CM = CuckooMap

  const MAX_BFS_PATH_LEN := 5

  /** The bucket at the end of a path, the path as a 16-bit code, and its length. */
  datatype BSlot = BSlot(bucket: bv64, pathcode: nat, depth: int)

  /** A path as it was walked: from the first or the second bucket, through these slots. */
  datatype Walk = Walk(second: bool, slots: seq<nat>)

  function Pow(a: nat, b: nat): nat {
    if b == 0 then 1 else a * Pow(a, b - 1)
  }

  /** Queue size: twice the geometric sum 1 + s + ... + s^4, in the closed form of the code. */
  function MaxCuckooCount(s: nat): int
    requires s > 0
  {
    2 * (if s == 1 then MAX_BFS_PATH_LEN else (Pow(s, MAX_BFS_PATH_LEN) - 1) / (s - 1))
  }

  /** How many queue entries can still be produced below an entry of this depth. */
  ghost function Below(s: nat, depth: int): nat
    decreases MAX_BFS_PATH_LEN - depth
  {
    if depth >= MAX_BFS_PATH_LEN - 1 then 0 else s * (1 + Below(s, depth + 1))
  }

  ghost function Pending(s: nat, q: seq<BSlot>): nat {
    if q == [] then 0 else Pending(s, q[..|q| - 1]) + Below(s, q[|q| - 1].depth)
  }

  lemma {:induction false} PendingHead(s: nat, q: seq<BSlot>)
    requires |q| > 0
    ensures Pending(s, q) == Below(s, q[0].depth) + Pending(s, q[1..])
  {
    var n := |q| - 1;
    if n > 0 {
      PendingHead(s, q[..n]);
      assert q[..n][1..] == q[1..][..n - 1];
      assert q[1..][n - 1] == q[n];
    }
  }

  lemma PowFive(s: nat)
    ensures Pow(s, 5) == s * (s * (s * (s * s)))
  {
    assert Pow(s, 1) == s * Pow(s, 0) == s;
    assert Pow(s, 2) == s * s;
    assert Pow(s, 3) == s * (s * s);
    assert Pow(s, 4) == s * (s * (s * s));
  }

  lemma GeometricSum(s: nat)
    requires s > 0
    ensures MaxCuckooCount(s) == 2 * (1 + Below(s, 0))
  {
    if s == 1 {
      assert Below(1, 4) == 0 && Below(1, 3) == 1 && Below(1, 2) == 2 && Below(1, 1) == 3;
    } else {
      hide Times, Below, Pow;
      SumOfPowers(s, 4);
      LowDigit(Pow(s, 5) - 1, 1 + Below(s, 0), s - 1, 0);
    }
  }

  /** The sum of the first k + 1 powers, times s - 1. */
  lemma {:induction false} SumOfPowers(s: nat, k: nat)
    requires k < MAX_BFS_PATH_LEN
    ensures Times(1 + Below(s, 4 - k), s - 1) == Pow(s, k + 1) - 1
  {
    hide Times, Below, Pow;
    BelowStep(s, 4 - k);
    PowStep(s, k + 1);
    if k == 0 {
      PowStep(s, 0);
      OneTimes(s);
    } else {
      SumOfPowers(s, k - 1);
      SumStep(s, 1 + Below(s, 5 - k), Pow(s, k));
    }
  }

  lemma PowStep(s: nat, b: nat)
    ensures b == 0 ==> Pow(s, b) == 1
    ensures b > 0 ==> Pow(s, b) == Times(s, Pow(s, b - 1))
  {}

  lemma OneTimes(s: int)
    ensures Times(s, 1) == s && Times(1, s - 1) == s - 1
  {}

  /** One Horner step of the geometric sum. */
  lemma SumStep(s: int, x: int, p: int)
    requires Times(x, s - 1) == p - 1
    ensures Times(1 + Times(s, x), s - 1) == Times(s, p) - 1
  {
    assert (s * x) * (s - 1) == s * (x * (s - 1));
  }

  // ----- division by a variable

  function Times(a: int, b: int): int {
    a * b
  }

  lemma TimesLess(a: int, b: int, s: int)
    ensures Times(a - b, s) == Times(a, s) - Times(b, s)
  {}

  lemma TimesAtLeast(d: int, s: int)
    requires s > 0
    ensures d >= 1 ==> Times(d, s) >= s
    ensures d <= -1 ==> Times(d, s) <= -s
  {}

  lemma Euclid(x: int, s: int)
    requires s > 0
    ensures x == Times(x / s, s) + x % s && 0 <= x % s < s
  {}

  lemma LowDigit(x: int, a: int, s: int, d: int)
    requires 0 <= d < s && x == Times(a, s) + d
    ensures x % s == d && x / s == a
  {
    hide Times;
    Euclid(x, s);
    var q := x / s;
    TimesLess(a, q, s);
    TimesAtLeast(a - q, s);
  }

  // ----- path codes

  /** Appending a slot to a code kept in 16 bits. */
  function Extend(code: nat, s: nat, slot: nat): nat {
    (code * s + slot) % 0x1_0000
  }

  ghost function Code(s: nat, w: Walk): nat
    decreases |w.slots|
  {
    if w.slots == [] then (if w.second then 1 else 0)
    else Extend(Code(s, w.(slots := w.slots[..|w.slots| - 1])), s, w.slots[|w.slots| - 1])
  }

  lemma CodeSnoc(s: nat, w: Walk, slot: nat)
    ensures Code(s, w.(slots := w.slots + [slot])) == Extend(Code(s, w), s, slot)
  {
    var v := w.(slots := w.slots + [slot]);
    assert v.slots[..|v.slots| - 1] == w.slots;
    assert v.(slots := v.slots[..|v.slots| - 1]) == w;
  }

  ghost predicate ValidWalk(s: nat, w: Walk, length: int) {
    |w.slots| == length && forall i :: 0 <= i < |w.slots| ==> w.slots[i] < s
  }

  // ----- where a walk leads

  /** The search: slots per bucket, table size, the two starting buckets, and what it sees. `view(t, b, slot)` is what
      bucket b shows at a slot during the t-th look into a bucket: nothing, or the partial key there. The table may
      change between two looks. */
  datatype Search = Search(slots: nat, mask: bv64, i1: bv64, i2: bv64, view: (nat, bv64, nat) -> Option<bv64>)

  /** A walk with the number of the look at which each of its slots was seen. */
  datatype Trek = Trek(walk: Walk, times: seq<nat>)

  /** The bucket after the first k slots: each step goes to the alternate bucket of the key seen. */
  ghost function BucketAfter(g: Search, w: Trek, k: nat): bv64
    requires k <= |w.walk.slots| && k <= |w.times|
  {
    if k == 0 then (if w.walk.second then g.i2 else g.i1)
    else
      var b := BucketAfter(g, w, k - 1);
      match g.view(w.times[k - 1], b, w.walk.slots[k - 1])
      case None => b
      case Some(partial) => AltIndex(g.mask, partial, b)
  }

  /** At step k a key was seen in the bucket the walk had led to. */
  ghost predicate StepSeen(g: Search, w: Trek, k: nat)
    requires k < |w.walk.slots| && k < |w.times|
  {
    w.walk.slots[k] < g.slots && g.view(w.times[k], BucketAfter(g, w, k), w.walk.slots[k]).Some?
  }

  /** The first n steps were really taken, one look after the other. */
  ghost predicate Trail(g: Search, w: Trek, n: nat) {
    && n <= |w.walk.slots| && n <= |w.times|
    && (forall k :: 0 <= k < n ==> StepSeen(g, w, k))
    && (forall j, k :: 0 <= j < k < |w.times| ==> w.times[j] < w.times[k])
  }

  function Onward(w: Trek, slot: nat, time: nat): Trek {
    Trek(w.walk.(slots := w.walk.slots + [slot]), w.times + [time])
  }

  lemma {:induction false} BucketPrefix(g: Search, w: Trek, slot: nat, time: nat, k: nat)
    requires |w.times| == |w.walk.slots| && k <= |w.times|
    ensures BucketAfter(g, Onward(w, slot, time), k) == BucketAfter(g, w, k)
  {
    hide AltIndex;
    if k > 0 {
      BucketPrefix(g, w, slot, time, k - 1);
    }
  }

  lemma TrailOnward(g: Search, w: Trek, slot: nat, time: nat)
    requires |w.times| == |w.walk.slots| && Trail(g, w, |w.times|)
    requires forall k :: 0 <= k < |w.times| ==> w.times[k] < time
    ensures Trail(g, Onward(w, slot, time), |w.times|)
    ensures slot < g.slots && g.view(time, BucketAfter(g, w, |w.times|), slot).Some? ==>
              Trail(g, Onward(w, slot, time), |w.times| + 1)
  {
    hide BucketAfter;
    var v := Onward(w, slot, time);
    forall k | 0 <= k < |w.times| ensures StepSeen(g, v, k) {
      assert StepSeen(g, w, k);
      BucketPrefix(g, w, slot, time, k);
    }
    BucketPrefix(g, w, slot, time, |w.times|);
  }

  /** A queue entry describes a walk really taken: it ends in the entry's bucket, has its length and its code. */
  ghost predicate Sound(g: Search, x: BSlot, w: Trek, at: nat) {
    && 0 <= x.depth < MAX_BFS_PATH_LEN && |w.walk.slots| == |w.times| == x.depth
    && Trail(g, w, x.depth) && x.bucket == BucketAfter(g, w, x.depth)
    && x.pathcode == Code(g.slots, w.walk)
    && (forall k :: 0 <= k < |w.times| ==> w.times[k] < at)
  }

  ghost predicate AllSound(g: Search, items: seq<BSlot>, walks: seq<Trek>) {
    |items| == |walks| && forall i :: 0 <= i < |items| ==> Sound(g, items[i], walks[i], i)
  }

  lemma AllSoundSnoc(g: Search, items: seq<BSlot>, walks: seq<Trek>, x: BSlot, w: Trek)
    requires AllSound(g, items, walks) && Sound(g, x, w, |items|)
    ensures AllSound(g, items + [x], walks + [w])
  {
    hide Sound;
  }

  lemma StartSound(g: Search)
    ensures Sound(g, BSlot(g.i1, 0, 0), Trek(Walk(false, []), []), 0)
    ensures Sound(g, BSlot(g.i2, 1, 0), Trek(Walk(true, []), []), 1)
  {}

  lemma SoundDepth(g: Search, x: BSlot, w: Trek, at: nat)
    requires Sound(g, x, w, at)
    ensures 0 <= x.depth < MAX_BFS_PATH_LEN && |w.walk.slots| == |w.times| == x.depth
    ensures x.bucket == BucketAfter(g, w, x.depth)
  {}

  /** A key seen in the entry's bucket leads on to the bucket it could be kicked to. */
  lemma SoundNext(g: Search, x: BSlot, w: Trek, at: nat, slot: nat, partial: bv64, at': nat)
    requires Sound(g, x, w, at) && slot < g.slots && x.depth < MAX_BFS_PATH_LEN - 1 && at < at'
    requires g.view(at, x.bucket, slot) == Some(partial)
    ensures Sound(g, BSlot(AltIndex(g.mask, partial, x.bucket), Extend(x.pathcode, g.slots, slot), x.depth + 1),
                  Onward(w, slot, at), at')
  {
    hide Extend, Code, AltIndex;
    CodeSnoc(g.slots, w.walk, slot);
    TrailOnward(g, w, slot, at);
    BucketPrefix(g, w, slot, at, x.depth);
  }

  // ----- the search

  /** All slots of the i-th bucket looked into showed keys, and unless the path was too long each was queued. */
  ghost predicate SeenFull(g: Search, walks: seq<Trek>, i: nat) {
    && i < |walks| && |walks[i].walk.slots| == |walks[i].times|
    && forall slot: nat :: slot < g.slots ==> SlotSeen(g, walks, i, slot)
  }

  ghost predicate SlotSeen(g: Search, walks: seq<Trek>, i: nat, slot: nat)
    requires i < |walks| && |walks[i].walk.slots| == |walks[i].times|
  {
    && g.view(i, BucketAfter(g, walks[i], |walks[i].times|), slot).Some?
    && (|walks[i].times| < MAX_BFS_PATH_LEN - 1 ==> Onward(walks[i], slot, i) in walks)
  }

  lemma SeenMore(g: Search, walks: seq<Trek>, w: Trek, i: nat, slot: nat)
    requires i < |walks| && |walks[i].walk.slots| == |walks[i].times| && SlotSeen(g, walks, i, slot)
    ensures SlotSeen(g, walks + [w], i, slot)
  {
    hide BucketAfter;
  }

  ghost predicate Extends(walks0: seq<Trek>, walks: seq<Trek>) {
    |walks0| <= |walks| && walks[..|walks0|] == walks0
  }

  lemma FullMore(g: Search, walks0: seq<Trek>, walks: seq<Trek>, i: nat)
    requires SeenFull(g, walks0, i) && Extends(walks0, walks)
    ensures SeenFull(g, walks, i)
  {
    hide BucketAfter;
    assert walks[i] == walks[..|walks0|][i];
    forall slot: nat | slot < g.slots ensures SlotSeen(g, walks, i, slot) {
      assert SlotSeen(g, walks0, i, slot);
      if |walks0[i].times| < MAX_BFS_PATH_LEN - 1 {
        var j :| 0 <= j < |walks0| && walks0[j] == Onward(walks0[i], slot, i);
        assert walks[j] == walks[..|walks0|][j];
      }
    }
  }

  /** The slot the scan visits k-th. */
  function Turn(start: nat, k: nat, s: nat): int
    requires s > 0
  {
    (start + k) % s
  }

  /** Every slot has its turn. */
  lemma Rotation(start: nat, i: nat, slot: nat, s: nat)
    requires start < s && i < s && slot < s
    ensures 0 <= Turn(start, i, s) < s
    ensures var k := if slot >= start then slot - start else slot - start + s; k < s && Turn(start, k, s) == slot
  {
    hide Times;
    Euclid(start + i, s);
    OneShare(1, s);
    NoShare(s);
    if slot >= start {
      LowDigit(slot, 0, s, slot);
    } else {
      LowDigit(slot + s, 1, s, slot);
    }
  }

  /** The slots visited so far have been seen. */
  ghost predicate ScannedTo(g: Search, walks: seq<Trek>, at: nat, start: nat, i: nat)
    requires at < |walks| && |walks[at].walk.slots| == |walks[at].times| && g.slots > 0
  {
    forall k: nat :: k < i ==> TurnSeen(g, walks, at, start, k)
  }

  ghost predicate TurnSeen(g: Search, walks: seq<Trek>, at: nat, start: nat, k: nat)
    requires at < |walks| && |walks[at].walk.slots| == |walks[at].times| && g.slots > 0
  {
    var slot := Turn(start, k, g.slots);
    slot >= 0 && SlotSeen(g, walks, at, slot)
  }

  lemma ScannedAll(g: Search, walks: seq<Trek>, at: nat, start: nat)
    requires at < |walks| && |walks[at].walk.slots| == |walks[at].times| && start < g.slots
    requires ScannedTo(g, walks, at, start, g.slots)
    ensures SeenFull(g, walks, at)
  {
    hide SlotSeen;
    forall slot: nat | slot < g.slots ensures SlotSeen(g, walks, at, slot) {
      Rotation(start, 0, slot, g.slots);
      var k: nat := if slot >= start then slot - start else slot - start + g.slots;
      assert TurnSeen(g, walks, at, start, k);
    }
  }

  lemma ScannedNext(g: Search, walks: seq<Trek>, walks': seq<Trek>, at: nat, start: nat, i: nat)
    requires at < |walks| && |walks[at].walk.slots| == |walks[at].times| && g.slots > 0
    requires ScannedTo(g, walks, at, start, i) && (walks' == walks || exists w :: walks' == walks + [w])
    requires TurnSeen(g, walks', at, start, i)
    ensures ScannedTo(g, walks', at, start, i + 1)
  {
    hide SlotSeen, Turn;
    forall k: nat | k < i + 1 ensures TurnSeen(g, walks', at, start, k) {
      if k < i {
        assert TurnSeen(g, walks, at, start, k);
        if walks' != walks {
          var w :| walks' == walks + [w];
          SeenMore(g, walks, w, at, Turn(start, k, g.slots));
        }
      }
    }
  }

  /** Looks through the bucket of the entry at queue position `at`: stops at a free slot, or queues the bucket each key
      there could be kicked to. */
  method ScanBucket(q: array<BSlot>, at: nat, last0: nat, g: Search, ghost walks0: seq<Trek>)
    returns (free: Option<nat>, last: nat, ghost walks: seq<Trek>)
    requires g.slots > 0 && at < last0 <= q.Length && AllSound(g, q[..last0], walks0)
    requires last0 + Pending(g.slots, q[at + 1..last0]) + Below(g.slots, q[at].depth) <= q.Length
    modifies q
    ensures last0 <= last <= q.Length && AllSound(g, q[..last], walks) && Extends(walks0, walks)
    ensures q[..last0] == old(q[..last0])
    ensures free.Some? ==> free.value < g.slots && g.view(at, q[at].bucket, free.value) == None
    ensures free.None? ==> SeenFull(g, walks, at)
    ensures free.None? ==> last + Pending(g.slots, q[at + 1..last]) <= q.Length
  {
    hide AltIndex, Pow, Below, Pending, Code, Extend, Times, Sound, AllSound, BucketAfter, ScannedTo, SeenFull;
    hide SlotSeen;
    last, walks := last0, walks0;
    var x, s := q[at], g.slots;
    SoundAt(g, q[..last0], walks0, at);
    ghost var w := walks0[at];
    SoundDepth(g, x, w, at);
    BelowStep(s, x.depth);
    ghost var each := 1 + Below(s, x.depth + 1);
    NoShare(each);
    var start := x.pathcode % s;
    Euclid(x.pathcode, s);
    var deep := x.depth >= MAX_BFS_PATH_LEN - 1;
    var i := 0;
    NoneScanned(g, walks, at, start);
    while i < s
      invariant 0 <= i <= s && last0 <= last <= q.Length && q[..last0] == old(q[..last0]) && q[at] == x
      invariant AllSound(g, q[..last], walks) && |walks| == last && Extends(walks0, walks) && walks[at] == w
      invariant ScannedTo(g, walks, at, start, i)
      invariant last + Pending(s, q[at + 1..last]) + (if deep then 0 else Times(s - i, each)) <= q.Length
    {
      Rotation(start, i, 0, s);
      var slot: nat := Turn(start, i, s);
      var seen := g.view(at, x.bucket, slot);
      if seen.None? {
        return Some(slot), last, walks;
      }
      ghost var before := walks;
      if !deep {
        OneShare(s - i, each);
        var bucket := AltIndex(g.mask, seen.value, x.bucket);
        SoundNext(g, x, w, at, slot, seen.value, last);
        ghost var queued, all := q[at + 1..last], q[..last];
        var y := BSlot(bucket, Extend(x.pathcode, s, slot), x.depth + 1);
        q[last] := y;
        PendingSnoc(s, queued, y);
        AllSoundSnoc(g, all, walks, y, Onward(w, slot, at));
        assert q[at + 1..last + 1] == queued + [y] && q[..last + 1] == all + [y];
        assert q[..last0] == all[..last0];
        last := last + 1;
        walks := walks + [Onward(w, slot, at)];
        assert walks[..|walks0|] == before[..|walks0|];
      }
      SeenNow(g, walks, at, slot, x.bucket);
      ScannedNext(g, before, walks, at, start, i);
      i := i + 1;
    }
    ScannedAll(g, walks, at, start);
    return None, last, walks;
  }

  lemma SoundAt(g: Search, items: seq<BSlot>, walks: seq<Trek>, i: nat)
    requires AllSound(g, items, walks) && i < |items|
    ensures |walks| == |items| && Sound(g, items[i], walks[i], i)
  {}

  lemma NoneScanned(g: Search, walks: seq<Trek>, at: nat, start: nat)
    requires at < |walks| && |walks[at].walk.slots| == |walks[at].times| && g.slots > 0
    ensures ScannedTo(g, walks, at, start, 0)
  {}

  lemma SeenNow(g: Search, walks: seq<Trek>, at: nat, slot: nat, bucket: bv64)
    requires at < |walks| && |walks[at].walk.slots| == |walks[at].times|
    requires bucket == BucketAfter(g, walks[at], |walks[at].times|) && g.view(at, bucket, slot).Some?
    requires |walks[at].times| < MAX_BFS_PATH_LEN - 1 ==> Onward(walks[at], slot, at) in walks
    ensures SlotSeen(g, walks, at, slot)
  {
    hide BucketAfter;
  }

  /** The entry found describes a walk to a bucket that showed its last slot free. */
  ghost predicate Found(g: Search, x: BSlot, w: Trek) {
    && 0 <= x.depth < MAX_BFS_PATH_LEN && |w.walk.slots| == |w.times| == x.depth + 1
    && Trail(g, w, x.depth) && x.bucket == BucketAfter(g, w, x.depth)
    && w.walk.slots[x.depth] < g.slots && g.view(w.times[x.depth], x.bucket, w.walk.slots[x.depth]) == None
    && x.pathcode == Code(g.slots, w.walk)
  }

  /** Both starting buckets and everything queued from them showed full. */
  ghost predicate Exhausted(g: Search, walks: seq<Trek>) {
    && |walks| >= 2 && walks[0] == Trek(Walk(false, []), []) && walks[1] == Trek(Walk(true, []), [])
    && forall i :: 0 <= i < |walks| ==> SeenFull(g, walks, i)
  }

  lemma FoundHere(g: Search, x: BSlot, w: Trek, at: nat, slot: nat)
    requires Sound(g, x, w, at) && slot < g.slots && g.view(at, x.bucket, slot) == None
    ensures Found(g, x.(pathcode := Extend(x.pathcode, g.slots, slot)), Onward(w, slot, at))
  {
    hide Extend, Code, AltIndex;
    CodeSnoc(g.slots, w.walk, slot);
    TrailOnward(g, w, slot, at);
    BucketPrefix(g, w, slot, at, x.depth);
  }

  /** The search. The queue array is never overrun. A result is the end of a walk that was really taken, in the code of
      its slots; no result means that every bucket queued showed full. */
  method SlotSearch(g: Search) returns (x: BSlot, ghost w: Trek, ghost walks: seq<Trek>)
    requires g.slots > 0
    ensures x.depth == -1 || Found(g, x, w)
    ensures x.depth == -1 ==> Exhausted(g, walks)
  {
    hide AltIndex, Pow, Below, Pending, Code, Extend, Times, Sound, Found, SeenFull, BucketAfter;
    var s := g.slots;
    GeometricSum(s);
    var n := MaxCuckooCount(s);
    var q := new BSlot[n](_ => BSlot(0, 0, -1));
    q[0] := BSlot(g.i1, 0, 0);
    q[1] := BSlot(g.i2, 1, 0);
    var first, last := 0, 2;
    walks := [Trek(Walk(false, []), []), Trek(Walk(true, []), [])];
    ghost var begun := walks;
    StartPending(s, q[0..2]);
    StartSound(g);
    while first < last
      invariant 0 <= first <= last <= n == q.Length
      invariant AllSound(g, q[..last], walks) && |walks| == last && Extends(begun, walks)
      invariant forall i :: 0 <= i < first ==> SeenFull(g, walks, i)
      invariant last + Pending(s, q[first..last]) <= n
      decreases n - first
    {
      x := q[first];
      w := walks[first];
      SoundAt(g, q[..last], walks, first);
      assert q[first..last][0] == x && q[first..last][1..] == q[first + 1..last];
      PendingHead(s, q[first..last]);
      ghost var before := walks;
      var at := first;
      first := first + 1;
      var free;
      free, last, walks := ScanBucket(q, at, last, g, walks);
      ExtendsOn(begun, before, walks);
      if free.Some? {
        assert q[at] == x by { assert q[..|before|][at] == x; }
        FoundHere(g, x, w, at, free.value);
        x, w := x.(pathcode := Extend(x.pathcode, s, free.value)), Onward(w, free.value, at);
        FoundDepth(g, x, w);
        return;
      }
      forall i | 0 <= i < at ensures SeenFull(g, walks, i) {
        FullMore(g, before, walks, i);
      }
    }
    assert walks[..2] == begun && walks[0] == begun[0] && walks[1] == begun[1];
    x := BSlot(0, 0, -1);
    w := begun[0];
  }

  lemma ExtendsOn(a: seq<Trek>, b: seq<Trek>, c: seq<Trek>)
    requires Extends(a, b) && Extends(b, c)
    ensures Extends(a, c)
  {
    assert c[..|a|] == c[..|b|][..|a|];
  }

  lemma FoundDepth(g: Search, x: BSlot, w: Trek)
    requires Found(g, x, w)
    ensures x.depth >= 0
  {}

  // ----- a table that does not change

  /** Every look shows the same. */
  ghost predicate Steady(g: Search) {
    forall t, t', b, slot :: g.view(t, b, slot) == g.view(t', b, slot)
  }

  ghost function Still(w: Walk): Trek {
    Trek(w, seq(|w.slots|, _ => 0))
  }

  /** The end of a walk through a table that does not change. */
  ghost function EndOf(g: Search, w: Walk): bv64 {
    BucketAfter(g, Still(w), |w.slots|)
  }

  lemma {:induction false} SteadyBucket(g: Search, w: Trek, v: Trek, k: nat)
    requires Steady(g) && w.walk.second == v.walk.second && k <= |w.times| && k <= |v.times|
    requires k <= |w.walk.slots| && k <= |v.walk.slots| && w.walk.slots[..k] == v.walk.slots[..k]
    ensures BucketAfter(g, w, k) == BucketAfter(g, v, k)
  {
    hide AltIndex;
    if k > 0 {
      assert w.walk.slots[..k - 1] == w.walk.slots[..k][..k - 1] && v.walk.slots[..k - 1] == v.walk.slots[..k][..k - 1];
      SteadyBucket(g, w, v, k - 1);
      assert w.walk.slots[..k][k - 1] == w.walk.slots[k - 1] && v.walk.slots[..k][k - 1] == v.walk.slots[k - 1];
      assert g.view(w.times[k - 1], BucketAfter(g, w, k - 1), w.walk.slots[k - 1]) ==
             g.view(v.times[k - 1], BucketAfter(g, w, k - 1), w.walk.slots[k - 1]);
    }
  }

  lemma {:induction false} WalkIsQueued(g: Search, walks: seq<Trek>, w: Walk) returns (i: nat)
    requires Exhausted(g, walks) && |w.slots| < MAX_BFS_PATH_LEN && ValidWalk(g.slots, w, |w.slots|)
    ensures i < |walks| && walks[i].walk == w && |walks[i].times| == |w.slots|
    decreases |w.slots|
  {
    hide BucketAfter;
    if w.slots == [] {
      i := if w.second then 1 else 0;
    } else {
      var n := |w.slots| - 1;
      var v, slot := w.(slots := w.slots[..n]), w.slots[n];
      var j := WalkIsQueued(g, walks, v);
      assert SeenFull(g, walks, j);
      assert SlotSeen(g, walks, j, slot);
      i :| 0 <= i < |walks| && walks[i] == Onward(walks[j], slot, j);
      assert w.slots == v.slots + [slot];
    }
  }

  /** In a table that does not change, the search fails only when no walk of at most five buckets from either starting
      bucket ends in a bucket with a free slot. */
  lemma FailureIsFinal(g: Search, walks: seq<Trek>, w: Walk, slot: nat)
    requires Exhausted(g, walks) && Steady(g)
    requires |w.slots| < MAX_BFS_PATH_LEN && ValidWalk(g.slots, w, |w.slots|) && slot < g.slots
    ensures g.view(0, EndOf(g, w), slot).Some?
  {
    hide BucketAfter;
    var i := WalkIsQueued(g, walks, w);
    assert SeenFull(g, walks, i);
    assert SlotSeen(g, walks, i, slot);
    SteadyBucket(g, walks[i], Still(w), |w.slots|);
  }

  // ----- shares of the queue

  lemma OneShare(k: int, each: int)
    ensures Times(k, each) == each + Times(k - 1, each)
    ensures k >= 1 && each >= 0 ==> Times(k - 1, each) >= 0
  {}

  lemma NoShare(each: int)
    ensures Times(0, each) == 0
  {}

  lemma BelowStep(s: nat, depth: int)
    ensures depth < MAX_BFS_PATH_LEN - 1 ==> Below(s, depth) == Times(s, 1 + Below(s, depth + 1))
    ensures depth >= MAX_BFS_PATH_LEN - 1 ==> Below(s, depth) == 0
  {}

  lemma PendingSnoc(s: nat, q: seq<BSlot>, x: BSlot)
    ensures Pending(s, q + [x]) == Pending(s, q) + Below(s, x.depth)
  {
    hide Below;
    assert (q + [x])[..|q|] == q;
  }

  lemma StartPending(s: nat, q: seq<BSlot>)
    requires |q| == 2 && q[0].depth == 0 && q[1].depth == 0
    ensures Pending(s, q) == 2 * Below(s, 0)
  {
    hide Below;
    PendingSnoc(s, [q[0]], q[1]);
    PendingSnoc(s, [], q[0]);
    assert q == [q[0]] + [q[1]] && [q[0]] == [] + [q[0]];
  }

  // ----- decoding

  /** The decoding loop of cuckoopath_search: digits from the last slot to the first, then the start. Given the
      faithful code of a walk it recovers the walk. */
  method Decode(s: nat, code: nat, depth: nat, ghost w: Walk) returns (rest: nat, slots: seq<nat>)
    requires s > 0
    ensures |slots| == depth + 1 && forall j :: 0 <= j < |slots| ==> slots[j] < s
    ensures code == Number(s, rest, slots)
    ensures ValidWalk(s, w, depth + 1) && code == Exact(s, w) ==> slots == w.slots && rest == if w.second then 1 else 0
  {
    hide Exact, Times, Number;
    slots := seq(depth + 1, _ => 0);
    rest := code;
    var i: int := depth;
    ghost var given := ValidWalk(s, w, depth + 1) && code == Exact(s, w);
    if given {
      assert Prefix(w, depth + 1) == w;
    }
    NumberOfNone(s, rest, slots[depth + 1..]);
    while i >= 0
      invariant -1 <= i <= depth && |slots| == depth + 1 && forall j :: 0 <= j < |slots| ==> slots[j] < s
      invariant code == Number(s, rest, slots[i + 1..])
      invariant given ==> rest == Exact(s, Prefix(w, i + 1)) && forall j :: i < j <= depth ==> slots[j] == w.slots[j]
    {
      if given {
        ExactDigit(s, w, i);
      }
      Euclid(rest, s);
      DivNonNegative(rest, s);
      NumberCons(s, rest / s, rest % s, slots[i + 1..]);
      slots := slots[i := rest % s];
      assert slots[i..] == [slots[i]] + slots[i + 1..];
      rest := rest / s;
      i := i - 1;
    }
    if given {
      ExactStart(s, w);
    }
  }

  /** A number written with these digits, most significant first. */
  ghost function Number(s: nat, rest: nat, slots: seq<nat>): int
    decreases |slots|
  {
    if slots == [] then rest
    else Times(Number(s, rest, slots[..|slots| - 1]), s) + slots[|slots| - 1]
  }

  lemma NumberOfNone(s: nat, rest: nat, none: seq<nat>)
    requires none == []
    ensures Number(s, rest, none) == rest
  {}

  lemma {:induction false} NumberCons(s: nat, rest: nat, digit: nat, slots: seq<nat>)
    ensures Number(s, Times(rest, s) + digit, slots) == Number(s, rest, [digit] + slots)
    decreases |slots|
  {
    var all := [digit] + slots;
    if slots == [] {
      assert all == [digit] && all[..0] == [];
    } else {
      NumberCons(s, rest, digit, slots[..|slots| - 1]);
      assert all[..|all| - 1] == [digit] + slots[..|slots| - 1];
    }
  }

  lemma DivNonNegative(x: nat, s: nat)
    requires s > 0
    ensures x / s >= 0
  {
    hide Times;
    Euclid(x, s);
    TimesAtLeast(x / s, s);
  }

  lemma ExactStart(s: nat, w: Walk)
    ensures Exact(s, Prefix(w, 0)) == if w.second then 1 else 0
  {}

  /** The code without the 16-bit limit. */
  ghost function Exact(s: nat, w: Walk): nat
    decreases |w.slots|
  {
    if w.slots == [] then (if w.second then 1 else 0)
    else Exact(s, w.(slots := w.slots[..|w.slots| - 1])) * s + w.slots[|w.slots| - 1]
  }

  ghost function Prefix(w: Walk, k: nat): Walk
    requires k <= |w.slots|
  {
    w.(slots := w.slots[..k])
  }

  lemma ExactDigit(s: nat, w: Walk, i: nat)
    requires s > 0 && i < |w.slots| && w.slots[i] < s
    ensures var e := Exact(s, Prefix(w, i + 1)); e % s == w.slots[i] && e / s == Exact(s, Prefix(w, i))
  {
    var p := Prefix(w, i + 1);
    assert p.(slots := p.slots[..i]) == Prefix(w, i);
    LowDigit(Exact(s, p), Exact(s, Prefix(w, i)), s, w.slots[i]);
  }

  lemma {:induction false} ExactBound(s: nat, w: Walk)
    requires s > 0 && ValidWalk(s, w, |w.slots|)
    ensures Exact(s, w) < 2 * Pow(s, |w.slots|)
    decreases |w.slots|
  {
    if w.slots != [] {
      var v := w.(slots := w.slots[..|w.slots| - 1]);
      ExactBound(s, v);
      BoundStep(Exact(s, v), Pow(s, |v.slots|), s, w.slots[|w.slots| - 1]);
    }
  }

  lemma BoundStep(e: nat, p: nat, s: nat, d: nat)
    requires e < 2 * p && d < s
    ensures e * s + d < 2 * (s * p)
  {
    TwiceTimes(p, s);
    assert Times(e, s) == e * s;
    hide Times;
    TimesLess(2 * p, e, s);
    TimesAtLeast(2 * p - e, s);
  }

  lemma TwiceTimes(p: int, s: int)
    ensures Times(2 * p, s) == 2 * (s * p)
  {}

  lemma {:induction false} PowMonotone(s: nat, a: nat, b: nat)
    requires s > 0 && a <= b
    ensures Pow(s, a) <= Pow(s, b)
  {
    if a < b {
      PowMonotone(s, a, b - 1);
      var p := Pow(s, b - 1);
      OneShare(s, p);
      assert Pow(s, b) == Times(s, p);
    }
  }

  /** With at most eight slots per bucket no code of a path overflows its 16 bits. */
  lemma {:induction false} CodeIsExact(s: nat, w: Walk)
    requires 0 < s <= 8 && |w.slots| <= MAX_BFS_PATH_LEN && ValidWalk(s, w, |w.slots|)
    ensures Code(s, w) == Exact(s, w) < 0x1_0000
    decreases |w.slots|
  {
    ExactBound(s, w);
    PowMonotone(s, |w.slots|, 5);
    EightPow(s);
    if w.slots != [] {
      CodeIsExact(s, w.(slots := w.slots[..|w.slots| - 1]));
    }
  }

  lemma EightPow(s: nat)
    requires s <= 8
    ensures Pow(s, 5) <= 32768
  {
    PowFive(s);
    assert s * s <= 64;
    assert s * (s * s) <= 512;
    assert s * (s * (s * s)) <= 4096;
    assert s * (s * (s * (s * s))) <= 32768;
  }

  /** The compile-time guard on the number of slots. */
  predicate GuardAccepts(s: nat) {
    s > 0 && Pow(s, MAX_BFS_PATH_LEN) < 0xffff
  }

  ghost predicate CodesRoundTrip(s: nat) {
    forall w: Walk :: |w.slots| <= MAX_BFS_PATH_LEN && ValidWalk(s, w, |w.slots|) ==> Code(s, w) == Exact(s, w)
  }

  /** The guard forgets the start bucket, which is the leading digit: codes are faithful exactly up to eight slots,
      although the guard also accepts nine. */
  lemma RoundTripIff(s: nat)
    requires GuardAccepts(s)
    ensures CodesRoundTrip(s) <==> s <= 8
    ensures GuardAccepts(9)
  {
    NinePow();
    NineOverflows();
    if s <= 8 {
      forall w: Walk | |w.slots| <= MAX_BFS_PATH_LEN && ValidWalk(s, w, |w.slots|) ensures Code(s, w) == Exact(s, w) {
        CodeIsExact(s, w);
      }
    } else {
      GuardBound(s);
    }
  }

  lemma TenPow(s: nat)
    requires s >= 10
    ensures Pow(s, 5) >= 100000
  {
    PowFive(s);
    assert s * s >= 100;
    assert s * (s * s) >= 1000;
    assert s * (s * (s * s)) >= 10000;
    assert s * (s * (s * (s * s))) >= 100000;
  }

  lemma GuardBound(s: nat)
    requires GuardAccepts(s)
    ensures s <= 9
  {
    if s >= 10 {
      TenPow(s);
    }
  }

  ghost function Eights(k: nat): seq<nat> {
    seq(k, _ => 8)
  }

  lemma EightsStep(k: nat)
    ensures Code(9, Walk(true, Eights(k + 1))) == Extend(Code(9, Walk(true, Eights(k))), 9, 8)
    ensures Exact(9, Walk(true, Eights(k + 1))) == Exact(9, Walk(true, Eights(k))) * 9 + 8
  {
    var v := Walk(true, Eights(k + 1));
    assert v.slots[..k] == Eights(k);
    assert v.(slots := v.slots[..k]) == Walk(true, Eights(k));
  }

  lemma NinePow()
    ensures Pow(9, 5) == 59049
  {
    PowFive(9);
  }

  lemma ExtendNine()
    ensures Extend(1, 9, 8) == 17 && Extend(17, 9, 8) == 161 && Extend(161, 9, 8) == 1457
    ensures Extend(1457, 9, 8) == 13121 && Extend(13121, 9, 8) == 52561
  {}

  lemma NineOverflows()
    ensures !CodesRoundTrip(9)
  {
    NineCode();
    EightsValid();
    assert Walk(true, Eights(5)).slots == [8, 8, 8, 8, 8];
  }

  lemma NineCode()
    ensures Exact(9, Walk(true, [8, 8, 8, 8, 8])) == 118097 && Code(9, Walk(true, [8, 8, 8, 8, 8])) == 52561
  {
    assert Eights(5) == [8, 8, 8, 8, 8];
    var w := Walk(true, Eights(5));
    assert Code(9, Walk(true, Eights(0))) == 1 == Exact(9, Walk(true, Eights(0)));
    ExtendNine();
    hide Code, Exact, Pow, Eights, Extend;
    EightsStep(0);
    EightsStep(1);
    EightsStep(2);
    EightsStep(3);
    EightsStep(4);
    assert Exact(9, w) == 118097 && Code(9, w) == 52561;
  }

  /** What nine slots lead to: the walk through the last slots from the second bucket is decoded as another walk, from
      the first bucket. */
  method NineStartsWrong() returns (code: nat, start: nat, slots: seq<nat>)
    ensures code == Code(9, Walk(true, [8, 8, 8, 8, 8])) == 52561
    ensures start == 0 && slots == [8, 0, 0, 8, 1]
  {
    NineCode();
    code := 52561;
    start, slots := Decode(9, code, 4, Walk(true, []));
    NineDigits(start, slots);
  }

  lemma NineDigits(start: nat, slots: seq<nat>)
    requires |slots| == 5 && Number(9, start, slots) == 52561 && forall j :: 0 <= j < 5 ==> slots[j] < 9
    ensures start == 0 && slots == [8, 0, 0, 8, 1]
  {
    FiveDigits(9, start, slots);
    var a, b, c, d, e := slots[0], slots[1], slots[2], slots[3], slots[4];
    assert ((((start * 9 + a) * 9 + b) * 9 + c) * 9 + d) * 9 + e == 52561;
  }

  lemma FiveDigits(s: nat, start: nat, d: seq<nat>)
    requires |d| == 5
    ensures Number(s, start, d) ==
            Times(Times(Times(Times(Times(start, s) + d[0], s) + d[1], s) + d[2], s) + d[3], s) + d[4]
  {
    hide Times, Number;
    NumberSnoc(s, start, d, 1);
    NumberSnoc(s, start, d, 2);
    NumberSnoc(s, start, d, 3);
    NumberSnoc(s, start, d, 4);
    NumberSnoc(s, start, d, 5);
    NumberOfNone(s, start, d[..0]);
    assert d[..5] == d;
  }

  lemma NumberSnoc(s: nat, start: nat, d: seq<nat>, k: nat)
    requires 0 < k <= |d|
    ensures Number(s, start, d[..k]) == Times(Number(s, start, d[..k - 1]), s) + d[k - 1]
  {
    assert d[..k][..k - 1] == d[..k - 1];
  }

  lemma EightsValid()
    ensures ValidWalk(9, Walk(true, Eights(5)), 5) && |Eights(5)| == 5
  {}

  // ----- search and decoding together

  /** The i-th of the second looks showed the hash recorded for the i-th hop. */
  ghost predicate Recorded(path: seq<CM.Hop>, look: (nat, bv64, nat) -> Option<bv64>, i: nat)
    requires i < |path|
  {
    look(i, path[i].pos.bucket, path[i].pos.slot) == Some(path[i].hash)
  }

  ghost predicate LeadsOn(mask: bv64, path: seq<CM.Hop>, i: nat)
    requires 0 < i < |path|
  {
    path[i].pos.bucket == AltIndex(mask, PartialKey(path[i - 1].hash), path[i - 1].pos.bucket)
  }

  /** The last slot of the path was seen free. */
  ghost predicate EndsFree(path: seq<CM.Hop>, look: (nat, bv64, nat) -> Option<bv64>) {
    |path| > 0 && look(|path| - 1, path[|path| - 1].pos.bucket, path[|path| - 1].pos.slot) == None
  }

  /** The second look along the decoded slots: records the hash found at each slot, computes the next bucket from it and
      stops at the first free slot. `look(i, b, slot)` is what bucket b shows at the slot in the i-th of these looks. */
  method LookAgain(mask: bv64, start: bv64, slots: seq<nat>, look: (nat, bv64, nat) -> Option<bv64>)
    returns (path: seq<CM.Hop>)
    requires |slots| > 0
    ensures 0 < |path| <= |slots| && path[0].pos.bucket == start
    ensures forall i :: 0 <= i < |path| ==> path[i].pos.slot == slots[i]
    ensures forall i :: 0 < i < |path| ==> LeadsOn(mask, path, i)
    ensures forall i :: 0 <= i < |path| - 1 ==> Recorded(path, look, i)
    ensures EndsFree(path, look) || (|path| == |slots| && Recorded(path, look, |path| - 1))
  {
    hide AltIndex, PartialKey;
    path := [];
    var bucket := start;
    for i := 0 to |slots|
      invariant |path| == i && (i == 0 ==> bucket == start) && (i > 0 ==> path[0].pos.bucket == start)
      invariant i > 0 ==> bucket == AltIndex(mask, PartialKey(path[i - 1].hash), path[i - 1].pos.bucket)
      invariant forall j :: 0 <= j < i ==> path[j].pos.slot == slots[j]
      invariant forall j :: 0 < j < i ==> LeadsOn(mask, path, j)
      invariant forall j :: 0 <= j < i ==> Recorded(path, look, j)
    {
      var seen := look(i, bucket, slots[i]);
      var hop := CM.Hop(CM.Pos(bucket, slots[i]), if seen.Some? then seen.value else 0);
      PathSnoc(mask, path, hop, look);
      path := path + [hop];
      if seen.None? {
        return;
      }
      assert Recorded(path, look, i);
      bucket := AltIndex(mask, PartialKey(seen.value), bucket);
    }
  }

  lemma PathSnoc(mask: bv64, path: seq<CM.Hop>, hop: CM.Hop, look: (nat, bv64, nat) -> Option<bv64>)
    requires forall j :: 0 < j < |path| ==> LeadsOn(mask, path, j)
    requires forall j :: 0 <= j < |path| ==> Recorded(path, look, j)
    requires |path| > 0 ==>
               var p := path[|path| - 1]; hop.pos.bucket == AltIndex(mask, PartialKey(p.hash), p.pos.bucket)
    ensures forall j :: 0 < j < |path| + 1 ==> LeadsOn(mask, path + [hop], j)
    ensures forall j :: 0 <= j < |path| ==> Recorded(path + [hop], look, j)
  {
    hide AltIndex, PartialKey;
    var path' := path + [hop];
    forall j | 0 < j < |path'| ensures LeadsOn(mask, path', j) {
      assert j < |path| ==> LeadsOn(mask, path, j);
    }
    forall j | 0 <= j < |path| ensures Recorded(path', look, j) {
      assert Recorded(path, look, j);
    }
  }

  ghost function SearchFor(c: CM.Config, key: CM.Key, mask: bv64, view: (nat, bv64, nat) -> Option<bv64>): Search {
    Search(c.slots, mask, First(mask, c.hash(key)), Second(mask, c.hash(key)), view)
  }

  /** Search, decoding and second look. The path is one that the moves of an insertion accept; it is cut short only at a
      slot that the second look shows free; with at most eight slots it starts in the bucket and goes through the slots
      that the search walked. */
  method CuckooPathSearch(c: CM.Config, key: CM.Key, mask: bv64, view: (nat, bv64, nat) -> Option<bv64>,
                          look: (nat, bv64, nat) -> Option<bv64>)
    returns (path: seq<CM.Hop>, ghost x: BSlot, ghost w: Trek, ghost walks: seq<Trek>)
    requires c.slots > 0
    ensures path == [] ==> Exhausted(SearchFor(c, key, mask, view), walks)
    ensures path != [] ==> Found(SearchFor(c, key, mask, view), x, w) && |path| <= x.depth + 1
    ensures path != [] ==> CM.PathOk(c, key, mask, path)
    ensures path != [] && c.slots <= 8 ==>
              && path[0].pos.bucket == BucketAfter(SearchFor(c, key, mask, view), w, 0)
              && |path| <= |w.walk.slots| && forall i :: 0 <= i < |path| ==> path[i].pos.slot == w.walk.slots[i]
    ensures forall i :: 0 <= i < |path| - 1 ==> Recorded(path, look, i)
    ensures path != [] ==> EndsFree(path, look) || (|path| == x.depth + 1 && Recorded(path, look, |path| - 1))
  {
    hide Exhausted, Found, First, Second, AltIndex, PartialKey, Exact, Code, Pow;
    var i1, i2 := First(mask, c.hash(key)), Second(mask, c.hash(key));
    var g := Search(c.slots, mask, i1, i2, view);
    var end;
    end, w, walks := SlotSearch(g);
    x := end;
    if end.depth == -1 {
      return [], x, w, walks;
    }
    FoundCode(g, end, w);
    var rest, slots := Decode(c.slots, end.pathcode, end.depth, w.walk);
    path := LookAgain(mask, if rest == 0 then i1 else i2, slots, look);
    LooksOk(c, key, mask, path, slots);
  }

  lemma LooksOk(c: CM.Config, key: CM.Key, mask: bv64, path: seq<CM.Hop>, slots: seq<nat>)
    requires 0 < |path| <= |slots| && InPair(mask, c.hash(key), path[0].pos.bucket)
    requires forall i :: 0 <= i < |slots| ==> slots[i] < c.slots
    requires forall i :: 0 <= i < |path| ==> path[i].pos.slot == slots[i]
    requires forall i :: 0 < i < |path| ==> LeadsOn(mask, path, i)
    ensures CM.PathOk(c, key, mask, path)
  {
    hide InPair, AltIndex, PartialKey;
    forall i | 0 < i < |path|
      ensures path[i].pos.bucket == AltIndex(mask, PartialKey(path[i - 1].hash), path[i - 1].pos.bucket)
    {
      assert LeadsOn(mask, path, i);
    }
  }

  /** What the decoding needs from a found entry: with at most eight slots its code is exact. */
  lemma FoundCode(g: Search, x: BSlot, w: Trek)
    requires Found(g, x, w)
    ensures 0 <= x.depth < MAX_BFS_PATH_LEN && ValidWalk(g.slots, w.walk, x.depth + 1)
    ensures 0 < g.slots <= 8 ==> x.pathcode == Exact(g.slots, w.walk)
  {
    hide BucketAfter;
    forall k | 0 <= k < x.depth ensures w.walk.slots[k] < g.slots {
      assert StepSeen(g, w, k);
    }
    if 0 < g.slots <= 8 {
      CodeIsExact(g.slots, w.walk);
    }
  }
}
