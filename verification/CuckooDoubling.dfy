/** Doubling the cuckoo table: where the entries of the old array go, and the loops that move them, one bucket, one lock
    stripe or the whole array at a time. */
module CuckooDoubling {
  import opened CuckooIndex
  import opened CuckooStripe
  import CM = CuckooMap

  type Table = map<CM.Pos, CM.Entry>

  // ----- one bucket

  /** The code's test for moving a key to the upper of its two candidate buckets. */
  predicate GoesUp(m: bv64, hash: bv64, b: bv64) {
    || (b == First(m, hash) && First(Doubled(m), hash) == WithTop(b, m))
    || (b == Second(m, hash) && Second(Doubled(m), hash) == WithTop(b, m))
  }

  predicate UpAt(c: CM.Config, m: bv64, prior: Table, b: bv64, slot: nat) {
    CM.Pos(b, slot) in prior && GoesUp(m, c.hash(prior[CM.Pos(b, slot)].key), b)
  }

  /** How many keys before this slot go up: the next free slot of the upper bucket. */
  function Rank(c: CM.Config, m: bv64, prior: Table, b: bv64, slot: nat): nat {
    if slot == 0 then 0 else Rank(c, m, prior, b, slot - 1) + if UpAt(c, m, prior, b, slot - 1) then 1 else 0
  }

  function Dest(c: CM.Config, m: bv64, prior: Table, b: bv64, slot: nat): CM.Pos {
    if UpAt(c, m, prior, b, slot) then CM.Pos(WithTop(b, m), Rank(c, m, prior, b, slot)) else CM.Pos(b, slot)
  }

  /** The chosen bucket is one of the key's two buckets in the doubled table. */
  lemma DestinationIsRight(m: bv64, hash: bv64, b: bv64)
    requires IsMask(m) && InPair(m, hash, b)
    ensures InPair(Doubled(m), hash, if GoesUp(m, hash, b) then WithTop(b, m) else b)
  {
    hide First, Second, Doubled, WithTop, IsMask;
    DoublingAddsTopBit(m, hash);
  }

  lemma {:induction false} RankGrows(c: CM.Config, m: bv64, prior: Table, b: bv64, i: nat, j: nat)
    requires i <= j
    ensures Rank(c, m, prior, b, i) <= Rank(c, m, prior, b, j) <= Rank(c, m, prior, b, i) + (j - i)
    ensures i < j && UpAt(c, m, prior, b, i) ==> Rank(c, m, prior, b, i) < Rank(c, m, prior, b, j)
  {
    hide UpAt;
    if i < j {
      RankGrows(c, m, prior, b, i, j - 1);
    }
  }

  lemma DestIsInjective(c: CM.Config, m: bv64, prior: Table, b: bv64, i: nat, j: nat)
    requires i < j && WithTop(b, m) != b
    ensures Dest(c, m, prior, b, i) != Dest(c, m, prior, b, j)
  {
    hide UpAt, WithTop;
    RankGrows(c, m, prior, b, i, j);
  }

  /** The new array after the first k slots of old bucket b have been moved. */
  ghost function MovedTo(c: CM.Config, m: bv64, prior: Table, base: Table, b: bv64, k: nat): Table {
    if k == 0 then base
    else
      var prev := MovedTo(c, m, prior, base, b, k - 1);
      var p := CM.Pos(b, k - 1);
      if p in prior then prev[Dest(c, m, prior, b, k - 1) := prior[p]] else prev
  }

  ghost predicate BucketsEmpty(t: Table, m: bv64, b: bv64) {
    forall p :: p in t ==> p.bucket != b && p.bucket != WithTop(b, m)
  }

  ghost predicate FromSlot(c: CM.Config, m: bv64, prior: Table, b: bv64, k: nat, p: CM.Pos, e: CM.Entry, i: nat) {
    i < k && CM.Pos(b, i) in prior && p == Dest(c, m, prior, b, i) && e == prior[CM.Pos(b, i)]
  }

  /** Moving a bucket writes only free slots, keeps all that was there, and moves every entry exactly once. */
  lemma {:induction false} MovedToIs(c: CM.Config, m: bv64, prior: Table, base: Table, b: bv64, k: nat)
    requires BucketsEmpty(base, m, b) && WithTop(b, m) != b
    ensures var r := MovedTo(c, m, prior, base, b, k);
            && (forall p :: p in base ==> p in r && r[p] == base[p])
            && (forall i :: 0 <= i < k && CM.Pos(b, i) in prior ==>
                  Dest(c, m, prior, b, i) in r && r[Dest(c, m, prior, b, i)] == prior[CM.Pos(b, i)])
            && (forall p :: p in r && p !in base ==> exists i :: FromSlot(c, m, prior, b, k, p, r[p], i))
            && Dest(c, m, prior, b, k) !in r
  {
    hide UpAt, WithTop, Rank;
    if k > 0 {
      MovedToIs(c, m, prior, base, b, k - 1);
      var prev, r := MovedTo(c, m, prior, base, b, k - 1), MovedTo(c, m, prior, base, b, k);
      forall p | p in r && p !in base ensures exists i :: FromSlot(c, m, prior, b, k, p, r[p], i) {
        if p in prev && prev[p] == r[p] {
          var i :| FromSlot(c, m, prior, b, k - 1, p, prev[p], i);
          assert FromSlot(c, m, prior, b, k, p, r[p], i);
        } else {
          assert FromSlot(c, m, prior, b, k, p, r[p], k - 1);
        }
      }
    }
    var r := MovedTo(c, m, prior, base, b, k);
    DestBucket(c, m, prior, b, k);
    if Dest(c, m, prior, b, k) in r {
      var i :| FromSlot(c, m, prior, b, k, Dest(c, m, prior, b, k), r[Dest(c, m, prior, b, k)], i);
      DestIsInjective(c, m, prior, b, i, k);
    }
  }

  lemma DestBucket(c: CM.Config, m: bv64, prior: Table, b: bv64, i: nat)
    ensures var d := Dest(c, m, prior, b, i); d.bucket == b || d.bucket == WithTop(b, m)
  {}

  /** The loop of move_bucket. */
  method MoveBucket(c: CM.Config, m: bv64, prior: Table, base: Table, b: bv64) returns (r: Table)
    requires BucketsEmpty(base, m, b) && WithTop(b, m) != b
    ensures r == MovedTo(c, m, prior, base, b, c.slots)
  {
    hide WithTop, First, Second, Doubled, BucketsEmpty;
    r := base;
    var newSlot := 0;
    for slot := 0 to c.slots
      invariant newSlot == Rank(c, m, prior, b, slot)
      invariant r == MovedTo(c, m, prior, base, b, slot)
    {
      var p := CM.Pos(b, slot);
      if p in prior {
        var e := prior[p];
        MovedToIs(c, m, prior, base, b, slot);
        var dest;
        if GoesUp(m, c.hash(e.key), b) {
          dest := CM.Pos(WithTop(b, m), newSlot);
          newSlot := newSlot + 1;
        } else {
          dest := p;
        }
        assert dest == Dest(c, m, prior, b, slot) && dest !in r;
        r := r[dest := e];
      }
    }
  }

  // ----- the doubled table

  ghost predicate MaskFacts(m: bv64) {
    IsMask(m) && m != ALL_ONES
  }

  /** Positions of an array of this size. */
  ghost predicate Sized(c: CM.Config, m: bv64, t: Table) {
    forall p :: p in t ==> Masked(p.bucket, m) == p.bucket && p.slot < c.slots
  }

  /** The entry of old position p has arrived at q of the new array. */
  ghost predicate Arrived(c: CM.Config, m: bv64, prior: Table, cur: Table, p: CM.Pos, q: CM.Pos) {
    p in prior && q == Dest(c, m, prior, p.bucket, p.slot) && q in cur && cur[q] == prior[p]
  }

  /** The new array holds every entry of the old one at its destination, and nothing else. */
  ghost predicate AllMoved(c: CM.Config, m: bv64, prior: Table, cur: Table) {
    && (forall p :: p in prior ==> Arrived(c, m, prior, cur, p, Dest(c, m, prior, p.bucket, p.slot)))
    && (forall q :: q in cur ==> exists p :: Arrived(c, m, prior, cur, p, q))
  }

  ghost predicate GoesTo(c: CM.Config, m: bv64, prior: Table, p: CM.Pos, q: CM.Pos) {
    p in prior && q == Dest(c, m, prior, p.bucket, p.slot)
  }

  ghost function Origin(c: CM.Config, m: bv64, prior: Table, q: CM.Pos): (p: CM.Pos)
    requires exists p :: GoesTo(c, m, prior, p, q)
    ensures GoesTo(c, m, prior, p, q)
  {
    var p :| GoesTo(c, m, prior, p, q);
    p
  }

  ghost function Targets(c: CM.Config, m: bv64, prior: Table): (qs: set<CM.Pos>)
    ensures forall q :: q in qs <==> exists p :: GoesTo(c, m, prior, p, q)
  {
    var qs := set p | p in prior :: Dest(c, m, prior, p.bucket, p.slot);
    assert forall q :: q in qs <==> exists p :: GoesTo(c, m, prior, p, q) by {
      hide Dest;
      forall q ensures q in qs <==> exists p :: GoesTo(c, m, prior, p, q) {
        if q in qs {
          var p :| p in prior && q == Dest(c, m, prior, p.bucket, p.slot);
          assert GoesTo(c, m, prior, p, q);
        }
      }
    }
    qs
  }

  /** The doubled table. */
  ghost function Spread(c: CM.Config, m: bv64, prior: Table): (r: Table)
    ensures forall q :: q in r <==> exists p :: GoesTo(c, m, prior, p, q)
    ensures forall q :: q in r ==> r[q] == prior[Origin(c, m, prior, q)]
  {
    var qs := Targets(c, m, prior);
    map q | q in qs :: prior[Origin(c, m, prior, q)]
  }

  lemma DestMasked(c: CM.Config, m: bv64, prior: Table, p: CM.Pos)
    requires MaskFacts(m) && Masked(p.bucket, m) == p.bucket
    ensures WithTop(p.bucket, m) != p.bucket
    ensures Masked(Dest(c, m, prior, p.bucket, p.slot).bucket, m) == p.bucket
  {
    TopBitIsFree(p.bucket, m);
    hide Masked, WithTop, UpAt, Rank;
    DestBucket(c, m, prior, p.bucket, p.slot);
  }

  /** Different old positions have different destinations. */
  lemma DestsDiffer(c: CM.Config, m: bv64, prior: Table, p: CM.Pos, p': CM.Pos)
    requires MaskFacts(m) && Masked(p.bucket, m) == p.bucket && Masked(p'.bucket, m) == p'.bucket && p != p'
    ensures Dest(c, m, prior, p.bucket, p.slot) != Dest(c, m, prior, p'.bucket, p'.slot)
  {
    hide Masked, WithTop, Dest, MaskFacts;
    DestMasked(c, m, prior, p);
    DestMasked(c, m, prior, p');
    if p.bucket == p'.bucket {
      if p.slot < p'.slot {
        DestIsInjective(c, m, prior, p.bucket, p.slot, p'.slot);
      } else {
        DestIsInjective(c, m, prior, p.bucket, p'.slot, p.slot);
      }
    }
  }

  lemma SpreadAt(c: CM.Config, m: bv64, prior: Table, p: CM.Pos)
    requires MaskFacts(m) && Sized(c, m, prior) && p in prior
    ensures Arrived(c, m, prior, Spread(c, m, prior), p, Dest(c, m, prior, p.bucket, p.slot))
  {
    hide Masked, Dest, MaskFacts;
    var q := Dest(c, m, prior, p.bucket, p.slot);
    assert GoesTo(c, m, prior, p, q);
    var o := Origin(c, m, prior, q);
    if o != p {
      DestsDiffer(c, m, prior, p, o);
    }
  }

  lemma SpreadIsAllMoved(c: CM.Config, m: bv64, prior: Table)
    requires MaskFacts(m) && Sized(c, m, prior)
    ensures AllMoved(c, m, prior, Spread(c, m, prior))
  {
    hide Masked, Dest, MaskFacts, Sized;
    var r := Spread(c, m, prior);
    forall p | p in prior ensures Arrived(c, m, prior, r, p, Dest(c, m, prior, p.bucket, p.slot)) {
      SpreadAt(c, m, prior, p);
    }
    forall q | q in r ensures exists p :: Arrived(c, m, prior, r, p, q) {
      assert Arrived(c, m, prior, r, Origin(c, m, prior, q), q);
    }
  }

  lemma DestSlot(c: CM.Config, m: bv64, prior: Table, b: bv64, i: nat)
    ensures Dest(c, m, prior, b, i).slot <= i
  {
    hide UpAt, WithTop;
    RankGrows(c, m, prior, b, 0, i);
  }

  lemma DestPlaced(c: CM.Config, m: bv64, prior: Table, b: bv64, i: nat)
    requires IsMask(m) && CM.Placed(c, prior, m) && CM.Pos(b, i) in prior
    ensures InPair(Doubled(m), c.hash(prior[CM.Pos(b, i)].key), Dest(c, m, prior, b, i).bucket)
  {
    DestinationIsRight(m, c.hash(prior[CM.Pos(b, i)].key), b);
  }

  lemma PlacedIsSized(c: CM.Config, t: Table, m: bv64)
    requires CM.Placed(c, t, m)
    ensures Sized(c, m, t)
  {
    hide Masked, PartialKey, Tag, Mixed;
    forall p | p in t ensures Masked(p.bucket, m) == p.bucket {
      PairIsMasked(m, c.hash(t[p].key), p.bucket);
    }
  }

  lemma PairIsMasked(m: bv64, hash: bv64, b: bv64)
    requires InPair(m, hash, b)
    ensures Masked(b, m) == b
  {
    hide Masked, AltWord;
    SecondIsMasked(m, hash);
    MaskIdempotent(hash, m);
    MaskIdempotent(AltWord(hash), m);
  }

  lemma {:induction false} UniqueSize(t: Table)
    requires CM.Unique(t)
    ensures |t| == |t.Values|
    decreases |t|
  {
    if p :| p in t {
      var u := t - {p};
      assert u.Keys == t.Keys - {p};
      UniqueSize(u);
      forall e ensures e in u.Values <==> e in t.Values && e != t[p] {
        if e in t.Values && e != t[p] {
          var q :| q in t && t[q] == e;
          assert q in u && u[q] == e;
        }
      }
      assert u.Values == t.Values - {t[p]};
    } else {
      assert t == map[];
    }
  }

  /** Doubling keeps every key in one of its two buckets, no key twice, and the same entries. */
  lemma AllMovedIs(c: CM.Config, m: bv64, prior: Table, cur: Table)
    requires IsMask(m) && CM.Placed(c, prior, m) && CM.Unique(prior) && AllMoved(c, m, prior, cur)
    ensures CM.Placed(c, cur, Doubled(m)) && CM.Unique(cur) && CM.SameEntries(prior, cur)
  {
    hide InPair, Doubled, Dest, IsMask;
    forall q | q in cur ensures q.slot < c.slots && InPair(Doubled(m), c.hash(cur[q].key), q.bucket) {
      var p :| Arrived(c, m, prior, cur, p, q);
      assert p == CM.Pos(p.bucket, p.slot);
      DestPlaced(c, m, prior, p.bucket, p.slot);
      DestSlot(c, m, prior, p.bucket, p.slot);
    }
    forall q, r | q in cur && r in cur && cur[q].key == cur[r].key ensures q == r {
      var p :| Arrived(c, m, prior, cur, p, q);
      var p' :| Arrived(c, m, prior, cur, p', r);
      assert p == p';
    }
    MovedValues(c, m, prior, cur);
    UniqueSize(prior);
    UniqueSize(cur);
  }

  lemma MovedValues(c: CM.Config, m: bv64, prior: Table, cur: Table)
    requires AllMoved(c, m, prior, cur)
    ensures prior.Values == cur.Values
  {
    hide Dest;
    forall e ensures e in prior.Values <==> e in cur.Values {
      if e in prior.Values {
        var p :| p in prior && prior[p] == e;
        assert Arrived(c, m, prior, cur, p, Dest(c, m, prior, p.bucket, p.slot));
      }
      if e in cur.Values {
        var q :| q in cur && cur[q] == e;
        var p :| Arrived(c, m, prior, cur, p, q);
      }
    }
  }

  /** All locks taken, the table doubled, the counter raised. */
  ghost predicate Resize(c: CM.Config, s: CM.State, s': CM.State) {
    && s.locks == map[] && s.mask != ALL_ONES
    && s' == s.(table := s'.table, mask := Doubled(s.mask), gen := s.gen + 1)
    && AllMoved(c, s.mask, s.table, s'.table)
  }

  // ----- parts of the doubled table

  /** What the old buckets of a set become. */
  ghost function Part(c: CM.Config, m: bv64, prior: Table, bs: set<Bucket>): Table {
    var r := Spread(c, m, prior);
    map q | q in r && Bucket(Masked(q.bucket, m)) in bs :: r[q]
  }

  /** Moving a bucket adds exactly what the bucket becomes. */
  lemma MovedIsPart(c: CM.Config, m: bv64, prior: Table, base: Table, b: bv64)
    requires MaskFacts(m) && Sized(c, m, prior) && Masked(b, m) == b && BucketsEmpty(base, m, b)
    ensures WithTop(b, m) != b
    ensures MovedTo(c, m, prior, base, b, c.slots) == base + Part(c, m, prior, {Bucket(b)})
  {
    hide Masked, WithTop, Dest, MaskFacts, MovedTo;
    DestMasked(c, m, prior, CM.Pos(b, 0));
    var r, part := MovedTo(c, m, prior, base, b, c.slots), Part(c, m, prior, {Bucket(b)});
    MovedToIs(c, m, prior, base, b, c.slots);
    forall q ensures q in r <==> q in base || q in part {
      if q in r && q !in base {
        var i :| FromSlot(c, m, prior, b, c.slots, q, r[q], i);
        MovedEntry(c, m, prior, b, i);
      }
      if q in part {
        PartEntry(c, m, prior, b, q);
      }
    }
    forall q | q in r ensures r[q] == (base + part)[q] {
      if q in part {
        PartEntry(c, m, prior, b, q);
        PartApart(c, m, prior, base, b, q);
      }
    }
  }

  lemma MovedEntry(c: CM.Config, m: bv64, prior: Table, b: bv64, i: nat)
    requires MaskFacts(m) && Sized(c, m, prior) && CM.Pos(b, i) in prior
    ensures var q, part := Dest(c, m, prior, b, i), Part(c, m, prior, {Bucket(b)});
            q in part && part[q] == prior[CM.Pos(b, i)]
  {
    hide Masked, Dest, MaskFacts;
    SpreadAt(c, m, prior, CM.Pos(b, i));
    DestMasked(c, m, prior, CM.Pos(b, i));
  }

  lemma PartEntry(c: CM.Config, m: bv64, prior: Table, b: bv64, q: CM.Pos)
    requires MaskFacts(m) && Sized(c, m, prior) && q in Part(c, m, prior, {Bucket(b)})
    ensures exists i: nat :: i < c.slots && CM.Pos(b, i) in prior && q == Dest(c, m, prior, b, i)
    ensures exists i: nat ::
              i < c.slots && CM.Pos(b, i) in prior && Part(c, m, prior, {Bucket(b)})[q] == prior[CM.Pos(b, i)] &&
              q == Dest(c, m, prior, b, i)
  {
    hide Masked, Dest, MaskFacts;
    var p := Origin(c, m, prior, q);
    DestMasked(c, m, prior, p);
    assert p == CM.Pos(b, p.slot);
  }

  lemma PartApart(c: CM.Config, m: bv64, prior: Table, base: Table, b: bv64, q: CM.Pos)
    requires MaskFacts(m) && Sized(c, m, prior) && BucketsEmpty(base, m, b) && q in Part(c, m, prior, {Bucket(b)})
    ensures q !in base
  {
    hide Masked, WithTop, Dest, MaskFacts;
    PartEntry(c, m, prior, b, q);
    var i: nat :| i < c.slots && CM.Pos(b, i) in prior && q == Dest(c, m, prior, b, i);
    DestBucket(c, m, prior, b, i);
  }

  lemma PartsJoin(c: CM.Config, m: bv64, prior: Table, cur: Table, bs: set<Bucket>, b: Bucket)
    ensures cur + Part(c, m, prior, bs) + Part(c, m, prior, {b}) == cur + Part(c, m, prior, bs + {b})
  {
    hide Masked, Spread;
    var one, all := cur + Part(c, m, prior, bs), Part(c, m, prior, bs + {b});
    var u := one + Part(c, m, prior, {b});
    assert u.Keys == (cur + all).Keys;
    forall q | q in u ensures u[q] == (cur + all)[q] {
      assert q in Part(c, m, prior, {b}) ==> q in all;
    }
  }

  // ----- one stripe

  /** Old bucket b belongs to the stripe of lock l. */
  predicate InStripe(m: bv64, base: bv64, l: bv64, b: bv64) {
    Masked(b, m) == b && Masked(b, base) == l
  }

  /** What the old buckets of a stripe become. */
  ghost function StripePart(c: CM.Config, m: bv64, prior: Table, base: bv64, l: bv64): Table {
    var r := Spread(c, m, prior);
    map q | q in r && InStripe(m, base, l, Masked(q.bucket, m)) :: r[q]
  }

  /** Moves every old bucket l, l + size, l + 2 * size, ... below the table size, where size - 1 is the mask `base`. */
  method MoveStripe(c: CM.Config, m: bv64, prior: Table, cur: Table, base: bv64, l: bv64, ghost n: nat)
    returns (r: Table)
    requires MaskFacts(m) && Sized(c, m, prior) && IsMask(base) && m == Grown(base, n) && Masked(l, base) == l
    requires forall q :: q in cur ==> !InStripe(m, base, l, Masked(q.bucket, m))
    ensures r == cur + StripePart(c, m, prior, base, l)
  {
    hide Masked, BucketsEmpty, WithTop, MovedTo, InStripe, Grown, Stripe, Plus, TopBit, Within, Part, Sized, IsMask;
    hide MaskFacts, StripePart;
    r := cur;
    MaskIs(m);
    ghost var s, i := Stripe(base, n, l), 0;
    StripeSteps(base, n, l);
    StripeEnds(base, n, l, 0);
    PartOfNone(c, m, prior, cur);
    var b := l;
    while Within(b, m)
      invariant 0 <= i <= |s|
      invariant b == if i < |s| then s[i].n else Plus(l, TopBit(m))
      invariant r == cur + Part(c, m, prior, Of(s[..i]))
      decreases |s| - i
    {
      StripeBucket(c, m, prior, cur, base, l, n, i);
      assert Bucket(b) == s[i];
      MovedIsPart(c, m, prior, r, b);
      r := MoveBucket(c, m, prior, r, b);
      PartsJoin(c, m, prior, cur, Of(s[..i]), s[i]);
      OfNext(s, i);
      b := Plus(b, TopBit(base));
      i := i + 1;
      if i < |s| {
        StripeEnds(base, n, l, i);
      }
    }
    if i < |s| {
      StripeEnds(base, n, l, i);
    }
    assert s[..i] == s;
    WholeStripe(c, m, prior, base, l, n);
  }

  ghost function Of(s: seq<Bucket>): set<Bucket> {
    set b | b in s
  }

  lemma OfNext(s: seq<Bucket>, i: nat)
    requires i < |s|
    ensures Of(s[..i + 1]) == Of(s[..i]) + {s[i]}
  {
    assert s[..i + 1] == s[..i] + [s[i]];
  }

  lemma PartOfNone(c: CM.Config, m: bv64, prior: Table, cur: Table)
    ensures cur == cur + Part(c, m, prior, Of([]))
  {}

  lemma MaskIs(m: bv64)
    requires MaskFacts(m)
    ensures IsMask(m) && m != ALL_ONES
  {}

  /** Nothing is in the two buckets that the next bucket of the stripe is moved to. */
  lemma StripeBucket(c: CM.Config, m: bv64, prior: Table, cur: Table, base: bv64, l: bv64, n: nat, i: nat)
    requires MaskFacts(m) && IsMask(base) && m == Grown(base, n) && Masked(l, base) == l
    requires forall q :: q in cur ==> !InStripe(m, base, l, Masked(q.bucket, m))
    requires i < |Stripe(base, n, l)|
    ensures var s := Stripe(base, n, l);
            Masked(s[i].n, m) == s[i].n && BucketsEmpty(cur + Part(c, m, prior, Of(s[..i])), m, s[i].n)
  {
    MaskIs(m);
    hide Masked, IsMask, Grown, Stripe, InStripe, Plus, TopBit, Within, MaskFacts, WithTop, Spread;
    var s := Stripe(base, n, l);
    StripeEnds(base, n, l, i);
    StripeIs(base, n, l, s[i].n);
    assert s[i] == Bucket(s[i].n);
    TopBitIsFree(s[i].n, m);
    forall j | 0 <= j < i ensures s[j] != s[i] {
      StripeDistinct(base, n, l, j, i);
    }
    assert s[i] !in Of(s[..i]);
    var u := cur + Part(c, m, prior, Of(s[..i]));
    forall q | q in u ensures q.bucket != s[i].n && q.bucket != WithTop(s[i].n, m) {
      if q in cur {
        assert !InStripe(m, base, l, Masked(q.bucket, m));
      }
    }
  }

  lemma StripeIs(base: bv64, n: nat, l: bv64, b: bv64)
    requires IsMask(base) && Grown(base, n) != ALL_ONES && Masked(l, base) == l
    ensures Bucket(b) in Stripe(base, n, l) <==> InStripe(Grown(base, n), base, l, b)
  {
    hide IsMask, Masked, Grown, Stripe;
    StripeHas(base, n, l, b);
  }

  lemma WholeStripe(c: CM.Config, m: bv64, prior: Table, base: bv64, l: bv64, n: nat)
    requires MaskFacts(m) && IsMask(base) && m == Grown(base, n) && Masked(l, base) == l
    ensures Part(c, m, prior, Of(Stripe(base, n, l))) == StripePart(c, m, prior, base, l)
  {
    MaskIs(m);
    hide Masked, IsMask, Grown, Stripe, InStripe, MaskFacts, Part, StripePart, Of;
    forall q: CM.Pos
      ensures Bucket(Masked(q.bucket, m)) in Of(Stripe(base, n, l)) <==> InStripe(m, base, l, Masked(q.bucket, m))
    {
      StripeIs(base, n, l, Masked(q.bucket, m));
      OfHas(Stripe(base, n, l), Bucket(Masked(q.bucket, m)));
    }
    SamePart(c, m, prior, Of(Stripe(base, n, l)), base, l);
  }

  lemma SamePart(c: CM.Config, m: bv64, prior: Table, bs: set<Bucket>, base: bv64, l: bv64)
    requires forall q: CM.Pos :: Bucket(Masked(q.bucket, m)) in bs <==> InStripe(m, base, l, Masked(q.bucket, m))
    ensures Part(c, m, prior, bs) == StripePart(c, m, prior, base, l)
  {
    hide Masked, InStripe, Spread;
  }

  lemma OfHas(s: seq<Bucket>, b: Bucket)
    ensures b in Of(s) <==> b in s
  {}

  // ----- one lock

  const LOCK_MASK: bv64 := MAX_NUM_LOCKS - 1

  /** The part of the doubled table that a lock guards. */
  ghost function LockPart(c: CM.Config, m: bv64, prior: Table, l: bv64): Table {
    var r := Spread(c, m, prior);
    map q | q in r && LockInd(q.bucket) == l :: r[q]
  }

  /** Both buckets an old bucket can go to have its lock. */
  lemma LockOfMasked(b: bv64, m: bv64)
    requires IsMask(m) && m >= LOCK_MASK
    ensures LockInd(Masked(b, m)) == LockInd(b)
  {}

  lemma LockIsMasked(b: bv64)
    ensures Masked(b, LOCK_MASK) == LockInd(b) && IsMask(LOCK_MASK)
  {}

  /** rehash_lock: unless the lock is marked migrated, fills exactly the part of the new array that the lock guards. */
  method RehashLock(c: CM.Config, m: bv64, prior: Table, cur: Table, l: bv64, migrated: bool) returns (r: Table)
    requires MaskFacts(m) && m >= LOCK_MASK && Sized(c, m, prior) && LockInd(l) == l
    requires !migrated ==> forall q :: q in cur ==> LockInd(q.bucket) != l
    ensures r == if migrated then cur else cur + LockPart(c, m, prior, l)
  {
    if migrated {
      return cur;
    }
    MaskIs(m);
    hide Masked, LockInd, IsMask, Grown, Sized, Spread, MaskFacts;
    ghost var n := GrownFrom(LOCK_MASK, m);
    LockIsMasked(l);
    forall q | q in cur ensures !InStripe(m, LOCK_MASK, l, Masked(q.bucket, m)) {
      LockStripe(m, l, q.bucket);
    }
    hide InStripe;
    r := MoveStripe(c, m, prior, cur, LOCK_MASK, l, n);
    StripeIsLock(c, m, prior, l);
  }

  lemma LockStripe(m: bv64, l: bv64, b: bv64)
    requires IsMask(m) && m >= LOCK_MASK
    ensures InStripe(m, LOCK_MASK, l, Masked(b, m)) <==> LockInd(b) == l
  {
    hide Masked, LockInd, IsMask;
    LockIsMasked(Masked(b, m));
    LockOfMasked(b, m);
    MaskIdempotent(b, m);
  }

  lemma StripeIsLock(c: CM.Config, m: bv64, prior: Table, l: bv64)
    requires IsMask(m) && m >= LOCK_MASK
    ensures StripePart(c, m, prior, LOCK_MASK, l) == LockPart(c, m, prior, l)
  {
    hide Masked, LockInd, IsMask, InStripe, Spread;
    forall q: CM.Pos ensures InStripe(m, LOCK_MASK, l, Masked(q.bucket, m)) <==> LockInd(q.bucket) == l {
      LockStripe(m, l, q.bucket);
    }
  }

  /** The locks of a key's buckets are the same before and after the doubling, so migrating its two stripes
      moves both of its old buckets. */
  lemma PairKeepsStripes(m: bv64, hash: bv64)
    requires MaskFacts(m) && m >= MAX_NUM_LOCKS - 1
    ensures LockInd(First(Doubled(m), hash)) == LockInd(First(m, hash))
    ensures LockInd(Second(Doubled(m), hash)) == LockInd(Second(m, hash))
  {
    assert IsMask(m) && m >= MAX_NUM_LOCKS - 1;
    hide First, Second, Doubled, WithTop, IsMask, LockInd;
    DoublingAddsTopBit(m, hash);
    StripeIsClosed(First(m, hash), m);
    StripeIsClosed(Second(m, hash), m);
  }

  // ----- the whole array

  lemma EveryBucket(m: bv64, b: bv64)
    ensures InStripe(m, 0, 0, Masked(b, m)) && IsMask(0) && Masked(0, 0) == 0
  {
    MaskIdempotent(b, m);
  }

  /** A small table is doubled at once, bucket by bucket. */
  method DoubleNow(c: CM.Config, m: bv64, prior: Table) returns (cur: Table)
    requires MaskFacts(m) && Sized(c, m, prior)
    ensures cur == Spread(c, m, prior)
  {
    MaskIs(m);
    hide Masked, IsMask, InStripe, Spread, Grown, Sized, MaskFacts;
    EveryBucket(m, 0);
    ghost var n := GrownFrom(0, m);
    hide StripePart;
    cur := MoveStripe(c, m, prior, map[], 0, 0, n);
    OneStripe(c, m, prior);
    assert map[] + Spread(c, m, prior) == Spread(c, m, prior);
  }

  lemma OneStripe(c: CM.Config, m: bv64, prior: Table)
    ensures StripePart(c, m, prior, 0, 0) == Spread(c, m, prior)
  {
    hide Masked, InStripe, Spread;
    forall q: CM.Pos ensures InStripe(m, 0, 0, Masked(q.bucket, m)) {
      EveryBucket(m, q.bucket);
    }
    assert StripePart(c, m, prior, 0, 0).Keys == Spread(c, m, prior).Keys;
  }
}
