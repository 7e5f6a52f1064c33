/** The buckets of one lock stripe, in the order in which the migration loop visits them. */
module CuckooStripe {
  import opened CuckooIndex

  datatype Bucket = Bucket(n: bv64)

  const ALL_ONES: bv64 := 0xffff_ffff_ffff_ffff

  /** The mask of a table that has doubled n times since its mask was `base`. */
  function Grown(base: bv64, n: nat): bv64 {
    if n == 0 then base else Doubled(Grown(base, n - 1))
  }

  ghost function Raised(bs: seq<Bucket>, m: bv64): (r: seq<Bucket>)
    ensures |r| == |bs| && forall i :: 0 <= i < |bs| ==> r[i] == Bucket(WithTop(bs[i].n, m))
  {
    seq(|bs|, i requires 0 <= i < |bs| => Bucket(WithTop(bs[i].n, m)))
  }

  /** The buckets of the grown table that were bucket l of the base table: each doubling repeats the list one
      table size higher up. */
  ghost function Stripe(base: bv64, n: nat, l: bv64): (r: seq<Bucket>)
    ensures |r| >= 1
  {
    if n == 0 then [Bucket(l)]
    else
      var s := Stripe(base, n - 1, l);
      s + Raised(s, Grown(base, n - 1))
  }

  // ----- bit facts

  lemma DoubledKeepsMask(m: bv64)
    requires IsMask(m)
    ensures IsMask(Doubled(m))
  {}

  lemma DoubledOnes(m: bv64)
    requires Doubled(m) != ALL_ONES
    ensures m != ALL_ONES
  {}

  lemma MaskedTwice(x: bv64, m: bv64, base: bv64)
    requires Masked(base, m) == base
    ensures Masked(Masked(x, m), base) == Masked(x, base)
  {}

  lemma MaskInDoubled(base: bv64, m: bv64)
    requires IsMask(m) && Masked(base, m) == base
    ensures Masked(base, Doubled(m)) == base
  {}

  lemma SelfMasked(m: bv64)
    ensures Masked(m, m) == m
  {}

  /** Grown masks are masks, below all ones when the last one is. */
  lemma {:induction false} GrownIsMask(base: bv64, n: nat)
    requires IsMask(base) && Grown(base, n) != ALL_ONES
    ensures IsMask(Grown(base, n)) && Masked(base, Grown(base, n)) == base
    ensures n > 0 ==> Grown(base, n - 1) != ALL_ONES
  {
    hide IsMask, Masked, Doubled;
    if n == 0 {
      SelfMasked(base);
    } else {
      DoubledOnes(Grown(base, n - 1));
      GrownIsMask(base, n - 1);
      DoubledKeepsMask(Grown(base, n - 1));
      MaskInDoubled(base, Grown(base, n - 1));
    }
  }

  lemma HalfIsMask(m: bv64, base: bv64)
    requires IsMask(m) && IsMask(base) && base < m
    ensures IsMask(m >> 1) && Doubled(m >> 1) == m && base <= m >> 1 < m
  {}

  /** Every larger mask is reached by doubling. */
  lemma {:induction false} GrownFrom(base: bv64, m: bv64) returns (n: nat)
    requires IsMask(base) && IsMask(m) && base <= m
    ensures m == Grown(base, n)
    decreases m
  {
    if base == m {
      n := 0;
    } else {
      HalfIsMask(m, base);
      n := GrownFrom(base, m >> 1);
      n := n + 1;
    }
  }

  lemma TopKeepsLow(b: bv64, m: bv64, base: bv64)
    requires IsMask(m) && Masked(b, m) == b && m != ALL_ONES && Masked(base, m) == base
    ensures Masked(WithTop(b, m), base) == Masked(b, base)
    ensures Masked(WithTop(b, m), Doubled(m)) == WithTop(b, m)
    ensures Masked(b, Doubled(m)) == b
  {
    hide IsMask, Masked, Doubled, WithTop, TopBit;
    TopBitIsFree(b, m);
    MaskedTwice(WithTop(b, m), m, base);
    GainsBit(b, m);
    GainsBit(WithTop(b, m), m);
    HasTopBit(b, m);
    NoTopBit(b, m);
  }

  lemma HasTopBit(b: bv64, m: bv64)
    requires IsMask(m) && m != ALL_ONES
    ensures Masked(WithTop(b, m), TopBit(m)) != 0
  {}

  lemma NoTopBit(b: bv64, m: bv64)
    requires IsMask(m) && Masked(b, m) == b
    ensures Masked(b, TopBit(m)) == 0
  {}

  // ----- membership

  lemma RaisedHas(bs: seq<Bucket>, m: bv64, b: bv64)
    ensures Bucket(b) in Raised(bs, m) <==> exists i :: 0 <= i < |bs| && WithTop(bs[i].n, m) == b
  {
    hide WithTop;
    if Bucket(b) in Raised(bs, m) {
      var i :| 0 <= i < |bs| && Raised(bs, m)[i] == Bucket(b);
      assert WithTop(bs[i].n, m) == b;
    }
    if i :| 0 <= i < |bs| && WithTop(bs[i].n, m) == b {
      assert Raised(bs, m)[i] == Bucket(b);
    }
  }

  /** The stripe of l holds exactly the buckets of the table whose low bits are l. */
  lemma {:induction false} StripeHas(base: bv64, n: nat, l: bv64, b: bv64)
    requires IsMask(base) && Grown(base, n) != ALL_ONES && Masked(l, base) == l
    ensures Bucket(b) in Stripe(base, n, l) <==> Masked(b, Grown(base, n)) == b && Masked(b, base) == l
  {
    hide IsMask, Masked, Doubled, WithTop, TopBit, Stripe, Grown, Raised;
    if n == 0 {
      StripeStart(base, l);
      assert Bucket(b) in [Bucket(l)] <==> b == l;
    } else {
      StripeUnfolds(base, n, l);
      GrownIsMask(base, n);
      GrownIsMask(base, n - 1);
      var m, s := Grown(base, n - 1), Stripe(base, n - 1, l);
      StripeHas(base, n - 1, l, b);
      StripeHas(base, n - 1, l, Masked(b, m));
      RaisedHas(s, m, b);
      forall i | 0 <= i < |s| ensures Masked(s[i].n, m) == s[i].n {
        StripeHas(base, n - 1, l, s[i].n);
        assert s[i] == Bucket(s[i].n);
      }
      StripeHasStep(base, n, l, b, m, s);
    }
  }

  lemma StripeUnfolds(base: bv64, n: nat, l: bv64)
    requires n > 0
    ensures var m, s := Grown(base, n - 1), Stripe(base, n - 1, l);
            Stripe(base, n, l) == s + Raised(s, m) && Grown(base, n) == Doubled(m)
  {
    hide Doubled, Raised;
  }

  lemma StripeHasStep(base: bv64, n: nat, l: bv64, b: bv64, m: bv64, s: seq<Bucket>)
    requires IsMask(m) && m != ALL_ONES && Masked(base, m) == base
    requires Bucket(b) in s <==> Masked(b, m) == b && Masked(b, base) == l
    requires Bucket(Masked(b, m)) in s <==> Masked(Masked(b, m), m) == Masked(b, m) && Masked(Masked(b, m), base) == l
    requires Bucket(b) in Raised(s, m) <==> exists i :: 0 <= i < |s| && WithTop(s[i].n, m) == b
    requires forall i :: 0 <= i < |s| ==> Masked(s[i].n, m) == s[i].n
    ensures Bucket(b) in s + Raised(s, m) <==> Masked(b, Doubled(m)) == b && Masked(b, base) == l
  {
    hide IsMask, Masked, Doubled, WithTop, TopBit;
    MaskIdempotent(b, m);
    MaskedTwice(b, m, base);
    GainsBit(b, m);
    if Bucket(b) in s {
      TopKeepsLow(b, m, base);
    }
    if i :| 0 <= i < |s| && WithTop(s[i].n, m) == b {
      TopKeepsLow(s[i].n, m, base);
      TopBitIsFree(s[i].n, m);
      assert s[i] == Bucket(Masked(b, m));
    }
    if Masked(b, Doubled(m)) == b && Masked(b, base) == l && b != Masked(b, m) {
      var i :| 0 <= i < |s| && s[i] == Bucket(Masked(b, m));
      assert WithTop(s[i].n, m) == b;
    }
  }

  // ----- order

  /** Addition under a name of its own, for proofs that hide it. */
  function Plus(x: bv64, y: bv64): bv64 {
    x + y
  }

  lemma PlusIs(x: bv64, y: bv64)
    ensures Plus(x, y) == x + y
  {}

  lemma SumSwaps(x: bv64, c: bv64, t: bv64)
    ensures Plus(x + c, t) == Plus(x + t, c)
  {}

  lemma SumAssociates(x: bv64, t: bv64)
    ensures Plus(x + t, t) == Plus(x, t + t)
  {}

  lemma PlusSwaps(x: bv64, c: bv64, t: bv64)
    ensures Plus(Plus(x, c), t) == Plus(Plus(x, t), c)
  {
    hide Plus;
    PlusIs(x, c);
    PlusIs(x, t);
    SumSwaps(x, c, t);
  }

  lemma PlusAssociates(x: bv64, t: bv64)
    ensures Plus(Plus(x, t), t) == Plus(x, Plus(t, t))
  {
    hide Plus;
    PlusIs(x, t);
    PlusIs(t, t);
    SumAssociates(x, t);
  }

  lemma WithTopIsPlus(b: bv64, m: bv64)
    requires IsMask(m) && Masked(b, m) == b && m != ALL_ONES
    ensures WithTop(b, m) == Plus(b, TopBit(m))
  {
    TopBitIsFree(b, m);
  }

  lemma DoubledSize(m: bv64)
    requires IsMask(m)
    ensures TopBit(Doubled(m)) == Plus(TopBit(m), TopBit(m))
  {}

  /** Each bucket of a stripe is one base size behind the one before; the first is l and the last one base size
      short of l plus the table size. */
  lemma {:induction false} StripeSteps(base: bv64, n: nat, l: bv64)
    requires IsMask(base) && Grown(base, n) != ALL_ONES && Masked(l, base) == l
    ensures var s := Stripe(base, n, l);
            && s[0] == Bucket(l)
            && (forall i :: 0 <= i < |s| - 1 ==> s[i + 1] == Bucket(Plus(s[i].n, TopBit(base))))
            && Plus(s[|s| - 1].n, TopBit(base)) == Plus(l, TopBit(Grown(base, n)))
  {
    hide IsMask, Masked, Doubled, WithTop, TopBit, Plus, Stripe, Grown;
    if n == 0 {
      StripeStart(base, l);
    } else {
      StripeHalves(base, n, l);
      StripeSteps(base, n - 1, l);
      var m, s, r := Grown(base, n - 1), Stripe(base, n - 1, l), Stripe(base, n, l);
      var c, t, k := TopBit(base), TopBit(m), |s|;
      forall i | 0 <= i < |r| - 1 ensures r[i + 1] == Bucket(Plus(r[i].n, c)) {
        if i >= k {
          HalfSteps(s, r, i - k, c, t);
        }
      }
      DoubledSize(m);
      PlusSwaps(s[k - 1].n, t, c);
      PlusAssociates(l, t);
    }
  }

  lemma HalfSteps(s: seq<Bucket>, r: seq<Bucket>, j: nat, c: bv64, t: bv64)
    requires j + 1 < |s| && |r| == 2 * |s| && s[j + 1] == Bucket(Plus(s[j].n, c))
    requires forall i :: 0 <= i < |s| ==> r[|s| + i] == Bucket(Plus(s[i].n, t))
    ensures r[|s| + j + 1] == Bucket(Plus(r[|s| + j].n, c))
  {
    hide Plus;
    assert r[|s| + (j + 1)] == Bucket(Plus(s[j + 1].n, t));
    PlusSwaps(s[j].n, c, t);
  }

  lemma StripeStart(base: bv64, l: bv64)
    ensures Stripe(base, 0, l) == [Bucket(l)] && Grown(base, 0) == base
  {}

  lemma StripeHalves(base: bv64, n: nat, l: bv64)
    requires IsMask(base) && n > 0 && Grown(base, n) != ALL_ONES && Masked(l, base) == l
    ensures Grown(base, n - 1) != ALL_ONES && Grown(base, n) == Doubled(Grown(base, n - 1)) &&
            IsMask(Grown(base, n - 1))
    ensures var m, s, r := Grown(base, n - 1), Stripe(base, n - 1, l), Stripe(base, n, l);
            |r| == 2 * |s| &&
            forall i :: 0 <= i < |s| ==> r[i] == s[i] && r[|s| + i] == Bucket(Plus(s[i].n, TopBit(m)))
  {
    hide IsMask, Masked, Doubled, WithTop, TopBit, Plus;
    GrownIsMask(base, n);
    GrownIsMask(base, n - 1);
    var m, s, r := Grown(base, n - 1), Stripe(base, n - 1, l), Stripe(base, n, l);
    forall i | 0 <= i < |s| ensures r[i] == s[i] && r[|s| + i] == Bucket(Plus(s[i].n, TopBit(m))) {
      StripeHas(base, n - 1, l, s[i].n);
      assert s[i] == Bucket(s[i].n);
      WithTopIsPlus(s[i].n, m);
      assert r[|s| + i] == Raised(s, m)[i];
    }
  }

  /** No bucket is visited twice. */
  lemma {:induction false} StripeDistinct(base: bv64, n: nat, l: bv64, i: nat, j: nat)
    requires IsMask(base) && Grown(base, n) != ALL_ONES && Masked(l, base) == l && i < j < |Stripe(base, n, l)|
    ensures Stripe(base, n, l)[i] != Stripe(base, n, l)[j]
  {
    hide IsMask, Masked, Doubled, WithTop, TopBit, Plus, Grown, Stripe;
    if n == 0 {
      StripeStart(base, l);
    } else {
      StripeHalves(base, n, l);
      var m, s, r := Grown(base, n - 1), Stripe(base, n - 1, l), Stripe(base, n, l);
      var k := |s|;
      if j < k {
        StripeDistinct(base, n - 1, l, i, j);
      } else {
        Lowered(base, n, l, j - k);
        if i >= k {
          StripeDistinct(base, n - 1, l, i - k, j - k);
          Lowered(base, n, l, i - k);
        } else {
          Lowered(base, n, l, i);
        }
      }
    }
  }

  /** The low bits of a bucket of the upper half are its copy in the lower half, which differs from it. */
  lemma Lowered(base: bv64, n: nat, l: bv64, i: nat)
    requires IsMask(base) && n > 0 && Grown(base, n) != ALL_ONES && Masked(l, base) == l && i < |Stripe(base, n - 1, l)|
    ensures var m, s, r := Grown(base, n - 1), Stripe(base, n - 1, l), Stripe(base, n, l);
            && |r| == 2 * |s| && r[i] == s[i] && Masked(s[i].n, m) == s[i].n
            && Bucket(Masked(r[|s| + i].n, m)) == s[i] != r[|s| + i]
  {
    hide IsMask, Masked, Doubled, WithTop, TopBit, Plus, Grown, Stripe;
    StripeHalves(base, n, l);
    var m, s := Grown(base, n - 1), Stripe(base, n - 1, l);
    StripeHas(base, n - 1, l, s[i].n);
    assert s[i] == Bucket(s[i].n);
    TopBitIsFree(s[i].n, m);
    WithTopIsPlus(s[i].n, m);
  }

  /** The loop test: the buckets of the stripe pass it, the word behind the last one does not. */
  lemma StripeEnds(base: bv64, n: nat, l: bv64, i: nat)
    requires IsMask(base) && Grown(base, n) != ALL_ONES && Masked(l, base) == l && i < |Stripe(base, n, l)|
    ensures var m, b := Grown(base, n), Stripe(base, n, l)[i].n;
            Within(b, m) && !Within(Plus(l, TopBit(m)), m) && Masked(b, m) == b
  {
    hide IsMask, Masked, Doubled, WithTop, TopBit, Plus, Within;
    GrownIsMask(base, n);
    var m, b := Grown(base, n), Stripe(base, n, l)[i].n;
    StripeHas(base, n, l, b);
    assert Bucket(b) == Stripe(base, n, l)[i];
    WithinIs(b, m);
    StripeHas(base, n, l, l);
    StripeSteps(base, n, l);
    assert Stripe(base, n, l)[0] == Bucket(l);
    TopBitIsFree(l, m);
    WithTopIsPlus(l, m);
    WithinIs(WithTop(l, m), m);
  }

  /** A bucket number below the table size. */
  predicate Within(b: bv64, m: bv64) {
    b <= m
  }

  lemma WithinIs(x: bv64, m: bv64)
    requires IsMask(m)
    ensures Within(x, m) <==> Masked(x, m) == x
  {}
}
