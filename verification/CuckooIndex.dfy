/** Bucket arithmetic of the cuckoo hash map on 64-bit words: the two buckets of a key and how they
    change when the table doubles. A table of 2^hp buckets is described by its mask 2^hp - 1. */
module CuckooIndex {

  const MAX_NUM_LOCKS: bv64 := 0x1_0000

  /** Masks are contiguous runs of low one bits. */
  predicate IsMask(m: bv64) {
    m & (m + 1) == 0
  }

  function Doubled(m: bv64): bv64 {
    (m << 1) | 1
  }

  function PartialKey(hash: bv64): bv64 {
    var h32 := (hash ^ (hash >> 32)) & 0xffff_ffff;
    var h16 := (h32 ^ (h32 >> 16)) & 0xffff;
    (h16 ^ (h16 >> 8)) & 0xff
  }

  /** The nonzero tag of a partial key times the hash constant of MurmurHash2. */
  function Tag(partial: bv64): bv64 {
    (partial + 1) * 0xc6a4a7935bd1e995
  }

  /** The low bits of a word that number a bucket. */
  function Masked(x: bv64, mask: bv64): bv64 {
    x & mask
  }

  function Mixed(x: bv64, t: bv64): bv64 {
    x ^ t
  }

  /** The bucket a full table size further on. */
  function WithTop(bucket: bv64, mask: bv64): bv64 {
    bucket | (mask + 1)
  }

  function IndexHash(mask: bv64, hash: bv64): bv64 {
    Masked(hash, mask)
  }

  function AltIndex(mask: bv64, partial: bv64, index: bv64): bv64 {
    Masked(Mixed(index, Tag(partial)), mask)
  }

  function LockInd(bucket: bv64): bv64 {
    bucket & (MAX_NUM_LOCKS - 1)
  }

  function First(mask: bv64, hash: bv64): bv64 {
    IndexHash(mask, hash)
  }

  function Second(mask: bv64, hash: bv64): bv64 {
    AltIndex(mask, PartialKey(hash), IndexHash(mask, hash))
  }

  predicate InPair(mask: bv64, hash: bv64, bucket: bv64) {
    bucket == First(mask, hash) || bucket == Second(mask, hash)
  }

  lemma XorTwice(i: bv64, t: bv64, mask: bv64)
    ensures Masked(Mixed(Masked(Mixed(Masked(i, mask), t), mask), t), mask) == Masked(i, mask)
  {}

  /** The alternate of the alternate is the bucket itself, so each bucket of the pair leads to the other. */
  lemma AltIsInvolution(mask: bv64, partial: bv64, index: bv64)
    requires Masked(index, mask) == index
    ensures AltIndex(mask, partial, AltIndex(mask, partial, index)) == index
  {
    hide Tag, Masked, Mixed;
    XorTwice(index, Tag(partial), mask);
  }

  lemma MaskIdempotent(h: bv64, mask: bv64)
    ensures Masked(Masked(h, mask), mask) == Masked(h, mask)
  {}

  /** Moving a key to the alternate of its bucket keeps it in its pair. */
  lemma AltStaysInPair(mask: bv64, hash: bv64, bucket: bv64)
    requires InPair(mask, hash, bucket)
    ensures InPair(mask, hash, AltIndex(mask, PartialKey(hash), bucket))
  {
    hide Tag, PartialKey, Masked, Mixed;
    MaskIdempotent(hash, mask);
    AltIsInvolution(mask, PartialKey(hash), First(mask, hash));
  }

  /** The bit just above a mask. */
  function TopBit(m: bv64): bv64 {
    m + 1
  }

  lemma DoubledIs(m: bv64)
    requires IsMask(m)
    ensures Doubled(m) == m | (m + 1)
  {}

  lemma OneBit(x: bv64, m: bv64)
    requires IsMask(m)
    ensures x & (m + 1) == 0 || x & (m + 1) == m + 1
  {}

  lemma BitStays(x: bv64, m: bv64, t: bv64)
    requires x & t == t
    ensures x & (m | t) == (x & m) | t
  {}

  lemma BitAbsent(x: bv64, m: bv64, t: bv64)
    requires x & t == 0
    ensures x & (m | t) == x & m
  {}

  lemma GainsNothing(x: bv64, m: bv64)
    requires IsMask(m) && x & (m + 1) == 0
    ensures Masked(x, Doubled(m)) == Masked(x, m)
  {
    BitAbsent(x, m, m + 1);
    DoubledIs(m);
    hide IsMask, Doubled;
  }

  lemma GainsTop(x: bv64, m: bv64)
    requires IsMask(m) && x & (m + 1) == m + 1
    ensures Masked(x, Doubled(m)) == WithTop(Masked(x, m), m)
  {
    BitStays(x, m, m + 1);
    DoubledIs(m);
    hide IsMask, Doubled;
  }

  /** Under the doubled mask a word keeps its low bits and gains the top bit exactly when it has it. */
  lemma GainsBit(x: bv64, m: bv64)
    requires IsMask(m)
    ensures Masked(x, TopBit(m)) == 0 ==> Masked(x, Doubled(m)) == Masked(x, m)
    ensures Masked(x, TopBit(m)) != 0 ==> Masked(x, Doubled(m)) == WithTop(Masked(x, m), m)
  {
    hide Doubled, WithTop;
    OneBit(x, m);
    if x & (m + 1) == 0 {
      GainsNothing(x, m);
    } else {
      GainsTop(x, m);
    }
  }

  lemma XorUnderMask(i: bv64, t: bv64, m: bv64)
    ensures Masked(Mixed(Masked(i, m), t), m) == Masked(Mixed(i, t), m)
  {}

  /** A word that does not depend on the table size and of which the second bucket is the low bits. */
  function AltWord(hash: bv64): bv64 {
    Mixed(hash, Tag(PartialKey(hash)))
  }

  lemma SecondIsMasked(m: bv64, hash: bv64)
    ensures Second(m, hash) == Masked(AltWord(hash), m)
  {
    hide Tag, PartialKey, Masked, Mixed;
    XorUnderMask(hash, Tag(PartialKey(hash)), m);
  }

  /** Doubling adds at most the new top bit to each of a key's two bucket numbers. */
  lemma DoublingAddsTopBit(m: bv64, hash: bv64)
    requires IsMask(m)
    ensures var m' := Doubled(m);
            && (First(m', hash) == First(m, hash) || First(m', hash) == WithTop(First(m, hash), m))
            && (Second(m', hash) == Second(m, hash) || Second(m', hash) == WithTop(Second(m, hash), m))
  {
    hide Masked, WithTop, Doubled, Second, IsMask, AltWord, TopBit;
    SecondIsMasked(m, hash);
    SecondIsMasked(Doubled(m), hash);
    GainsBit(hash, m);
    GainsBit(AltWord(hash), m);
  }

  lemma TopBitIsFree(b: bv64, m: bv64)
    requires IsMask(m) && Masked(b, m) == b && m != 0xffff_ffff_ffff_ffff
    ensures WithTop(b, m) == b + (m + 1) && WithTop(b, m) != b
    ensures Masked(WithTop(b, m), m) == b
  {}

  /** With at least as many buckets as locks, the bucket a key can move to shares its old bucket's lock. */
  lemma StripeIsClosed(b: bv64, m: bv64)
    requires IsMask(m) && m >= MAX_NUM_LOCKS - 1
    ensures LockInd(WithTop(b, m)) == LockInd(b)
  {}
}
