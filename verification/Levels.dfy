/** The linear-hashing header: masks, split levels, and the page number of each bucket. */
module Levels {
  import opened Bits
  import opened Pages

  const NCACHED: nat := 32

  /** `spares[l]` is the first bucket page of level l; `spares[ovflPoint + 1]` is the next
      page number the allocator hands out, 0 while nothing is allocated at this level. */
  datatype Header = Header(
    bsize: nat, ovflPoint: nat, maxBucket: nat, highMask: nat, lowMask: nat, nkeys: nat,
    hdrPages: nat, numMoved: nat, spares: seq<nat>, freePages: seq<Pgno>)

  /** Both masks are one less than consecutive powers of two around the bucket count. */
  ghost predicate MasksOk(h: Header) {
    && 1 <= h.ovflPoint
    && h.lowMask == Pow2(h.ovflPoint - 1) - 1
    && h.highMask == Pow2(h.ovflPoint) - 1
    && h.lowMask < h.maxBucket <= h.highMask
  }

  ghost predicate SparesOk(h: Header)
    requires 1 <= h.ovflPoint
  {
    && |h.spares| == NCACHED
    && h.ovflPoint + 1 < NCACHED
    && 1 <= h.hdrPages
    && h.spares[0] == h.hdrPages
    && h.spares[1] == h.hdrPages + 1
    && (forall l :: 1 <= l < h.ovflPoint ==> h.spares[l] + Pow2(l - 1) <= h.spares[l + 1])
    && (h.spares[h.ovflPoint + 1] == 0 || RegionEnd(h) < h.spares[h.ovflPoint + 1])
    && (forall l :: h.ovflPoint + 1 < l < NCACHED ==> h.spares[l] == 0)
  }

  ghost predicate LevelsOk(h: Header) {
    MasksOk(h) && SparesOk(h)
  }

  /** First page after the bucket pages of the current level. */
  function RegionEnd(h: Header): nat
    requires 1 <= h.ovflPoint < |h.spares|
  {
    h.spares[h.ovflPoint] + Pow2(h.ovflPoint - 1)
  }

  /** First page number not yet handed out. */
  function Top(h: Header): nat
    requires 1 <= h.ovflPoint && h.ovflPoint + 1 < |h.spares|
  {
    if h.spares[h.ovflPoint + 1] == 0 then RegionEnd(h) else h.spares[h.ovflPoint + 1]
  }

  /** The page is above the header and below Top, and no bucket page of a level reached. */
  ghost predicate InPool(h: Header, p: Pgno)
    requires 1 <= h.ovflPoint && h.ovflPoint + 1 < |h.spares|
  {
    && h.spares[1] < p < Top(h)
    && forall l :: 1 <= l <= h.ovflPoint ==> p < h.spares[l] || h.spares[l] + Pow2(l - 1) <= p
  }

  /** The bucket a hash value selects. */
  function CallHash(h: Header, n: nat): nat {
    var bucket := BitAnd(n, h.highMask);
    if bucket > h.maxBucket then BitAnd(n, h.lowMask) else bucket
  }

  /** Page number of a bucket. A level past the table has no page; the store never asks. */
  function BucketPage(h: Header, b: nat): Pgno {
    var l := Log2(b + 1);
    var s := if l < |h.spares| then h.spares[l] else 0;
    if b > 0 && l > 0 then b - Pow2(l - 1) + s else s
  }

  /** The header after one more bucket. */
  function Grow(h: Header): Header {
    var newBucket := h.maxBucket + 1;
    var h1 := h.(maxBucket := newBucket);
    var h2 := if newBucket > h.highMask
      then h1.(lowMask := h.highMask, highMask := BitOr(newBucket, h.highMask)) else h1;
    if Log2(newBucket + 1) > h.ovflPoint then h2.(ovflPoint := Log2(newBucket + 1)) else h2
  }

  /** The bucket that the next expansion splits. */
  function SplitBucketOf(h: Header): nat {
    BitAnd(h.maxBucket + 1, h.lowMask)
  }

  // ---------------------------------------------------------------- masks

  lemma MaskedHash(h: Header, n: nat)
    requires MasksOk(h)
    ensures BitAnd(n, h.highMask) == n % Pow2(h.ovflPoint)
    ensures BitAnd(n, h.lowMask) == n % Pow2(h.ovflPoint - 1)
  {
    hide BitAnd, Pow2;
    AndLowMask(n, h.ovflPoint);
    AndLowMask(n, h.ovflPoint - 1);
  }

  /** The bucket of a hash value: the value modulo the table size of the level if there is such a
      bucket already, otherwise modulo half of it. */
  function BucketOf(level: nat, maxBucket: nat, n: nat): nat
    requires level >= 1
  {
    if n % Pow2(level) <= maxBucket then n % Pow2(level) else n % Pow2(level - 1)
  }

  lemma HashIs(h: Header, n: nat)
    requires MasksOk(h)
    ensures CallHash(h, n) == BucketOf(h.ovflPoint, h.maxBucket, n)
  {
    hide BitAnd, Pow2;
    MaskedHash(h, n);
  }

  lemma OvflPointIsLog(h: Header)
    requires MasksOk(h)
    ensures h.ovflPoint == Log2(h.maxBucket + 1)
  {
    Log2Unique(h.maxBucket + 1, h.ovflPoint);
  }

  /** Every hash selects an existing bucket. */
  lemma HashInRange(h: Header, n: nat)
    requires MasksOk(h)
    ensures CallHash(h, n) <= h.maxBucket
  {
    MaskedHash(h, n);
  }

  /** The split bucket exists and is below the new one. */
  lemma SplitBucketRange(h: Header)
    requires MasksOk(h)
    ensures SplitBucketOf(h) == (h.maxBucket + 1) % Pow2(h.ovflPoint - 1)
    ensures SplitBucketOf(h) <= h.lowMask < h.maxBucket
  {
    hide BitAnd;
    AndLowMask(h.maxBucket + 1, h.ovflPoint - 1);
  }

  /** An expansion keeps the mask shape; the level moves exactly when the masks do. */
  lemma GrowMasks(h: Header)
    requires MasksOk(h)
    ensures MasksOk(Grow(h))
    ensures Grow(h).ovflPoint == if h.maxBucket == h.highMask then h.ovflPoint + 1 else h.ovflPoint
    ensures Grow(h).ovflPoint == Log2(Grow(h).maxBucket + 1)
  {
    hide BitOr, Log2;
    var nb := h.maxBucket + 1;
    if nb > h.highMask {
      assert nb == Pow2(h.ovflPoint);
      OrNextMask(h.ovflPoint);
      Log2Unique(nb + 1, h.ovflPoint + 1);
    } else {
      Log2Unique(nb + 1, h.ovflPoint);
    }
  }

  /** An expansion moves a hash value only from the split bucket to the new bucket. */
  lemma GrowMovesOnlySplit(h: Header, n: nat)
    requires MasksOk(h)
    ensures var b, b' := CallHash(h, n), CallHash(Grow(h), n);
      b' == b || (b == SplitBucketOf(h) && b' == h.maxBucket + 1)
  {
    hide BitAnd, BitOr, Log2;
    GrowMasks(h);
    MaskedHash(h, n);
    MaskedHash(Grow(h), n);
    SplitBucketRange(h);
    var p := Pow2(h.ovflPoint - 1);
    assert Pow2(h.ovflPoint) == 2 * p;
    ModDoubleSplit(n, p);
    if h.maxBucket == h.highMask {
      ModDoubleSplit(n, 2 * p);
      assert (h.maxBucket + 1) % p == 0 by { ModUnique(2 * p, p, 2, 0); }
      assert Grow(h).lowMask == h.highMask;
    } else {
      assert (h.maxBucket + 1) % p == h.maxBucket + 1 - p by {
        ModUnique(h.maxBucket + 1, p, 1, h.maxBucket + 1 - p);
      }
    }
  }

  // ---------------------------------------------------------------- page numbers

  lemma BucketLevel(h: Header, b: nat) returns (l: nat)
    requires LevelsOk(h) && 1 <= b <= h.highMask
    ensures l == Log2(b + 1) && 1 <= l <= h.ovflPoint
    ensures Pow2(l - 1) <= b < Pow2(l)
    ensures BucketPage(h, b) == h.spares[l] + (b - Pow2(l - 1))
    ensures h.spares[l] <= BucketPage(h, b) < h.spares[l] + Pow2(l - 1)
  {
    l := Log2(b + 1);
    Log2IsCeiling(b + 1);
    if l > h.ovflPoint {
      Pow2Monotone(h.ovflPoint, l - 1);
    }
  }

  /** The page of a bucket: bucket 0 has the first page behind the header; the others are, level by
      level, one behind the other from where their level starts. */
  lemma BucketPageIs(h: Header, b: nat, l: nat)
    requires LevelsOk(h) && b <= h.highMask
    ensures b == 0 ==> BucketPage(h, b) == h.hdrPages
    ensures 1 <= l && Pow2(l - 1) <= b < Pow2(l) ==> l <= h.ovflPoint && BucketPage(h, b) == h.spares[l] + (b - Pow2(l - 1))
  {
    if b >= 1 && 1 <= l && Pow2(l - 1) <= b < Pow2(l) {
      var l1 := BucketLevel(h, b);
      if l < l1 {
        Pow2Monotone(l, l1 - 1);
      } else if l1 < l {
        Pow2Monotone(l1, l - 1);
      }
    }
  }

  lemma {:induction false} SparesMonotone(h: Header, a: nat, b: nat)
    requires LevelsOk(h) && 1 <= a < b <= h.ovflPoint
    ensures h.spares[a] + Pow2(a - 1) <= h.spares[b]
    decreases b
  {
    if a < b - 1 {
      SparesMonotone(h, a, b - 1);
      assert h.spares[b - 1] + Pow2(b - 1 - 1) <= h.spares[b];
    }
  }

  lemma SparesAboveHeader(h: Header, l: nat)
    requires LevelsOk(h) && 1 <= l <= h.ovflPoint
    ensures h.hdrPages < h.spares[l]
  {
    if l > 1 {
      SparesMonotone(h, 1, l);
    }
  }

  /** Distinct buckets have distinct pages. */
  lemma BucketPageInjective(h: Header, a: nat, b: nat)
    requires LevelsOk(h) && a <= h.highMask && b <= h.highMask
    requires BucketPage(h, a) == BucketPage(h, b)
    ensures a == b
  {
    if a >= 1 {
      var la := BucketLevel(h, a);
      SparesAboveHeader(h, la);
      if b >= 1 {
        var lb := BucketLevel(h, b);
        if la < lb {
          SparesMonotone(h, la, lb);
        } else if lb < la {
          SparesMonotone(h, lb, la);
        }
      }
    } else if b >= 1 {
      var lb := BucketLevel(h, b);
      SparesAboveHeader(h, lb);
    }
  }

  /** A page the allocator may hand out is neither a header page nor a bucket page. */
  lemma PoolIsNotBucket(h: Header, b: nat, p: Pgno)
    requires LevelsOk(h) && b <= h.highMask && InPool(h, p)
    ensures p != BucketPage(h, b) && p >= h.hdrPages
  {
    if b >= 1 {
      var l := BucketLevel(h, b);
    }
  }

  lemma BucketPageRange(h: Header, b: nat)
    requires LevelsOk(h) && b <= h.highMask
    ensures h.hdrPages <= BucketPage(h, b) < RegionEnd(h)
  {
    if b >= 1 {
      var l := BucketLevel(h, b);
      SparesAboveHeader(h, l);
      if l < h.ovflPoint {
        SparesMonotone(h, l, h.ovflPoint);
      }
    } else {
      SparesAboveHeader(h, h.ovflPoint);
      if h.ovflPoint > 1 {
        SparesMonotone(h, 1, h.ovflPoint);
      }
    }
  }

  /** The last bucket page of the level is right below RegionEnd. */
  lemma HighMaskPage(h: Header)
    requires LevelsOk(h)
    ensures BucketPage(h, h.highMask) + 1 == RegionEnd(h)
  {
    var l := BucketLevel(h, h.highMask);
    if l < h.ovflPoint {
      Pow2Monotone(l, h.ovflPoint - 1);
    }
  }

  // ---------------------------------------------------------------- header updates

  /** The header once the next page number is `top`. */
  function SetTop(h: Header, top: nat): Header
    requires h.ovflPoint + 1 < |h.spares|
  {
    h.(spares := h.spares[h.ovflPoint + 1 := top])
  }

  /** Raising Top keeps the levels, the bucket pages and every page already in the pool;
      a page between the old and the new Top joins it. */
  lemma SetTopKeeps(h: Header, top: nat)
    requires LevelsOk(h) && RegionEnd(h) < top && Top(h) <= top
    ensures LevelsOk(SetTop(h, top))
    ensures RegionEnd(SetTop(h, top)) == RegionEnd(h) && Top(SetTop(h, top)) == top
    ensures forall b: nat :: b <= h.highMask ==> BucketPage(SetTop(h, top), b) == BucketPage(h, b)
    ensures forall p :: InPool(h, p) ==> InPool(SetTop(h, top), p)
    ensures forall p :: Top(h) <= p < top ==> InPool(SetTop(h, top), p)
  {
    var h' := SetTop(h, top);
    forall b: nat | b <= h.highMask
      ensures BucketPage(h', b) == BucketPage(h, b)
    {
      if b >= 1 {
        var l := BucketLevel(h, b);
      } else {
        assert Log2(0 + 1) == 0;
      }
    }
    forall p | Top(h) <= p < top
      ensures InPool(h', p)
    {
      PageAtTopInPool(h, h', p);
    }
  }

  lemma PageAtTopInPool(h: Header, h': Header, p: Pgno)
    requires LevelsOk(h) && RegionEnd(h) <= p
    requires h'.ovflPoint == h.ovflPoint && |h'.spares| == |h.spares|
    requires forall l :: 0 <= l <= h.ovflPoint ==> h'.spares[l] == h.spares[l]
    requires p < Top(h')
    ensures InPool(h', p)
  {
    SparesAboveHeader(h, h.ovflPoint);
    forall l | 1 <= l <= h'.ovflPoint
      ensures p < h'.spares[l] || h'.spares[l] + Pow2(l - 1) <= p
    {
      if l < h.ovflPoint {
        SparesMonotone(h, l, h.ovflPoint);
      }
    }
    if h.ovflPoint > 1 {
      SparesMonotone(h, 1, h.ovflPoint);
    }
  }

  /** An expansion keeps the levels, bucket pages and pool pages. */
  lemma GrowKeeps(h: Header)
    requires LevelsOk(h) && h.ovflPoint + 2 < NCACHED
    requires h.spares[h.ovflPoint + 1] != 0
    ensures LevelsOk(Grow(h))
    ensures forall b: nat :: b <= h.highMask ==> BucketPage(Grow(h), b) == BucketPage(h, b)
    ensures forall p :: InPool(h, p) ==> InPool(Grow(h), p)
  {
    hide BitOr, Log2;
    GrowMasks(h);
    var h' := Grow(h);
    assert h'.spares == h.spares;
    forall b: nat | b <= h.highMask
      ensures BucketPage(h', b) == BucketPage(h, b)
    {
    }
    if h'.ovflPoint > h.ovflPoint {
      assert h'.spares[h'.ovflPoint + 1] == 0;
      forall p | InPool(h, p)
        ensures InPool(h', p)
      {
        assert p < h'.spares[h'.ovflPoint];
      }
    }
  }
}
