/** How a new file is laid out: header, user information, configurations, buckets. */
module Sizing {
  import opened Bits
  import opened Pages
  import opened Levels
  import opened StoreInv
  import opened Split

  const DEFAULT_UINFO_LEN: nat := 4000
  const UINT_SIZE: nat := 4
  const CONFIG_SIZE: nat := 148

  /** The page numbers and counts are 16-bit fields. */
  datatype FileLayout = FileLayout(uinfoLen: nat, uinfoPage: nat, uinfoPages: nat,
                                   cfigPage: nat, cfigPages: nat, numConfigs: nat, hdr: Header)

  function Low16(n: nat): nat {
    n % 0x1_0000
  }

  /** Bytes of user information that `pages` pages hold behind the length. */
  function UinfoRoom(bsize: nat, pages: int): int {
    pages * (bsize - PAGE_OVERHEAD) - UINT_SIZE
  }

  /** Configurations on one page. */
  function ConfigsPerPage(bsize: nat): int {
    (bsize - PAGE_OVERHEAD) / CONFIG_SIZE
  }

  /** The header page, the user information, the configurations and the buckets follow each
      other without gap or overlap. */
  ghost predicate Tiles(f: FileLayout) {
    && f.uinfoPage == 1 && f.uinfoPages >= 1
    && f.cfigPage == f.uinfoPage + f.uinfoPages && f.cfigPages >= 1
    && f.hdr.hdrPages == f.cfigPage + f.cfigPages
    && (forall b: nat :: b <= f.hdr.maxBucket ==> BucketPage(f.hdr, b) == f.hdr.hdrPages + b)
  }

  /** The page counts hold what was asked for, and one page less would not. */
  ghost predicate JustEnough(f: FileLayout) {
    && UinfoRoom(f.hdr.bsize, f.uinfoPages - 1) < f.uinfoLen <= UinfoRoom(f.hdr.bsize, f.uinfoPages)
    && (f.cfigPages - 1) * ConfigsPerPage(f.hdr.bsize) < f.numConfigs <= f.cfigPages * ConfigsPerPage(f.hdr.bsize)
  }

  lemma PerPagePositive(bsize: nat)
    requires BsizeOk(bsize)
    ensures ConfigsPerPage(bsize) > 0
  {
  }

  /** The number of pages that `num` configurations take. */
  method NumConfigPages(bsize: nat, num: nat) returns (npages: nat)
    requires BsizeOk(bsize)
    ensures num <= npages * ConfigsPerPage(bsize)
    ensures num > 0 ==> (npages - 1) * ConfigsPerPage(bsize) < num
    ensures num == 0 ==> npages == 0
  {
    hide ConfigsPerPage;
    PerPagePositive(bsize);
    var left := num;
    npages := 0;
    var per := ConfigsPerPage(bsize);
    while left > 0
      invariant 0 <= left <= num && (left > 0 ==> num - left == npages * per)
      invariant left == 0 ==> num <= npages * per
      invariant left == 0 && num > 0 ==> (npages - 1) * per < num
      invariant per > 0
      invariant num == 0 ==> npages == 0
      decreases left
    {
      var numelems := per;
      if numelems > left {
        numelems := left;
      }
      left := left - numelems;
      assert (npages + 1) * per == npages * per + per;
      npages := npages + 1;
    }
  }

  /** The number of pages that the user information and its length take. */
  method NumUinfoPages(bsize: nat, uinfolen: nat) returns (n: nat)
    requires BsizeOk(bsize) && uinfolen > 0
    ensures n >= 1 && UinfoRoom(bsize, n - 1) < uinfolen <= UinfoRoom(bsize, n)
  {
    hide UinfoRoom;
    var uinfosize := uinfolen + UINT_SIZE;
    var room := bsize - PAGE_OVERHEAD;
    if uinfosize % room == 0 {
      n := uinfosize / room;
    } else {
      n := uinfosize / room + 1;
    }
    UinfoPagesFit(bsize, uinfosize, n);
  }

  /** The pages for user information and configurations, and the pages up to the buckets. */
  method HeaderPages(bsize: nat, uinfolen: nat, numCfigs: nat)
    returns (uinfoPage: nat, uinfoPages: nat, cfigPage: nat, cfigPages: nat, nhdrPages: nat)
    requires BsizeOk(bsize) && uinfolen > 0 && numCfigs > 0
    ensures nhdrPages >= 3
    ensures nhdrPages < 0x1_0000 ==>
      && uinfoPage == 1 && uinfoPages >= 1 && cfigPage == 1 + uinfoPages && cfigPages >= 1
      && nhdrPages == cfigPage + cfigPages
      && UinfoRoom(bsize, uinfoPages - 1) < uinfolen <= UinfoRoom(bsize, uinfoPages)
      && (cfigPages - 1) * ConfigsPerPage(bsize) < numCfigs <= cfigPages * ConfigsPerPage(bsize)
  {
    hide UinfoRoom, ConfigsPerPage;
    var pg := 1;
    nhdrPages := 1;
    uinfoPage := Low16(pg);
    var up := NumUinfoPages(bsize, uinfolen);
    nhdrPages := nhdrPages + up;
    uinfoPages := Low16(nhdrPages - pg);
    pg := nhdrPages;
    cfigPage := Low16(pg);
    var n := NumConfigPages(bsize, numCfigs);
    assert n >= 1;
    nhdrPages := nhdrPages + n;
    cfigPages := Low16(nhdrPages - pg);
    if nhdrPages < 0x1_0000 {
      assert uinfoPages == up && cfigPage == 1 + up && cfigPages == n;
    }
  }

  /** The header of a new table with at least two buckets. */
  method InitHtab(bsize: nat, nb: nat, userinfolen: nat, numconfigs: nat) returns (f: FileLayout)
    requires BsizeOk(bsize) && 2 <= nb <= Pow2(NCACHED - 2)
    requires userinfolen + UINT_SIZE < 0x1_0000_0000
    ensures LevelsOk(f.hdr) && f.hdr.bsize == bsize && f.hdr.nkeys == 0 && f.hdr.numMoved == 0
    ensures nb <= f.hdr.maxBucket + 1 == Pow2(Log2(nb)) < 2 * nb
    ensures f.hdr.spares[f.hdr.ovflPoint + 1] == 0
    ensures |f.hdr.freePages| == NCACHED && forall i :: 0 <= i < NCACHED ==> f.hdr.freePages[i] == INVALID_PGNO
    ensures forall b: nat :: b <= f.hdr.maxBucket ==> BucketPage(f.hdr, b) == f.hdr.hdrPages + b
    ensures f.uinfoLen == (if userinfolen > 0 then userinfolen else DEFAULT_UINFO_LEN)
    ensures f.numConfigs == (if numconfigs > 0 then numconfigs else 1)
    ensures f.hdr.hdrPages < 0x1_0000 ==> Tiles(f) && JustEnough(f)
  {
    hide Log2, Pow2, UinfoRoom, ConfigsPerPage, LevelsOk, BucketPage, FreshSpares;
    assert nb <= 0x8000_0000 by { BucketBound(); }
    var l2 := CeilingLog(nb);
    Log2IsCeiling(nb);
    LogBound(nb, l2);
    var nbuckets := Pow2(l2);
    var uinfolen := if userinfolen > 0 then userinfolen else DEFAULT_UINFO_LEN;
    var numCfigs := if numconfigs > 0 then numconfigs else 1;
    var uinfoPage, uinfoPages, cfigPage, cfigPages, nhdrPages := HeaderPages(bsize, uinfolen, numCfigs);
    var spares := InitSpares(nhdrPages, l2);
    var h := Header(bsize, l2, nbuckets - 1, nbuckets - 1, Pow2(l2 - 1) - 1, 0, nhdrPages, 0, spares,
                    seq(NCACHED, _ => INVALID_PGNO));
    f := FileLayout(uinfolen, uinfoPage, uinfoPages, cfigPage, cfigPages, numCfigs, h);
    SparesLevels(h);
    FreshTop(h);
    forall b: nat | b <= h.maxBucket
      ensures BucketPage(h, b) == h.hdrPages + b
    {
      FirstBucketPage(h, b);
    }
  }

  lemma FreshTop(h: Header)
    requires 1 <= h.ovflPoint <= NCACHED - 2 && |h.spares| == NCACHED
    requires FreshSpares(h.spares, h.hdrPages, h.ovflPoint, NCACHED)
    ensures h.spares[h.ovflPoint + 1] == 0
  {
  }

  lemma BucketBound()
    ensures Pow2(NCACHED - 2) <= 0x8000_0000
  {
    Pow2Is31();
  }

  lemma LogBound(nb: nat, l2: nat)
    requires 2 <= nb <= Pow2(NCACHED - 2) && l2 == Log2(nb)
    ensures 1 <= l2 <= NCACHED - 2
    ensures Pow2(l2) == 2 * Pow2(l2 - 1) < 2 * nb
  {
    hide Pow2;
    Log2IsCeiling(nb);
    if l2 == 0 {
      PowZero();
    }
    if l2 > NCACHED - 2 {
      Pow2Monotone(NCACHED - 2, l2 - 1);
    }
    PowStep(l2);
  }

  lemma PowZero()
    ensures Pow2(0) == 1
  {
  }

  lemma PowStep(n: nat)
    ensures n > 0 ==> Pow2(n) == 2 * Pow2(n - 1)
  {
  }

  lemma UinfoPagesFit(bsize: nat, size: nat, pages: nat)
    requires BsizeOk(bsize) && size > UINT_SIZE
    requires pages == size / (bsize - PAGE_OVERHEAD) + (if size % (bsize - PAGE_OVERHEAD) == 0 then 0 else 1)
    ensures pages >= 1 && UinfoRoom(bsize, pages - 1) < size - UINT_SIZE <= UinfoRoom(bsize, pages)
  {
  }

  /** Level l starts 2^(l-1) pages after the header pages, up to level l2. */
  ghost predicate FreshSpares(s: seq<nat>, hdrPages: nat, l2: nat, upto: nat)
    requires upto <= |s|
  {
    && (upto > 0 ==> s[0] == hdrPages)
    && (forall l :: 1 <= l < upto ==> s[l] == if l <= l2 then hdrPages + Pow2(l - 1) else 0)
  }

  method InitSpares(hdrPages: nat, l2: nat) returns (s: seq<nat>)
    requires 1 <= l2 < NCACHED
    ensures |s| == NCACHED && FreshSpares(s, hdrPages, l2, NCACHED)
  {
    hide Pow2;
    PowZero();
    s := seq(NCACHED, _ => 0);
    s := s[0 := hdrPages];
    s := s[1 := hdrPages + 1];
    var i := 2;
    while i <= l2
      invariant 2 <= i <= l2 + 1 && |s| == NCACHED && FreshSpares(s, hdrPages, l2, i)
    {
      PowStep(i - 1);
      s := s[i := s[i - 1] + Pow2(i - 2)];
      i := i + 1;
    }
    while i < NCACHED
      invariant l2 < i <= NCACHED && |s| == NCACHED && FreshSpares(s, hdrPages, l2, i)
    {
      s := s[i := 0];
      i := i + 1;
    }
  }

  lemma SparesLevels(h: Header)
    requires 1 <= h.ovflPoint <= NCACHED - 2 && |h.spares| == NCACHED && 1 <= h.hdrPages
    requires FreshSpares(h.spares, h.hdrPages, h.ovflPoint, NCACHED)
    requires h.maxBucket == h.highMask == Pow2(h.ovflPoint) - 1 && h.lowMask == Pow2(h.ovflPoint - 1) - 1
    ensures LevelsOk(h)
  {
  }

  /** The buckets of a new table follow the header pages in order. */
  lemma FirstBucketPage(h: Header, b: nat)
    requires 1 <= h.ovflPoint <= NCACHED - 2 && |h.spares| == NCACHED
    requires FreshSpares(h.spares, h.hdrPages, h.ovflPoint, NCACHED)
    requires LevelsOk(h) && b <= h.maxBucket
    ensures BucketPage(h, b) == h.hdrPages + b
  {
    hide Pow2;
    if b >= 1 {
      var l := BucketLevel(h, b);
    } else {
      assert Log2(0 + 1) == 0;
    }
  }

  // ---------------------------------------------------------------- an empty store

  function FreshChains(h: Header): seq<seq<Pgno>> {
    seq(h.maxBucket + 1, b => [h.hdrPages + b])
  }

  function FreshRoles(h: Header): Roles {
    map c | c in FreshChains(h) :: c[0] := Chain(c[0] - h.hdrPages, 0)
  }

  lemma FreshRolesAre(h: Header)
    ensures forall p :: p in FreshRoles(h) <==> h.hdrPages <= p <= h.hdrPages + h.maxBucket
    ensures forall p :: p in FreshRoles(h) ==> FreshRoles(h)[p] == Chain(p - h.hdrPages, 0)
  {
    forall p | h.hdrPages <= p <= h.hdrPages + h.maxBucket
      ensures p in FreshRoles(h)
    {
      assert FreshChains(h)[p - h.hdrPages] == [p];
      assert [p] in FreshChains(h);
    }
    forall p | p in FreshRoles(h)
      ensures h.hdrPages <= p <= h.hdrPages + h.maxBucket && FreshRoles(h)[p] == Chain(p - h.hdrPages, 0)
    {
      var c :| c in FreshChains(h) && c[0] == p;
      var i :| 0 <= i < |FreshChains(h)| && FreshChains(h)[i] == c;
    }
  }

  function NoFreePages(): seq<seq<Pgno>> {
    seq(NCACHED, _ => [])
  }

  /** A new table is a store without keys. */
  lemma FreshStore(h: Header, hash: Bytes -> nat)
    requires LevelsOk(h) && BsizeOk(h.bsize) && h.spares[h.ovflPoint + 1] == 0
    requires |h.freePages| == NCACHED && forall i :: 0 <= i < NCACHED ==> h.freePages[i] == INVALID_PGNO
    requires forall b: nat :: b <= h.maxBucket ==> BucketPage(h, b) == h.hdrPages + b
    ensures StateOk(State(h, INVALID_PGNO, map[], FreshRoles(h), NoFreePages(), FreshChains(h), map[], map[]), hash)
    ensures NoHeld(FreshRoles(h))
  {
    hide LevelsOk, BucketPage, CallHash, FreshRoles, FreshChains, ChainInv, FreeInv;
    LevelsBounds(h);
    FreshRolesAre(h);
    FreshFree(h);
    FreshChainInv(h);
  }

  lemma FreshFree(h: Header)
    requires |h.freePages| == NCACHED && forall i :: 0 <= i < NCACHED ==> h.freePages[i] == INVALID_PGNO
    ensures FreeInv(h.freePages, NoFreePages(), map[], FreshRoles(h))
  {
  }

  lemma FreshChainInv(h: Header)
    requires forall b: nat :: b <= h.maxBucket ==> BucketPage(h, b) == h.hdrPages + b
    ensures ChainInv(h, map[], FreshRoles(h), FreshChains(h))
  {
  }
}
