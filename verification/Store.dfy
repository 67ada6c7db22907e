/** The hash store over a flat map of pages. */
module Store {
  import opened Bits
  import opened Pages
  import opened Levels
  import opened Lengths
  import opened Crc32
  import opened StoreInv
  import opened Alloc
  import opened BaseLemmas
  import opened DataLemmas
  import opened DataSteps
  import opened Rewrite
  import opened KeyLemmas
  import opened ChainRows
  import opened Split
  import opened Spec
  import opened Sizing
  import opened Reopen
  import R = Relocate
  import H = StaleHeads

  /** Each key with the bytes of its datum. */
  ghost function ContentsOf(data: DataMap): (m: Contents)
    ensures m.Keys == data.Keys
  {
    map k | k in data :: Flat(data[k].parts)
  }

  lemma ContentsAt(data: DataMap, k: Bytes)
    requires k in data
    ensures ContentsOf(data)[k] == Flat(data[k].parts)
  {
  }

  lemma ContentsInsert(data: DataMap, data': DataMap, k: Bytes)
    requires k in data' && data' == data[k := data'[k]]
    ensures ContentsOf(data') == ContentsOf(data)[k := Flat(data'[k].parts)]
  {
  }

  class HashTable {
    const hash: Bytes -> nat
    const writable: bool
    var hdr: Header
    var currDpage: Pgno
    var pages: PageMap

    ghost var roles: Roles
    ghost var fchain: seq<seq<Pgno>>
    ghost var chains: seq<seq<Pgno>>
    ghost var data: DataMap
    ghost var keys: KeyMap

    /** A new file with at least two buckets. */
    constructor (hash: Bytes -> nat, writable: bool, bsize: nat, nb: nat, userinfolen: nat, numconfigs: nat)
      requires BsizeOk(bsize) && 2 <= nb <= Pow2(NCACHED - 2) && userinfolen + UINT_SIZE < 0x1_0000_0000
      ensures Valid() && Map() == map[] && hdr.bsize == bsize && hdr.maxBucket < 2 * nb
      ensures this.hash == hash && this.writable == writable
    {
      hide LevelsOk, Pow2, Log2, FreshRoles, FreshChains, NoHeld, BaseInv, DataInv, LinksOk, KeyState, CurrOk;
      this.hash, this.writable := hash, writable;
      var f := InitHtab(bsize, nb, userinfolen, numconfigs);
      hdr, currDpage, pages := f.hdr, INVALID_PGNO, map[];
      roles, fchain, chains, data, keys := FreshRoles(f.hdr), NoFreePages(), FreshChains(f.hdr), map[], map[];
      FreshStore(f.hdr, hash);
    }

    ghost predicate Base()
      reads this
    {
      BaseInv(hdr, currDpage, pages, roles, fchain)
    }

    // -------------------------------------------------------------- page allocation

    /** A page from the free list of the current level: the last entry of its first page, or
        that page itself when it has no entry left; 0 when the list is empty. */
    method ReuseFreeOvflPage() returns (num: Pgno)
      requires Base()
      modifies `hdr, `pages, `roles, `fchain
      ensures Base()
      ensures hdr == old(hdr).(freePages := hdr.freePages)
      ensures num == 0 ==> hdr == old(hdr) && pages == old(pages) && roles == old(roles)
      ensures num != 0 ==> num > 0 && num in old(roles) && Taken(old(roles), roles, num)
      ensures num != 0 ==> num in FreeSet(old(roles)) && FreeSet(roles) == FreeSet(old(roles)) - {num}
      ensures KeptPages(old(pages), pages, old(roles))
      ensures hdr.ovflPoint < |old(hdr).freePages| == |hdr.freePages|
      ensures var head := old(hdr).freePages[hdr.ovflPoint];
        && (num == 0 <==> head == INVALID_PGNO)
        && (num != 0 && Frees(old(pages), head) != [] ==> var f := Frees(old(pages), head);
              num == f[|f| - 1] && hdr == old(hdr) && Frees(pages, head) == f[..|f| - 1])
        && (num != 0 && Frees(old(pages), head) == [] ==>
              num == head && head in pages && hdr == old(hdr).(freePages := old(hdr).freePages[hdr.ovflPoint := pages[head].next]))
    {
      hide BaseInv, LevelsOk;
      BaseBounds(hdr, currDpage, pages, roles, fchain);
      var clevel := hdr.ovflPoint;
      num := 0;
      var fpage := hdr.freePages[clevel];
      if fpage != INVALID_PGNO {
        FreeHead(hdr, currDpage, pages, roles, fchain, clevel);
        var np := |pages[fpage].frees|;
        if np > 0 {
          BasePopEntry(hdr, currDpage, pages, roles, fchain, clevel);
          num := pages[fpage].frees[np - 1];
          pages := pages[fpage := pages[fpage].(frees := pages[fpage].frees[..np - 1])];
        } else {
          BasePopMap(hdr, currDpage, pages, roles, fchain, clevel);
          num := fpage;
          hdr := hdr.(freePages := hdr.freePages[clevel := pages[fpage].next]);
          fchain := fchain[clevel := fchain[clevel][1..]];
        }
        roles := roles[num := Held];
      }
    }

    /** Starts the page counter of the level at the page after its bucket pages, which becomes
        the current data page. */
    method StartLevel()
      requires Base()
      modifies `hdr, `currDpage
      ensures Base() && HdrStep(old(hdr), hdr)
      ensures currDpage != INVALID_PGNO
      ensures old(currDpage) != INVALID_PGNO ==> hdr == old(hdr) && currDpage == old(currDpage)
      ensures old(currDpage) == INVALID_PGNO ==> currDpage !in roles && InPool(hdr, currDpage)
      ensures 1 <= hdr.ovflPoint && hdr.ovflPoint + 1 < |hdr.spares| && |old(hdr).spares| == |hdr.spares|
      ensures old(currDpage) == INVALID_PGNO ==> currDpage == RegionEnd(hdr) && hdr == SetTop(old(hdr), currDpage + 1)
    {
      hide BaseInv, LevelsOk, InPool;
      BaseBounds(hdr, currDpage, pages, roles, fchain);
      var level := hdr.ovflPoint + 1;
      if currDpage == INVALID_PGNO {
        BaseStartLevel(hdr, pages, roles, fchain);
        LastBucket(hdr, currDpage, pages, roles, fchain);
        currDpage := BucketPage(hdr, hdr.highMask);
        currDpage := currDpage + 1;
        hdr := hdr.(spares := hdr.spares[level := currDpage + 1]);
      }
    }

    lemma LastBucket(h: Header, curr: Pgno, pages0: PageMap, roles0: Roles, fchain0: seq<seq<Pgno>>)
      requires BaseInv(h, curr, pages0, roles0, fchain0)
      ensures 1 <= h.ovflPoint < |h.spares| && BucketPage(h, h.highMask) + 1 == RegionEnd(h)
    {
      hide BucketPage, FreeInv, AllocOk;
      HighMaskPage(h);
    }

    /** A page for an overflow or data page: a free one, or the next new one. */
    method TakePage() returns (num: Pgno, reuse: bool)
      requires Base() && currDpage != INVALID_PGNO
      modifies `hdr, `pages, `roles, `fchain
      ensures Base() && HdrStep(old(hdr), hdr)
      ensures Taken(old(roles), roles, num) && num in roles
      ensures reuse <==> num in old(roles)
      ensures !reuse ==> num !in pages
      ensures 1 <= hdr.ovflPoint && hdr.ovflPoint + 1 < |old(hdr).spares| && hdr.ovflPoint < |old(hdr).freePages|
      ensures reuse <==> old(hdr).freePages[hdr.ovflPoint] != INVALID_PGNO
      ensures !reuse ==> num == Top(old(hdr)) && hdr == SetTop(old(hdr), num + 1)
      ensures KeptPages(old(pages), pages, old(roles))
      ensures old(CurrOk(hdr, currDpage, pages, roles)) ==> CurrOk(hdr, currDpage, pages, roles)
    {
      hide BaseInv, LevelsOk, InPool, CurrOk, PoolGrows;
      BaseBounds(hdr, currDpage, pages, roles, fchain);
      var level := hdr.ovflPoint + 1;
      num := ReuseFreeOvflPage();
      reuse := false;
      if num > 0 {
        reuse := true;
        SamePool(old(hdr), hdr);
      } else {
        BaseNewPage(hdr, currDpage, pages, roles, fchain);
        num := hdr.spares[level];
        hdr := hdr.(spares := hdr.spares[level := num + 1]);
        roles := roles[num := Held];
        TopNotInPool(old(hdr), num);
      }
      if old(CurrOk(hdr, currDpage, pages, roles)) {
        CurrAfterTake(old(hdr), hdr, currDpage, old(pages), old(roles), pages, roles, num);
      }
    }

    lemma TopNotInPool(h: Header, num: Pgno)
      requires 1 <= h.ovflPoint && h.ovflPoint + 1 < |h.spares| && num == Top(h)
      ensures !InPool(h, num)
    {
    }
  
    /** The page is behind the start of the level and in front of the next. */
    predicate InLevel(p: Pgno, level: nat)
      reads this
    {
      && level <= hdr.ovflPoint && level < |hdr.spares| && hdr.spares[level] <= p
      && (level < hdr.ovflPoint ==> level + 1 < |hdr.spares| && p < hdr.spares[level + 1])
    }

    /** The level a page was allocated at. */
    method LevelOf(opage: Pgno) returns (level: nat)
      requires Base() && opage in roles
      ensures level < NCACHED
      ensures level <= hdr.ovflPoint && level < |hdr.spares| && hdr.spares[level] <= opage && InLevel(opage, level)
      ensures level < hdr.ovflPoint ==> level + 1 < |hdr.spares| && opage < hdr.spares[level + 1]
    {
      PageNumbersPositive(hdr, currDpage, pages, roles, fchain, opage);
      level := 0;
      while level <= hdr.ovflPoint && hdr.spares[level] <= opage
        invariant level <= hdr.ovflPoint + 1
        invariant level > 0 ==> hdr.spares[level - 1] <= opage
      {
        level := level + 1;
      }
      level := level - 1;
    }

    /** The first list page of a level with room, and the last one otherwise. */
    method ListPage(level: nat) returns (fpage: Pgno, extra: bool, ghost i: nat)
      requires Base() && level < |hdr.freePages| && hdr.freePages[level] != INVALID_PGNO
      ensures level < |fchain| && i < |fchain[level]| && fpage == fchain[level][i]
      ensures fpage in pages && pages[fpage].FreePage? && fpage in roles && roles[fpage] == FreeMap(level)
      ensures forall j :: 0 <= j < i ==> Full(hdr.bsize, pages, fchain[level][j])
      ensures if extra then i == |fchain[level]| - 1 && Full(hdr.bsize, pages, fpage) else !Full(hdr.bsize, pages, fpage)
    {
      hide BaseInv, LevelsOk, Frees;
      FreeHead(hdr, currDpage, pages, roles, fchain, level);
      fpage := hdr.freePages[level];
      extra := true;
      i := 0;
      var done := false;
      FreeChainAt(hdr, currDpage, pages, roles, fchain, level, i);
      while !done
        invariant i < |fchain[level]| && fpage == fchain[level][i]
        invariant fpage in pages && pages[fpage].FreePage? && fpage in roles && roles[fpage] == FreeMap(level)
        invariant pages[fpage].next == Follows(fchain[level], i) && Frees(pages, fpage) == pages[fpage].frees
        invariant forall j :: 0 <= j < i ==> Full(hdr.bsize, pages, fchain[level][j])
        invariant extra || done
        invariant done ==> if extra then i == |fchain[level]| - 1 && Full(hdr.bsize, pages, fpage) else !Full(hdr.bsize, pages, fpage)
        decreases !done, |fchain[level]| - i
      {
        var nf := |pages[fpage].frees|;
        if nf < (hdr.bsize - PAGE_OVERHEAD) / 4 - 1 {
          extra, done := false, true;
        } else if pages[fpage].next == INVALID_PGNO {
          if i + 1 < |fchain[level]| {
            FreeChainAt(hdr, currDpage, pages, roles, fchain, level, i + 1);
          }
          done := true;
        } else {
          fpage := pages[fpage].next;
          i := i + 1;
          FreeChainAt(hdr, currDpage, pages, roles, fchain, level, i);
        }
      }
    }

    /** Puts a page on the free list of its level: as an entry of the first list page with
        room, or as a new list page. A page kept as an entry is deleted. */
    method FreeOvflPage(opage: Pgno)
      requires Base() && opage in roles && roles[opage].Held?
      modifies `hdr, `pages, `roles, `fchain
      ensures Base()
      ensures hdr == old(hdr).(freePages := hdr.freePages)
      ensures opage in roles && IsFree(roles[opage]) && roles == old(roles)[opage := roles[opage]]
      ensures opage !in FreeSet(old(roles)) && FreeSet(roles) == FreeSet(old(roles)) + {opage}
      ensures pages.Keys == old(pages).Keys + {opage}
      ensures forall p :: p in old(pages) && p != opage && !(p in old(roles) && old(roles)[p].FreeMap?)
                ==> pages[p] == old(pages)[p]
      ensures roles[opage].FreeMap? ==> var c := roles[opage].lv;
        && InLevel(opage, c) && c < |old(fchain)| && fchain == old(fchain)[c := old(fchain)[c] + [opage]]
        && forall i :: 0 <= i < |old(fchain)[c]| ==> Full(hdr.bsize, old(pages), old(fchain)[c][i])
      ensures roles[opage].Listed? ==> var m := roles[opage].m;
        && m in old(roles) && old(roles)[m].FreeMap? && InLevel(opage, old(roles)[m].lv) && old(roles)[m].lv < |old(fchain)|
        && fchain == old(fchain) && !Full(hdr.bsize, old(pages), m) && Frees(pages, m) == Frees(old(pages), m) + [opage]
        && exists i :: 0 <= i < |fchain[old(roles)[m].lv]| && fchain[old(roles)[m].lv][i] == m
                       && forall j :: 0 <= j < i ==> Full(hdr.bsize, old(pages), fchain[old(roles)[m].lv][j])
    {
      hide BaseInv, LevelsOk, Full;
      BaseBounds(hdr, currDpage, pages, roles, fchain);
      var level := LevelOf(opage);
      if hdr.freePages[level] == INVALID_PGNO {
        FreeNone(hdr, currDpage, pages, roles, fchain, level);
        assert fchain[level] + [opage] == [opage];
        BasePushFirst(hdr, currDpage, pages, roles, fchain, level, opage);
        pages := pages[opage := InitPage(hdr.bsize, opage, TFree)];
        hdr := hdr.(freePages := hdr.freePages[level := opage]);
        roles, fchain := roles[opage := FreeMap(level)], fchain[level := [opage]];
      } else {
        var fpage, extra, i := ListPage(level);
        if extra {
          BasePushLast(hdr, currDpage, pages, roles, fchain, level, opage);
          pages := pages[fpage := SetNext(pages[fpage], opage)];
          pages := pages[opage := SetPrev(InitPage(hdr.bsize, opage, TFree), fpage)];
          roles, fchain := roles[opage := FreeMap(level)], fchain[level := fchain[level] + [opage]];
        } else {
          BasePushEntry(hdr, currDpage, pages, roles, fchain, fpage, opage, InitPage(hdr.bsize, opage, TDeleted));
          roles := roles[opage := Listed(fpage, |pages[fpage].frees|)];
          pages := pages[fpage := pages[fpage].(frees := pages[fpage].frees + [opage])];
          pages := pages[opage := InitPage(hdr.bsize, opage, TDeleted)];
        }
      }
    }
  
    // -------------------------------------------------------------- adding data

    ghost predicate DataReady()
      reads this
    {
      && DataState(hdr, currDpage, pages, roles, fchain, data)
      && CurrOk(hdr, currDpage, pages, roles)
    }

    /** The current data page is a page of the list with room for a header. */
    ghost predicate CurrOpen()
      reads this
    {
      && currDpage in roles && roles[currDpage].Data? && currDpage in pages && pages[currDpage].DataPage?
      && pages[currDpage].next == INVALID_PGNO
    }

    /** The next data page; with `newPage` false, the current one. */
    method DataPageNumber(newPage: bool) returns (num: Pgno, reuse: bool)
      requires DataState(hdr, currDpage, pages, roles, fchain, data)
      modifies `hdr, `currDpage, `pages, `roles, `fchain
      ensures DataState(hdr, currDpage, pages, roles, fchain, data) && HdrStep(old(hdr), hdr)
      ensures num == currDpage != INVALID_PGNO
      ensures KeptPages(old(pages), pages, old(roles)) && SameBack(old(pages), pages, data)
      ensures !newPage ==> pages == old(pages) && roles == old(roles)
      ensures !newPage && old(currDpage) != INVALID_PGNO ==> hdr == old(hdr) && num == old(currDpage)
      ensures !newPage && old(currDpage) == INVALID_PGNO ==> num !in roles && InPool(hdr, num)
      ensures newPage ==> Taken(old(roles), roles, num) && num in roles
      ensures newPage && !reuse ==> num !in pages
    {
      hide BaseInv, LevelsOk, InPool, DataInv, LinksOk;
      StartLevel();
      reuse := false;
      if !newPage {
        num := currDpage;
      } else {
        ghost var pages0, roles0 := pages, roles;
        num, reuse := TakePage();
        TakeKeepsData(hdr.bsize, pages0, roles0, data, pages, roles, num);
        BaseNum(num);
        BaseCurr(hdr, currDpage, num, pages, roles, fchain);
        currDpage := num;
      }
    }

    lemma BaseNum(num: Pgno)
      requires Base() && num in roles
      ensures num > 0
    {
      PageNumbersPositive(hdr, currDpage, pages, roles, fchain, num);
    }

    /** Makes the current data page one with room for a data header: the page after it in the
        list when it is full. */
    method OpenDataPage() returns (cpage: Pgno)
      requires DataReady()
      modifies `hdr, `currDpage, `pages, `roles, `fchain
      ensures DataState(hdr, currDpage, pages, roles, fchain, data) && HdrStep(old(hdr), hdr)
      ensures cpage == currDpage && CurrOpen() && pages[cpage].free != 0
      ensures KeepKeys(old(pages), old(roles), pages, roles) && SameBack(old(pages), pages, data)
      ensures StartsAt(old(currDpage), old(pages), old(roles), cpage, pages[cpage].free)
    {
      hide BaseInv, LevelsOk, InPool, DataInv, LinksOk, GeomOk;
      var pnum, reuse := DataPageNumber(false);
      if pnum !in pages {
        assert pnum !in roles by { NotInUse(pnum); }
        OpenReserved(hdr, pnum, pages, roles, fchain, data);
        pages := pages[pnum := InitPage(hdr.bsize, pnum, TData)];
        roles := roles[pnum := Data(NoTail, [])];
      } else {
        InUse(pnum);
      }
      cpage := pnum;
      if pages[pnum].free == 0 {
        ghost var pages0, roles0 := pages, roles;
        cpage, reuse := DataPageNumber(true);
        BaseBounds(hdr, currDpage, pages, roles, fchain);
        TakeKeeps(pages0, roles0, pages, roles, cpage, Data(NoTail, []));
        var pg := SetPrev(InitPage(hdr.bsize, cpage, TData), pnum);
        InitGeom(hdr.bsize, cpage, pg);
        AppendPage(hdr, currDpage, pages, roles, fchain, data, pnum, cpage, pg, NoTail);
        ghost var pages1, roles1 := pages, roles[cpage := Data(NoTail, [])];
        pages := pages[pnum := SetNext(pages[pnum], cpage)];
        pages := pages[cpage := pg];
        roles := roles1;
        DataKeeps(pages1, roles1, pages, roles);
        KeepKeysTrans(pages0, roles0, pages1, roles1, pages, roles);
      }
    }

    lemma NotInUse(p: Pgno)
      requires DataReady() && p == currDpage != INVALID_PGNO && p !in pages
      ensures p !in roles && InPool(hdr, p)
    {
    }

    lemma InUse(p: Pgno)
      requires DataReady() && p == currDpage != INVALID_PGNO && p in pages
      ensures CurrOpen()
    {
    }
  
    /** Stores a datum: header and bytes at the free space of the current data page, the bytes
        that do not fit there on pages appended to the list. */
    method AddData(ghost k: Bytes, keyPage: Pgno, keyIdx: nat, val: Bytes, chksum: nat) returns (datap: DataPtr)
      requires DataReady() && k !in data
      requires |val| <= MAX_DATASIZE && chksum == Crc(0, val)
      modifies `hdr, `currDpage, `pages, `roles, `fchain, `data
      ensures DataReady() && HdrStep(old(hdr), hdr) && currDpage != INVALID_PGNO
      ensures k in data && data == old(data)[k := data[k]] && Flat(data[k].parts) == val
      ensures PtrOk(datap, data[k]) && BackHeader(pages, data[k]) == Loc(keyPage, keyIdx)
      ensures KeepKeys(old(pages), old(roles), pages, roles) && SameBack(old(pages), pages, old(data))
      ensures data[k].span != [] && StartsAt(old(currDpage), old(pages), old(roles), data[k].span[0], data[k].off)
      ensures PackedAs(hdr.bsize, currDpage, pages, data[k], |val|)
    {
      hide BaseInv, LevelsOk, InPool, DataInv, LinksOk, GeomOk, PartOk, Flat, Crc, KeepKeys, InsertLen, HdrStep, StartsAt, FreeAfterOne,
        FreeAfterLast, NextFree;
      var cpage := OpenDataPage();
      DataPageContent(hdr, currDpage, pages, roles, fchain, data, cpage);
      BaseBounds(hdr, currDpage, pages, roles, fchain);
      var start := pages[cpage].free;
      var fspace := hdr.bsize - start;
      var header := DataHeader(Low32(|val|), InsertLen(|val|, DATA_VALID), 0, keyPage, keyIdx);
      InsertedLenDecodes(|val|, DATA_VALID);
      var first := if BIG_DATA_OVERHEAD + |val| <= fspace then |val| else fspace - BIG_DATA_OVERHEAD;
      ghost var pages1, roles1, hdr1 := pages, roles, hdr;
      ghost var d: Datum;
      if !IsHuge(|val|) && BIG_DATA_OVERHEAD + |val| <= fspace {
        header := header.(next := NextFree(hdr.bsize, start, |val|));
        NextFreeIs(hdr.bsize, start, |val|);
        d := Datum(start, |roles[cpage].slots|, [cpage], [val]);
        FirstOnly(hdr.bsize, pages, roles, k, d);
        KeepKeysRefl(pages, roles);
        assert HdrStep(hdr, hdr) by { HdrStepRefl(hdr); }
      } else {
        LongNotOnOnePage(hdr.bsize, |val|, fspace);
        d := AddContinuation(k, cpage, val);
        MiddleParts(hdr.bsize, pages, roles, k, d);
      }
      HdrStepTrans(old(hdr), hdr1, hdr);
      KeepKeysTrans(old(pages), old(roles), pages1, roles1, pages, roles);
      pages1, roles1 := pages, roles;
      DataPageContent(hdr, currDpage, pages, roles, fchain, data, cpage);
      assert |val| <= first ==> val[..first] == val;
      WriteFirstPart(k, d, cpage, header, val[..first]);
      KeepKeysTrans(old(pages), old(roles), pages1, roles1, pages, roles);
      datap := DataPtr(cpage, InsertLen(|val|, start), Low32(|val|), chksum);
      InsertedLenDecodes(|val|, start);
      assert LowBits(start) == start;
    }

    /** Writes the header and the first part of a datum at the free space of a page. */
    method WriteFirstPart(ghost k: Bytes, ghost d: Datum, cpage: Pgno, header: DataHeader, bs: Bytes)
      requires DataState(hdr, currDpage, pages, roles, fchain, data) && k !in data && CurrOpen()
      requires LaterParts(hdr.bsize, pages, roles, k, d)
      requires |d.parts| == |d.span| >= 1 && d.span[0] == cpage && d.parts[0] == bs
      requires cpage in roles && roles[cpage].Data? && cpage in pages && pages[cpage].DataPage? && pages[cpage].free != 0
      requires d.off == pages[cpage].free && d.slot == |roles[cpage].slots|
      requires |pages[cpage].mem| == hdr.bsize && d.off + BIG_DATA_OVERHEAD + |bs| <= hdr.bsize
      requires |d.span| > 1 ==> d.off + BIG_DATA_OVERHEAD + |bs| == hdr.bsize && pages[cpage].next == d.span[1]
      requires |d.span| > 1 ==> |d.parts[|d.parts| - 1]| > 0
      requires header.next == 0 || header.next == NextFree(hdr.bsize, d.off, |bs|)
      requires RealLen(header.len, header.status) == |Flat(d.parts)| <= MAX_DATASIZE && LowBits(header.status) == DATA_VALID
      modifies `pages, `roles, `data
      ensures DataReady() && data == old(data)[k := d] && currDpage != INVALID_PGNO
      ensures BackHeader(pages, d) == Loc(header.keyPage, header.keyIdx)
      ensures cpage in pages && pages[cpage].DataPage? && pages[cpage].free == header.next
      ensures pages == old(pages)[cpage := pages[cpage]]
      ensures KeepKeys(old(pages), old(roles), pages, roles) && SameBack(old(pages), pages, old(data))
    {
      hide BaseInv, LevelsOk, InPool, DataInv, LinksOk, GeomOk, PartOk, Flat, PlaceDatum, LaterParts;
      BaseBounds(hdr, currDpage, pages, roles, fchain);
      BaseNum(currDpage);
      FinishDatum(hdr, currDpage, pages, roles, fchain, data, k, d, header);
      PlaceFields(pages[cpage], header, bs);
      pages := pages[cpage := PlaceDatum(pages[cpage], header, bs)];
      roles := roles[cpage := Data(roles[cpage].tail, roles[cpage].slots
                                   + [Slot(k, d.off, d.off + BIG_DATA_OVERHEAD + |d.parts[0]|)])];
      data := data[k := d];
      DataKeeps(old(pages), old(roles), pages, roles);
    }

    /** Writes the bytes after the first part on continuation pages, each linked after the one
        before; the last one becomes the current data page. */
    method AddContinuation(ghost k: Bytes, cpage: Pgno, val: Bytes) returns (ghost d: Datum)
      requires DataState(hdr, currDpage, pages, roles, fchain, data) && k !in data
      requires cpage == currDpage && CurrOpen() && pages[cpage].free != 0
      requires pages[cpage].free + BIG_DATA_OVERHEAD <= hdr.bsize
      requires pages[cpage].free + BIG_DATA_OVERHEAD + |val| > hdr.bsize
      modifies `hdr, `currDpage, `pages, `roles, `fchain
      ensures DataState(hdr, currDpage, pages, roles, fchain, data) && HdrStep(old(hdr), hdr)
      ensures KeepKeys(old(pages), old(roles), pages, roles) && SameBack(old(pages), pages, data)
      ensures CurrOpen() && currDpage != cpage
      ensures LaterParts(hdr.bsize, pages, roles, k, d) && Flat(d.parts) == val && |d.span| > 1
      ensures d.span[0] == cpage && |d.parts[|d.parts| - 1]| > 0
      ensures d.parts[0] == val[..hdr.bsize - old(pages[cpage].free) - BIG_DATA_OVERHEAD]
      ensures d.off == old(pages[cpage].free) && d.slot == |old(roles[cpage]).slots|
      ensures cpage in roles && roles[cpage] == old(roles[cpage])
      ensures cpage in pages && pages[cpage] == SetNext(old(pages[cpage]), d.span[1])
      ensures currDpage == d.span[|d.span| - 1] && currDpage in pages && pages[currDpage].DataPage?
      ensures FreeAfterLast(hdr.bsize, pages[currDpage].free, |d.parts[|d.parts| - 1]|)
    {
      hide BaseInv, LevelsOk, InPool, DataInv, LinksOk, GeomOk, PartOk, Flat, ContinuationPage, LaterParts, SetNext, KeepKeys, KeptPages, FreeAfterLast;
      var fspace := hdr.bsize - pages[cpage].free;
      var rlen := |val| - (fspace - BIG_DATA_OVERHEAD);
      d := Datum(pages[cpage].free, |roles[cpage].slots|, [cpage], [val[..fspace - BIG_DATA_OVERHEAD]]);
      FirstOnly(hdr.bsize, pages, roles, k, d);
      BaseNum(cpage);
      var prevp := cpage;
      var currp, reuse := DataPageNumber(true);
      TakeSameData(old(pages), old(roles), pages, roles, currp);
      TakeKeeps(old(pages), old(roles), pages, roles, currp, Data(NoTail, []));
      LaterPartsFrame(hdr.bsize, old(pages), old(roles), pages, roles, k, d);
      while rlen > 0
        invariant 0 <= rlen <= |val|
        invariant DataState(hdr, currDpage, pages, roles, fchain, data) && HdrStep(old(hdr), hdr)
        invariant currp == currDpage && (rlen > 0 ==> currp in roles && roles[currp].Held?)
        invariant LaterParts(hdr.bsize, pages, roles, k, d) && 1 <= |d.span| == |d.parts|
        invariant Flat(d.parts) == val[..|val| - rlen]
        invariant prevp == d.span[|d.span| - 1] && prevp in roles && roles[prevp].Data? && prevp in pages
        invariant pages[prevp].DataPage? && pages[prevp].next == INVALID_PGNO && prevp > 0
        invariant rlen > 0 ==> Start(d, |d.span| - 1) + |d.parts[|d.span| - 1]| == hdr.bsize
        invariant rlen == 0 ==> |d.span| > 1 && prevp == currp
        invariant rlen == 0 ==> FreeAfterLast(hdr.bsize, pages[prevp].free, |d.parts[|d.parts| - 1]|)
        invariant |d.span| > 1 ==> |d.parts[|d.parts| - 1]| > 0
        invariant d.span[0] == cpage && d.parts[0] == val[..fspace - BIG_DATA_OVERHEAD]
        invariant d.off == old(pages[cpage].free) && d.slot == |old(roles[cpage]).slots|
        invariant cpage in roles && roles[cpage] == old(roles[cpage]) && cpage in pages
        invariant if |d.span| == 1 then pages[cpage] == old(pages[cpage]) && prevp == cpage
                  else pages[cpage] == SetNext(old(pages[cpage]), d.span[1]) && prevp != cpage
        invariant rlen > 0 ==> KeepKeys(old(pages), old(roles), pages, roles[currp := Data(NoTail, [])])
        invariant rlen == 0 ==> KeepKeys(old(pages), old(roles), pages, roles)
        invariant SameBack(old(pages), pages, data)
        decreases rlen
      {
        BaseBounds(hdr, currDpage, pages, roles, fchain);
        ghost var pages1, roles1 := pages, roles;
        d := PlaceContinuation(k, d, prevp, currp, val[|val| - rlen..]);
        var copylen := if rlen <= hdr.bsize - BIG_PAGE_OVERHEAD then rlen else hdr.bsize - BIG_PAGE_OVERHEAD;
        assert 0 < copylen <= rlen;
        assert val[..|val| - rlen] + val[|val| - rlen..][..copylen] == val[..|val| - (rlen - copylen)];
        DataKeeps(pages1, roles1[currp := Data(NoTail, [])], pages, roles);
        KeepKeysTrans(old(pages), old(roles), pages1, roles1[currp := Data(NoTail, [])], pages, roles);
        rlen := rlen - copylen;
        prevp := currp;
        if rlen > 0 {
          ghost var pages2, roles2 := pages, roles;
          currp, reuse := DataPageNumber(true);
          TakeSameData(pages2, roles2, pages, roles, currp);
          TakeKeeps(pages2, roles2, pages, roles, currp, Data(NoTail, []));
          LaterPartsFrame(hdr.bsize, pages2, roles2, pages, roles, k, d);
          KeepKeysTrans(old(pages), old(roles), pages2, roles2, pages, roles[currp := Data(NoTail, [])]);
        }
      }
    }

    /** Fills page `n` with the next bytes and links it after `last`. */
    method PlaceContinuation(ghost k: Bytes, ghost d: Datum, last: Pgno, n: Pgno, rest: Bytes)
      returns (ghost d': Datum)
      requires DataState(hdr, currDpage, pages, roles, fchain, data)
      requires n in roles && roles[n].Held?
      requires LaterParts(hdr.bsize, pages, roles, k, d) && 1 <= |d.span| == |d.parts| && last == d.span[|d.span| - 1]
      requires last in roles && roles[last].Data? && last in pages && pages[last].next == INVALID_PGNO
      requires Start(d, |d.span| - 1) + |d.parts[|d.span| - 1]| == hdr.bsize
      modifies `pages, `roles
      ensures DataState(hdr, currDpage, pages, roles, fchain, data)
      ensures SameBack(old(pages), pages, data)
      ensures n in roles && roles[n].Data? && roles == old(roles)[n := roles[n]]
      ensures n in pages && pages == old(pages)[last := SetNext(old(pages[last]), n)][n := pages[n]]
      ensures pages[n].DataPage? && pages[n].next == INVALID_PGNO && n > 0 && n != last
      ensures LaterParts(hdr.bsize, pages, roles, k, d')
      ensures var copylen := if |rest| <= hdr.bsize - BIG_PAGE_OVERHEAD then |rest| else hdr.bsize - BIG_PAGE_OVERHEAD;
        d' == Longer(d, n, rest[..copylen]) && Flat(d'.parts) == Flat(d.parts) + rest[..copylen]
      ensures FreeAfterLast(hdr.bsize, pages[n].free, |rest|)
    {
      hide BaseInv, LevelsOk, InPool, DataInv, LinksOk, GeomOk, PartOk, Flat, ContinuationPage, LaterParts, FreeAfterLast;
      BaseBounds(hdr, currDpage, pages, roles, fchain);
      BaseNum(n);
      assert INVALID_PGNO !in roles by { BaseNoInvalid(); }
      ghost var copylen := if |rest| <= hdr.bsize - BIG_PAGE_OVERHEAD then |rest| else hdr.bsize - BIG_PAGE_OVERHEAD;
      ghost var tail := Tail(k, |d.span|, BIG_PAGE_OVERHEAD + copylen);
      var pg := ContinuationPage(hdr.bsize, n, last, rest);
      ContinuationOk(hdr.bsize, n, last, rest, k, |d.span|);
      ContinuationFree(hdr.bsize, n, last, rest);
      AppendPage(hdr, currDpage, pages, roles, fchain, data, last, n, pg, tail);
      ghost var pages1, roles1 := pages, roles;
      pages := pages[last := SetNext(pages[last], n)];
      pages := pages[n := pg];
      roles := roles[n := Data(tail, [])];
      LaterPartsGrown(hdr.bsize, pages1, roles1, data, pages, roles, k, d);
      LaterPartsAdd(hdr.bsize, pages, roles, k, d, n, rest[..copylen]);
      d' := Longer(d, n, rest[..copylen]);
      FlatAppend(d.parts, rest[..copylen]);
    }

    lemma BaseNoInvalid()
      requires Base()
      ensures INVALID_PGNO !in roles
    {
      if INVALID_PGNO in roles {
        BaseNum(INVALID_PGNO);
      }
    }
  
    // -------------------------------------------------------------- reading and rewriting data

    /** Reads a datum back along its pages. */
    method GetData(ghost k: Bytes, loc: Loc, datap: DataPtr, bufsize: nat) returns (r: GetResult)
      requires DataState(hdr, currDpage, pages, roles, fchain, data)
      requires k in data && PtrOk(datap, data[k]) && BackPtrOk(pages, data[k], loc)
      ensures r == if 0 < bufsize < |Flat(data[k].parts)| then TooSmall else Found(Flat(data[k].parts))
    {
      hide BaseInv, LevelsOk, GeomOk, PartOk, Flat, LinksOk, Crc;
      ghost var d := data[k];
      assert DatumOk(hdr.bsize, pages, roles, k, d);
      DatumStart(hdr.bsize, pages, roles, data, k);
      var pagep := pages[datap.first];
      assert datap.first == pagep.curr && pagep.num >= 1;
      var datalen := RealLen(datap.len, datap.offset);
      var roff := LowBits(datap.offset);
      var header := pagep.hd[roff];
      assert RealLen(header.len, header.status) == datalen && LowBits(header.status) == DATA_VALID;
      assert header.keyPage == loc.page && header.keyIdx == loc.idx;
      if 0 < bufsize < datalen {
        return TooSmall;
      }
      var buf: Bytes := [];
      var rlen, start, next := datalen, roff + BIG_DATA_OVERHEAD, pagep.next;
      ghost var j := 0;
      FlatEmpty(d.parts);
      while rlen > 0
        invariant 0 <= j <= |d.span| == |d.parts|
        invariant buf == Flat(d.parts[..j]) && rlen == datalen - |buf|
        invariant rlen > 0 ==> j < |d.span| && start == Start(d, j) && next == pagep.next
        invariant rlen > 0 ==> d.span[j] in pages && pagep == pages[d.span[j]] && pagep.DataPage?
        decreases |d.span| - j
      {
        assert PartOk(hdr.bsize, pages, roles, k, d, j);
        PartBytes(hdr.bsize, pages, roles, k, d, j);
        FlatPrefix(d.parts, j);
        var copylen := if start + rlen <= hdr.bsize then rlen else hdr.bsize - start;
        LastLength(d.parts, j);
        assert copylen == |d.parts[j]|;
        buf := buf + pagep.mem[start..start + copylen];
        FlatStep(d.parts, j);
        rlen := rlen - copylen;
        j := j + 1;
        if rlen > 0 {
          assert PartOk(hdr.bsize, pages, roles, k, d, j);
          PartPage(hdr.bsize, pages, roles, k, d, j);
          pagep := pages[next];
          start := BIG_PAGE_OVERHEAD;
          next := pagep.next;
        }
      }
      FlatPrefix(d.parts, j);
      assert buf == Flat(d.parts)[..|buf|] == Flat(d.parts);
      if Crc(0, buf) != datap.chksum {
        return BadChecksum;
      }
      return Found(buf);
    }
  
    /** Points the header of a datum at another key slot. */
    method UpdateDataInfo(ghost k: Bytes, datap: DataPtr, kpage: Pgno, kidx: nat)
      requires DataReady() && k in data && PtrOk(datap, data[k])
      modifies `pages
      ensures DataReady() && BackHeader(pages, data[k]) == Loc(kpage, kidx)
      ensures forall x :: x in data && x != k ==> BackHeader(pages, data[x]) == BackHeader(old(pages), data[x])
      ensures KeepKeys(old(pages), roles, pages, roles)
    {
      hide BaseInv, LevelsOk, DataInv, LinksOk, Flat, InPool;
      RepointDatum(hdr, currDpage, pages, roles, fchain, data, k, kpage, kidx);
      var dpage, roff := datap.first, LowBits(datap.offset);
      var header := pages[dpage].hd[roff].(keyPage := kpage, keyIdx := kidx);
      pages := pages[dpage := SetHeader(pages[dpage], roff, header)];
      DataKeeps(old(pages), roles, pages, roles);
    }

    /** Overwrites a datum with one that is not longer, in place along its pages. */
    method ReplaceData(ghost k: Bytes, val: Bytes, datap: DataPtr)
      requires DataReady() && k in data && |data[k].span| >= 1
      requires datap.first == data[k].span[0] && LowBits(datap.offset) == data[k].off && datap.len == Low32(|val|)
      requires |val| <= |Flat(data[k].parts)|
      modifies `pages, `data
      ensures DataReady() && k in data && data == old(data)[k := data[k]]
      ensures Flat(data[k].parts) == val && data[k].off == old(data[k].off)
      ensures |data[k].span| >= 1 && data[k].span[0] == old(data[k].span[0])
      ensures SameBack(old(pages), pages, old(data)) && BackHeader(pages, data[k]) == BackHeader(old(pages), old(data[k]))
      ensures KeepKeys(old(pages), roles, pages, roles)
    {
      hide BaseInv, LevelsOk, LinksOk, GeomOk, PartOk, Flat, InPool, DatumOk, OthersOk, LaterParts, ReplaceFirst, SlotsOk;
      var p0, roff := datap.first, LowBits(datap.offset);
      ghost var d0 := data[k];
      ReplaceStart(hdr.bsize, pages, roles, data, k);
      var mem := pages[p0];
      var header := mem.hd[roff];
      var fspace := hdr.bsize - roff;
      InsertedLenDecodes(|val|, header.status);
      ghost var d: Datum;
      var first := |val|;
      if BIG_DATA_OVERHEAD + |val| <= fspace {
        d := d0.(span := [p0], parts := [val]);
        FirstOnly(hdr.bsize, pages, roles, k, d);
        ShortReplacement(hdr.bsize, pages, roles, k, d0, val);
      } else {
        first := fspace - BIG_DATA_OVERHEAD;
        d := ReplaceLater(k, val, p0, first);
      }
      assert header == pages[p0].hd[roff];
      assert |d.parts| >= 1 && d.parts[0] == val[..first];
      FinishReplace(hdr, currDpage, pages, roles, fchain, data, k, d0, d, datap.len, InsertLen(|val|, header.status));
      ghost var pages1 := pages;
      pages := pages[p0 := ReplaceFirst(pages[p0], roff, val[..first], datap.len, InsertLen(|val|, header.status))];
      data := data[k := d];
      ReplaceFirstFields(pages1[p0], roff, val[..first], datap.len, InsertLen(|val|, header.status));
      assert BackHeader(pages, d) == BackHeader(pages, d0);
      assert CurrOk(hdr, currDpage, pages, roles);
      assert BackHeader(pages, d0) == BackHeader(old(pages), d0);
      DataKeeps(pages1, roles, pages, roles);
      KeepKeysTrans(old(pages), roles, pages1, roles, pages, roles);
    }

    /** Overwrites the parts after the first; the datum ends where the bytes do. */
    method ReplaceLater(ghost k: Bytes, val: Bytes, p0: Pgno, first: nat) returns (ghost d: Datum)
      requires DataReady() && k in data && |data[k].span| >= 1 && p0 == data[k].span[0]
      requires data[k].off + BIG_DATA_OVERHEAD + first == hdr.bsize && first < |val| <= |Flat(data[k].parts)|
      modifies `pages
      ensures Base() && LinksOk(pages, roles) && CurrOk(hdr, currDpage, pages, roles)
      ensures OthersOk(hdr.bsize, pages, roles, data, k) && LaterParts(hdr.bsize, pages, roles, k, d)
      ensures Flat(d.parts) == val && |d.span| == |d.parts| > 1 && d.parts[0] == val[..first]
      ensures var d0 := data[k];
        && PartOk(hdr.bsize, pages, roles, k, d0, 0) && HeaderOk(pages, d0)
        && d.off == d0.off && d.slot == d0.slot && |d0.span| == |d0.parts| > 1
        && d.span[0] == d0.span[0] && d.span[1] == d0.span[1]
        && |d0.parts[0]| == first && |d.parts[|d.parts| - 1]| > 0
        && d0.span[0] in old(pages) && old(pages)[d0.span[0]].DataPage? && d0.off in old(pages)[d0.span[0]].hd
        && pages[d0.span[0]].hd[d0.off] == old(pages)[d0.span[0]].hd[d0.off]
      ensures forall x :: x in data && x != k ==> BackHeader(pages, data[x]) == BackHeader(old(pages), data[x])
      ensures KeepKeys(old(pages), roles, pages, roles)
    {
      hide BaseInv, LevelsOk, LinksOk, GeomOk, PartOk, Flat, InPool, DatumOk, OthersOk, LaterParts, SlotsOk, CurrOk;
      ghost var d0 := data[k];
      ReplaceStart(hdr.bsize, pages, roles, data, k);
      LongReplacement(hdr.bsize, pages, roles, data, k, first, val);
      d := d0.(parts := d0.parts[0 := val[..first]]);
      assert d.parts[..1] == [val[..first]];
      var rlen := |val| - first;
      var currp := pages[p0].next;
      ghost var j := 1;
      while rlen > 0
        invariant 0 <= rlen <= |val| - first && 1 <= j <= |d0.span| == |d0.parts|
        invariant Base() && LinksOk(pages, roles) && CurrOk(hdr, currDpage, pages, roles)
        invariant OthersOk(hdr.bsize, pages, roles, data, k) && LaterParts(hdr.bsize, pages, roles, k, d)
        invariant d.off == d0.off && d.slot == d0.slot && j <= |d.span| == |d.parts|
        invariant d.span[0] == d0.span[0] && d.parts[0] == val[..first] && Flat(d.parts[..j]) == val[..|val| - rlen]
        invariant rlen > 0 ==> |val| - rlen == |Flat(d0.parts[..j])| && j < |d0.span|
        invariant rlen > 0 ==> d.span == d0.span && d.parts[j..] == d0.parts[j..] && currp == d0.span[j]
        invariant rlen == 0 ==> j == |d.span| > 1 && d.span[1] == d0.span[1] && |d.parts[j - 1]| > 0
        invariant PartOk(hdr.bsize, pages, roles, k, d0, 0) && HeaderOk(pages, d0)
        invariant pages[d0.span[0]].hd[d0.off] == old(pages)[d0.span[0]].hd[d0.off]
        invariant forall x :: x in data && x != k ==> BackHeader(pages, data[x]) == BackHeader(old(pages), data[x])
        invariant KeepKeys(old(pages), roles, pages, roles)
        decreases rlen
      {
        BaseBounds(hdr, currDpage, pages, roles, fchain);
        var copylen := if rlen <= hdr.bsize - BIG_PAGE_OVERHEAD then rlen else hdr.bsize - BIG_PAGE_OVERHEAD;
        var done := |val| - rlen;
        var chunk := val[done..done + copylen];
        PartRoom(hdr.bsize, pages, roles, k, d0, d, j, |val|);
        ghost var pages1, d1 := pages, d;
        currp, d := ReplacePart(k, d0, d, j, currp, chunk, rlen > copylen);
        PatchedFlat(d1, j, chunk, rlen > copylen);
        assert val[..done] + chunk == val[..done + copylen];
        KeepKeysTrans(old(pages), roles, pages1, roles, pages, roles);
        rlen := rlen - copylen;
        j := j + 1;
      }
      assert d.parts[..j] == d.parts && val[..|val| - rlen] == val;
    }

    /** Overwrites the first bytes of one continuation page and tells the next one. */
    method ReplacePart(ghost k: Bytes, ghost d0: Datum, ghost d: Datum, ghost j: nat, currp: Pgno, chunk: Bytes, ghost more: bool)
      returns (next: Pgno, ghost d': Datum)
      requires Base() && LinksOk(pages, roles) && CurrOk(hdr, currDpage, pages, roles)
      requires OthersOk(hdr.bsize, pages, roles, data, k) && LaterParts(hdr.bsize, pages, roles, k, d)
      requires 1 <= |d0.span| == |d0.parts| && PartOk(hdr.bsize, pages, roles, k, d0, 0) && HeaderOk(pages, d0)
      requires 1 <= j < |d.span| == |d.parts| && currp == d.span[j]
      requires |chunk| <= |d.parts[j]| && (more ==> |chunk| == |d.parts[j]| && j + 1 < |d.span|)
      modifies `pages
      ensures Base() && LinksOk(pages, roles) && CurrOk(hdr, currDpage, pages, roles)
      ensures OthersOk(hdr.bsize, pages, roles, data, k) && LaterParts(hdr.bsize, pages, roles, k, d')
      ensures d' == Patched(d, j, chunk, more) && (more ==> next == d.span[j + 1])
      ensures PartOk(hdr.bsize, pages, roles, k, d0, 0) && HeaderOk(pages, d0) && HeaderOk(old(pages), d0)
      ensures pages[d0.span[0]].hd[d0.off] == old(pages)[d0.span[0]].hd[d0.off]
      ensures forall x :: x in data && x != k ==> BackHeader(pages, data[x]) == BackHeader(old(pages), data[x])
      ensures KeepKeys(old(pages), roles, pages, roles)
    {
      hide BaseInv, LevelsOk, LinksOk, GeomOk, PartOk, Flat, InPool, DatumOk, LaterParts, SlotsOk, PutBytes;
      PatchLater(hdr.bsize, pages, roles, data, k, d, j, chunk, more);
      d' := Patched(d, j, chunk, more);
      assert DataPageOk(hdr.bsize, pages, roles, currp);
      FirstUntouched(hdr.bsize, pages, roles, k, d, j, chunk, d0);
      PartNext(hdr.bsize, pages, roles, k, d, j);
      next := pages[currp].next;
      ghost var pages1 := pages;
      pages := pages[currp := PutBytes(pages[currp], BIG_PAGE_OVERHEAD, chunk)];
      PutBytesFields(pages1[currp], BIG_PAGE_OVERHEAD, chunk);
      BaseDataWrite(currp, pages1);
      DataKeeps(pages1, roles, pages, roles);
    }

    lemma BaseDataWrite(p: Pgno, pages1: PageMap)
      requires BaseInv(hdr, currDpage, pages1, roles, fchain) && CurrOk(hdr, currDpage, pages1, roles)
      requires p in roles && roles[p].Data? && p in pages1 && p in pages && pages == pages1[p := pages[p]]
      requires pages[p].next == pages1[p].next
      ensures Base() && CurrOk(hdr, currDpage, pages, roles)
    {
      BaseFrame(hdr, currDpage, pages1, roles, fchain, pages, roles);
    }
  
    // -------------------------------------------------------------- keys

    ghost predicate KeyReady()
      reads this
    {
      DataReady() && KeyState(hdr, hash, pages, roles, chains, data, keys)
    }

    /** Looks for a key along the chain of its bucket: its place, or the last page of the chain. */
    method FindItem(bucket: nat, key: Bytes) returns (found: bool, pnum: Pgno, idx: nat)
      requires KeyReady() && bucket == CallHash(hdr, hash(key))
      ensures hdr.ovflPoint >= 1 && bucket == BucketOf(hdr.ovflPoint, hdr.maxBucket, hash(key))
      ensures bucket < |chains| && |chains[bucket]| >= 1
      ensures found <==> key in keys
      ensures found ==> keys[key] == Loc(pnum, idx) && idx < |Ents(pages, pnum)| && pnum in chains[bucket]
      ensures !found ==> pnum == chains[bucket][|chains[bucket]| - 1]
    {
      hide BaseInv, LevelsOk, DataInv, LinksOk, InPool, KeyState, CurrOk, GetCreate, InitPage;
      BucketThere(bucket, key);
      var pagep := GetCreate(pages, hdr.bsize, BucketPage(hdr, bucket), TKey);
      pnum := BucketPage(hdr, bucket);
      found, idx := false, 0;
      ghost var i := 0;
      PageFacts(bucket, 0);
      if |pagep.ents| == 0 {
        NotOnEmptyChain(bucket, key);
        return;
      }
      var done := false;
      while !done
        invariant 0 <= i < |chains[bucket]| && pnum == chains[bucket][i]
        invariant pagep == GetCreate(pages, hdr.bsize, pnum, TKey)
        invariant forall i1, e :: 0 <= i1 < i && 0 <= e < |Ents(pages, chains[bucket][i1])| ==>
          Ents(pages, chains[bucket][i1])[e].key != key
        invariant found ==> done && idx < |Ents(pages, pnum)| && Ents(pages, pnum)[idx].key == key
        invariant done && !found ==> i == |chains[bucket]| - 1
        invariant done && !found ==> forall e :: 0 <= e < |Ents(pages, pnum)| ==> Ents(pages, pnum)[e].key != key
        decreases !done, |chains[bucket]| - i
      {
        PageFacts(bucket, i);
        idx := 0;
        while idx < |pagep.ents| && !found
          invariant 0 <= idx <= |pagep.ents|
          invariant forall e :: 0 <= e < idx ==> pagep.ents[e].key != key
          invariant found ==> idx < |pagep.ents| && pagep.ents[idx].key == key
          decreases |pagep.ents| - idx, !found
        {
          if pagep.ents[idx].key == key {
            found := true;
          } else {
            idx := idx + 1;
          }
        }
        if found {
          done := true;
        } else if pagep.next == INVALID_PGNO {
          NoInvalidLink(bucket, i);
          done := true;
        } else {
          NoInvalidLink(bucket, i);
          pnum := pagep.next;
          i := i + 1;
          pagep := GetCreate(pages, hdr.bsize, pnum, TKey);
        }
      }
      if found {
        EntryIsKey(hdr, hash, pages, roles, chains, data, keys, bucket, i, idx);
      } else if key in keys {
        KeyOnChain(hdr, hash, pages, roles, chains, data, keys, key);
        assert false;
      }
    }

    lemma BucketThere(bucket: nat, key: Bytes)
      requires KeyReady() && bucket == CallHash(hdr, hash(key))
      ensures bucket <= hdr.maxBucket && bucket < |chains| && |chains[bucket]| >= 1
      ensures chains[bucket][0] == BucketPage(hdr, bucket)
      ensures hdr.ovflPoint >= 1 && bucket == BucketOf(hdr.ovflPoint, hdr.maxBucket, hash(key))
    {
      HashInRange(hdr, hash(key));
      HashIs(hdr, hash(key));
      assert ChainOk(hdr, pages, roles, bucket, chains[bucket]);
    }

    lemma PageFacts(b: nat, i: nat)
      requires KeyReady() && b < |chains| && i < |chains[b]|
      ensures var p := chains[b][i]; var pg := GetCreate(pages, hdr.bsize, p, TKey);
        && p in roles && roles[p] == Chain(b, i)
        && pg.KeyPage? && pg.curr == p && pg.next == Follows(chains[b], i) && LayoutOk(hdr.bsize, pg)
        && Ents(pages, p) == pg.ents && (pg.ents == [] ==> |chains[b]| == 1)
    {
      ChainPageAt(hdr, pages, roles, chains, b, i);
    }

    lemma NotOnEmptyChain(b: nat, key: Bytes)
      requires KeyReady() && b == CallHash(hdr, hash(key)) && b < |chains| && |chains[b]| >= 1
      requires Ents(pages, chains[b][0]) == []
      ensures key !in keys && |chains[b]| == 1
    {
      PageFacts(b, 0);
      if key in keys {
        KeyOnChain(hdr, hash, pages, roles, chains, data, keys, key);
      }
    }

    lemma NoInvalidLink(b: nat, i: nat)
      requires KeyReady() && b < |chains| && i < |chains[b]|
      ensures Follows(chains[b], i) == INVALID_PGNO <==> i == |chains[b]| - 1
    {
    }
  
    // -------------------------------------------------------------- adding keys

    lemma SameGetCreate(pages0: PageMap, pages1: PageMap, bsize: nat, p: Pgno)
      requires SamePage(pages0, pages1, p)
      ensures GetCreate(pages0, bsize, p, TKey) == GetCreate(pages1, bsize, p, TKey)
      ensures Ents(pages0, p) == Ents(pages1, p)
    {
    }

    /** A held page stays held. */
    ghost predicate SameHeld(pages0: PageMap, roles0: Roles)
      reads this
    {
      && (forall p :: p in roles0 && roles0[p].Held? ==>
            p in roles && roles[p].Held? && SamePage(pages0, pages, p))
      && (forall p :: p in roles && roles[p].Held? ==> p in roles0 && roles0[p].Held?)
    }

    /** Adds a new key and its datum to page i of the chain of its bucket; the pair fits. */
    method AddItemOnPage(ghost b: nat, ghost i: nat, pnum: Pgno, key: Bytes, val: Bytes, chksum: nat) returns (e: Entry)
      requires KeyReady() && b == CallHash(hdr, hash(key)) && b < |chains| && i < |chains[b]| && pnum == chains[b][i]
      requires var pg := GetCreate(pages, hdr.bsize, pnum, TKey); pg.KeyPage? && PairFits(pg, |key|)
      requires key !in keys && key !in data && KeySizeOk(hdr.bsize, key)
      requires |val| <= MAX_DATASIZE && chksum == Crc(0, val)
      modifies `hdr, `currDpage, `pages, `roles, `fchain, `data, `keys
      ensures KeyReady() && HdrStep(old(hdr), hdr) && currDpage != INVALID_PGNO
      ensures key in data && data == old(data)[key := data[key]] && Flat(data[key].parts) == val
      ensures key in keys && keys == old(keys)[key := keys[key]]
      ensures SameHeld(old(pages), old(roles))
      ensures e.key == key && pnum in pages && pages[pnum] == EntryOn(old(pages), hdr.bsize, pnum, e)[pnum]
      ensures Table(pages, chains) == Table(old(pages), chains)[b := WithEntry(Rows(old(pages), chains[b]), i, e)]
    {
      hide BaseInv, LevelsOk, DataInv, LinksOk, InPool, KeyState, GetCreate, InitPage, Flat, Crc, PairFits, AddEntry, BackHeader, Table;
      BaseBounds(hdr, currDpage, pages, roles, fchain);
      PageFacts(b, i);
      var pagep := GetCreate(pages, hdr.bsize, pnum, TKey);
      var n := |pagep.ents|;
      var datap := AddData(key, pnum, n, val, chksum);
      BaseBounds(hdr, currDpage, pages, roles, fchain);
      AfterData(old(hdr), hash, old(pages), old(roles), chains, old(data), keys, hdr, pages, roles, data);
      HeaderThere(hdr.bsize, pages, roles, data, key);
      PageFacts(b, i);
      SameGetCreate(old(pages), pages, hdr.bsize, pnum);
      ghost var pages1 := pages;
      e := Entry(key, datap);
      StateInsert(hdr, hash, pages, roles, chains, data, keys, b, i, e);
      TableSame(old(hdr), old(pages), old(roles), old(data), keys, pages1, roles);
      AddEntryFields(pagep, e);
      pages := pages[pnum := AddEntry(pagep, e)];
      TableAdd(pages1, keys, b, i, e);
      keys := keys[key := Loc(pnum, n)];
      KeyWrite(pages1, pnum);
    }

    lemma TableSame(h: Header, pages0: PageMap, roles0: Roles, data0: DataMap, keys0: KeyMap, pages1: PageMap, roles1: Roles)
      requires KeyState(h, hash, pages0, roles0, chains, data0, keys0) && KeepKeys(pages0, roles0, pages1, roles1)
      ensures Table(pages1, chains) == Table(pages0, chains)
    {
      KeepChainsOf(pages0, roles0, pages1, roles1);
      TableKept(h, pages0, roles0, chains, pages1, roles1);
    }

    lemma TableAdd(pages1: PageMap, keys1: KeyMap, b: nat, i: nat, e: Entry)
      requires KeyState(hdr, hash, pages1, roles, chains, data, keys1) && b < |chains| && i < |chains[b]|
      requires var p := chains[b][i]; p in pages && pages == pages1[p := pages[p]] && Ents(pages, p) == Ents(pages1, p) + [e]
      ensures Table(pages, chains) == Table(pages1, chains)[b := WithEntry(Rows(pages1, chains[b]), i, e)]
    {
      TableWrite(hdr, pages1, roles, chains, pages, b, i, e);
    }

    /** Writing a chain page leaves the allocation layer and the current data page alone. */
    lemma KeyWrite(pages1: PageMap, p: Pgno)
      requires BaseInv(hdr, currDpage, pages1, roles, fchain) && CurrOk(hdr, currDpage, pages1, roles)
      requires p in roles && roles[p].Chain? && p in pages && pages == pages1[p := pages[p]]
      ensures Base() && CurrOk(hdr, currDpage, pages, roles)
    {
      BaseFrame(hdr, currDpage, pages1, roles, fchain, pages, roles);
    }

    /** The next overflow page. */
    method OvflPageNumber() returns (num: Pgno, reuse: bool)
      requires KeyReady()
      modifies `hdr, `currDpage, `pages, `roles, `fchain
      ensures KeyReady() && HdrStep(old(hdr), hdr) && currDpage != INVALID_PGNO
      ensures Taken(old(roles), roles, num) && num in roles && KeptPages(old(pages), pages, old(roles))
      ensures !reuse ==> num !in pages
      ensures Table(pages, chains) == Table(old(pages), chains)
    {
      hide BaseInv, LevelsOk, DataInv, LinksOk, InPool, KeyState, CurrOk, Table;
      BaseBounds(hdr, currDpage, pages, roles, fchain);
      StartLevel();
      BaseBounds(hdr, currDpage, pages, roles, fchain);
      CurrAfterStart(old(hdr), old(currDpage));
      ghost var hdr1 := hdr;
      num, reuse := TakePage();
      HdrStepTrans(old(hdr), hdr1, hdr);
      AfterTake(old(hdr), hash, old(pages), old(roles), chains, data, keys, hdr, pages, roles, num);
      TableTaken(old(hdr), old(pages), old(roles), num);
    }

    lemma TableTaken(h: Header, pages0: PageMap, roles0: Roles, num: Pgno)
      requires KeyState(h, hash, pages0, roles0, chains, data, keys) && Taken(roles0, roles, num) && KeptPages(pages0, pages, roles0)
      ensures Table(pages, chains) == Table(pages0, chains)
    {
      TakeKeepsChains(pages0, roles0, pages, roles, num);
      TableKept(h, pages0, roles0, chains, pages, roles);
    }

    lemma CurrAfterStart(h: Header, curr: Pgno)
      requires CurrOk(h, curr, pages, roles) && 1 <= hdr.ovflPoint && hdr.ovflPoint + 1 < |hdr.spares|
      requires curr != INVALID_PGNO ==> hdr == h && currDpage == curr
      requires curr == INVALID_PGNO ==> currDpage !in roles && InPool(hdr, currDpage)
      ensures CurrOk(hdr, currDpage, pages, roles)
    {
    }

    /** Links the held page after the last page of a chain and puts the pair on it. */
    method LinkOverflow(ghost b: nat, last: Pgno, n: Pgno, e: Entry)
      requires KeyReady() && b == CallHash(hdr, hash(e.key)) && b < |chains| && |chains[b]| >= 1
      requires last == chains[b][|chains[b]| - 1] && Ents(pages, last) != []
      requires n in roles && roles[n].Held?
      requires e.key !in keys && KeySizeOk(hdr.bsize, e.key)
      requires e.key in data && PtrOk(e.datap, data[e.key]) && BackHeader(pages, data[e.key]) == Loc(n, 0)
      modifies `pages, `roles, `keys, `chains
      ensures KeyReady() && keys == old(keys)[e.key := Loc(n, 0)]
      ensures n in roles && roles == old(roles)[n := Chain(b, |old(chains)[b]|)]
      ensures chains == old(chains)[b := old(chains)[b] + [n]]
      ensures last in old(pages) && last in old(roles) && old(roles)[last].Chain?
      ensures n in pages && pages == EntryBehind(old(pages), hdr.bsize, last, n, e)
      ensures pages == old(pages)[last := SetNext(old(pages)[last], n)][n := pages[n]] && Ents(pages, n) == [e]
      ensures Table(pages, chains) == Table(old(pages), old(chains))[b := Rows(old(pages), old(chains)[b]) + [[e]]]
    {
      hide BaseInv, LevelsOk, DataInv, LinksOk, InPool, KeyState, CurrOk, AddEntry, PtrOk, BackHeader, Table;
      BaseBounds(hdr, currDpage, pages, roles, fchain);
      HeaderThere(hdr.bsize, pages, roles, data, e.key);
      StateExtend(hdr, hash, pages, roles, chains, data, keys, b, n, e);
      AddEntryFields(SetPrev(InitPage(hdr.bsize, n, TKey), last), e);
      pages := pages[last := SetNext(pages[last], n)];
      pages := pages[n := AddEntry(SetPrev(InitPage(hdr.bsize, n, TKey), last), e)];
      roles := roles[n := Chain(b, |chains[b]|)];
      chains := chains[b := chains[b] + [n]];
      keys := keys[e.key := Loc(n, 0)];
      OverflowWrite(old(pages), old(roles), last, n, b);
      TableLonger(old(pages), old(roles), old(chains), old(keys), b, n, e);
    }

    lemma TableLonger(pages1: PageMap, roles1: Roles, chains1: seq<seq<Pgno>>, keys1: KeyMap, b: nat, n: Pgno, e: Entry)
      requires KeyState(hdr, hash, pages1, roles1, chains1, data, keys1) && b < |chains1| && chains1[b] != []
      requires n in roles1 && roles1[n].Held? && chains == chains1[b := chains1[b] + [n]]
      requires var last := chains1[b][|chains1[b]| - 1];
        && last in pages1 && n in pages && pages == pages1[last := SetNext(pages1[last], n)][n := pages[n]]
        && Ents(pages, n) == [e]
      ensures Table(pages, chains) == Table(pages1, chains1)[b := Rows(pages1, chains1[b]) + [[e]]]
    {
      TableExtend(hdr, pages1, roles1, chains1, pages, b, n, e);
    }

    lemma OverflowWrite(pages1: PageMap, roles1: Roles, last: Pgno, n: Pgno, b: nat)
      requires BaseInv(hdr, currDpage, pages1, roles1, fchain) && CurrOk(hdr, currDpage, pages1, roles1)
      requires last in roles1 && roles1[last].Chain? && n in roles1 && roles1[n].Held?
      requires last in pages && n in pages && pages == pages1[last := pages[last]][n := pages[n]]
      requires n in roles && roles[n].Chain? && roles[n].i > 0 && roles == roles1[n := roles[n]]
      ensures Base() && CurrOk(hdr, currDpage, pages, roles)
    {
      BaseFrame(hdr, currDpage, pages1, roles1, fchain, pages, roles);
    }

    /** Chains an overflow page with the new pair after the last page of the chain. */
    method AddOvflPage(ghost b: nat, last: Pgno, key: Bytes, val: Bytes, chksum: nat) returns (n: Pgno, e: Entry)
      requires KeyReady() && b == CallHash(hdr, hash(key)) && b < |chains| && |chains[b]| >= 1
      requires last == chains[b][|chains[b]| - 1] && Ents(pages, last) != []
      requires key !in keys && key !in data && KeySizeOk(hdr.bsize, key)
      requires |val| <= MAX_DATASIZE && chksum == Crc(0, val)
      modifies `hdr, `currDpage, `pages, `roles, `fchain, `data, `keys, `chains
      ensures KeyReady() && HdrStep(old(hdr), hdr) && currDpage != INVALID_PGNO
      ensures key in data && data == old(data)[key := data[key]] && Flat(data[key].parts) == val
      ensures key in keys && keys == old(keys)[key := keys[key]]
      ensures SameHeld(old(pages), old(roles))
      ensures e.key == key && chains == old(chains)[b := old(chains)[b] + [n]] && last in old(pages) && last != n
      ensures last in pages && n in pages && pages[last] == EntryBehind(old(pages), hdr.bsize, last, n, e)[last]
      ensures pages[n] == EntryBehind(old(pages), hdr.bsize, last, n, e)[n]
      ensures Table(pages, chains) == Table(old(pages), old(chains))[b := Rows(old(pages), old(chains)[b]) + [[e]]]
    {
      hide BaseInv, LevelsOk, DataInv, LinksOk, InPool, KeyState, Flat, Crc, BackHeader, CurrOk, Table, InitPage, AddEntry;
      PageFacts(b, |chains[b]| - 1);
      var reuse;
      n, reuse := OvflPageNumber();
      ghost var pages1, roles1, hdr1, data1 := pages, roles, hdr, data;
      BaseBounds(hdr, currDpage, pages, roles, fchain);
      LastSame(old(pages), old(roles), last, b);
      var datap := AddData(key, n, 0, val, chksum);
      BaseBounds(hdr, currDpage, pages, roles, fchain);
      AfterData(hdr1, hash, pages1, roles1, chains, data1, keys, hdr, pages, roles, data);
      SameGetCreate(pages1, pages, hdr.bsize, last);
      HdrStepTrans(old(hdr), hdr1, hdr);
      ghost var pages2, roles2 := pages, roles;
      TableSame(hdr1, pages1, roles1, data1, keys, pages2, roles2);
      e := Entry(key, datap);
      LinkOverflow(b, last, n, e);
      HeldAfterLink(old(pages), old(roles), pages1, roles1, pages2, roles2, last, n);
    }

    lemma HeldAfterLink(pages0: PageMap, roles0: Roles, pages1: PageMap, roles1: Roles, pages2: PageMap, roles2: Roles,
                        last: Pgno, n: Pgno)
      requires Taken(roles0, roles1, n) && KeptPages(pages0, pages1, roles0)
      requires KeepKeys(pages1, roles1, pages2, roles2)
      requires last in roles0 && roles0[last].Chain? && last in pages && n in pages
      requires pages == pages2[last := pages[last]][n := pages[n]]
      requires n in roles && roles[n].Chain? && roles == roles2[n := roles[n]]
      ensures SameHeld(pages0, roles0)
    {
      forall p | p in roles0 && roles0[p].Held?
        ensures p in roles && roles[p].Held? && SamePage(pages0, pages, p)
      {
        assert SamePage(pages0, pages1, p);
        assert p in roles1 && roles1[p].Held?;
        assert SamePage(pages1, pages2, p);
      }
    }

    lemma LastSame(pages1: PageMap, roles1: Roles, last: Pgno, b: nat)
      requires KeptPages(pages1, pages, roles1)
      requires last in roles1 && !roles1[last].FreeMap?
      ensures Ents(pages, last) == Ents(pages1, last)
    {
    }
  
    // -------------------------------------------------------------- moving a pair

    /** Puts a key and its data pointer on the first page of the bucket's chain that has room,
        or on a new overflow page, and points the data header there. */
    method AddKeyDatapToBucket(key: Bytes, datap: DataPtr, bucket: nat)
      requires KeyReady() && bucket == CallHash(hdr, hash(key))
      requires key !in keys && key in data && PtrOk(datap, data[key]) && KeySizeOk(hdr.bsize, key)
      modifies `hdr, `currDpage, `pages, `roles, `fchain, `keys, `chains
      ensures KeyReady() && HdrStep(old(hdr), hdr)
      ensures key in keys && keys == old(keys)[key := keys[key]]
      ensures Pairs(pages, keys) == Pairs(old(pages), old(keys))[key := datap]
      ensures SameHeld(old(pages), old(roles))
      ensures old(currDpage) != INVALID_PGNO ==> currDpage != INVALID_PGNO
      ensures bucket < |old(chains)|
      ensures var t := Table(old(pages), old(chains));
        Table(pages, chains) == t[bucket := FirstFit(hdr.bsize, t[bucket], Entry(key, datap))]
    {
      hide BaseInv, LevelsOk, DataInv, LinksOk, InPool, KeyState, CurrOk, GetCreate, PtrOk, PairFits, Pairs, RowFits, FirstFit, LayoutOk,
        Table, Ents, Rows;
      BucketThere(bucket, key);
      ghost var rows := Rows(pages, chains[bucket]);
      BaseBounds(hdr, currDpage, pages, roles, fchain);
      var pnum := BucketPage(hdr, bucket);
      var needOvfl, done := true, false;
      ghost var i := 0;
      while !done
        invariant 0 <= i < |chains[bucket]| && pnum == chains[bucket][i]
        invariant done && needOvfl ==> i == |chains[bucket]| - 1 && Ents(pages, pnum) != []
        invariant !needOvfl ==> done && Fits(pnum, key) && RowFits(hdr.bsize, rows[i], |key|)
        invariant NoneFits(hdr.bsize, rows, if done && needOvfl then i + 1 else i, |key|)
        decreases !done, |chains[bucket]| - i
        modifies {}
      {
        PageFacts(bucket, i);
        NoInvalidLink(bucket, i);
        var pagep := GetCreate(pages, hdr.bsize, pnum, TKey);
        RowFitsPage(hdr.bsize, pagep, |key|);
        if PairFits(pagep, |key|) {
          needOvfl, done := false, true;
          assert Fits(pnum, key);
        } else if pagep.next == INVALID_PGNO {
          if pagep.ents == [] {
            EmptyFits(hdr.bsize, pagep, |key|);
          }
          done := true;
        } else {
          pnum := pagep.next;
          i := i + 1;
        }
      }
      FirstFitAt(hdr.bsize, rows, Entry(key, datap), if needOvfl then i + 1 else i);
      if needOvfl {
        var n := AddOverflowPair(bucket, pnum, key, datap);
      } else {
        WriteKeyDatapToPage(bucket, i, pnum, key, datap);
      }
    }

    predicate Fits(p: Pgno, key: Bytes)
      reads this
    {
      GetCreate(pages, hdr.bsize, p, TKey).KeyPage? && PairFits(GetCreate(pages, hdr.bsize, p, TKey), |key|)
    }

    /** Writes the pair on a page that has room. */
    method WriteKeyDatapToPage(ghost b: nat, ghost i: nat, pnum: Pgno, key: Bytes, datap: DataPtr)
      requires KeyReady() && b == CallHash(hdr, hash(key)) && b < |chains| && i < |chains[b]| && pnum == chains[b][i]
      requires Fits(pnum, key)
      requires key !in keys && key in data && PtrOk(datap, data[key]) && KeySizeOk(hdr.bsize, key)
      modifies `pages, `keys
      ensures KeyReady() && key in keys && keys == old(keys)[key := keys[key]]
      ensures Pairs(pages, keys) == Pairs(old(pages), old(keys))[key := datap]
      ensures SameHeld(old(pages), old(roles))
      ensures Table(pages, chains) == Table(old(pages), chains)[b := WithEntry(Rows(old(pages), chains[b]), i, Entry(key, datap))]
    {
      hide BaseInv, LevelsOk, DataInv, LinksOk, InPool, KeyState, GetCreate, InitPage, PtrOk, PairFits, AddEntry, BackHeader, Pairs, Table;
      BaseBounds(hdr, currDpage, pages, roles, fchain);
      PageFacts(b, i);
      var pagep := GetCreate(pages, hdr.bsize, pnum, TKey);
      var n := |pagep.ents|;
      UpdateDataInfo(key, datap, pnum, n);
      ghost var pages1 := pages;
      AfterRepoint(hdr, hash, old(pages), roles, chains, data, keys, pages, key);
      SameGetCreate(old(pages), pages, hdr.bsize, pnum);
      HeaderThere(hdr.bsize, pages, roles, data, key);
      StateInsert(hdr, hash, pages, roles, chains, data, keys, b, i, Entry(key, datap));
      TableSame(hdr, old(pages), roles, data, keys, pages1, roles);
      pages := pages[pnum := AddEntry(pagep, Entry(key, datap))];
      AddEntryFields(pagep, Entry(key, datap));
      TableAdd(pages1, keys, b, i, Entry(key, datap));
      keys := keys[key := Loc(pnum, n)];
      KeyWrite(pages1, pnum);
      PairsInsert(old(pages), pages1, old(keys), pnum, Entry(key, datap));
    }

    lemma PairsInsert(pages0: PageMap, pages1: PageMap, keys0: KeyMap, p: Pgno, e: Entry)
      requires KeyState(hdr, hash, pages0, roles, chains, data, keys0) && e.key !in keys0
      requires KeepKeys(pages0, roles, pages1, roles) && p in roles && roles[p].Chain?
      requires p in pages && pages == pages1[p := pages[p]] && Ents(pages, p) == Ents(pages0, p) + [e]
      requires keys == keys0[e.key := Loc(p, |Ents(pages0, p)|)]
      ensures Pairs(pages, keys) == Pairs(pages0, keys0)[e.key := e.datap]
    {
      hide KeyState;
      forall q | q in roles && roles[q].Chain?
        ensures Ents(pages0, q) <= Ents(pages, q)
      {
        assert SamePage(pages0, pages1, q);
      }
      PairsFrame(hdr, hash, pages0, roles, chains, data, keys0, pages);
    }

    /** Writes the pair on a new overflow page. */
    method AddOverflowPair(ghost b: nat, last: Pgno, key: Bytes, datap: DataPtr) returns (n: Pgno)
      requires KeyReady() && b == CallHash(hdr, hash(key)) && b < |chains| && |chains[b]| >= 1
      requires last == chains[b][|chains[b]| - 1] && Ents(pages, last) != []
      requires key !in keys && key in data && PtrOk(datap, data[key]) && KeySizeOk(hdr.bsize, key)
      modifies `hdr, `currDpage, `pages, `roles, `fchain, `keys, `chains
      ensures KeyReady() && HdrStep(old(hdr), hdr) && currDpage != INVALID_PGNO
      ensures key in keys && keys == old(keys)[key := keys[key]]
      ensures Pairs(pages, keys) == Pairs(old(pages), old(keys))[key := datap]
      ensures SameHeld(old(pages), old(roles))
      ensures Table(pages, chains) == Table(old(pages), old(chains))[b := Rows(old(pages), old(chains)[b]) + [[Entry(key, datap)]]]
    {
      hide BaseInv, LevelsOk, DataInv, LinksOk, InPool, KeyState, PtrOk, BackHeader, CurrOk, Pairs, Table;
      PageFacts(b, |chains[b]| - 1);
      var reuse;
      n, reuse := OvflPageNumber();
      ghost var pages1, roles1, hdr1 := pages, roles, hdr;
      BaseBounds(hdr, currDpage, pages, roles, fchain);
      LastSame(old(pages), old(roles), last, b);
      UpdateDataInfo(key, datap, n, 0);
      AfterRepoint(hdr, hash, pages1, roles, chains, data, keys, pages, key);
      SameGetCreate(pages1, pages, hdr.bsize, last);
      ghost var pages2, chains2 := pages, chains;
      TableSame(hdr, pages1, roles1, data, keys, pages2, roles1);
      LinkOverflow(b, last, n, Entry(key, datap));
      HeldAfterLink(old(pages), old(roles), pages1, roles1, pages2, roles1, last, n);
      PairsExtend(old(pages), old(roles), old(hdr), pages1, pages2, roles1, chains2, old(keys), last, n, Entry(key, datap));
    }

    lemma PairsExtend(pages0: PageMap, roles0: Roles, hdr0: Header, pages1: PageMap, pages2: PageMap, roles1: Roles,
                      chains0: seq<seq<Pgno>>, keys0: KeyMap, last: Pgno, n: Pgno, e: Entry)
      requires KeyState(hdr0, hash, pages0, roles0, chains0, data, keys0) && e.key !in keys0
      requires Taken(roles0, roles1, n) && KeptPages(pages0, pages1, roles0) && KeepKeys(pages1, roles1, pages2, roles1)
      requires last in roles0 && roles0[last].Chain? && last in pages2 && n in pages
      requires pages == pages2[last := SetNext(pages2[last], n)][n := pages[n]] && Ents(pages, n) == [e]
      requires keys == keys0[e.key := Loc(n, 0)]
      ensures Pairs(pages, keys) == Pairs(pages0, keys0)[e.key := e.datap]
    {
      hide KeyState;
      forall q | q in roles0 && roles0[q].Chain?
        ensures Ents(pages0, q) <= Ents(pages, q)
      {
        assert SamePage(pages0, pages1, q);
        assert q in roles1 && roles1[q].Chain?;
        assert SamePage(pages1, pages2, q);
      }
      PairsFrame(hdr0, hash, pages0, roles0, chains0, data, keys0, pages);
    }

    // -------------------------------------------------------------- splitting a bucket

    ghost function Snapshot(): State
      reads this
    {
      State(hdr, currDpage, pages, roles, fchain, chains, data, keys)
    }

    /** Gives an overflow page back whose pairs were all moved. */
    method FreeChainPage(op: Pgno)
      requires KeyReady() && op in roles && roles[op].Held?
      modifies `hdr, `pages, `roles, `fchain
      ensures KeyReady() && hdr == old(hdr).(freePages := hdr.freePages) && |hdr.spares| > hdr.ovflPoint + 1
      ensures op in roles && IsFree(roles[op]) && roles == old(roles)[op := roles[op]]
      ensures Pairs(pages, keys) == Pairs(old(pages), keys)
      ensures forall p :: p in old(roles) && old(roles)[p].Held? && p != op ==> SamePage(old(pages), pages, p)
      ensures Table(pages, chains) == Table(old(pages), chains)
    {
      hide BaseInv, LevelsOk, DataInv, LinksOk, InPool, KeyState, CurrOk, Pairs, Table;
      BaseBounds(hdr, currDpage, pages, roles, fchain);
      FreeOvflPage(op);
      AfterFree(old(hdr), hash, currDpage, old(pages), old(roles), chains, data, keys, hdr, pages, roles, op);
      TableFreed(old(hdr), old(pages), old(roles), op);
    }

    lemma TableFreed(h: Header, pages0: PageMap, roles0: Roles, op: Pgno)
      requires KeyState(h, hash, pages0, roles0, chains, data, keys)
      requires op in roles0 && roles0[op].Held? && op in roles && IsFree(roles[op]) && roles == roles0[op := roles[op]]
      requires pages.Keys == pages0.Keys + {op}
      requires forall p :: p in pages0 && p != op && !(p in roles0 && roles0[p].FreeMap?) ==> pages[p] == pages0[p]
      ensures Table(pages, chains) == Table(pages0, chains)
    {
      FreeKeepsChains(pages0, roles0, pages, roles, op);
      TableKept(h, pages0, roles0, chains, pages, roles);
    }

    /** Stores every pair of one page of the old chain in the bucket its hash selects now. */
    method MovePairs(temp: Page, oldBucket: nat, newBucket: nat, ghost s: State, ghost x: nat)
      requires KeyReady() && StateOk(s, hash) && s.data == data && HdrStep(Grow(s.hdr), hdr)
      requires oldBucket == SplitBucketOf(s.hdr) && newBucket == s.hdr.maxBucket + 1
      requires Pending(s, oldBucket, x, 0, pages, roles, keys)
      requires temp.KeyPage? && temp.ents == Ents(s.pages, s.chains[oldBucket][x])
      modifies `hdr, `currDpage, `pages, `roles, `fchain, `keys, `chains
      ensures KeyReady() && HdrStep(Grow(s.hdr), hdr)
      ensures Pending(s, oldBucket, x, |temp.ents|, pages, roles, keys)
      ensures oldBucket < |s.chains| && x < |s.chains[oldBucket]|
      ensures Table(pages, chains) == PutBack(Grow(s.hdr), hash, old(Table(pages, chains)), temp.ents)
    {
      hide BaseInv, LevelsOk, DataInv, LinksOk, InPool, KeyState, CurrOk, Pairs, Pending, Grow, StateOk, CallHash, PtrOk, HdrStep,
        Table, PutBack, FirstFit;
      ghost var t0 := Table(pages, chains);
      NothingBack(Grow(s.hdr), t0);
      PendingBounds(s, oldBucket, x, 0, pages, roles, keys);
      var i := 0;
      while i < |temp.ents|
        invariant 0 <= i <= |temp.ents| && KeyReady() && HdrStep(Grow(s.hdr), hdr)
        invariant Pending(s, oldBucket, x, i, pages, roles, keys)
        invariant Table(pages, chains) == PutBack(Grow(s.hdr), hash, t0, temp.ents[..i])
      {
        var e := temp.ents[i];
        PendingBounds(s, oldBucket, x, i, pages, roles, keys);
        PendingEntry(s, hash, oldBucket, x, i, pages, roles, keys);
        SameHash(Grow(s.hdr), hdr, hash(e.key));
        GrowBsize(s.hdr);
        ghost var pages1, roles1, keys1, hdr1 := pages, roles, keys, hdr;
        if CallHash(hdr, hash(e.key)) == oldBucket {
          AddKeyDatapToBucket(e.key, e.datap, oldBucket);
        } else {
          AddKeyDatapToBucket(e.key, e.datap, newBucket);
        }
        HdrStepTrans(Grow(s.hdr), hdr1, hdr);
        PendingStep(s, hash, oldBucket, x, i, pages1, roles1, keys1, pages, roles, keys);
        OneBack(Grow(s.hdr), t0, temp.ents, i, Table(pages, chains));
        i := i + 1;
      }
      assert temp.ents[..i] == temp.ents;
    }

    lemma NothingBack(h: Header, t: seq<seq<Row>>)
      ensures PutBack(h, hash, t, []) == t
    {
    }

    lemma OneBack(h: Header, t0: seq<seq<Row>>, es: seq<Entry>, i: nat, t: seq<seq<Row>>)
      requires i < |es|
      requires var b, t1 := CallHash(h, hash(es[i].key)), PutBack(h, hash, t0, es[..i]);
        b < |t1| && t == t1[b := FirstFit(h.bsize, t1[b], Entry(es[i].key, es[i].datap))]
      ensures t == PutBack(h, hash, t0, es[..i + 1])
    {
      PutBackStep(h, hash, t0, es[..i], es[i]);
      assert es[..i + 1] == es[..i] + [es[i]];
    }

    lemma HdrStepFree(h: Header, h1: Header, h2: Header)
      requires HdrStep(h, h1) && h2 == h1.(freePages := h2.freePages) && h1.ovflPoint + 1 < |h1.spares|
      ensures HdrStep(h, h2)
    {
    }

    lemma SameHash(h: Header, h': Header, n: nat)
      requires HdrStep(h, h')
      ensures h'.bsize == h.bsize && CallHash(h', n) == CallHash(h, n)
    {
    }

    lemma PendingBounds(s: State, b: nat, x: nat, i: nat, pages: PageMap, roles: Roles, keys: KeyMap)
      requires Pending(s, b, x, i, pages, roles, keys)
      ensures b < |s.chains| && x < |s.chains[b]|
      ensures x > 0 ==> s.chains[b][x] in roles && roles[s.chains[b][x]].Held? && SamePage(s.pages, pages, s.chains[b][x])
    {
    }

    lemma AllReady()
      requires Base() && CurrOk(hdr, currDpage, pages, roles) && DataInv(hdr.bsize, pages, roles, data)
      requires LinksOk(pages, roles) && KeyState(hdr, hash, pages, roles, chains, data, keys)
      ensures KeyReady()
    {
    }

    /** Splits a bucket: its chain is taken apart, every pair goes to the bucket its hash
        selects now, and the overflow pages of the old chain go to the free lists. */
    method SplitBucket(oldBucket: nat, newBucket: nat, ghost s: State)
      requires StateOk(s, hash) && NoHeld(s.roles) && s.curr != INVALID_PGNO && s.hdr.ovflPoint + 2 < NCACHED
      requires oldBucket == SplitBucketOf(s.hdr) && newBucket == s.hdr.maxBucket + 1
      requires Snapshot() == s.(hdr := Grow(s.hdr), curr := CurrAfterGrow(s.hdr, s.curr), pages := pages)
      requires var np := BucketPage(Grow(s.hdr), newBucket); pages == s.pages[np := InitPage(s.hdr.bsize, np, TKey)]
      modifies `hdr, `currDpage, `pages, `roles, `fchain, `keys, `chains
      ensures KeyReady() && HdrStep(Grow(s.hdr), hdr) && NoHeld(roles)
      ensures keys.Keys == s.keys.Keys && Pairs(pages, keys) == Pairs(s.pages, s.keys)
      ensures oldBucket < |s.chains|
      ensures Table(pages, chains) == SplitTable(Grow(s.hdr), hash, Table(s.pages, s.chains), oldBucket)
    {
      hide BaseInv, LevelsOk, DataInv, LinksOk, InPool, KeyState, CurrOk, Pairs, Pending, Grow, StateOk, CallHash, PtrOk, HdrStep,
        InitPage, BucketPage, NoHeld, SplitBucketOf, DataState, Detached, OtherKeys, PutBack, Joined;
      SplitStart(s, hash);
      ghost var rows := Rows(s.pages, s.chains[oldBucket]);
      ghost var t0 := Table(s.pages, s.chains)[oldBucket := [[]]] + [[[]]];
      var oldpage := BucketPage(hdr, oldBucket);
      ghost var np := BucketPage(hdr, newBucket);
      var temp := GetCreate(pages, hdr.bsize, oldpage, TKey);
      pages := pages[oldpage := InitPage(hdr.bsize, oldpage, TKey)];
      assert pages == SplitPages(s.hdr.bsize, s.pages, oldpage, np);
      roles, keys := Detached(roles, oldBucket, newBucket, np), OtherKeys(roles, keys, oldBucket);
      chains := chains[oldBucket := [oldpage]] + [[np]];
      assert HdrStep(hdr, hdr) by { HdrStepRefl(hdr); }
      AllReady();
      TableDetached(s, hash, oldBucket);
      PutBackPage(Grow(s.hdr), hash, t0, rows, 0);
      PageOfChain(s, hash, oldBucket, 0);
      ghost var x := 0;
      var currp, basePage, done := oldpage, true, false;
      while !done
        invariant KeyReady() && HdrStep(Grow(s.hdr), hdr) && oldBucket < |s.chains| && x < |s.chains[oldBucket]|
        invariant !done ==> (basePage <==> x == 0)
        invariant !done ==> Pending(s, oldBucket, x, 0, pages, roles, keys)
        invariant !done ==> currp == s.chains[oldBucket][x] && temp == GetCreate(s.pages, s.hdr.bsize, currp, TKey)
        invariant Table(pages, chains) == PutBack(Grow(s.hdr), hash, t0, Joined(if done then rows else rows[..x]))
        invariant done ==> NoHeld(roles) && keys.Keys == s.keys.Keys && Pairs(pages, keys) == Pairs(s.pages, s.keys)
        decreases !done, |s.chains[oldBucket]| - x
      {
        PageOfChain(s, hash, oldBucket, x);
        MovePairs(temp, oldBucket, newBucket, s, x);
        PutBackPage(Grow(s.hdr), hash, t0, rows, x);
        var nextpage := temp.next;
        ghost var pages1, roles1 := pages, roles;
        PendingBounds(s, oldBucket, x, |temp.ents|, pages, roles, keys);
        ghost var hdr1 := hdr;
        if basePage {
          basePage := false;
          BaseNotHeld(s, hash, oldBucket, |temp.ents|, pages, roles, keys);
        } else {
          FreeChainPage(currp);
          HdrStepFree(Grow(s.hdr), hdr1, hdr);
        }
        PendingNext(s, hash, oldBucket, x, pages1, roles1, keys, pages, roles);
        ChainEnd(s, hash, oldBucket, x);
        if nextpage != INVALID_PGNO {
          x := x + 1;
          PageOfChain(s, hash, oldBucket, x);
          PendingBounds(s, oldBucket, x, 0, pages, roles, keys);
          currp := nextpage;
          temp := pages[nextpage];
        } else {
          PairsBack(s, hash, pages, keys, hdr, roles, chains);
          done := true;
        }
      }
    }

    /** One bucket more: the header grows, the new bucket gets its page, and the bucket whose
        hashes it shares is split. */
    method ExpandTable()
      requires KeyReady() && NoHeld(roles) && currDpage != INVALID_PGNO && hdr.ovflPoint + 2 < NCACHED
      modifies `hdr, `currDpage, `pages, `roles, `fchain, `keys, `chains
      ensures KeyReady() && NoHeld(roles) && HdrStep(Grow(old(hdr)), hdr)
      ensures keys.Keys == old(keys).Keys && Pairs(pages, keys) == Pairs(old(pages), old(keys))
      ensures SplitBucketOf(old(hdr)) < |old(chains)|
      ensures Table(pages, chains) == SplitTable(Grow(old(hdr)), hash, Table(old(pages), old(chains)), SplitBucketOf(old(hdr)))
    {
      hide BaseInv, LevelsOk, DataInv, LinksOk, InPool, KeyState, CurrOk, Pairs, BitAnd, BitOr, Log2, BucketPage, InitPage, NoHeld,
        HdrStep, SplitTable, Table;
      ghost var s := Snapshot();
      var newBucket := hdr.maxBucket + 1;
      hdr := hdr.(maxBucket := newBucket);
      var oldBucket := BitAnd(hdr.maxBucket, hdr.lowMask);
      if newBucket > hdr.highMask {
        hdr := hdr.(lowMask := hdr.highMask);
        hdr := hdr.(highMask := BitOr(newBucket, hdr.lowMask));
      }
      var spareIndx := Log2(hdr.maxBucket + 1);
      if spareIndx > hdr.ovflPoint {
        currDpage := INVALID_PGNO;
        hdr := hdr.(ovflPoint := spareIndx);
      }
      var p := BucketPage(hdr, newBucket);
      pages := pages[p := InitPage(hdr.bsize, p, TKey)];
      assert hdr == Grow(s.hdr) && currDpage == CurrAfterGrow(s.hdr, s.curr);
      SplitBucket(oldBucket, newBucket, s);
    }

    // -------------------------------------------------------------- put and get

    /** Between operations: every key has its datum, the header counts the keys, no page is in
        the hands of an operation, none is recorded as moved, and a data page is current only if
        there is data. */
    ghost predicate Valid()
      reads this
    {
      && KeyReady() && NoHeld(roles) && keys.Keys == data.Keys && hdr.nkeys == |keys|
      && hdr.numMoved == 0 && (currDpage != INVALID_PGNO ==> data != map[])
    }

    ghost function Map(): Contents
      reads this
    {
      ContentsOf(data)
    }

    /** Overwrites the value of a stored key, if the new one is not longer. */
    method ReplaceItemOnPage(key: Bytes, val: Bytes, pnum: Pgno, idx: nat, chksum: nat) returns (ok: bool)
      requires Valid() && key in keys && keys[key] == Loc(pnum, idx) && idx < |Ents(pages, pnum)|
      requires |val| <= MAX_DATASIZE && chksum == Crc(0, val)
      requires key in data && !(IsHuge(|Flat(data[key].parts)|) && !IsHuge(|val|))
      modifies `pages, `data
      ensures Valid() && data.Keys == old(data).Keys
      ensures ok <==> |val| <= |Flat(old(data)[key].parts)|
      ensures Map() == if ok then old(Map())[key := val] else old(Map())
      ensures !ok ==> pages == old(pages)
    {
      hide BaseInv, LevelsOk, DataInv, LinksOk, InPool, KeyState, CurrOk, Flat, Crc, ReplacedOffset, RealLen, LowBits, Low32, SetPointer, BackHeader, NoHeld;
      ghost var d := data[key];
      KeyFacts(key);
      BaseBounds(hdr, currDpage, pages, roles, fchain);
      var datap := pages[pnum].ents[idx].datap;
      var datasize := RealLen(datap.len, datap.offset);
      if |val| > datasize {
        return false;
      }
      var newp := DataPtr(datap.first, ReplacedOffset(|val|, datap.offset), Low32(|val|), chksum);
      NewPointer(datap, d, newp, val);
      ghost var pages1 := pages[pnum := SetPointer(pages[pnum], idx, newp)];
      PointerWrite(hdr.bsize, pages, roles, data, pnum, SetPointer(pages[pnum], idx, newp));
      pages := pages[pnum := SetPointer(pages[pnum], idx, newp)];
      KeyWrite(old(pages), pnum);
      ReplaceData(key, val, newp);
      StateReplace(hdr, hash, old(pages), roles, chains, old(data), keys, key, newp, data[key], pages1, pages);
      ContentsInsert(old(data), data, key);
      ok := true;
    }

    lemma KeyFacts(key: Bytes)
      requires KeyReady() && key in keys
      ensures var p := keys[key].page;
        && p in pages && pages[p].KeyPage? && p in roles && roles[p].Chain? && keys[key].idx < |pages[p].ents|
        && key in data && PtrOk(pages[p].ents[keys[key].idx].datap, data[key])
        && BackPtrOk(pages, data[key], keys[key]) && KeySizeOk(hdr.bsize, key)
        && |Flat(data[key].parts)| <= MAX_DATASIZE
    {
      hide Flat;
      assert KeyAt(hdr, hash, pages, roles, data, key, keys[key]);
      assert DatumOk(hdr.bsize, pages, roles, key, data[key]);
    }

    lemma NewPointer(dp: DataPtr, d: Datum, newp: DataPtr, val: Bytes)
      requires PtrOk(dp, d) && |Flat(d.parts)| <= MAX_DATASIZE && |val| <= |Flat(d.parts)|
      requires !(IsHuge(|Flat(d.parts)|) && !IsHuge(|val|))
      requires newp == DataPtr(dp.first, ReplacedOffset(|val|, dp.offset), Low32(|val|), newp.chksum)
      ensures RealLen(newp.len, newp.offset) == |val| && LowBits(newp.offset) == d.off
      ensures newp.first == d.span[0] && newp.len == Low32(|val|)
    {
      hide Flat, Crc, RealLen, ReplacedOffset, LowBits, Low32;
      ReplacedDecodes(|Flat(d.parts)|, |val|, dp.len, dp.offset);
    }

    /** Counts a new key. */
    method CountKey()
      requires KeyReady() && NoHeld(roles) && keys.Keys == data.Keys && hdr.nkeys + 1 == |keys| && hdr.numMoved == 0 && data != map[]
      modifies `hdr
      ensures Valid() && hdr == old(hdr).(nkeys := old(hdr).nkeys + 1)
    {
      hide BaseInv, DataInv, LinksOk, KeyState, CurrOk, NoHeld;
      CountKeepsState(hdr, hdr.nkeys + 1, hash, currDpage, pages, roles, fchain, chains, data, keys);
      hdr := hdr.(nkeys := hdr.nkeys + 1);
    }

    /** The last page of the chain of a key has room for it. */
    ghost predicate RoomAtEnd(key: Bytes)
      reads this
    {
      var b := CallHash(hdr, hash(key));
      b < |chains| && chains[b] != [] && LastFits(hdr.bsize, Rows(pages, chains[b]), |key|)
    }

    /** Adds a key that is not stored: on the last page of its chain, or on a new overflow
        page, and then the table is expanded. */
    method InsertItem(bucket: nat, key: Bytes, val: Bytes, pnum: Pgno, chksum: nat) returns (ghost e: Entry)
      requires Valid() && key !in keys && KeySizeOk(hdr.bsize, key) && hdr.ovflPoint + 2 < NCACHED
      requires bucket == CallHash(hdr, hash(key)) && bucket < |chains| && |chains[bucket]| >= 1
      requires pnum == chains[bucket][|chains[bucket]| - 1]
      requires |val| <= MAX_DATASIZE && chksum == Crc(0, val)
      modifies this
      ensures KeyReady() && NoHeld(roles) && keys.Keys == data.Keys == old(data).Keys + {key} && hdr.nkeys + 1 == |keys|
      ensures key in data && data == old(data)[key := data[key]] && Flat(data[key].parts) == val
      ensures hdr.bsize == old(hdr).bsize && hdr.numMoved == 0
      ensures bucket < |Table(old(pages), old(chains))| && Table(old(pages), old(chains))[bucket] != []
      ensures SplitBucketOf(old(hdr)) < |old(chains)|
      ensures hdr.maxBucket == old(hdr).maxBucket + (if old(RoomAtEnd(key)) then 0 else 1)
      ensures e.key == key && Table(pages, chains) == InsertTable(old(hdr), hash, Table(old(pages), old(chains)), bucket, e)
    {
      hide BaseInv, DataState, LevelsOk, DataInv, LinksOk, InPool, KeyState, CurrOk, GetCreate, InitPage, Flat, Crc, PairFits,
        NoHeld, CallHash, SameHeld, LayoutOk, Table, EntryOn, WithEntry, Rows, KeyReady, DataReady, SplitTable, LastFits, RowFits, Grow, SplitBucketOf, KeySizeOk, Ents, RoomAtEnd;
      LastRow(bucket, pnum, key);
      SplitInTable();
      var pagep := GetCreate(pages, hdr.bsize, pnum, TKey);
      if PairFits(pagep, |key|) {
        e := AddItemOnPage(bucket, |chains[bucket]| - 1, pnum, key, val, chksum);
        StillNoHeld(old(pages), old(roles));
      } else {
        e := InsertOnOverflow(bucket, key, val, pnum, chksum);
      }
      assert keys.Keys == old(keys).Keys + {key};
      CountNew(old(keys), key);
    }

    /** Chains a new overflow page with the pair, then expands the table even though the
        bucket may not be the one that is split. */
    method InsertOnOverflow(bucket: nat, key: Bytes, val: Bytes, pnum: Pgno, chksum: nat) returns (ghost e: Entry)
      requires KeyReady() && NoHeld(roles) && key !in keys && key !in data && KeySizeOk(hdr.bsize, key) && hdr.ovflPoint + 2 < NCACHED
      requires bucket == CallHash(hdr, hash(key)) && bucket < |chains| && |chains[bucket]| >= 1
      requires pnum == chains[bucket][|chains[bucket]| - 1] && Ents(pages, pnum) != []
      requires |val| <= MAX_DATASIZE && chksum == Crc(0, val)
      modifies `hdr, `currDpage, `pages, `roles, `fchain, `data, `keys, `chains
      ensures KeyReady() && NoHeld(roles) && keys.Keys == old(keys).Keys + {key}
      ensures key in data && data == old(data)[key := data[key]] && Flat(data[key].parts) == val
      ensures hdr.bsize == old(hdr).bsize && hdr.nkeys == old(hdr).nkeys && hdr.maxBucket == old(hdr).maxBucket + 1 && hdr.numMoved == old(hdr).numMoved
      ensures SplitBucketOf(old(hdr)) < |old(chains)| && e.key == key
      ensures Table(pages, chains) == SplitTable(Grow(old(hdr)), hash,
        Table(old(pages), old(chains))[bucket := Rows(old(pages), old(chains)[bucket]) + [[e]]], SplitBucketOf(old(hdr)))
    {
      hide BaseInv, DataState, LevelsOk, DataInv, LinksOk, InPool, KeyState, CurrOk, Flat, Crc, Pairs, Grow, NoHeld, CallHash, SameHeld, KeySizeOk,
        Table, EntryBehind, Rows, SplitTable;
      var n;
      n, e := AddOvflPage(bucket, pnum, key, val, chksum);
      StillNoHeld(old(pages), old(roles));
      GrowFields(hdr);
      assert keys.Keys == old(keys).Keys + {key};
      ghost var hdr1, t := hdr, Table(pages, chains);
      ExpandTable();
      SplitSame(old(hdr), hdr1, t);
    }

    lemma SplitSame(h: Header, h': Header, t: seq<seq<Row>>)
      requires HdrStep(h, h') && SplitBucketOf(h') < |t|
      ensures SplitBucketOf(h) == SplitBucketOf(h')
      ensures SplitTable(Grow(h'), hash, t, SplitBucketOf(h')) == SplitTable(Grow(h), hash, t, SplitBucketOf(h))
    {
      hide PutBack;
      var b := SplitBucketOf(h);
      PutBackSame(Grow(h), Grow(h'), hash, t[b := [[]]] + [[[]]], Joined(t[b]));
    }

    /** The last page of a chain has room when its row has. */
    lemma LastRow(bucket: nat, pnum: Pgno, key: Bytes)
      requires KeyReady() && KeySizeOk(hdr.bsize, key) && bucket < |chains| && |chains[bucket]| >= 1 && pnum == chains[bucket][|chains[bucket]| - 1]
      ensures GetCreate(pages, hdr.bsize, pnum, TKey).KeyPage?
      ensures PairFits(GetCreate(pages, hdr.bsize, pnum, TKey), |key|) <==> LastFits(hdr.bsize, Table(pages, chains)[bucket], |key|)
      ensures !LastFits(hdr.bsize, Table(pages, chains)[bucket], |key|) ==> Ents(pages, pnum) != []
      ensures Table(pages, chains)[bucket] == Rows(pages, chains[bucket])
      ensures bucket == CallHash(hdr, hash(key)) ==> (RoomAtEnd(key) <==> LastFits(hdr.bsize, Table(pages, chains)[bucket], |key|))
    {
      hide BaseInv, DataInv, LinksOk, KeyState, CurrOk, PairFits, LayoutOk, RowFits;
      var i := |chains[bucket]| - 1;
      PageFacts(bucket, i);
      RowFitsPage(hdr.bsize, GetCreate(pages, hdr.bsize, pnum, TKey), |key|);
      EmptyRowFits(hdr.bsize, key);
    }

    lemma SplitInTable()
      requires KeyReady()
      ensures SplitBucketOf(hdr) < |chains|
    {
      hide DataInv, LinksOk, CurrOk, KeyInv, FreeInv;
      SplitBucketRange(hdr);
    }

    lemma CountNew(keys0: KeyMap, key: Bytes)
      requires key !in keys0 && keys.Keys == keys0.Keys + {key}
      ensures |keys| == |keys0| + 1
    {
    }

    lemma GrowFields(h: Header)
      ensures Grow(h).bsize == h.bsize && Grow(h).maxBucket == h.maxBucket + 1 && Grow(h).nkeys == h.nkeys && Grow(h).numMoved == h.numMoved
    {
    }

    lemma StillNoHeld(pages0: PageMap, roles0: Roles)
      requires SameHeld(pages0, roles0) && NoHeld(roles0)
      ensures NoHeld(roles)
    {
    }

    /** Adds a key that is not stored and counts it. */
    method InsertKey(bucket: nat, key: Bytes, val: Bytes, pnum: Pgno, chksum: nat)
      requires Valid() && key !in keys && KeySizeOk(hdr.bsize, key) && hdr.ovflPoint + 2 < NCACHED
      requires bucket == CallHash(hdr, hash(key)) && bucket < |chains| && |chains[bucket]| >= 1
      requires pnum == chains[bucket][|chains[bucket]| - 1]
      requires |val| <= MAX_DATASIZE && chksum == Crc(0, val)
      modifies this
      ensures Valid() && Map() == old(Map())[key := val] && hdr.bsize == old(hdr).bsize
      ensures hdr.maxBucket == old(hdr).maxBucket + (if old(RoomAtEnd(key)) then 0 else 1)
    {
      hide KeyReady, RoomAtEnd, Table, InsertTable, Flat, NoHeld, CallHash, KeySizeOk, Crc, ContentsOf, SplitBucketOf;
      ghost var e := InsertItem(bucket, key, val, pnum, chksum);
      CountKey();
      ContentsInsert(old(data), data, key);
    }

    /** Stores a value for a key. The table grows by one bucket exactly when a new key finds no
        room on the last page of its chain. */
    method Put(key: Bytes, val: Bytes, flag: Flag) returns (r: PutResult)
      requires Valid() && PutAllowed(Map(), hdr.bsize, writable, key, val, flag) && hdr.ovflPoint + 2 < NCACHED
      modifies this
      ensures Valid() && Map() == AfterPut(old(Map()), key, val, r)
      ensures r == PutOutcome(old(Map()), old(hdr).bsize, writable, key, val, flag)
      ensures !r.Stored? ==> pages == old(pages) && hdr == old(hdr)
      ensures hdr.bsize == old(hdr).bsize
      ensures var grows := r.Stored? && key !in old(Map()) && !old(RoomAtEnd(key));
        hdr.maxBucket == old(hdr).maxBucket + (if grows then 1 else 0)
    {
      hide BaseInv, DataState, LevelsOk, DataInv, LinksOk, InPool, KeyState, CurrOk, Flat, Crc, NoHeld, CallHash, ContentsOf, PutAllowed, BucketOf,
        KeyReady, DataReady, RoomAtEnd;
      if |val| > MAX_DATASIZE {
        return DataTooBig;
      }
      if |key| > MaxKeySize(hdr.bsize) {
        return KeyTooBig;
      }
      if flag.OtherFlag? {
        return BadFlag;
      }
      if !writable {
        return NotWritable;
      }
      AllowedPut(Map(), hdr.bsize, key, val, flag);
      var bucket := CallHash(hdr, hash(key));
      var chksum := Crc(0, val);
      var found, pnum, idx := FindItem(bucket, key);
      if !found {
        InsertKey(bucket, key, val, pnum, chksum);
        r := Stored;
      } else if flag.NoOverwrite? {
        r := KeyExists;
      } else {
        ContentsAt(data, key);
        var ok := ReplaceItemOnPage(key, val, pnum, idx, chksum);
        r := if ok then Stored else LongerThanStored;
      }
    }

    /** Reads the value of a key. */
    method Get(key: Bytes, bufsize: nat) returns (r: GetResult)
      requires Valid()
      ensures r == GetOutcome(Map(), key, bufsize)
    {
      hide BaseInv, LevelsOk, DataInv, LinksOk, InPool, KeyState, CurrOk, Flat, Crc, NoHeld, CallHash, BucketOf;
      var bucket := CallHash(hdr, hash(key));
      var found, pnum, idx := FindItem(bucket, key);
      if !found {
        return NotFound;
      }
      KeyFacts(key);
      r := GetData(key, Loc(pnum, idx), pages[pnum].ents[idx].datap, bufsize);
    }

    /** One operation. */
    method Step(op: Op) returns (r: Reply)
      requires Valid() && OpAllowed(Map(), hdr.bsize, writable, op) && hdr.maxBucket < Pow2(NCACHED - 3)
      modifies this
      ensures Valid() && Map() == OpAfter(old(Map()), old(hdr).bsize, writable, op)
      ensures r == OpReply(old(Map()), old(hdr).bsize, writable, op)
      ensures hdr.bsize == old(hdr).bsize && hdr.maxBucket <= old(hdr).maxBucket + 1
    {
      hide BaseInv, LevelsOk, DataInv, LinksOk, InPool, KeyState, CurrOk, Flat, NoHeld, PutAllowed, PutOutcome, GetOutcome, Map, Pow2;
      match op
      case Put(k, v, f) =>
        LevelRoom(hdr, currDpage, pages, roles, fchain);
        var p := Put(k, v, f);
        r := PutReply(p);
      case Get(k, n) =>
        var g := Get(k, n);
        r := GetReply(g);
    }

    /** Every run of puts and gets answers as the map does, and the header counts the keys. */
    method Run(ops: seq<Op>) returns (replies: seq<Reply>)
      requires Valid() && RunAllowed(Map(), hdr.bsize, writable, ops)
      requires hdr.maxBucket + |ops| < Pow2(NCACHED - 3)
      modifies this
      ensures Valid() && Map() == RunAfter(old(Map()), old(hdr).bsize, writable, ops)
      ensures Answers(old(Map()), old(hdr).bsize, writable, ops, replies)
      ensures forall i :: 0 <= i < |ops| ==> ReplyMeans(old(Map()), old(hdr).bsize, writable, ops, replies, i)
      ensures hdr.nkeys == |Map()| && hdr.bsize == old(hdr).bsize && hdr.maxBucket <= old(hdr).maxBucket + |ops|
    {
      hide Valid, OpReply, OpAfter, OpAllowed, Map, Pow2, RunAfter, ReplyMeans;
      replies := [];
      var i := 0;
      if ops != [] {
        RunStep(Map(), hdr.bsize, writable, ops, 0);
      } else {
        RunNone(Map(), hdr.bsize, writable);
      }
      assert ops[..0] == [];
      while i < |ops|
        invariant 0 <= i <= |ops| && Valid()
        invariant Map() == RunAfter(old(Map()), old(hdr).bsize, writable, ops[..i])
        invariant hdr.bsize == old(hdr).bsize && hdr.maxBucket <= old(hdr).maxBucket + i
        invariant |replies| == i
        invariant forall j :: 0 <= j < i ==>
          replies[j] == OpReply(RunAfter(old(Map()), old(hdr).bsize, writable, ops[..j]), old(hdr).bsize, writable, ops[j])
      {
        RunStep(old(Map()), hdr.bsize, writable, ops, i);
        assert OpAllowed(RunAfter(old(Map()), hdr.bsize, writable, ops[..i]), hdr.bsize, writable, ops[i]);
        var r := Step(ops[i]);
        replies := replies + [r];
        i := i + 1;
      }
      assert ops[..|ops|] == ops;
      RepliesMean(old(Map()), hdr.bsize, writable, ops, replies);
      CountIsSize();
    }

    lemma CountIsSize()
      requires Valid()
      ensures hdr.nkeys == |Map()|
    {
      hide Flat, KeyReady;
      assert Map().Keys == data.Keys;
      assert |Map()| == |Map().Keys| && |keys| == |keys.Keys|;
    }

    /** A table of fewer than 2^29 buckets has room for another level. */
    lemma LevelRoom(h: Header, curr: Pgno, pages: PageMap, roles: Roles, fchain: seq<seq<Pgno>>)
      requires BaseInv(h, curr, pages, roles, fchain) && h.maxBucket < Pow2(NCACHED - 3)
      ensures h.ovflPoint + 2 < NCACHED
    {
    }

    // -------------------------------------------------------------- close and open

    /** Moving pages on close does no harm: there is no room to move them to, or the level has a
        data page and what the free lists remember is harmless. */
    predicate MayMove()
      reads this
    {
      hdr.maxBucket < hdr.highMask ==> hdr.ovflPoint + 1 < |hdr.spares| && currDpage != INVALID_PGNO && HarmlessHeads(hdr, pages)
    }

    /** The file of the closed store: pages moved to the front, the rest cut off. */
    ghost predicate ClosedFile(h: Header, pages0: PageMap, moves: bool, fh: Header, fp: PageMap) {
      if moves
      then h.ovflPoint + 1 < |h.spares| && R.Count(R.CloseMove(h)) >= 1
           && fh == h.(numMoved := R.Count(R.CloseMove(h)))
           && fp == R.CutRange(R.CloseMove(h), R.MovedAll(R.CloseMove(h), pages0))
      else fh == h && fp == pages0
    }

    /** Writes the store to its file, with pages at its end moved into unused bucket pages, whatever
        the free lists remember. */
    method CloseFile(rearrange: bool) returns (f: R.PageFile)
      requires Valid() && (rearrange && hdr.maxBucket < hdr.highMask ==> currDpage != INVALID_PGNO)
      ensures fresh(f) && ClosedFile(hdr, pages, rearrange && hdr.maxBucket < hdr.highMask, f.hdr, f.pages)
      ensures 1 <= hdr.ovflPoint && hdr.ovflPoint + 1 < |hdr.spares|
      ensures rearrange && hdr.maxBucket < hdr.highMask ==>
        R.MovesAllItCan(hdr, f.hdr.numMoved) && ShortFile(hdr, pages, f.hdr.numMoved, f.pages)
    {
      hide Settled, BaseInv, DataInv, LinksOk, KeyState, CurrOk, NoHeld, R.Graph, R.MoveOk, R.IsRenamed, R.CloseMove, LevelsOk,
        R.CutRange, R.FileUpTo, R.MovedAll, R.Movable, H.Dirty, H.Harmless, Freshened, FirstPrevs, H.DirtOk, ShortFile, R.MovesAllItCan;
      ghost var s := Snapshot();
      BaseBounds(hdr, currDpage, pages, roles, fchain);
      assert Settled(s, hash) by { SettledNow(); }
      R.LevelBounds(hdr);
      f := new R.PageFile(hdr, pages);
      if rearrange {
        if hdr.maxBucket < hdr.highMask {
          SettledDirt(s, hash);
          ClosedIsShort(s, hash);
          H.CloseExact(R.CloseMove(hdr), Freshened(hdr, pages), FirstPrevs(hdr, pages));
          R.CloseMoveOk(hdr);
        }
        f.RearrangeOnClose();
        ghost var closed := f.pages;
        f.ReduceFilesize();
        if hdr.maxBucket < hdr.highMask {
          forall p | p in closed
            ensures p <= R.CloseMove(hdr).oldLast
          {
            MovedBelow(s, hash, p);
          }
          CutIsCut(R.CloseMove(hdr), closed);
        }
      }
    }

    /** Opens the file of a closed store: pages go back where they were, with the links that closing
        has spoiled. */
    method OpenFile(f: R.PageFile, rearrange: bool, ghost s: State, ghost moves: bool)
      requires Settled(s, hash) && s.hdr.numMoved == 0
      requires moves ==> s.hdr.maxBucket < s.hdr.highMask && s.hdr.ovflPoint + 1 < |s.hdr.spares| && s.curr != INVALID_PGNO
                         && EndInReach(s.hdr, s.pages)
      requires ClosedFile(s.hdr, s.pages, moves, f.hdr, f.pages)
      modifies f
      ensures f.hdr == s.hdr
      ensures f.pages == if moves then Reopened(s.hdr, s.pages) else s.pages
    {
      hide Settled, R.Graph, R.MoveOk, R.IsRenamed, R.CloseMove, R.OpenMove, LevelsOk, R.CutRange, R.MovedAll, R.Movable,
        H.Dirty, Freshened, FirstPrevs, H.DirtOk, Reopened, EndInReach;
      SettledLevels(s);
      if moves {
        SettledDirt(s, hash);
        R.CloseMoveOk(s.hdr);
        R.OpenUndoesClose(s.hdr);
        SameLevels(s.hdr, f.hdr);
        ReadyToOpen(s, hash);
      }
      if rearrange || f.hdr.numMoved > 0 {
        f.RearrangeOnOpen();
      }
    }

    /** Closes the store and opens its file again. Pages at the end of the file may be moved
        into unused bucket pages on close; they are moved back on open. */
    method CloseAndReopen(rearrangeOnClose: bool, rearrangeOnOpen: bool)
      requires Valid() && (rearrangeOnClose ==> MayMove())
      modifies this
      ensures Valid() && Map() == old(Map()) && hdr == old(hdr)
      ensures forall p :: p in pages ==> p in old(pages) && pages[p] == old(pages)[p]
      ensures forall p :: p in old(pages) && !old(pages)[p].DeletedPage? ==> p in pages
    {
      hide Settled, BaseInv, DataInv, LinksOk, KeyState, CurrOk, NoHeld, ContentsOf, ClosedFile, LevelsOk, HarmlessHeads, R.CloseMove, R.Survivors,
        Reopened, EndInReach, ShortFile, R.MovesAllItCan;
      ghost var s := Snapshot();
      BaseBounds(hdr, currDpage, pages, roles, fchain);
      assert Settled(s, hash) by { SettledNow(); }
      if rearrangeOnClose && hdr.maxBucket < hdr.highMask {
        HarmlessReopens(s, hash);
      }
      var f := CloseFile(rearrangeOnClose);
      OpenFile(f, rearrangeOnOpen, s, rearrangeOnClose && hdr.maxBucket < hdr.highMask);
      SurvivorsAre(R.CloseMove(s.hdr), s.pages);
      var curr := INVALID_PGNO;
      if f.hdr.spares[f.hdr.ovflPoint + 1] > 0 {
        SettledLast(s, hash);
        LastThere(s, hash, f.pages);
        curr := f.LastDataPage(f.hdr.spares[f.hdr.ovflPoint + 1] - 1);
      }
      DropKeeps(s, hash, f.pages, curr);
      hdr, pages, currDpage := f.hdr, f.pages, curr;
      SettledThen(s.(pages := pages, curr := currDpage));
    }

    /** A history of runs and of closing and opening the file, up to the first close that would
        move pages although that does harm: the replies are those of one run of the map over all
        operations before it, and nothing is lost in between. */
    method History(cmds: seq<Command>) returns (replies: seq<Reply>, n: nat)
      requires Valid() && RunAllowed(Map(), hdr.bsize, writable, AllOps(cmds))
      requires hdr.maxBucket + |AllOps(cmds)| < Pow2(NCACHED - 3)
      modifies this
      ensures n <= |cmds| && (n < |cmds| ==> cmds[n].Reopen? && cmds[n].rearrangeOnClose && !MayMove())
      ensures Valid() && Map() == RunAfter(old(Map()), old(hdr).bsize, writable, AllOps(cmds[..n]))
      ensures Answers(old(Map()), old(hdr).bsize, writable, AllOps(cmds[..n]), replies)
      ensures forall i :: 0 <= i < |replies| ==> ReplyMeans(old(Map()), old(hdr).bsize, writable, AllOps(cmds[..n]), replies, i)
      ensures hdr.nkeys == |Map()|
    {
      hide Valid, Map, Pow2, RunAfter, RunAllowed, OpReply, MayMove, AllOps, Answers, ReplyMeans;
      ghost var m0, all := Map(), AllOps(cmds);
      n, replies := 0, [];
      RunNone(m0, hdr.bsize, writable);
      NoAnswers(m0, hdr.bsize);
      assert AllOps(cmds[..0]) == [] by { AllOpsNone(cmds); }
      while n < |cmds| && !(cmds[n].Reopen? && cmds[n].rearrangeOnClose && !MayMove())
        invariant 0 <= n <= |cmds| && Valid() && hdr.bsize == old(hdr).bsize
        invariant Map() == RunAfter(m0, hdr.bsize, writable, AllOps(cmds[..n]))
        invariant Answers(m0, hdr.bsize, writable, AllOps(cmds[..n]), replies)
        invariant hdr.maxBucket <= old(hdr).maxBucket + |AllOps(cmds[..n])|
        decreases |cmds| - n
      {
        ghost var done := AllOps(cmds[..n]);
        AllOpsStep(cmds, n);
        AllOpsPrefix(cmds, n + 1);
        match cmds[n] {
        case Work(ops) =>
          AllowedPart(m0, hdr.bsize, writable, all, done, ops);
          RunAppend(m0, hdr.bsize, writable, done, ops);
          ghost var m1 := Map();
          var more := Run(ops);
          AnswersAppend(m0, hdr.bsize, writable, done, ops, replies, more);
          replies := replies + more;
        case Reopen(onClose, onOpen) =>
          assert done + [] == done;
          CloseAndReopen(onClose, onOpen);
        }
        n := n + 1;
      }
      RepliesMean(m0, hdr.bsize, writable, AllOps(cmds[..n]), replies);
      assert |AllOps(cmds[..n])| == |replies| by { AnswersSize(m0, hdr.bsize, AllOps(cmds[..n]), replies); }
      CountIsSize();
    }

    lemma AnswersSize(m: Contents, bsize: nat, ops: seq<Op>, replies: seq<Reply>)
      requires Answers(m, bsize, writable, ops, replies)
      ensures |ops| == |replies|
    {
    }

    lemma NoAnswers(m: Contents, bsize: nat)
      ensures Answers(m, bsize, writable, [], [])
    {
    }

    lemma AllOpsNone(cmds: seq<Command>)
      ensures AllOps(cmds[..0]) == []
    {
    }

    lemma SettledLevels(s: State)
      requires Settled(s, hash)
      ensures LevelsOk(s.hdr) && s.hdr.ovflPoint + 1 < |s.hdr.spares|
    {
    }

    /** The invariant of the object is that of its value. */
    lemma ValidIsResting()
      ensures Valid() <==> Resting(Snapshot(), hash)
    {
    }

    lemma SettledNow()
      requires Valid()
      ensures Settled(Snapshot(), hash)
    {
    }

    lemma SettledThen(s: State)
      requires Settled(s, hash) && s == Snapshot() && hdr.nkeys == |keys| && hdr.numMoved == 0 && (currDpage != INVALID_PGNO ==> data != map[])
      ensures Valid()
    {
    }

    lemma SameLevels(h: Header, h': Header)
      requires LevelsOk(h) && h' == h.(numMoved := h'.numMoved)
      ensures LevelsOk(h') && h'.ovflPoint + 1 < |h'.spares|
    {
    }

    lemma SurvivorsAre(m: R.Move, pages0: PageMap)
      ensures forall p :: p in R.Survivors(m, pages0) ==> p in pages0 && R.Survivors(m, pages0)[p] == pages0[p]
      ensures forall p :: p in pages0 && !pages0[p].DeletedPage? ==> p in R.Survivors(m, pages0)
    {
    }

    lemma LastThere(s: State, hash: Bytes -> nat, pages1: PageMap)
      requires Settled(s, hash) && exists p :: R.LastData(s.pages, p)
      requires forall p :: p in s.pages && !s.pages[p].DeletedPage? ==> p in pages1 && pages1[p] == s.pages[p]
      ensures s.hdr.ovflPoint + 1 < |s.hdr.spares|
      ensures s.hdr.spares[s.hdr.ovflPoint + 1] > 0 ==>
        exists p :: 0 <= p <= s.hdr.spares[s.hdr.ovflPoint + 1] - 1 && R.LastData(pages1, p)
    {
      hide Settled;
      var p :| R.LastData(s.pages, p);
      PageRole(s, hash, p);
      assert R.LastData(pages1, p);
    }
  }
}
