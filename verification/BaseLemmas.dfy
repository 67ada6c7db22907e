/** How the page-allocation layer moves under header updates and role changes. */
module BaseLemmas {
  import opened Bits
  import opened Pages
  import opened Levels
  import opened StoreInv
  import opened Alloc

  /** The header fields an allocation may change. */
  ghost predicate HdrStep(h: Header, h': Header) {
    && h' == h.(spares := h'.spares, freePages := h'.freePages)
    && |h'.spares| == |h.spares|
    && h.ovflPoint + 1 < |h.spares|
    && (forall l :: 0 <= l <= h.ovflPoint ==> h'.spares[l] == h.spares[l])
  }

  /** Bucket pages do not move when the allocator runs. */
  lemma HdrStepBuckets(h: Header, h': Header, b: nat)
    requires LevelsOk(h) && HdrStep(h, h') && b <= h.highMask
    ensures BucketPage(h', b) == BucketPage(h, b)
  {
    if b >= 1 {
      var l := BucketLevel(h, b);
    } else {
      assert Log2(0 + 1) == 0;
    }
  }

  /** Only pages of a free list differ. */
  ghost predicate KeptPages(pages: PageMap, pages': PageMap, roles: Roles) {
    && pages'.Keys == pages.Keys
    && forall p :: p in pages && !(p in roles && roles[p].FreeMap?) ==> pages'[p] == pages[p]
  }

  /** The page was free and is taken, or was never used. */
  ghost predicate Taken(roles: Roles, roles': Roles, num: Pgno) {
    roles' == roles[num := Held] && (num in roles ==> IsFree(roles[num]))
  }

  lemma PageNumbersPositive(h: Header, curr: Pgno, pages: PageMap, roles: Roles, fchain: seq<seq<Pgno>>, p: Pgno)
    requires BaseInv(h, curr, pages, roles, fchain)
    requires p in roles
    ensures 1 <= h.hdrPages <= p < Top(h)
  {
    if roles[p].Chain? && roles[p].i == 0 {
      BucketPageRange(h, roles[p].b);
    }
  }

  /** A page in use is no header page, and unless it is the base page of its own bucket it is
      no bucket page of any level reached, used or not. */
  lemma PagesApart(h: Header, curr: Pgno, pages: PageMap, roles: Roles, fchain: seq<seq<Pgno>>, p: Pgno, b: nat)
    requires BaseInv(h, curr, pages, roles, fchain) && p in roles && b <= h.highMask
    ensures h.hdrPages <= p < Top(h)
    ensures p == BucketPage(h, b) <==> roles[p] == Chain(b, 0)
  {
    hide InPool, BucketPage, FreeInv;
    PageNumbersPositive(h, curr, pages, roles, fchain, p);
    if roles[p].Chain? && roles[p].i == 0 {
      if p == BucketPage(h, b) {
        BucketPageInjective(h, roles[p].b, b);
      }
    } else {
      PoolIsNotBucket(h, b, p);
    }
  }

  /** No page in use is at or above Top, so the next page number is new. */
  lemma TopIsNew(h: Header, curr: Pgno, pages: PageMap, roles: Roles, fchain: seq<seq<Pgno>>, p: Pgno)
    requires BaseInv(h, curr, pages, roles, fchain)
    requires p >= Top(h)
    ensures p !in roles && p !in pages
  {
    if p in roles {
      PageNumbersPositive(h, curr, pages, roles, fchain, p);
    }
  }

  /** Raising Top keeps every page in its place. */
  lemma AllocRaise(h: Header, roles: Roles, top: nat)
    requires LevelsOk(h) && AllocOk(h, roles)
    requires RegionEnd(h) < top && Top(h) <= top
    ensures LevelsOk(SetTop(h, top)) && AllocOk(SetTop(h, top), roles)
  {
    SetTopKeeps(h, top);
    var h' := SetTop(h, top);
    forall p | p in roles
      ensures if roles[p].Chain? && roles[p].i == 0
              then roles[p].b <= h'.maxBucket && p == BucketPage(h', roles[p].b)
              else InPool(h', p)
    {
    }
  }

  /** A page takes or leaves a role; the pages of the free lists do not change. */
  lemma BaseFrame(h: Header, curr: Pgno, pages: PageMap, roles: Roles, fchain: seq<seq<Pgno>>,
                  pages': PageMap, roles': Roles)
    requires BaseInv(h, curr, pages, roles, fchain)
    requires AllocOk(h, roles') && DomOk(pages', roles')
    requires SameFreeRoles(roles, roles')
    requires SameFreePages(pages, pages', roles)
    ensures BaseInv(h, curr, pages', roles', fchain)
  {
    FreeInvFrame(h.freePages, fchain, pages, roles, pages', roles');
  }

  /** Array bounds the allocator relies on. */
  lemma BaseBounds(h: Header, curr: Pgno, pages: PageMap, roles: Roles, fchain: seq<seq<Pgno>>)
    requires BaseInv(h, curr, pages, roles, fchain)
    ensures 1 <= h.ovflPoint && h.ovflPoint + 1 < NCACHED
    ensures |h.spares| == |h.freePages| == |fchain| == NCACHED
    ensures curr == INVALID_PGNO <==> h.spares[h.ovflPoint + 1] == 0
    ensures LevelsOk(h) && BsizeOk(h.bsize)
  {
  }

  /** The first free-list page of a level has content. */
  lemma FreeHead(h: Header, curr: Pgno, pages: PageMap, roles: Roles, fchain: seq<seq<Pgno>>, lv: nat)
    requires BaseInv(h, curr, pages, roles, fchain)
    requires lv < |h.freePages| && h.freePages[lv] != INVALID_PGNO
    ensures lv < |fchain| && fchain[lv] != [] && fchain[lv][0] == h.freePages[lv]
    ensures h.freePages[lv] in pages && pages[h.freePages[lv]].FreePage?
    ensures h.freePages[lv] in roles && roles[h.freePages[lv]] == FreeMap(lv)
  {
  }

  /** A level without a head has no free-list pages. */
  lemma FreeNone(h: Header, curr: Pgno, pages: PageMap, roles: Roles, fchain: seq<seq<Pgno>>, lv: nat)
    requires BaseInv(h, curr, pages, roles, fchain)
    requires lv < |h.freePages| && h.freePages[lv] == INVALID_PGNO
    ensures lv < |fchain| && fchain[lv] == []
  {
    if fchain[lv] != [] {
      FreeChainAt(h, curr, pages, roles, fchain, lv, 0);
    }
  }

  lemma AllocHold(h: Header, roles: Roles, num: Pgno)
    requires LevelsOk(h) && AllocOk(h, roles)
    requires num in roles && IsFree(roles[num])
    ensures AllocOk(h, roles[num := Held]) && InPool(h, num)
  {
  }

  /** Taking the last entry of the first free-list page. */
  lemma BasePopEntry(h: Header, curr: Pgno, pages: PageMap, roles: Roles, fchain: seq<seq<Pgno>>, lv: nat)
    requires BaseInv(h, curr, pages, roles, fchain)
    requires lv < |h.freePages| && h.freePages[lv] != INVALID_PGNO
    requires h.freePages[lv] in pages && pages[h.freePages[lv]].FreePage? && pages[h.freePages[lv]].frees != []
    ensures var m := h.freePages[lv]; var n := |pages[m].frees|; var num := pages[m].frees[n - 1];
      && num in roles && IsFree(roles[num]) && num > 0
      && BaseInv(h, curr, pages[m := pages[m].(frees := pages[m].frees[..n - 1])], roles[num := Held], fchain)
      && KeptPages(pages, pages[m := pages[m].(frees := pages[m].frees[..n - 1])], roles)
  {
    hide FreeChains, FreeEntries, InPool, LevelsOk, BsizeOk;
    BaseBounds(h, curr, pages, roles, fchain);
    FreeHead(h, curr, pages, roles, fchain, lv);
    PopEntry(h.freePages, fchain, pages, roles, lv);
    var num := pages[h.freePages[lv]].frees[|pages[h.freePages[lv]].frees| - 1];
    PageNumbersPositive(h, curr, pages, roles, fchain, num);
    AllocHold(h, roles, num);
  }

  /** Taking the first free-list page itself. */
  lemma BasePopMap(h: Header, curr: Pgno, pages: PageMap, roles: Roles, fchain: seq<seq<Pgno>>, lv: nat)
    requires BaseInv(h, curr, pages, roles, fchain)
    requires lv < |h.freePages| && h.freePages[lv] != INVALID_PGNO
    requires h.freePages[lv] in pages && pages[h.freePages[lv]].FreePage? && pages[h.freePages[lv]].frees == []
    ensures lv < |fchain| && fchain[lv] != []
    ensures var m := h.freePages[lv];
      && m in roles && IsFree(roles[m]) && m > 0
      && BaseInv(h.(freePages := h.freePages[lv := pages[m].next]), curr, pages, roles[m := Held],
                 fchain[lv := fchain[lv][1..]])
  {
    hide FreeChains, FreeEntries, InPool, LevelsOk, BsizeOk;
    BaseBounds(h, curr, pages, roles, fchain);
    FreeHead(h, curr, pages, roles, fchain, lv);
    PopMap(h.freePages, fchain, pages, roles, lv);
    var m := h.freePages[lv];
    PageNumbersPositive(h, curr, pages, roles, fchain, m);
    AllocHold(h, roles, m);
    HeadsDoNotMatter(h, h.(freePages := h.freePages[lv := pages[m].next]), roles[m := Held]);
  }

  /** Levels and pool read only the masks and the counters. */
  lemma HeadsDoNotMatter(h: Header, h': Header, roles: Roles)
    requires LevelsOk(h) && BsizeOk(h.bsize) && AllocOk(h, roles)
    requires h' == h.(freePages := h'.freePages)
    ensures LevelsOk(h') && BsizeOk(h'.bsize) && AllocOk(h', roles)
  {
  }

  /** Pages of the pool stay in it. */
  ghost predicate PoolGrows(h: Header, h': Header)
    requires 1 <= h.ovflPoint && h.ovflPoint + 1 < |h.spares|
    requires 1 <= h'.ovflPoint && h'.ovflPoint + 1 < |h'.spares|
  {
    forall p :: InPool(h, p) ==> InPool(h', p)
  }

  /** The current data page is not the page that was taken. */
  lemma CurrAfterTake(h: Header, h': Header, curr: Pgno, pages: PageMap, roles: Roles,
                      pages': PageMap, roles': Roles, num: Pgno)
    requires CurrOk(h, curr, pages, roles)
    requires Taken(roles, roles', num) && KeptPages(pages, pages', roles)
    requires 1 <= h'.ovflPoint && h'.ovflPoint + 1 < |h'.spares|
    requires PoolGrows(h, h') && (InPool(h, num) ==> num in roles)
    ensures CurrOk(h', curr, pages', roles')
  {
  }

  lemma SamePool(h: Header, h': Header)
    requires 1 <= h.ovflPoint && h.ovflPoint + 1 < |h.spares|
    requires h' == h.(freePages := h'.freePages)
    ensures PoolGrows(h, h')
  {
  }

  /** A held page is in the pool. */
  lemma AllocAdd(h: Header, roles: Roles, num: Pgno)
    requires 1 <= h.ovflPoint && h.ovflPoint + 1 < |h.spares|
    requires AllocOk(h, roles) && InPool(h, num) && num !in roles
    ensures AllocOk(h, roles[num := Held])
  {
  }

  /** Raising the counter to `top` frees the number below it for use. */
  lemma RaiseFacts(h: Header, roles: Roles, top: nat)
    requires LevelsOk(h) && AllocOk(h, roles)
    requires RegionEnd(h) < top + 1 && Top(h) == top
    ensures LevelsOk(SetTop(h, top + 1)) && AllocOk(SetTop(h, top + 1), roles)
    ensures HdrStep(h, SetTop(h, top + 1)) && InPool(SetTop(h, top + 1), top)
    ensures PoolGrows(h, SetTop(h, top + 1))
    ensures top > 0
  {
    hide AllocOk;
    AllocRaise(h, roles, top + 1);
    SetTopKeeps(h, top + 1);
  }

  /** Handing out the next page number. */
  lemma BaseNewPage(h: Header, curr: Pgno, pages: PageMap, roles: Roles, fchain: seq<seq<Pgno>>)
    requires BaseInv(h, curr, pages, roles, fchain) && curr != INVALID_PGNO
    ensures h.ovflPoint + 1 < |h.spares|
    ensures var num := h.spares[h.ovflPoint + 1];
      && num !in roles && num !in pages && num > 0
      && BaseInv(SetTop(h, num + 1), curr, pages, roles[num := Held], fchain)
      && HdrStep(h, SetTop(h, num + 1)) && InPool(SetTop(h, num + 1), num)
      && PoolGrows(h, SetTop(h, num + 1)) && num == Top(h)
  {
    hide FreeInv, AllocOk, InPool, HdrStep;
    var num := h.spares[h.ovflPoint + 1];
    TopIsNew(h, curr, pages, roles, fchain, num);
    RaiseFacts(h, roles, num);
    AllocAdd(SetTop(h, num + 1), roles, num);
    FreeInvFrame(h.freePages, fchain, pages, roles, pages, roles[num := Held]);
  }

  /** Starting the counter of a level. */
  lemma BaseStartLevel(h: Header, pages: PageMap, roles: Roles, fchain: seq<seq<Pgno>>)
    requires BaseInv(h, INVALID_PGNO, pages, roles, fchain)
    ensures 1 <= h.ovflPoint && h.ovflPoint + 1 < |h.spares|
    ensures BucketPage(h, h.highMask) + 1 == RegionEnd(h)
    ensures var curr := RegionEnd(h);
      && curr !in roles
      && BaseInv(SetTop(h, curr + 1), curr, pages, roles, fchain)
      && HdrStep(h, SetTop(h, curr + 1)) && InPool(SetTop(h, curr + 1), curr)
  {
    hide FreeInv, AllocOk, InPool, HdrStep;
    HighMaskPage(h);
    TopIsNew(h, INVALID_PGNO, pages, roles, fchain, RegionEnd(h));
    RaiseFacts(h, roles, RegionEnd(h));
  }

  lemma AllocRelease(h: Header, roles: Roles, p: Pgno, r: Role)
    requires 1 <= h.ovflPoint && h.ovflPoint + 1 < |h.spares|
    requires AllocOk(h, roles) && p in roles && roles[p].Held? && IsFree(r)
    ensures AllocOk(h, roles[p := r])
  {
  }

  /** Writing a held page number into a list page, and then deleting that page. */
  lemma BasePushEntry(h: Header, curr: Pgno, pages: PageMap, roles: Roles, fchain: seq<seq<Pgno>>, m: Pgno, p: Pgno,
                      pg: Page)
    requires BaseInv(h, curr, pages, roles, fchain)
    requires m in roles && roles[m].FreeMap? && m in pages && pages[m].FreePage?
    requires p in roles && roles[p].Held? && pg == DeletedPage(p, INVALID_PGNO, INVALID_PGNO)
    ensures BaseInv(h, curr, pages[m := pages[m].(frees := pages[m].frees + [p])][p := pg],
                    roles[p := Listed(m, |pages[m].frees|)], fchain)
  {
    hide FreeInv, AllocOk;
    PushEntry(h.freePages, fchain, pages, roles, m, p, pg);
    AllocRelease(h, roles, p, Listed(m, |pages[m].frees|));
  }

  /** Making a held page the first list page of a level. */
  lemma BasePushFirst(h: Header, curr: Pgno, pages: PageMap, roles: Roles, fchain: seq<seq<Pgno>>, lv: nat, p: Pgno)
    requires BaseInv(h, curr, pages, roles, fchain)
    requires lv < |h.freePages| && h.freePages[lv] == INVALID_PGNO
    requires p in roles && roles[p].Held?
    ensures lv < |fchain|
    ensures BaseInv(h.(freePages := h.freePages[lv := p]), curr, pages[p := InitPage(h.bsize, p, TFree)],
                    roles[p := FreeMap(lv)], fchain[lv := [p]])
  {
    hide FreeChains, FreeEntries, AllocOk, LevelsOk, BsizeOk;
    BaseBounds(h, curr, pages, roles, fchain);
    if INVALID_PGNO in roles {
      PageNumbersPositive(h, curr, pages, roles, fchain, INVALID_PGNO);
    }
    PushFirstMap(h.freePages, fchain, pages, roles, lv, p);
    AllocRelease(h, roles, p, FreeMap(lv));
    HeadsDoNotMatter(h, h.(freePages := h.freePages[lv := p]), roles[p := FreeMap(lv)]);
  }

  /** Chaining a held page after the last list page of a level. */
  lemma BasePushLast(h: Header, curr: Pgno, pages: PageMap, roles: Roles, fchain: seq<seq<Pgno>>, lv: nat, p: Pgno)
    requires BaseInv(h, curr, pages, roles, fchain)
    requires lv < |fchain| && fchain[lv] != []
    requires p in roles && roles[p].Held?
    ensures var m := fchain[lv][|fchain[lv]| - 1];
      && m in pages && m in roles && roles[m] == FreeMap(lv)
      && BaseInv(h, curr, pages[m := SetNext(pages[m], p)][p := FreePage(p, m, INVALID_PGNO, [])],
                 roles[p := FreeMap(lv)], fchain[lv := fchain[lv] + [p]])
  {
    hide FreeChains, FreeEntries, AllocOk, LevelsOk, BsizeOk;
    BaseBounds(h, curr, pages, roles, fchain);
    PageNumbersPositive(h, curr, pages, roles, fchain, p);
    PushLastMap(h.freePages, fchain, pages, roles, lv, p);
    AllocRelease(h, roles, p, FreeMap(lv));
  }

  /** Page i of the free-list chain of a level. */
  lemma FreeChainAt(h: Header, curr: Pgno, pages: PageMap, roles: Roles, fchain: seq<seq<Pgno>>, lv: nat, i: nat)
    requires BaseInv(h, curr, pages, roles, fchain)
    requires lv < |fchain| && i < |fchain[lv]|
    ensures var m := fchain[lv][i];
      && m in pages && pages[m].FreePage? && m in roles && roles[m] == FreeMap(lv)
      && pages[m].next == Follows(fchain[lv], i) && m > 0 && Frees(pages, m) == pages[m].frees
  {
  }
}
