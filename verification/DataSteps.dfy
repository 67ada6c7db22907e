/** The steps of adding a datum, on the allocation and data layers together. */
module DataSteps {
  import opened Pages
  import opened Levels
  import opened Lengths
  import opened StoreInv
  import opened BaseLemmas
  import opened DataLemmas

  /** The allocation layer, the data pages and their links. */
  ghost predicate DataState(h: Header, curr: Pgno, pages: PageMap, roles: Roles, fchain: seq<seq<Pgno>>,
                            data: DataMap)
  {
    BaseInv(h, curr, pages, roles, fchain) && DataInv(h.bsize, pages, roles, data) && LinksOk(pages, roles)
  }

  predicate IsKeyOrHeld(r: Role) {
    r.Chain? || r.Held?
  }

  /** Chain pages and held pages keep role and content, and no page joins them. */
  ghost predicate KeepKeys(pages: PageMap, roles: Roles, pages': PageMap, roles': Roles) {
    && (forall p :: p in roles && IsKeyOrHeld(roles[p]) ==>
          p in roles' && roles'[p] == roles[p] && SamePage(pages, pages', p))
    && (forall p :: p in roles' && IsKeyOrHeld(roles'[p]) ==> p in roles && roles[p] == roles'[p])
  }

  lemma KeepKeysTrans(pages: PageMap, roles: Roles, pages1: PageMap, roles1: Roles, pages2: PageMap, roles2: Roles)
    requires KeepKeys(pages, roles, pages1, roles1) && KeepKeys(pages1, roles1, pages2, roles2)
    ensures KeepKeys(pages, roles, pages2, roles2)
  {
  }

  lemma KeepKeysRefl(pages: PageMap, roles: Roles)
    ensures KeepKeys(pages, roles, pages, roles)
  {
  }

  /** The back pointers of the data keep their value. */
  ghost predicate SameBack(pages: PageMap, pages': PageMap, data: DataMap) {
    forall k :: k in data ==> BackHeader(pages', data[k]) == BackHeader(pages, data[k])
  }

  // ---------------------------------------------------------------- taking a page

  /** Taking a page changes no data page. */
  lemma TakeKeepsData(bsize: nat, pages: PageMap, roles: Roles, data: DataMap, pages': PageMap, roles': Roles, num: Pgno)
    requires DataInv(bsize, pages, roles, data) && LinksOk(pages, roles)
    requires Taken(roles, roles', num) && KeptPages(pages, pages', roles)
    ensures DataInv(bsize, pages', roles', data) && LinksOk(pages', roles')
    ensures SameBack(pages, pages', data)
  {
    hide DatumOk, GeomOk;
    DataFrame(bsize, pages, roles, data, pages', roles');
    LinksFrame(pages, roles, pages', roles');
    SameDataBack(bsize, pages, roles, data, pages', roles');
  }

  lemma SameDataBack(bsize: nat, pages: PageMap, roles: Roles, data: DataMap, pages': PageMap, roles': Roles)
    requires DataInv(bsize, pages, roles, data)
    requires SameData(pages, roles, pages', roles')
    ensures SameBack(pages, pages', data)
  {
    hide GeomOk, PartOk, Flat;
    forall k | k in data
      ensures BackHeader(pages', data[k]) == BackHeader(pages, data[k])
    {
      assert DatumOk(bsize, pages, roles, k, data[k]);
      PartPage(bsize, pages, roles, k, data[k], 0);
      var p := data[k].span[0];
      assert p in pages && p in pages' && pages'[p] == pages[p];
    }
  }

  // ---------------------------------------------------------------- a new data page

  /** An initialised data page is well formed. */
  lemma InitGeom(bsize: nat, p: Pgno, pg: Page)
    requires BsizeOk(bsize)
    requires pg.DataPage? && pg == InitPage(bsize, p, TData).(prev := pg.prev, next := pg.next)
    ensures GeomOk(bsize, pg, NoTail, [])
  {
  }

  /** The reserved page comes into use as the first page of a data list. */
  lemma OpenReserved(h: Header, curr: Pgno, pages: PageMap, roles: Roles, fchain: seq<seq<Pgno>>, data: DataMap)
    requires DataState(h, curr, pages, roles, fchain, data)
    requires curr !in roles && InPool(h, curr)
    ensures var pages', roles' := pages[curr := InitPage(h.bsize, curr, TData)], roles[curr := Data(NoTail, [])];
      && DataState(h, curr, pages', roles', fchain, data)
      && KeepKeys(pages, roles, pages', roles') && SameBack(pages, pages', data)
  {
    hide DatumOk, GeomOk, InPool, LevelsOk, BucketPage, FreeInv;
    var pages', roles' := pages[curr := InitPage(h.bsize, curr, TData)], roles[curr := Data(NoTail, [])];
    InitGeom(h.bsize, curr, InitPage(h.bsize, curr, TData));
    BaseBounds(h, curr, pages, roles, fchain);
    BaseFrame(h, curr, pages, roles, fchain, pages', roles');
    DataFrame(h.bsize, pages, roles, data, pages', roles');
    SameDataBack(h.bsize, pages, roles, data, pages', roles');
    OpenLinks(pages, roles, curr, pages', roles');
  }

  /** A page without links joins. */
  lemma OpenLinks(pages: PageMap, roles: Roles, n: Pgno, pages': PageMap, roles': Roles)
    requires LinksOk(pages, roles) && n !in roles
    requires n in pages' && pages' == pages[n := pages'[n]]
    requires pages'[n].prev == INVALID_PGNO && pages'[n].next == INVALID_PGNO
    requires roles' == roles[n := Data(NoTail, [])]
    ensures LinksOk(pages', roles')
  {
  }

  /** A held page becomes the page after `last`. */
  lemma AppendPage(h: Header, curr: Pgno, pages: PageMap, roles: Roles, fchain: seq<seq<Pgno>>, data: DataMap,
                   last: Pgno, n: Pgno, pg: Page, tail: Tail)
    requires DataState(h, curr, pages, roles, fchain, data)
    requires n in roles && roles[n].Held?
    requires last in roles && roles[last].Data? && last in pages && pages[last].next == INVALID_PGNO
    requires pg.DataPage? && pg.curr == n && pg.prev == last && pg.next == INVALID_PGNO
    requires GeomOk(h.bsize, pg, tail, [])
    ensures var pages', roles' := pages[last := SetNext(pages[last], n)][n := pg], roles[n := Data(tail, [])];
      && DataState(h, curr, pages', roles', fchain, data)
      && SameBack(pages, pages', data)
      && AllGrown(h.bsize, pages, roles, pages', roles')
  {
    hide DatumOk, InPool, LevelsOk, BucketPage, FreeInv, GeomOk, Grown;
    var pages', roles' := pages[last := SetNext(pages[last], n)][n := pg], roles[n := Data(tail, [])];
    if INVALID_PGNO in roles {
      PageNumbersPositive(h, curr, pages, roles, fchain, INVALID_PGNO);
    }
    BaseBounds(h, curr, pages, roles, fchain);
    BaseFrame(h, curr, pages, roles, fchain, pages', roles');
    LinksAppend(pages, roles, last, n, pages', roles');
    AppendGrown(h.bsize, pages, roles, data, last, n, pg, tail);
    AllDataGrown(h.bsize, pages, roles, pages', roles', data);
    AppendPages(h.bsize, pages, roles, data, last, n, pg, tail);
  }

  lemma AppendGrown(bsize: nat, pages: PageMap, roles: Roles, data: DataMap, last: Pgno, n: Pgno, pg: Page, tail: Tail)
    requires DataInv(bsize, pages, roles, data)
    requires n in roles && roles[n].Held?
    requires last in roles && roles[last].Data? && last in pages && pages[last].next == INVALID_PGNO
    ensures AllGrown(bsize, pages, roles, pages[last := SetNext(pages[last], n)][n := pg], roles[n := Data(tail, [])])
  {
  }

  lemma NextGrown(bsize: nat, pg: Page, tail: Tail, slots: seq<Slot>, n: Pgno)
    requires GeomOk(bsize, pg, tail, slots)
    ensures GeomOk(bsize, SetNext(pg, n), tail, slots)
    ensures pg.next == INVALID_PGNO ==> Grown(bsize, pg, tail, slots, SetNext(pg, n), tail, slots)
  {
  }

  lemma AppendPages(bsize: nat, pages: PageMap, roles: Roles, data: DataMap, last: Pgno, n: Pgno, pg: Page, tail: Tail)
    requires DataInv(bsize, pages, roles, data)
    requires n in roles && roles[n].Held?
    requires last in roles && roles[last].Data? && last in pages
    requires pg.curr == n && GeomOk(bsize, pg, tail, [])
    ensures var pages', roles' := pages[last := SetNext(pages[last], n)][n := pg], roles[n := Data(tail, [])];
      && (forall p :: p in roles' && roles'[p].Data? ==> DataPageOk(bsize, pages', roles', p))
      && SlotsOk(roles', data)
  {
    hide DatumOk, GeomOk;
    var pages', roles' := pages[last := SetNext(pages[last], n)][n := pg], roles[n := Data(tail, [])];
    forall p | p in roles' && roles'[p].Data?
      ensures DataPageOk(bsize, pages', roles', p)
    {
      if p != n {
        assert DataPageOk(bsize, pages, roles, p);
        NextGrown(bsize, pages[p], roles[p].tail, roles[p].slots, n);
      }
    }
  }

  // ---------------------------------------------------------------- a new datum

  /** A datum is added: its first page gains a slot, the other data pages stay. */
  lemma AddDatum(bsize: nat, pages: PageMap, roles: Roles, data: DataMap, pages': PageMap, roles': Roles,
                 k: Bytes, d: Datum)
    requires DataInv(bsize, pages, roles, data) && INVALID_PGNO !in roles && k !in data
    requires AllGrown(bsize, pages, roles, pages', roles')
    requires |d.span| >= 1 && d.span[0] in roles && roles[d.span[0]].Data?
    requires forall p :: p in roles' && roles'[p].Data? && p != d.span[0] ==>
      && p in roles && roles[p] == roles'[p] && p in pages && p in pages' && pages[p] == pages'[p]
    requires d.span[0] in roles' && roles'[d.span[0]].Data? && DataPageOk(bsize, pages', roles', d.span[0])
    requires d.slot == |roles[d.span[0]].slots| && |roles'[d.span[0]].slots| == d.slot + 1
    requires roles'[d.span[0]].slots[d.slot].key == k && roles'[d.span[0]].slots[..d.slot] == roles[d.span[0]].slots
    requires DatumOk(bsize, pages', roles', k, d)
    ensures DataInv(bsize, pages', roles', data[k := d])
    ensures SameBack(pages, pages', data)
  {
    hide DatumOk, GeomOk, Grown;
    AllDataGrown(bsize, pages, roles, pages', roles', data);
    forall p | p in roles' && roles'[p].Data?
      ensures DataPageOk(bsize, pages', roles', p)
    {
      if p != d.span[0] {
        assert DataPageOk(bsize, pages, roles, p);
      }
    }
    forall p, i | p in roles' && roles'[p].Data? && 0 <= i < |roles'[p].slots|
      ensures var x := roles'[p].slots[i].key;
        x in data[k := d] && |data[k := d][x].span| >= 1 && data[k := d][x].span[0] == p && data[k := d][x].slot == i
    {
      if p == d.span[0] && i == d.slot {
      } else {
        assert roles'[p].slots[i] == roles[p].slots[i];
      }
    }
  }

  // ---------------------------------------------------------------- parts on later pages

  /** The parts after the first are in place. */
  ghost predicate LaterParts(bsize: nat, pages: PageMap, roles: Roles, k: Bytes, d: Datum) {
    && 1 <= |d.span| == |d.parts|
    && forall j :: 1 <= j < |d.span| ==> PartOk(bsize, pages, roles, k, d, j)
  }

  lemma LaterPartsFrame(bsize: nat, pages: PageMap, roles: Roles, pages': PageMap, roles': Roles, k: Bytes, d: Datum)
    requires LaterParts(bsize, pages, roles, k, d) && SameData(pages, roles, pages', roles')
    ensures LaterParts(bsize, pages', roles', k, d)
  {
    hide PartOk;
    forall j | 1 <= j < |d.span|
      ensures PartOk(bsize, pages', roles', k, d, j)
    {
      assert PartOk(bsize, pages, roles, k, d, j);
      PartFrame(bsize, pages, roles, pages', roles', k, d, j);
    }
  }

  lemma LaterPartsGrown(bsize: nat, pages: PageMap, roles: Roles, data: DataMap, pages': PageMap, roles': Roles,
                        k: Bytes, d: Datum)
    requires LaterParts(bsize, pages, roles, k, d) && DataInv(bsize, pages, roles, data)
    requires AllGrown(bsize, pages, roles, pages', roles') && INVALID_PGNO !in roles
    ensures LaterParts(bsize, pages', roles', k, d)
  {
    hide PartOk, DatumOk, GeomOk, Grown;
    forall j | 1 <= j < |d.span|
      ensures PartOk(bsize, pages', roles', k, d, j)
    {
      assert PartOk(bsize, pages, roles, k, d, j);
      PartPage(bsize, pages, roles, k, d, j);
      assert DataPageOk(bsize, pages, roles, d.span[j]);
      if j + 1 < |d.span| {
        assert PartOk(bsize, pages, roles, k, d, j + 1);
        PartPage(bsize, pages, roles, k, d, j + 1);
      }
      PartGrown(bsize, pages, roles, pages', roles', k, d, j);
    }
  }

  /** The datum with one more part. */
  function Longer(d: Datum, n: Pgno, chunk: Bytes): Datum {
    d.(span := d.span + [n], parts := d.parts + [chunk])
  }

  /** One more part, on the page that was just appended. */
  lemma LaterPartsAdd(bsize: nat, pages: PageMap, roles: Roles, k: Bytes, d: Datum, n: Pgno, chunk: Bytes)
    requires LaterParts(bsize, pages, roles, k, d)
    requires var last := d.span[|d.span| - 1];
      && last in pages && pages[last].next == n
      && Start(d, |d.span| - 1) + |d.parts[|d.span| - 1]| == bsize
    requires n in roles && roles[n] == Data(Tail(k, |d.span|, BIG_PAGE_OVERHEAD + |chunk|), [])
    requires n in pages && pages[n].DataPage? && |pages[n].mem| == bsize && BIG_PAGE_OVERHEAD + |chunk| <= bsize
    requires pages[n].mem[BIG_PAGE_OVERHEAD..BIG_PAGE_OVERHEAD + |chunk|] == chunk
    ensures LaterParts(bsize, pages, roles, k, Longer(d, n, chunk))
  {
    var d' := Longer(d, n, chunk);
    forall j | 1 <= j < |d'.span|
      ensures PartOk(bsize, pages, roles, k, d', j)
    {
      if j < |d.span| {
        assert PartOk(bsize, pages, roles, k, d, j);
        PartLink(bsize, pages, roles, k, d, d', j);
      }
    }
  }

  /** A part keeps its place when the datum gets longer. */
  lemma PartLink(bsize: nat, pages: PageMap, roles: Roles, k: Bytes, d: Datum, d': Datum, j: nat)
    requires j < |d.span| == |d.parts| && j < |d'.span| == |d'.parts|
    requires PartOk(bsize, pages, roles, k, d, j)
    requires d'.off == d.off && d'.slot == d.slot && d'.span[j] == d.span[j] && d'.parts[j] == d.parts[j]
    requires j + 1 < |d'.span| ==>
      if j + 1 < |d.span| then d'.span[j + 1] == d.span[j + 1]
      else Start(d, j) + |d.parts[j]| == bsize && pages[d.span[j]].next == d'.span[j + 1]
    ensures PartOk(bsize, pages, roles, k, d', j)
  {
  }

  lemma FlatAppend(parts: seq<Bytes>, chunk: Bytes)
    ensures Flat(parts + [chunk]) == Flat(parts) + chunk
  {
  }

  /** A continuation page: `rest` bytes of the datum remain, those that fit start at offset
      32. The page has room for another datum only if its header would fit behind them. */
  function ContinuationPage(bsize: nat, n: Pgno, prev: Pgno, rest: Bytes): (r: Page)
    requires BsizeOk(bsize)
  {
    var copy := if |rest| <= bsize - BIG_PAGE_OVERHEAD then |rest| else bsize - BIG_PAGE_OVERHEAD;
    var free := if |rest| <= bsize - BIG_PAGE_OVERHEAD - BIG_DATA_OVERHEAD
      then AlignUp(BIG_PAGE_OVERHEAD + |rest|) else 0;
    var pg := SetPrev(InitPage(bsize, n, TData), prev);
    PutBytes(pg, BIG_PAGE_OVERHEAD, rest[..copy]).(free := free, first := free)
  }

  lemma ContinuationOk(bsize: nat, n: Pgno, prev: Pgno, rest: Bytes, k: Bytes, j: nat)
    requires BsizeOk(bsize)
    ensures var pg := ContinuationPage(bsize, n, prev, rest);
      var copy := if |rest| <= bsize - BIG_PAGE_OVERHEAD then |rest| else bsize - BIG_PAGE_OVERHEAD;
      && pg.DataPage? && pg.curr == n && pg.prev == prev && pg.next == INVALID_PGNO && |pg.mem| == bsize
      && pg.mem[BIG_PAGE_OVERHEAD..BIG_PAGE_OVERHEAD + copy] == rest[..copy]
      && GeomOk(bsize, pg, Tail(k, j, BIG_PAGE_OVERHEAD + copy), [])
  {
  }

  // ---------------------------------------------------------------- finishing a datum

  /** The first page gets the header and the first part: the datum is complete. */
  lemma FinishDatum(h: Header, curr: Pgno, pages: PageMap, roles: Roles, fchain: seq<seq<Pgno>>, data: DataMap,
                    k: Bytes, d: Datum, hd: DataHeader)
    requires DataState(h, curr, pages, roles, fchain, data) && k !in data
    requires LaterParts(h.bsize, pages, roles, k, d)
    requires var p := d.span[0];
      && p in roles && roles[p].Data? && p in pages && pages[p].DataPage? && pages[p].free != 0
      && d.off == pages[p].free && d.slot == |roles[p].slots|
      && d.off + BIG_DATA_OVERHEAD + |d.parts[0]| <= h.bsize
      && (|d.span| > 1 ==>
            && d.off + BIG_DATA_OVERHEAD + |d.parts[0]| == h.bsize && pages[p].next == d.span[1]
            && |d.parts[|d.parts| - 1]| > 0)
      && (hd.next == 0 || hd.next == NextFree(h.bsize, d.off, |d.parts[0]|))
    requires RealLen(hd.len, hd.status) == |Flat(d.parts)| <= MAX_DATASIZE && LowBits(hd.status) == DATA_VALID
    ensures var p := d.span[0];
      && |pages[p].mem| == h.bsize
      && var pages' := pages[p := PlaceDatum(pages[p], hd, d.parts[0])];
      var roles' := roles[p := Data(roles[p].tail, roles[p].slots
                                    + [Slot(k, d.off, d.off + BIG_DATA_OVERHEAD + |d.parts[0]|)])];
      && DataState(h, curr, pages', roles', fchain, data[k := d])
      && SameBack(pages, pages', data)
      && BackHeader(pages', d) == Loc(hd.keyPage, hd.keyIdx)
      && pages'[p].next == pages[p].next
  {
    hide DatumOk, GeomOk, Grown, PartOk, InPool, LevelsOk, BucketPage, FreeInv, Flat, PlaceDatum;
    var p := d.span[0];
    assert DataPageOk(h.bsize, pages, roles, p);
    GeomMem(h.bsize, pages[p], roles[p].tail, roles[p].slots);
    var pages' := pages[p := PlaceDatum(pages[p], hd, d.parts[0])];
    var s := Slot(k, d.off, d.off + BIG_DATA_OVERHEAD + |d.parts[0]|);
    var roles' := roles[p := Data(roles[p].tail, roles[p].slots + [s])];
    if INVALID_PGNO in roles {
      PageNumbersPositive(h, curr, pages, roles, fchain, INVALID_PGNO);
    }
    BaseBounds(h, curr, pages, roles, fchain);
    BaseFrame(h, curr, pages, roles, fchain, pages', roles');
    PlaceSlot(h.bsize, pages[p], roles[p].tail, roles[p].slots, hd, d.parts[0], k);
    PlaceFields(pages[p], hd, d.parts[0]);
    LinksFrame(pages, roles, pages', roles');
    OneGrown(h.bsize, pages, roles, data, p, pages'[p], roles'[p]);
    LaterPartsGrown(h.bsize, pages, roles, data, pages', roles', k, d);
    FirstPart(h.bsize, pages, roles, k, d, hd);
    NewHeader(pages[p], hd, d.parts[0]);
    assert DatumOk(h.bsize, pages', roles', k, d) by {
      CompleteDatum(h.bsize, pages', roles', k, d, hd);
    }
    AddDatum(h.bsize, pages, roles, data, pages', roles', k, d);
  }

  lemma GeomMem(bsize: nat, pg: Page, tail: Tail, slots: seq<Slot>)
    requires GeomOk(bsize, pg, tail, slots)
    ensures pg.DataPage? && |pg.mem| == bsize
    ensures pg.free != 0 ==> BIG_PAGE_OVERHEAD <= pg.free && pg.free + BIG_DATA_OVERHEAD <= bsize
  {
  }

  lemma OneGrown(bsize: nat, pages: PageMap, roles: Roles, data: DataMap, p: Pgno, pg: Page, r: Role)
    requires DataInv(bsize, pages, roles, data)
    requires p in roles && roles[p].Data? && p in pages && r.Data?
    requires Grown(bsize, pages[p], roles[p].tail, roles[p].slots, pg, r.tail, r.slots)
    ensures AllGrown(bsize, pages, roles, pages[p := pg], roles[p := r])
  {
  }

  lemma FirstPart(bsize: nat, pages: PageMap, roles: Roles, k: Bytes, d: Datum, hd: DataHeader)
    requires 1 <= |d.span| == |d.parts|
    requires var p := d.span[0];
      && p in roles && roles[p].Data? && p in pages && pages[p].DataPage? && |pages[p].mem| == bsize
      && d.off == pages[p].free && d.slot == |roles[p].slots|
      && d.off + BIG_DATA_OVERHEAD + |d.parts[0]| <= bsize
      && (|d.span| > 1 ==> d.off + BIG_DATA_OVERHEAD + |d.parts[0]| == bsize && pages[p].next == d.span[1])
    ensures var p := d.span[0];
      PartOk(bsize, pages[p := PlaceDatum(pages[p], hd, d.parts[0])],
             roles[p := Data(roles[p].tail, roles[p].slots
                             + [Slot(k, d.off, d.off + BIG_DATA_OVERHEAD + |d.parts[0]|)])], k, d, 0)
  {
  }

  lemma CompleteDatum(bsize: nat, pages: PageMap, roles: Roles, k: Bytes, d: Datum, hd: DataHeader)
    requires LaterParts(bsize, pages, roles, k, d) && PartOk(bsize, pages, roles, k, d, 0)
    requires d.off + BIG_DATA_OVERHEAD <= bsize
    requires |d.span| > 1 ==> |d.parts[|d.parts| - 1]| > 0
    requires var p := d.span[0]; p in pages && pages[p].DataPage? && d.off in pages[p].hd && pages[p].hd[d.off] == hd
    requires RealLen(hd.len, hd.status) == |Flat(d.parts)| <= MAX_DATASIZE && LowBits(hd.status) == DATA_VALID
    ensures DatumOk(bsize, pages, roles, k, d)
  {
  }

  // ---------------------------------------------------------------- keeping the key layer

  /** A taken page that becomes a data page leaves the key layer alone. */
  lemma TakeKeeps(pages: PageMap, roles: Roles, pages': PageMap, roles': Roles, num: Pgno, r: Role)
    requires Taken(roles, roles', num) && KeptPages(pages, pages', roles)
    requires r.Data?
    ensures KeepKeys(pages, roles, pages', roles'[num := r])
  {
  }

  /** Changing data pages leaves the key layer alone. */
  lemma DataKeeps(pages: PageMap, roles: Roles, pages': PageMap, roles': Roles)
    requires forall p :: (p in roles && !roles[p].Data?) || (p in roles' && !roles'[p].Data?) ==>
      p in roles && p in roles' && roles[p] == roles'[p] && SamePage(pages, pages', p)
    ensures KeepKeys(pages, roles, pages', roles')
  {
  }

  lemma BaseCurr(h: Header, curr: Pgno, curr': Pgno, pages: PageMap, roles: Roles, fchain: seq<seq<Pgno>>)
    requires BaseInv(h, curr, pages, roles, fchain) && curr != INVALID_PGNO && curr' != INVALID_PGNO
    ensures BaseInv(h, curr', pages, roles, fchain)
  {
  }

  lemma HdrStepRefl(h: Header)
    requires h.ovflPoint + 1 < |h.spares|
    ensures HdrStep(h, h)
  {
  }

  lemma HdrStepTrans(h: Header, h1: Header, h2: Header)
    requires HdrStep(h, h1) && HdrStep(h1, h2)
    ensures HdrStep(h, h2)
  {
  }

  lemma DataPageContent(h: Header, curr: Pgno, pages: PageMap, roles: Roles, fchain: seq<seq<Pgno>>, data: DataMap, p: Pgno)
    requires DataState(h, curr, pages, roles, fchain, data)
    requires p in roles && roles[p].Data?
    ensures p in pages && pages[p].DataPage? && |pages[p].mem| == h.bsize && p > 0
    ensures pages[p].free != 0 ==> BIG_PAGE_OVERHEAD <= pages[p].free && pages[p].free + BIG_DATA_OVERHEAD <= h.bsize
    ensures pages[p].free % 4 == 0
  {
  }

  lemma FlatOne(val: Bytes)
    ensures Flat([val]) == val
  {
  }

  /** A huge datum never fits on one page. */
  lemma LongNotOnOnePage(bsize: nat, len: nat, fspace: nat)
    requires BsizeOk(bsize) && fspace <= bsize
    requires IsHuge(len) || BIG_DATA_OVERHEAD + len > fspace
    ensures BIG_DATA_OVERHEAD + len > fspace
  {
  }

  // ---------------------------------------------------------------- where a new datum lies

  /** A datum starts at the free space of the current data page if it has any, or else in front
      of a page that was free or new. */
  ghost predicate StartsAt(curr0: Pgno, pages0: PageMap, roles0: Roles, p: Pgno, off: nat) {
    if curr0 != INVALID_PGNO && curr0 in pages0 && pages0[curr0].DataPage? && pages0[curr0].free != 0
    then p == curr0 && off == pages0[curr0].free
    else off == 32 && (p in roles0 ==> IsFree(roles0[p]))
  }

  /** The free space after a datum on one page: the next multiple of four, if more than a header
      fits behind it. */
  predicate FreeAfterOne(bsize: nat, free: nat, end: nat) {
    free == if (end + 3) / 4 * 4 + 20 < bsize then (end + 3) / 4 * 4 else 0
  }

  /** The free space after the last n bytes of a datum on several pages. */
  predicate FreeAfterLast(bsize: nat, free: nat, n: nat) {
    free == if 32 + n + 20 <= bsize then (32 + n + 3) / 4 * 4 else 0
  }

  /** The last page of the datum is the current one; no page of it is left with room unused. */
  ghost predicate PackedAs(bsize: nat, curr: Pgno, pages: PageMap, d: Datum, len: nat) {
    && 1 <= |d.span| == |d.parts| && curr == d.span[|d.span| - 1]
    && (|d.span| == 1 <==> d.off + 20 + len <= bsize)
    && curr in pages && pages[curr].DataPage? && d.span[0] in pages && pages[d.span[0]].DataPage?
    && (if |d.span| == 1 then FreeAfterOne(bsize, pages[curr].free, d.off + 20 + len)
        else pages[d.span[0]].free == 0 && d.off + 20 + |d.parts[0]| == bsize
             && FreeAfterLast(bsize, pages[curr].free, |d.parts[|d.parts| - 1]|))
    && forall j :: 1 <= j < |d.parts| - 1 ==> |d.parts[j]| == bsize - 32
  }

  lemma MiddleParts(bsize: nat, pages: PageMap, roles: Roles, k: Bytes, d: Datum)
    requires LaterParts(bsize, pages, roles, k, d)
    ensures forall j :: 1 <= j < |d.parts| - 1 ==> |d.parts[j]| == bsize - 32
  {
    forall j | 1 <= j < |d.parts| - 1
      ensures |d.parts[j]| == bsize - 32
    {
      assert PartOk(bsize, pages, roles, k, d, j);
    }
  }

  lemma NextFreeIs(bsize: nat, start: nat, n: nat)
    ensures FreeAfterOne(bsize, NextFree(bsize, start, n), start + 20 + n)
  {
    AlignIs(start + 20 + n);
  }

  lemma ContinuationFree(bsize: nat, n: Pgno, prev: Pgno, rest: Bytes)
    requires BsizeOk(bsize)
    ensures var pg := ContinuationPage(bsize, n, prev, rest);
      pg.DataPage? && FreeAfterLast(bsize, pg.free, |rest|)
  {
    AlignIs(32 + |rest|);
  }

  lemma AlignIs(n: nat)
    ensures AlignUp(n) == (n + 3) / 4 * 4
  {
  }

  lemma FirstOnly(bsize: nat, pages: PageMap, roles: Roles, k: Bytes, d: Datum)
    requires |d.span| == |d.parts| == 1
    ensures LaterParts(bsize, pages, roles, k, d)
    ensures Flat(d.parts) == d.parts[0]
  {
  }

  lemma TakeSameData(pages: PageMap, roles: Roles, pages': PageMap, roles': Roles, num: Pgno)
    requires Taken(roles, roles', num) && KeptPages(pages, pages', roles)
    ensures SameData(pages, roles, pages', roles')
  {
  }
}
