/** The data-page layer: adding, rewriting and re-pointing data keeps every other datum. */
module DataLemmas {
  import opened Pages
  import opened StoreInv

  // ---------------------------------------------------------------- unchanged data pages

  /** Data pages keep role and content. */
  ghost predicate SameData(pages: PageMap, roles: Roles, pages': PageMap, roles': Roles) {
    forall p :: p in roles && roles[p].Data? && p in pages ==>
      p in roles' && roles'[p] == roles[p] && p in pages' && pages'[p] == pages[p]
  }

  /** A page that becomes a data page is well formed and no datum starts on it. */
  ghost predicate NewDataOk(bsize: nat, roles: Roles, pages': PageMap, roles': Roles) {
    forall p :: p in roles' && roles'[p].Data? && !(p in roles && roles[p].Data?) ==>
      DataPageOk(bsize, pages', roles', p) && roles'[p].slots == []
  }

  lemma PartFrame(bsize: nat, pages: PageMap, roles: Roles, pages': PageMap, roles': Roles,
                  k: Bytes, d: Datum, j: nat)
    requires j < |d.span| == |d.parts|
    requires PartOk(bsize, pages, roles, k, d, j)
    requires SameData(pages, roles, pages', roles')
    ensures PartOk(bsize, pages', roles', k, d, j)
  {
  }

  lemma HeaderFrame(pages: PageMap, roles: Roles, pages': PageMap, roles': Roles, d: Datum)
    requires |d.span| >= 1 && HeaderOk(pages, d)
    requires d.span[0] in roles && roles[d.span[0]].Data?
    requires SameData(pages, roles, pages', roles')
    ensures HeaderOk(pages', d)
  {
    var p := d.span[0];
    assert p in pages && p in pages' && pages'[p] == pages[p];
  }

  lemma DatumFrame(bsize: nat, pages: PageMap, roles: Roles, pages': PageMap, roles': Roles, k: Bytes, d: Datum)
    requires DatumOk(bsize, pages, roles, k, d)
    requires SameData(pages, roles, pages', roles')
    ensures DatumOk(bsize, pages', roles', k, d)
  {
    hide PartOk, Flat;
    PartPage(bsize, pages, roles, k, d, 0);
    HeaderFrame(pages, roles, pages', roles', d);
    forall j | 0 <= j < |d.span|
      ensures PartOk(bsize, pages', roles', k, d, j)
    {
      assert PartOk(bsize, pages, roles, k, d, j);
      PartFrame(bsize, pages, roles, pages', roles', k, d, j);
    }
  }

  lemma PartPage(bsize: nat, pages: PageMap, roles: Roles, k: Bytes, d: Datum, j: nat)
    requires j < |d.span| == |d.parts|
    requires PartOk(bsize, pages, roles, k, d, j)
    ensures d.span[j] in roles && roles[d.span[j]].Data? && d.span[j] in pages && pages[d.span[j]].DataPage?
  {
  }

  lemma DataFrame(bsize: nat, pages: PageMap, roles: Roles, data: DataMap, pages': PageMap, roles': Roles)
    requires DataInv(bsize, pages, roles, data)
    requires SameData(pages, roles, pages', roles')
    requires NewDataOk(bsize, roles, pages', roles')
    ensures DataInv(bsize, pages', roles', data)
  {
    hide DatumOk, GeomOk;
    forall k | k in data
      ensures DatumOk(bsize, pages', roles', k, data[k])
    {
      DatumFrame(bsize, pages, roles, pages', roles', k, data[k]);
    }
    forall p | p in roles' && roles'[p].Data?
      ensures DataPageOk(bsize, pages', roles', p)
    {
      if p in roles && roles[p].Data? {
        assert DataPageOk(bsize, pages, roles, p);
      }
    }
  }

  // ---------------------------------------------------------------- links

  ghost predicate SameLinks(pages: PageMap, roles: Roles, pages': PageMap, roles': Roles) {
    && (forall p :: (p in roles && roles[p].Data? && p in pages) <==> (p in roles' && roles'[p].Data? && p in pages'))
    && (forall p :: p in roles && roles[p].Data? && p in pages ==>
          pages'[p].prev == pages[p].prev && pages'[p].next == pages[p].next)
  }

  lemma LinksFrame(pages: PageMap, roles: Roles, pages': PageMap, roles': Roles)
    requires LinksOk(pages, roles) && SameLinks(pages, roles, pages', roles')
    ensures LinksOk(pages', roles')
  {
    assert forall p :: DataAt(pages, roles, p) <==> DataAt(pages', roles', p);
  }

  /** Appending a page after the last page of a list. */
  lemma LinksAppend(pages: PageMap, roles: Roles, last: Pgno, n: Pgno, pages': PageMap, roles': Roles)
    requires LinksOk(pages, roles) && INVALID_PGNO !in roles
    requires last in roles && roles[last].Data? && last in pages && pages[last].next == INVALID_PGNO
    requires !(n in roles && roles[n].Data?) && n != INVALID_PGNO
    requires n in roles' && roles'[n].Data? && n in pages'
    requires pages'[n].prev == last && pages'[n].next == INVALID_PGNO
    requires last in pages' && pages'[last].next == n && pages'[last].prev == pages[last].prev
    requires forall p :: p != n ==>
      ((p in roles && roles[p].Data? && p in pages) <==> (p in roles' && roles'[p].Data? && p in pages'))
    requires forall p :: p != last && p in roles && roles[p].Data? && p in pages ==>
      pages'[p].prev == pages[p].prev && pages'[p].next == pages[p].next
    ensures LinksOk(pages', roles')
  {
  }

  // ---------------------------------------------------------------- growth of one page

  /** The page keeps everything below its limit, its tail and its slots; its next link may be
      set once. */
  ghost predicate Grown(bsize: nat, pg: Page, tail: Tail, slots: seq<Slot>, pg': Page, tail': Tail, slots': seq<Slot>) {
    && pg.DataPage? && pg'.DataPage? && |pg.mem| == |pg'.mem| == bsize
    && Limit(bsize, pg) <= bsize
    && pg'.mem[..Limit(bsize, pg)] == pg.mem[..Limit(bsize, pg)]
    && tail' == tail && slots <= slots'
    && (forall i :: 0 <= i < |slots| && slots[i].off in pg.hd ==>
          slots[i].off in pg'.hd && pg'.hd[slots[i].off] == pg.hd[slots[i].off])
    && (pg'.next == pg.next || pg.next == INVALID_PGNO)
  }

  lemma SlicePrefix(a: Bytes, b: Bytes, lim: nat, s: nat, e: nat)
    requires |a| == |b| && s <= e <= lim <= |a| && a[..lim] == b[..lim]
    ensures a[s..e] == b[s..e]
  {
    assert a[s..e] == a[..lim][s..e];
    assert b[s..e] == b[..lim][s..e];
  }

  /** The bytes of a part are below the free space of their page. */
  lemma PartInLimit(bsize: nat, pages: PageMap, roles: Roles, k: Bytes, d: Datum, j: nat)
    requires j < |d.span| == |d.parts|
    requires PartOk(bsize, pages, roles, k, d, j)
    requires GeomOk(bsize, pages[d.span[j]], roles[d.span[j]].tail, roles[d.span[j]].slots)
    ensures Start(d, j) + |d.parts[j]| <= Limit(bsize, pages[d.span[j]])
  {
  }

  lemma PartGrown(bsize: nat, pages: PageMap, roles: Roles, pages': PageMap, roles': Roles,
                  k: Bytes, d: Datum, j: nat)
    requires j < |d.span| == |d.parts|
    requires PartOk(bsize, pages, roles, k, d, j)
    requires j + 1 < |d.span| ==> d.span[j + 1] != INVALID_PGNO
    requires var p := d.span[j];
      && GeomOk(bsize, pages[p], roles[p].tail, roles[p].slots)
      && p in roles' && roles'[p].Data? && p in pages'
      && Grown(bsize, pages[p], roles[p].tail, roles[p].slots, pages'[p], roles'[p].tail, roles'[p].slots)
    ensures PartOk(bsize, pages', roles', k, d, j)
  {
    hide GeomOk;
    var p := d.span[j];
    var s := Start(d, j);
    PartInLimit(bsize, pages, roles, k, d, j);
    SlicePrefix(pages[p].mem, pages'[p].mem, Limit(bsize, pages[p]), s, s + |d.parts[j]|);
  }

  /** Every data page either stays or grows. */
  ghost predicate AllGrown(bsize: nat, pages: PageMap, roles: Roles, pages': PageMap, roles': Roles) {
    forall p :: p in roles && roles[p].Data? && p in pages ==>
      && p in roles' && roles'[p].Data? && p in pages'
      && Grown(bsize, pages[p], roles[p].tail, roles[p].slots, pages'[p], roles'[p].tail, roles'[p].slots)
  }

  lemma DatumGrown(bsize: nat, pages: PageMap, roles: Roles, pages': PageMap, roles': Roles, k: Bytes, d: Datum)
    requires DatumOk(bsize, pages, roles, k, d)
    requires INVALID_PGNO !in roles
    requires forall p :: p in roles && roles[p].Data? ==> DataPageOk(bsize, pages, roles, p)
    requires AllGrown(bsize, pages, roles, pages', roles')
    ensures DatumOk(bsize, pages', roles', k, d)
  {
    hide GeomOk, Grown, PartOk, Flat;
    forall j | 0 <= j < |d.span|
      ensures PartOk(bsize, pages', roles', k, d, j)
    {
      assert PartOk(bsize, pages, roles, k, d, j);
      PartPage(bsize, pages, roles, k, d, j);
      assert DataPageOk(bsize, pages, roles, d.span[j]);
      if j + 1 < |d.span| {
        assert PartOk(bsize, pages, roles, k, d, j + 1);
        PartPage(bsize, pages, roles, k, d, j + 1);
      }
      PartGrown(bsize, pages, roles, pages', roles', k, d, j);
    }
    HeaderGrown(bsize, pages, roles, pages', roles', k, d);
  }

  lemma HeaderGrown(bsize: nat, pages: PageMap, roles: Roles, pages': PageMap, roles': Roles, k: Bytes, d: Datum)
    requires 1 <= |d.span| == |d.parts| && PartOk(bsize, pages, roles, k, d, 0) && HeaderOk(pages, d)
    requires AllGrown(bsize, pages, roles, pages', roles')
    ensures HeaderOk(pages', d)
    ensures pages'[d.span[0]].hd[d.off] == pages[d.span[0]].hd[d.off]
  {
  }

  /** All data stay readable when pages grow. */
  lemma AllDataGrown(bsize: nat, pages: PageMap, roles: Roles, pages': PageMap, roles': Roles, data: DataMap)
    requires DataInv(bsize, pages, roles, data) && INVALID_PGNO !in roles
    requires AllGrown(bsize, pages, roles, pages', roles')
    ensures forall k :: k in data ==> DatumOk(bsize, pages', roles', k, data[k])
    ensures forall k :: k in data ==> BackHeader(pages', data[k]) == BackHeader(pages, data[k])
  {
    hide DatumOk, Grown, GeomOk;
    forall k | k in data
      ensures DatumOk(bsize, pages', roles', k, data[k])
      ensures BackHeader(pages', data[k]) == BackHeader(pages, data[k])
    {
      DatumGrown(bsize, pages, roles, pages', roles', k, data[k]);
      BackGrown(bsize, pages, roles, pages', roles', k, data[k]);
    }
  }

  /** The key page and index in the header of a datum. */
  ghost function BackHeader(pages: PageMap, d: Datum): Loc {
    if |d.span| >= 1 && d.span[0] in pages && pages[d.span[0]].DataPage? && d.off in pages[d.span[0]].hd
    then Loc(pages[d.span[0]].hd[d.off].keyPage, pages[d.span[0]].hd[d.off].keyIdx)
    else Loc(INVALID_PGNO, 0)
  }

  lemma BackGrown(bsize: nat, pages: PageMap, roles: Roles, pages': PageMap, roles': Roles, k: Bytes, d: Datum)
    requires DatumOk(bsize, pages, roles, k, d)
    requires AllGrown(bsize, pages, roles, pages', roles')
    ensures BackHeader(pages', d) == BackHeader(pages, d)
  {
    hide Flat, Grown, PartOk;
    assert PartOk(bsize, pages, roles, k, d, 0);
    HeaderGrown(bsize, pages, roles, pages', roles', k, d);
  }

  // ---------------------------------------------------------------- a new slot on a page

  /** Offset of the next datum after `n` bytes at `start`, 0 when no header fits there. */
  function NextFree(bsize: nat, start: nat, n: nat): nat {
    var a := AlignUp(start + BIG_DATA_OVERHEAD + n);
    if a + BIG_DATA_OVERHEAD >= bsize then 0 else a
  }

  /** The page once a datum of `bs` bytes on this page starts at its free space. */
  function PlaceDatum(pg: Page, h: DataHeader, bs: Bytes): (r: Page)
    requires pg.DataPage? && pg.free + BIG_DATA_OVERHEAD + |bs| <= |pg.mem|
  {
    var r := PutBytes(PutHeader(pg, pg.free, h), pg.free + BIG_DATA_OVERHEAD, bs);
    r.(free := h.next, num := pg.num + 1)
  }

  lemma PlaceBytes(bsize: nat, pg: Page, h: DataHeader, bs: Bytes)
    requires pg.DataPage? && |pg.mem| == bsize && pg.free + BIG_DATA_OVERHEAD + |bs| <= bsize
    ensures var pg' := PlaceDatum(pg, h, bs);
      && |pg'.mem| == bsize
      && pg'.mem[..pg.free] == pg.mem[..pg.free]
      && pg'.mem[pg.free + BIG_DATA_OVERHEAD..pg.free + BIG_DATA_OVERHEAD + |bs|] == bs
  {
  }

  lemma SlotAt(bsize: nat, pg: Page, tail: Tail, slots: seq<Slot>, i: nat)
    requires GeomOk(bsize, pg, tail, slots) && i < |slots|
    ensures pg.DataPage? && slots[i].off in pg.hd
    ensures BIG_PAGE_OVERHEAD <= slots[i].off
    ensures slots[i].off + BIG_DATA_OVERHEAD <= slots[i].end <= Limit(bsize, pg) <= bsize
    ensures pg.hd[slots[i].off].next == NextPos(pg, slots, i)
    ensures tail.Tail? ==> tail.end <= slots[i].off
  {
  }

  lemma PlaceHeaders(bsize: nat, pg: Page, tail: Tail, slots: seq<Slot>, h: DataHeader, bs: Bytes)
    requires GeomOk(bsize, pg, tail, slots) && pg.free != 0
    requires pg.free + BIG_DATA_OVERHEAD + |bs| <= bsize
    ensures var pg' := PlaceDatum(pg, h, bs);
      && pg.free in pg'.hd && pg'.hd[pg.free] == h
      && (forall i :: 0 <= i < |slots| ==>
            slots[i].off in pg'.hd && pg'.hd[slots[i].off] == pg.hd[slots[i].off])
  {
    hide PutBytes, PutHeader;
    NewHeader(pg, h, bs);
    forall i | 0 <= i < |slots|
      ensures slots[i].off in PlaceDatum(pg, h, bs).hd
      ensures PlaceDatum(pg, h, bs).hd[slots[i].off] == pg.hd[slots[i].off]
    {
      SlotAt(bsize, pg, tail, slots, i);
      OldHeader(pg, h, bs, slots[i].off);
    }
  }

  lemma NewHeader(pg: Page, h: DataHeader, bs: Bytes)
    requires pg.DataPage? && pg.free + BIG_DATA_OVERHEAD + |bs| <= |pg.mem|
    ensures pg.free in PlaceDatum(pg, h, bs).hd && PlaceDatum(pg, h, bs).hd[pg.free] == h
  {
  }

  lemma OldHeader(pg: Page, h: DataHeader, bs: Bytes, o: nat)
    requires pg.DataPage? && pg.free + BIG_DATA_OVERHEAD + |bs| <= |pg.mem|
    requires o in pg.hd && o + BIG_DATA_OVERHEAD <= pg.free
    ensures o in PlaceDatum(pg, h, bs).hd && PlaceDatum(pg, h, bs).hd[o] == pg.hd[o]
  {
  }

  /** Placing a datum adds one slot and keeps the rest of the page. */
  lemma PlaceSlot(bsize: nat, pg: Page, tail: Tail, slots: seq<Slot>, h: DataHeader, bs: Bytes, k: Bytes)
    requires BsizeOk(bsize) && GeomOk(bsize, pg, tail, slots) && pg.free != 0
    requires pg.free + BIG_DATA_OVERHEAD + |bs| <= bsize
    requires h.next == 0 || h.next == NextFree(bsize, pg.free, |bs|)
    ensures var pg' := PlaceDatum(pg, h, bs);
      var slots' := slots + [Slot(k, pg.free, pg.free + BIG_DATA_OVERHEAD + |bs|)];
      GeomOk(bsize, pg', tail, slots') && Grown(bsize, pg, tail, slots, pg', tail, slots')
  {
    hide PutBytes, PutHeader;
    PlaceBytes(bsize, pg, h, bs);
    PlaceHeaders(bsize, pg, tail, slots, h, bs);
    PlaceFields(pg, h, bs);
    var pg' := PlaceDatum(pg, h, bs);
    var slots' := slots + [Slot(k, pg.free, pg.free + BIG_DATA_OVERHEAD + |bs|)];
    PlaceGeom(bsize, pg, tail, slots, pg', slots');
  }

  lemma PlaceFields(pg: Page, h: DataHeader, bs: Bytes)
    requires pg.DataPage? && pg.free + BIG_DATA_OVERHEAD + |bs| <= |pg.mem|
    ensures var pg' := PlaceDatum(pg, h, bs);
      pg'.DataPage? && pg'.num == pg.num + 1 && pg'.first == pg.first && pg'.free == h.next
      && pg'.curr == pg.curr && pg'.next == pg.next && pg'.prev == pg.prev
  {
  }

  lemma PlaceGeom(bsize: nat, pg: Page, tail: Tail, slots: seq<Slot>, pg': Page, slots': seq<Slot>)
    requires BsizeOk(bsize) && GeomOk(bsize, pg, tail, slots) && pg.free != 0
    requires |slots'| == |slots| + 1 && slots'[..|slots|] == slots && pg'.DataPage?
    requires var s := slots'[|slots|];
      && s.off == pg.free && s.off + BIG_DATA_OVERHEAD <= s.end <= bsize
      && s.off in pg'.hd && pg'.hd[s.off].next == pg'.free
      && (pg'.free == 0 || (s.end <= pg'.free <= bsize - BIG_DATA_OVERHEAD && pg'.free % 4 == 0))
    requires pg'.DataPage? && |pg'.mem| == bsize && pg'.num == pg.num + 1 && pg'.first == pg.first
    requires forall i :: 0 <= i < |slots| ==>
      slots[i].off in pg'.hd && pg'.hd[slots[i].off] == pg.hd[slots[i].off]
    ensures GeomOk(bsize, pg', tail, slots')
  {
    assert forall i :: 0 <= i < |slots| ==> slots'[i] == slots[i];
    forall i | 0 <= i < |slots'|
      ensures BIG_PAGE_OVERHEAD <= slots'[i].off
      ensures slots'[i].off + BIG_DATA_OVERHEAD <= slots'[i].end <= Limit(bsize, pg')
      ensures slots'[i].off in pg'.hd
      ensures pg'.hd[slots'[i].off].next == NextPos(pg', slots', i)
    {
      if i < |slots| {
        SlotAt(bsize, pg, tail, slots, i);
      }
    }
  }
}
