/** Writing inside the space one datum owns leaves every other datum as it was. */
module Rewrite {
  import opened Pages
  import opened Levels
  import opened Lengths
  import opened StoreInv
  import opened BaseLemmas
  import opened DataLemmas
  import opened DataSteps

  // ---------------------------------------------------------------- concatenated parts

  lemma FlatStep(parts: seq<Bytes>, j: nat)
    requires j < |parts|
    ensures Flat(parts[..j + 1]) == Flat(parts[..j]) + parts[j]
  {
    FlatAppend(parts[..j], parts[j]);
    assert parts[..j] + [parts[j]] == parts[..j + 1];
  }

  lemma FlatEmpty(parts: seq<Bytes>)
    ensures Flat(parts[..0]) == []
  {
  }

  lemma {:induction false} FlatPrefix(parts: seq<Bytes>, j: nat)
    requires j <= |parts|
    ensures Flat(parts[..j]) <= Flat(parts)
    ensures |Flat(parts[..j])| <= |Flat(parts)|
    ensures j < |parts| ==> |Flat(parts[..j])| + |parts[j]| <= |Flat(parts)|
    ensures j + 1 < |parts| ==> |Flat(parts[..j])| + |parts[j]| + |parts[|parts| - 1]| <= |Flat(parts)|
    decreases |parts|
  {
    if j == |parts| {
      assert parts[..j] == parts;
    } else {
      var front := parts[..|parts| - 1];
      assert front[..j] == parts[..j];
      FlatPrefix(front, j);
    }
  }

  // ---------------------------------------------------------------- owned ranges

  /** The range from `a` to `b` of page p is inside what part j of (k, d) owns. */
  ghost predicate Owned(pages: PageMap, roles: Roles, k: Bytes, d: Datum, j: nat, p: Pgno, a: nat, b: nat) {
    && j < |d.span| && d.span[j] == p && a <= b
    && p in roles && roles[p].Data?
    && if j == 0
       then d.slot < |roles[p].slots| && roles[p].slots[d.slot].key == k && roles[p].slots[d.slot].off == d.off
            && d.off + BIG_DATA_OVERHEAD <= a && b <= roles[p].slots[d.slot].end
       else roles[p].tail.Tail? && roles[p].tail.key == k && roles[p].tail.j == j
            && BIG_PAGE_OVERHEAD <= a && b <= roles[p].tail.end
  }

  lemma RewriteGeom(bsize: nat, pages: PageMap, roles: Roles, k: Bytes, d: Datum, j: nat, p: Pgno, a: nat, bs: Bytes)
    requires Owned(pages, roles, k, d, j, p, a, a + |bs|)
    requires p in pages && GeomOk(bsize, pages[p], roles[p].tail, roles[p].slots) && a + |bs| <= bsize
    ensures pages[p].DataPage? && |pages[p].mem| == bsize
    ensures GeomOk(bsize, PutBytes(pages[p], a, bs), roles[p].tail, roles[p].slots)
    ensures forall i :: 0 <= i < |roles[p].slots| ==>
      roles[p].slots[i].off in pages[p].hd && roles[p].slots[i].off in PutBytes(pages[p], a, bs).hd
      && PutBytes(pages[p], a, bs).hd[roles[p].slots[i].off] == pages[p].hd[roles[p].slots[i].off]
  {
  }

  lemma SliceApart(mem: Bytes, a: nat, bs: Bytes, s: nat, e: nat)
    requires a + |bs| <= |mem| && s <= e <= |mem|
    requires e <= a || a + |bs| <= s
    ensures (mem[..a] + bs + mem[a + |bs|..])[s..e] == mem[s..e]
  {
  }

  /** Another part keeps its bytes. */
  lemma RewriteOtherPart(bsize: nat, pages: PageMap, roles: Roles, k: Bytes, d: Datum, j: nat, p: Pgno, a: nat,
                         bs: Bytes, k1: Bytes, d1: Datum, j1: nat)
    requires Owned(pages, roles, k, d, j, p, a, a + |bs|) && a + |bs| <= bsize
    requires p in pages && GeomOk(bsize, pages[p], roles[p].tail, roles[p].slots)
    requires j1 < |d1.span| == |d1.parts| && PartOk(bsize, pages, roles, k1, d1, j1)
    requires k1 != k || j1 != j
    ensures pages[p].DataPage? && |pages[p].mem| == bsize
    ensures PartOk(bsize, pages[p := PutBytes(pages[p], a, bs)], roles, k1, d1, j1)
  {
    hide GeomOk;
    GeomMem(bsize, pages[p], roles[p].tail, roles[p].slots);
    if d1.span[j1] == p {
      var s := Start(d1, j1);
      var e := s + |d1.parts[j1]|;
      PartsApart(bsize, pages, roles, k, d, j, p, a, a + |bs|, k1, d1, j1);
      if |bs| > 0 && e > s {
        SliceApart(pages[p].mem, a, bs, s, e);
      } else if |bs| == 0 {
        assert pages[p].mem[..a] + bs + pages[p].mem[a..] == pages[p].mem;
      }
    }
  }

  /** The ranges two parts own are disjoint. */
  lemma PartsApart(bsize: nat, pages: PageMap, roles: Roles, k: Bytes, d: Datum, j: nat, p: Pgno, a: nat,
                   b: nat, k1: Bytes, d1: Datum, j1: nat)
    requires Owned(pages, roles, k, d, j, p, a, b) && b <= bsize
    requires p in pages && GeomOk(bsize, pages[p], roles[p].tail, roles[p].slots)
    requires j1 < |d1.span| == |d1.parts| && PartOk(bsize, pages, roles, k1, d1, j1)
    requires k1 != k || j1 != j
    requires d1.span[j1] == p
    ensures Start(d1, j1) + |d1.parts[j1]| <= a || b <= Start(d1, j1)
  {
  }

  // ---------------------------------------------------------------- every other datum

  /** Everything about the data pages except datum k itself. */
  ghost predicate OthersOk(bsize: nat, pages: PageMap, roles: Roles, data: DataMap, k: Bytes) {
    && (forall p :: p in roles && roles[p].Data? ==> DataPageOk(bsize, pages, roles, p))
    && (forall x :: x in data && x != k ==> DatumOk(bsize, pages, roles, x, data[x]))
    && SlotsOk(roles, data)
  }

  lemma RewriteDatum(bsize: nat, pages: PageMap, roles: Roles, k: Bytes, d: Datum, j: nat, p: Pgno, a: nat,
                     bs: Bytes, k1: Bytes, d1: Datum)
    requires Owned(pages, roles, k, d, j, p, a, a + |bs|) && a + |bs| <= bsize
    requires p in pages && GeomOk(bsize, pages[p], roles[p].tail, roles[p].slots)
    requires DatumOk(bsize, pages, roles, k1, d1) && k1 != k
    ensures pages[p].DataPage? && |pages[p].mem| == bsize
    ensures DatumOk(bsize, pages[p := PutBytes(pages[p], a, bs)], roles, k1, d1)
    ensures BackHeader(pages[p := PutBytes(pages[p], a, bs)], d1) == BackHeader(pages, d1)
  {
    hide PartOk, GeomOk, Flat, PutBytes;
    RewriteGeom(bsize, pages, roles, k, d, j, p, a, bs);
    var pages' := pages[p := PutBytes(pages[p], a, bs)];
    forall j1 | 0 <= j1 < |d1.span|
      ensures PartOk(bsize, pages', roles, k1, d1, j1)
    {
      assert PartOk(bsize, pages, roles, k1, d1, j1);
      RewriteOtherPart(bsize, pages, roles, k, d, j, p, a, bs, k1, d1, j1);
    }
    assert PartOk(bsize, pages, roles, k1, d1, 0);
    PartSlot(bsize, pages, roles, k1, d1);
  }

  lemma PartSlot(bsize: nat, pages: PageMap, roles: Roles, k: Bytes, d: Datum)
    requires 1 <= |d.span| == |d.parts| && PartOk(bsize, pages, roles, k, d, 0)
    ensures var p := d.span[0];
      && p in roles && roles[p].Data? && p in pages && pages[p].DataPage?
      && d.slot < |roles[p].slots| && roles[p].slots[d.slot].off == d.off && roles[p].slots[d.slot].key == k
      && d.off + BIG_DATA_OVERHEAD + |d.parts[0]| <= roles[p].slots[d.slot].end
  {
  }

  lemma RewriteOthers(bsize: nat, pages: PageMap, roles: Roles, data: DataMap, k: Bytes, d: Datum, j: nat,
                      p: Pgno, a: nat, bs: Bytes)
    requires OthersOk(bsize, pages, roles, data, k) && LinksOk(pages, roles)
    requires Owned(pages, roles, k, d, j, p, a, a + |bs|) && a + |bs| <= bsize
    ensures p in pages && pages[p].DataPage? && |pages[p].mem| == bsize
    ensures var pages' := pages[p := PutBytes(pages[p], a, bs)];
      && OthersOk(bsize, pages', roles, data, k) && LinksOk(pages', roles)
      && (forall x :: x in data && x != k ==> BackHeader(pages', data[x]) == BackHeader(pages, data[x]))
  {
    hide PartOk, GeomOk, Flat, DatumOk;
    assert DataPageOk(bsize, pages, roles, p);
    RewriteGeom(bsize, pages, roles, k, d, j, p, a, bs);
    var pages' := pages[p := PutBytes(pages[p], a, bs)];
    forall q | q in roles && roles[q].Data?
      ensures DataPageOk(bsize, pages', roles, q)
    {
      assert DataPageOk(bsize, pages, roles, q);
    }
    forall x | x in data && x != k
      ensures DatumOk(bsize, pages', roles, x, data[x]) && BackHeader(pages', data[x]) == BackHeader(pages, data[x])
    {
      RewriteDatum(bsize, pages, roles, k, d, j, p, a, bs, x, data[x]);
    }
    LinksFrame(pages, roles, pages', roles);
  }

  // ---------------------------------------------------------------- header fields

  /** The header at `off` with new fields; nothing else of the page changes. */
  function SetHeader(pg: Page, off: nat, h: DataHeader): Page
    requires pg.DataPage?
  {
    pg.(hd := pg.hd[off := h])
  }

  lemma SetHeaderGeom(bsize: nat, pg: Page, tail: Tail, slots: seq<Slot>, off: nat, h: DataHeader)
    requires GeomOk(bsize, pg, tail, slots) && off in pg.hd && h.next == pg.hd[off].next
    ensures GeomOk(bsize, SetHeader(pg, off, h), tail, slots)
  {
  }

  /** Different data have their headers at different places. */
  lemma HeadersDiffer(bsize: nat, pages: PageMap, roles: Roles, k: Bytes, d: Datum, k1: Bytes, d1: Datum)
    requires 1 <= |d.span| == |d.parts| && PartOk(bsize, pages, roles, k, d, 0)
    requires 1 <= |d1.span| == |d1.parts| && PartOk(bsize, pages, roles, k1, d1, 0)
    requires d.span[0] == d1.span[0] ==>
      GeomOk(bsize, pages[d.span[0]], roles[d.span[0]].tail, roles[d.span[0]].slots)
    requires k != k1
    ensures d.span[0] == d1.span[0] ==> d.off != d1.off
  {
  }

  lemma SetHeaderPart(bsize: nat, pages: PageMap, roles: Roles, p: Pgno, off: nat, h: DataHeader,
                      k1: Bytes, d1: Datum, j1: nat)
    requires p in pages && pages[p].DataPage?
    requires j1 < |d1.span| == |d1.parts| && PartOk(bsize, pages, roles, k1, d1, j1)
    ensures PartOk(bsize, pages[p := SetHeader(pages[p], off, h)], roles, k1, d1, j1)
  {
  }

  lemma SetHeaderDatum(bsize: nat, pages: PageMap, roles: Roles, p: Pgno, off: nat, h: DataHeader,
                       k1: Bytes, d1: Datum)
    requires p in pages && pages[p].DataPage? && off in pages[p].hd
    requires DatumOk(bsize, pages, roles, k1, d1)
    requires d1.span[0] != p || d1.off != off || (h.len == pages[p].hd[off].len && h.status == pages[p].hd[off].status)
    ensures DatumOk(bsize, pages[p := SetHeader(pages[p], off, h)], roles, k1, d1)
    ensures d1.span[0] != p || d1.off != off ==>
      BackHeader(pages[p := SetHeader(pages[p], off, h)], d1) == BackHeader(pages, d1)
  {
    hide PartOk, Flat;
    var pages' := pages[p := SetHeader(pages[p], off, h)];
    forall j1 | 0 <= j1 < |d1.span|
      ensures PartOk(bsize, pages', roles, k1, d1, j1)
    {
      assert PartOk(bsize, pages, roles, k1, d1, j1);
      SetHeaderPart(bsize, pages, roles, p, off, h, k1, d1, j1);
    }
  }

  /** Changing the header of datum k, but not where it leads, keeps every other datum. */
  lemma SetHeaderOthers(bsize: nat, pages: PageMap, roles: Roles, data: DataMap, k: Bytes, d: Datum, h: DataHeader)
    requires OthersOk(bsize, pages, roles, data, k) && LinksOk(pages, roles)
    requires 1 <= |d.span| == |d.parts| && PartOk(bsize, pages, roles, k, d, 0)
    requires var p := d.span[0];
      p in pages && pages[p].DataPage? && d.off in pages[p].hd && h.next == pages[p].hd[d.off].next
    ensures var pages' := pages[d.span[0] := SetHeader(pages[d.span[0]], d.off, h)];
      && OthersOk(bsize, pages', roles, data, k) && LinksOk(pages', roles)
      && (forall x :: x in data && x != k ==> BackHeader(pages', data[x]) == BackHeader(pages, data[x]))
  {
    hide PartOk, GeomOk, Flat, SetHeader;
    var p := d.span[0];
    PartSlot(bsize, pages, roles, k, d);
    var pages' := pages[p := SetHeader(pages[p], d.off, h)];
    assert DataPageOk(bsize, pages, roles, p);
    SetHeaderGeom(bsize, pages[p], roles[p].tail, roles[p].slots, d.off, h);
    SetHeaderFields(pages[p], d.off, h);
    forall q | q in roles && roles[q].Data?
      ensures DataPageOk(bsize, pages', roles, q)
    {
      assert DataPageOk(bsize, pages, roles, q);
    }
    forall x | x in data && x != k
      ensures DatumOk(bsize, pages', roles, x, data[x]) && BackHeader(pages', data[x]) == BackHeader(pages, data[x])
    {
      assert PartOk(bsize, pages, roles, x, data[x], 0);
      HeadersDiffer(bsize, pages, roles, k, d, x, data[x]);
      SetHeaderDatum(bsize, pages, roles, p, d.off, h, x, data[x]);
    }
    LinksFrame(pages, roles, pages', roles);
  }

  lemma SetHeaderFields(pg: Page, off: nat, h: DataHeader)
    requires pg.DataPage?
    ensures var r := SetHeader(pg, off, h);
      r.DataPage? && r.curr == pg.curr && r.prev == pg.prev && r.next == pg.next && r.mem == pg.mem
      && off in r.hd && r.hd[off] == h
  {
  }

  /** Re-pointing the header of a datum to another key slot. */
  lemma RepointDatum(h: Header, curr: Pgno, pages: PageMap, roles: Roles, fchain: seq<seq<Pgno>>, data: DataMap,
                     k: Bytes, kp: Pgno, ki: nat)
    requires DataState(h, curr, pages, roles, fchain, data) && k in data
    ensures var d := data[k];
      && |d.span| >= 1 && d.span[0] in pages && pages[d.span[0]].DataPage? && d.off in pages[d.span[0]].hd
      && d.span[0] in roles && roles[d.span[0]].Data?
      && var pages' := pages[d.span[0] := SetHeader(pages[d.span[0]], d.off,
                             pages[d.span[0]].hd[d.off].(keyPage := kp, keyIdx := ki))];
      && DataState(h, curr, pages', roles, fchain, data)
      && BackHeader(pages', d) == Loc(kp, ki)
      && (forall x :: x in data && x != k ==> BackHeader(pages', data[x]) == BackHeader(pages, data[x]))
  {
    hide PartOk, GeomOk, Flat, SetHeader, FreeInv, AllocOk, LevelsOk;
    var d := data[k];
    assert DatumOk(h.bsize, pages, roles, k, d);
    assert PartOk(h.bsize, pages, roles, k, d, 0);
    PartSlot(h.bsize, pages, roles, k, d);
    var p := d.span[0];
    var hd := pages[p].hd[d.off].(keyPage := kp, keyIdx := ki);
    var pages' := pages[p := SetHeader(pages[p], d.off, hd)];
    SetHeaderOthers(h.bsize, pages, roles, data, k, d, hd);
    SetHeaderDatum(h.bsize, pages, roles, p, d.off, hd, k, d);
    SetHeaderFields(pages[p], d.off, hd);
    BaseBounds(h, curr, pages, roles, fchain);
    BaseFrame(h, curr, pages, roles, fchain, pages', roles);
  }

  // ---------------------------------------------------------------- replacing a datum

  /** The first page of a replaced datum: new bytes, new length fields. */
  function ReplaceFirst(pg: Page, off: nat, bs: Bytes, low: nat, status: nat): (r: Page)
    requires pg.DataPage? && off + BIG_DATA_OVERHEAD + |bs| <= |pg.mem| && off in pg.hd
  {
    SetHeader(PutBytes(pg, off + BIG_DATA_OVERHEAD, bs), off, pg.hd[off].(len := low, status := status))
  }

  /** A part that shrinks in place: its first bytes are replaced and nothing follows it. */
  lemma RewrittenPart(bsize: nat, pages: PageMap, roles: Roles, k: Bytes, d: Datum, d': Datum, j: nat, chunk: Bytes)
    requires j < |d.span| == |d.parts| && PartOk(bsize, pages, roles, k, d, j)
    requires |chunk| <= |d.parts[j]|
    requires j < |d'.span| == |d'.parts| && d'.off == d.off && d'.slot == d.slot
    requires d'.span[j] == d.span[j] && d'.parts[j] == chunk
    requires j + 1 < |d'.span| ==> j + 1 < |d.span| && d'.span[j + 1] == d.span[j + 1] && |chunk| == |d.parts[j]|
    ensures var p := d.span[j];
      && p in pages && pages[p].DataPage? && |pages[p].mem| == bsize && Start(d, j) + |chunk| <= bsize
      && PartOk(bsize, pages[p := PutBytes(pages[p], Start(d, j), chunk)], roles, k, d', j)
      && Owned(pages, roles, k, d, j, p, Start(d, j), Start(d, j) + |chunk|)
  {
  }

  /** The datum with part j replaced; when no more follows, it ends there. */
  function Patched(d: Datum, j: nat, chunk: Bytes, more: bool): Datum
    requires j < |d.span| == |d.parts|
  {
    if more then d.(parts := d.parts[j := chunk])
    else d.(span := d.span[..j + 1], parts := d.parts[..j] + [chunk])
  }

  /** Rewriting a later part. */
  lemma PatchLater(bsize: nat, pages: PageMap, roles: Roles, data: DataMap, k: Bytes, d: Datum, j: nat,
                   chunk: Bytes, more: bool)
    requires LaterParts(bsize, pages, roles, k, d) && 1 <= j < |d.span| == |d.parts|
    requires |chunk| <= |d.parts[j]| && (more ==> |chunk| == |d.parts[j]|)
    requires OthersOk(bsize, pages, roles, data, k) && LinksOk(pages, roles)
    ensures var p := d.span[j];
      && p in pages && pages[p].DataPage? && |pages[p].mem| == bsize && BIG_PAGE_OVERHEAD + |chunk| <= bsize
      && p in roles && roles[p].Data?
      && Owned(pages, roles, k, d, j, p, BIG_PAGE_OVERHEAD, BIG_PAGE_OVERHEAD + |chunk|)
      && var pages' := pages[p := PutBytes(pages[p], BIG_PAGE_OVERHEAD, chunk)];
      && LaterParts(bsize, pages', roles, k, Patched(d, j, chunk, more))
      && OthersOk(bsize, pages', roles, data, k) && LinksOk(pages', roles)
      && (forall x :: x in data && x != k ==> BackHeader(pages', data[x]) == BackHeader(pages, data[x]))
  {
    hide PartOk, GeomOk, Flat, DatumOk, PutBytes;
    var p := d.span[j];
    var d' := Patched(d, j, chunk, more);
    assert PartOk(bsize, pages, roles, k, d, j);
    PartPage(bsize, pages, roles, k, d, j);
    assert DataPageOk(bsize, pages, roles, p);
    RewrittenPart(bsize, pages, roles, k, d, d', j, chunk);
    RewriteOthers(bsize, pages, roles, data, k, d, j, p, BIG_PAGE_OVERHEAD, chunk);
    var pages' := pages[p := PutBytes(pages[p], BIG_PAGE_OVERHEAD, chunk)];
    forall i | 1 <= i < |d'.span|
      ensures PartOk(bsize, pages', roles, k, d', i)
    {
      if i != j {
        assert PartOk(bsize, pages, roles, k, d, i);
        RewriteOtherPart(bsize, pages, roles, k, d, j, p, BIG_PAGE_OVERHEAD, chunk, k, d, i);
        PatchedPart(bsize, pages', roles, k, d, j, chunk, more, i);
      }
    }
  }

  lemma PatchedPart(bsize: nat, pages: PageMap, roles: Roles, k: Bytes, d: Datum, j: nat, chunk: Bytes, more: bool,
                    i: nat)
    requires j < |d.span| == |d.parts| && i < |Patched(d, j, chunk, more).span| && i != j
    requires PartOk(bsize, pages, roles, k, d, i)
    ensures PartOk(bsize, pages, roles, k, Patched(d, j, chunk, more), i)
  {
  }

  /** The first part and its header survive a write to a later part. */
  lemma FirstUntouched(bsize: nat, pages: PageMap, roles: Roles, k: Bytes, d: Datum, j: nat, chunk: Bytes, d0: Datum)
    requires 1 <= j < |d.span| && BIG_PAGE_OVERHEAD + |chunk| <= bsize
    requires Owned(pages, roles, k, d, j, d.span[j], BIG_PAGE_OVERHEAD, BIG_PAGE_OVERHEAD + |chunk|)
    requires d.span[j] in pages && GeomOk(bsize, pages[d.span[j]], roles[d.span[j]].tail, roles[d.span[j]].slots)
    requires 1 <= |d0.span| == |d0.parts| && PartOk(bsize, pages, roles, k, d0, 0) && HeaderOk(pages, d0)
    ensures pages[d.span[j]].DataPage? && |pages[d.span[j]].mem| == bsize
    ensures var pages' := pages[d.span[j] := PutBytes(pages[d.span[j]], BIG_PAGE_OVERHEAD, chunk)];
      && PartOk(bsize, pages', roles, k, d0, 0) && HeaderOk(pages', d0)
      && pages'[d0.span[0]].hd[d0.off] == pages[d0.span[0]].hd[d0.off]
  {
    hide PartOk, GeomOk, Flat, PutBytes;
    var p := d.span[j];
    RewriteOtherPart(bsize, pages, roles, k, d, j, p, BIG_PAGE_OVERHEAD, chunk, k, d0, 0);
    PartSlot(bsize, pages, roles, k, d0);
    RewriteGeom(bsize, pages, roles, k, d, j, p, BIG_PAGE_OVERHEAD, chunk);
  }

  /** The first page of the datum is rewritten last, with its header. */
  lemma FinishReplace(h: Header, curr: Pgno, pages: PageMap, roles: Roles, fchain: seq<seq<Pgno>>, data: DataMap,
                      k: Bytes, d0: Datum, d: Datum, low: nat, status: nat)
    requires BaseInv(h, curr, pages, roles, fchain) && LinksOk(pages, roles) && k in data
    requires OthersOk(h.bsize, pages, roles, data, k) && LaterParts(h.bsize, pages, roles, k, d)
    requires 1 <= |d0.span| == |d0.parts| && PartOk(h.bsize, pages, roles, k, d0, 0) && HeaderOk(pages, d0)
    requires d.off == d0.off && d.slot == d0.slot && d.span[0] == d0.span[0] == data[k].span[0] && |data[k].span| >= 1
    requires data[k].slot == d.slot
    requires |d.parts[0]| <= |d0.parts[0]|
    requires |d.span| > 1 ==> |d0.span| > 1 && d.span[1] == d0.span[1] && |d.parts[0]| == |d0.parts[0]|
                              && |d.parts[|d.parts| - 1]| > 0
    requires RealLen(low, status) == |Flat(d.parts)| <= MAX_DATASIZE && LowBits(status) == DATA_VALID
    ensures var p := d.span[0];
      && d.off + BIG_DATA_OVERHEAD + |d.parts[0]| <= |pages[p].mem|
      && var pages' := pages[p := ReplaceFirst(pages[p], d.off, d.parts[0], low, status)];
      && DataState(h, curr, pages', roles, fchain, data[k := d])
      && BackHeader(pages', d) == BackHeader(pages, d0)
      && (forall x :: x in data && x != k ==> BackHeader(pages', data[x]) == BackHeader(pages, data[x]))
  {
    hide PartOk, GeomOk, Flat, DatumOk, PutBytes, SetHeader, FreeInv, AllocOk, LevelsOk;
    var p := d.span[0];
    PartSlot(h.bsize, pages, roles, k, d0);
    assert DataPageOk(h.bsize, pages, roles, p);
    RewrittenPart(h.bsize, pages, roles, k, d0, d, 0, d.parts[0]);
    RewriteOthers(h.bsize, pages, roles, data, k, d0, 0, p, d.off + BIG_DATA_OVERHEAD, d.parts[0]);
    RewriteGeom(h.bsize, pages, roles, k, d0, 0, p, d.off + BIG_DATA_OVERHEAD, d.parts[0]);
    var pages1 := pages[p := PutBytes(pages[p], d.off + BIG_DATA_OVERHEAD, d.parts[0])];
    forall i | 1 <= i < |d.span|
      ensures PartOk(h.bsize, pages1, roles, k, d, i)
    {
      assert PartOk(h.bsize, pages, roles, k, d, i);
      RewriteOtherPart(h.bsize, pages, roles, k, d0, 0, p, d.off + BIG_DATA_OVERHEAD, d.parts[0], k, d, i);
    }
    FinishHeader(h, curr, pages1, roles, fchain, data, k, d, low, status);
    BaseBounds(h, curr, pages, roles, fchain);
    var hd := pages1[p].hd[d.off].(len := low, status := status);
    assert pages1[p].hd[d.off] == pages[p].hd[d.off];
    var pages' := pages1[p := SetHeader(pages1[p], d.off, hd)];
    assert pages' == pages[p := ReplaceFirst(pages[p], d.off, d.parts[0], low, status)];
    BaseFrame(h, curr, pages, roles, fchain, pages', roles);
  }

  lemma FinishHeader(h: Header, curr: Pgno, pages: PageMap, roles: Roles, fchain: seq<seq<Pgno>>, data: DataMap,
                     k: Bytes, d: Datum, low: nat, status: nat)
    requires LinksOk(pages, roles) && k in data && OthersOk(h.bsize, pages, roles, data, k)
    requires 1 <= |d.span| == |d.parts|
    requires forall i :: 0 <= i < |d.span| ==> PartOk(h.bsize, pages, roles, k, d, i)
    requires |data[k].span| >= 1 && d.span[0] == data[k].span[0] && data[k].slot == d.slot
    requires d.span[0] in pages && pages[d.span[0]].DataPage? && d.off in pages[d.span[0]].hd
    requires |d.span| > 1 ==> |d.parts[|d.parts| - 1]| > 0
    requires RealLen(low, status) == |Flat(d.parts)| <= MAX_DATASIZE && LowBits(status) == DATA_VALID
    ensures var p := d.span[0];
      var pages' := pages[p := SetHeader(pages[p], d.off, pages[p].hd[d.off].(len := low, status := status))];
      && DataInv(h.bsize, pages', roles, data[k := d]) && LinksOk(pages', roles)
      && BackHeader(pages', d) == BackHeader(pages, d)
      && (forall x :: x in data && x != k ==> BackHeader(pages', data[x]) == BackHeader(pages, data[x]))
  {
    hide PartOk, GeomOk, Flat, DatumOk, SetHeader;
    var p := d.span[0];
    var hd := pages[p].hd[d.off].(len := low, status := status);
    var pages' := pages[p := SetHeader(pages[p], d.off, hd)];
    assert PartOk(h.bsize, pages, roles, k, d, 0);
    SetHeaderOthers(h.bsize, pages, roles, data, k, d, hd);
    SetHeaderFields(pages[p], d.off, hd);
    assert DatumOk(h.bsize, pages', roles, k, d) by {
      forall i | 0 <= i < |d.span|
        ensures PartOk(h.bsize, pages', roles, k, d, i)
      {
        assert PartOk(h.bsize, pages, roles, k, d, i);
        SetHeaderPart(h.bsize, pages, roles, p, d.off, hd, k, d, i);
      }
      PartSlot(h.bsize, pages, roles, k, d);
      FirstFits(h.bsize, pages, roles, k, d);
      AllParts(h.bsize, pages', roles, k, d);
    }
    SlotsUpdate(roles, data, k, d);
  }

  lemma FirstFits(bsize: nat, pages: PageMap, roles: Roles, k: Bytes, d: Datum)
    requires 1 <= |d.span| == |d.parts| && PartOk(bsize, pages, roles, k, d, 0)
    ensures d.off + BIG_DATA_OVERHEAD <= bsize
  {
  }

  lemma AllParts(bsize: nat, pages: PageMap, roles: Roles, k: Bytes, d: Datum)
    requires 1 <= |d.span| == |d.parts| && d.off + BIG_DATA_OVERHEAD <= bsize
    requires |d.span| > 1 ==> |d.parts[|d.parts| - 1]| > 0
    requires forall i :: 0 <= i < |d.span| ==> PartOk(bsize, pages, roles, k, d, i)
    requires HeaderOk(pages, d) && |Flat(d.parts)| <= MAX_DATASIZE
    ensures DatumOk(bsize, pages, roles, k, d)
  {
  }

  lemma SlotsUpdate(roles: Roles, data: DataMap, k: Bytes, d: Datum)
    requires SlotsOk(roles, data) && k in data
    requires |d.span| >= 1 && |data[k].span| >= 1 && d.span[0] == data[k].span[0] && d.slot == data[k].slot
    ensures SlotsOk(roles, data[k := d])
  {
  }

  // ---------------------------------------------------------------- reading

  lemma DatumStart(bsize: nat, pages: PageMap, roles: Roles, data: DataMap, k: Bytes)
    requires DataInv(bsize, pages, roles, data) && k in data
    ensures var d := data[k];
      && |d.span| >= 1 && d.span[0] in pages && pages[d.span[0]].DataPage? && pages[d.span[0]].curr == d.span[0]
      && pages[d.span[0]].num >= 1
  {
    hide PartOk, Flat;
    var d := data[k];
    assert DatumOk(bsize, pages, roles, k, d);
    assert PartOk(bsize, pages, roles, k, d, 0);
    PartSlot(bsize, pages, roles, k, d);
    assert DataPageOk(bsize, pages, roles, d.span[0]);
  }

  lemma PartBytes(bsize: nat, pages: PageMap, roles: Roles, k: Bytes, d: Datum, j: nat)
    requires j < |d.span| == |d.parts| && PartOk(bsize, pages, roles, k, d, j)
    ensures var p := d.span[j];
      && p in pages && pages[p].DataPage? && |pages[p].mem| == bsize && Start(d, j) + |d.parts[j]| <= bsize
      && pages[p].mem[Start(d, j)..Start(d, j) + |d.parts[j]|] == d.parts[j]
      && (j + 1 < |d.span| ==> Start(d, j) + |d.parts[j]| == bsize && pages[p].next == d.span[j + 1])
  {
  }

  /** What remains after the parts before j: the last part alone, or more than part j. */
  lemma LastLength(parts: seq<Bytes>, j: nat)
    requires j < |parts|
    ensures j + 1 == |parts| ==> |Flat(parts)| == |Flat(parts[..j])| + |parts[j]|
    ensures j + 1 < |parts| && |parts[|parts| - 1]| > 0 ==> |Flat(parts)| > |Flat(parts[..j])| + |parts[j]|
  {
    FlatPrefix(parts, j);
    if j + 1 == |parts| {
      FlatStep(parts, j);
      assert parts[..j + 1] == parts;
    }
  }

  // ---------------------------------------------------------------- bounds of a replacement

  lemma PutBytesFields(pg: Page, off: nat, bs: Bytes)
    requires pg.DataPage? && off + |bs| <= |pg.mem|
    ensures var r := PutBytes(pg, off, bs); r.curr == pg.curr && r.prev == pg.prev && r.next == pg.next
  {
  }

  /** What a replacement starts from. */
  lemma ReplaceStart(bsize: nat, pages: PageMap, roles: Roles, data: DataMap, k: Bytes)
    requires DataInv(bsize, pages, roles, data) && k in data
    ensures var d := data[k];
      && OthersOk(bsize, pages, roles, data, k) && LaterParts(bsize, pages, roles, k, d)
      && 1 <= |d.span| == |d.parts| && PartOk(bsize, pages, roles, k, d, 0) && HeaderOk(pages, d)
      && d.span[0] in roles && roles[d.span[0]].Data?
      && d.off + BIG_DATA_OVERHEAD <= bsize && |Flat(d.parts)| <= MAX_DATASIZE
      && (|d.span| > 1 ==> |d.parts[|d.parts| - 1]| > 0)
      && pages[d.span[0]].next == pages[d.span[0]].next
  {
  }

  lemma PartNext(bsize: nat, pages: PageMap, roles: Roles, k: Bytes, d: Datum, j: nat)
    requires LaterParts(bsize, pages, roles, k, d) && 1 <= j < |d.span|
    ensures d.span[j] in pages && pages[d.span[j]].DataPage? && |pages[d.span[j]].mem| == bsize
    ensures BIG_PAGE_OVERHEAD + |d.parts[j]| <= bsize
    ensures j + 1 < |d.span| ==> pages[d.span[j]].next == d.span[j + 1] && BIG_PAGE_OVERHEAD + |d.parts[j]| == bsize
  {
    assert PartOk(bsize, pages, roles, k, d, j);
  }

  /** A replacement that fits on the first page fits in its first part. */
  lemma ShortReplacement(bsize: nat, pages: PageMap, roles: Roles, k: Bytes, d0: Datum, val: Bytes)
    requires 1 <= |d0.span| == |d0.parts| && PartOk(bsize, pages, roles, k, d0, 0)
    requires d0.off + BIG_DATA_OVERHEAD + |val| <= bsize && |val| <= |Flat(d0.parts)|
    ensures |val| <= |d0.parts[0]|
  {
  }

  lemma SinglePart(parts: seq<Bytes>)
    ensures |parts| == 1 ==> Flat(parts) == parts[0]
  {
  }

  /** A replacement that does not fit on the first page fills its first part. */
  lemma LongReplacement(bsize: nat, pages: PageMap, roles: Roles, data: DataMap, k: Bytes, first: nat, val: Bytes)
    requires DataInv(bsize, pages, roles, data) && k in data && |data[k].span| >= 1
    requires data[k].off + BIG_DATA_OVERHEAD + first == bsize && first < |val| <= |Flat(data[k].parts)|
    ensures var d0 := data[k];
      && |d0.span| == |d0.parts| > 1 && |d0.parts[0]| == first && d0.span[0] in pages
      && pages[d0.span[0]].next == d0.span[1]
      && LaterParts(bsize, pages, roles, k, d0.(parts := d0.parts[0 := val[..first]]))
      && Flat(d0.parts[..1]) == d0.parts[0] && Flat([val[..first]]) == val[..first]
  {
    hide Flat;
    var d0 := data[k];
    assert DatumOk(bsize, pages, roles, k, d0);
    assert PartOk(bsize, pages, roles, k, d0, 0);
    FlatOne(d0.parts[0]);
    FlatOne(val[..first]);
    assert d0.parts[..1] == [d0.parts[0]];
    SinglePart(d0.parts);
    var d := d0.(parts := d0.parts[0 := val[..first]]);
    forall j | 1 <= j < |d.span|
      ensures PartOk(bsize, pages, roles, k, d, j)
    {
      assert PartOk(bsize, pages, roles, k, d0, j);
    }
  }

  /** How the bytes still to write compare with part j. */
  lemma PartRoom(bsize: nat, pages: PageMap, roles: Roles, k: Bytes, d0: Datum, d: Datum, j: nat, len: nat)
    requires LaterParts(bsize, pages, roles, k, d) && 1 <= j < |d.span|
    requires d0.span == d.span && |d0.parts| == |d.parts| && d0.parts[j..] == d.parts[j..]
    requires |Flat(d0.parts[..j])| < len <= |Flat(d0.parts)|
    ensures var rlen := len - |Flat(d0.parts[..j])|;
      && d.parts[j] == d0.parts[j] && d.parts[j + 1..] == d0.parts[j + 1..]
      && |Flat(d0.parts[..j + 1])| == |Flat(d0.parts[..j])| + |d.parts[j]|
      && (rlen > bsize - BIG_PAGE_OVERHEAD ==> j + 1 < |d.span| && |d.parts[j]| == bsize - BIG_PAGE_OVERHEAD)
      && (rlen <= bsize - BIG_PAGE_OVERHEAD ==> rlen <= |d.parts[j]|)
  {
    hide Flat;
    PartNext(bsize, pages, roles, k, d, j);
    assert d0.parts[j..][0] == d0.parts[j] && d.parts[j..][0] == d.parts[j];
    assert d0.parts[j..][1..] == d0.parts[j + 1..] && d.parts[j..][1..] == d.parts[j + 1..];
    FlatStep(d0.parts, j);
    LastLength(d0.parts, j);
  }

  lemma PatchedFlat(d: Datum, j: nat, chunk: Bytes, more: bool)
    requires j < |d.span| == |d.parts|
    ensures var d' := Patched(d, j, chunk, more);
      && Flat(d'.parts[..j + 1]) == Flat(d.parts[..j]) + chunk
      && (more ==> d'.parts[j + 1..] == d.parts[j + 1..])
      && (!more ==> d'.parts[..j + 1] == d'.parts)
      && d'.parts[j] == chunk
  {
    hide Flat;
    var d' := Patched(d, j, chunk, more);
    FlatAppend(d.parts[..j], chunk);
    assert d'.parts[..j + 1] == d.parts[..j] + [chunk];
  }

  lemma ReplaceFirstFields(pg: Page, off: nat, bs: Bytes, low: nat, status: nat)
    requires pg.DataPage? && off + BIG_DATA_OVERHEAD + |bs| <= |pg.mem| && off in pg.hd
    requires off in PutBytes(pg, off + BIG_DATA_OVERHEAD, bs).hd
    ensures var r := ReplaceFirst(pg, off, bs, low, status); r.curr == pg.curr && r.prev == pg.prev && r.next == pg.next
  {
  }
}
