/** The bucket chains and the keys on them. */
module KeyLemmas {
  import opened Pages
  import opened Levels
  import opened StoreInv
  import opened BaseLemmas
  import opened DataLemmas
  import opened DataSteps

  // ---------------------------------------------------------------- frames

  /** Chain pages keep role and content, and no page becomes one. */
  ghost predicate KeepChains(pages: PageMap, roles: Roles, pages': PageMap, roles': Roles) {
    && (forall p :: p in roles && roles[p].Chain? ==>
          p in roles' && roles'[p] == roles[p] && SamePage(pages, pages', p))
    && (forall p :: p in roles' && roles'[p].Chain? ==> p in roles && roles[p] == roles'[p])
  }

  lemma ChainOkFrame(h: Header, pages: PageMap, roles: Roles, h': Header, pages': PageMap, roles': Roles,
                     b: nat, c: seq<Pgno>)
    requires ChainOk(h, pages, roles, b, c)
    requires h'.bsize == h.bsize && BucketPage(h', b) == BucketPage(h, b)
    requires forall i :: 0 <= i < |c| ==> c[i] in roles' && roles'[c[i]] == roles[c[i]] && SamePage(pages, pages', c[i])
    ensures ChainOk(h', pages', roles', b, c)
  {
    forall i | 0 <= i < |c|
      ensures ChainPageOk(h'.bsize, pages', c, i)
    {
      assert ChainPageOk(h.bsize, pages, c, i);
    }
  }

  lemma ChainFrame(h: Header, pages: PageMap, roles: Roles, chains: seq<seq<Pgno>>, h': Header, pages': PageMap, roles': Roles)
    requires ChainInv(h, pages, roles, chains) && LevelsOk(h)
    requires HdrStep(h, h') && KeepChains(pages, roles, pages', roles')
    ensures ChainInv(h', pages', roles', chains)
  {
    hide BucketPage, ChainPageOk;
    forall b | 0 <= b < |chains|
      ensures ChainOk(h', pages', roles', b, chains[b])
    {
      assert ChainOk(h, pages, roles, b, chains[b]);
      HdrStepBuckets(h, h', b);
      forall i | 0 <= i < |chains[b]|
        ensures chains[b][i] in roles' && roles'[chains[b][i]] == roles[chains[b][i]]
        ensures SamePage(pages, pages', chains[b][i])
      {
        var p := chains[b][i];
        assert p in roles && roles[p] == Chain(b, i);
        assert SamePage(pages, pages', p);
      }
      ChainOkFrame(h, pages, roles, h', pages', roles', b, chains[b]);
    }
  }

  /** The data of `data` are still there, with the same back pointers. */
  ghost predicate KeepData(pages: PageMap, pages': PageMap, data: DataMap, data': DataMap) {
    forall k :: k in data ==>
      && k in data' && data'[k] == data[k] && HasHeader(pages', data[k])
      && BackHeader(pages', data[k]) == BackHeader(pages, data[k])
  }

  ghost predicate HasHeader(pages: PageMap, d: Datum) {
    |d.span| >= 1 && d.span[0] in pages && pages[d.span[0]].DataPage? && d.off in pages[d.span[0]].hd
  }

  lemma KeyAtFrame(h: Header, hash: Bytes -> nat, pages: PageMap, roles: Roles, data: DataMap,
                   h': Header, pages': PageMap, roles': Roles, data': DataMap, k: Bytes, loc: Loc)
    requires KeyAt(h, hash, pages, roles, data, k, loc)
    requires h'.bsize == h.bsize && CallHash(h', hash(k)) == CallHash(h, hash(k))
    requires KeepChains(pages, roles, pages', roles') && KeepData(pages, pages', data, data')
    ensures KeyAt(h', hash, pages', roles', data', k, loc)
  {
    assert SamePage(pages, pages', loc.page);
  }

  lemma KeyFrame(h: Header, hash: Bytes -> nat, pages: PageMap, roles: Roles, data: DataMap, keys: KeyMap,
                 h': Header, pages': PageMap, roles': Roles, data': DataMap)
    requires KeyInv(h, hash, pages, roles, data, keys)
    requires HdrStep(h, h') && KeepChains(pages, roles, pages', roles') && KeepData(pages, pages', data, data')
    ensures KeyInv(h', hash, pages', roles', data', keys)
  {
    forall k | k in keys
      ensures KeyAt(h', hash, pages', roles', data', k, keys[k])
    {
      assert KeyAt(h, hash, pages, roles, data, k, keys[k]);
      KeyAtFrame(h, hash, pages, roles, data, h', pages', roles', data', k, keys[k]);
    }
    forall p, e | p in roles' && roles'[p].Chain? && 0 <= e < |Ents(pages', p)|
      ensures Ents(pages', p)[e].key in keys && keys[Ents(pages', p)[e].key] == Loc(p, e)
    {
      assert SamePage(pages, pages', p);
      assert Ents(pages, p)[e] == Ents(pages', p)[e];
    }
  }

  /** After a change of the data layer only, the data are kept. */
  lemma DataKept(bsize: nat, pages: PageMap, pages': PageMap, roles': Roles, data: DataMap, data': DataMap)
    requires DataInv(bsize, pages', roles', data')
    requires forall k :: k in data ==> k in data' && data'[k] == data[k]
    requires SameBack(pages, pages', data)
    ensures KeepData(pages, pages', data, data')
  {
  }

  /** A write to key pages keeps the data. */
  lemma KeyWriteKeepsData(bsize: nat, pages: PageMap, roles: Roles, pages': PageMap, roles': Roles, data: DataMap)
    requires DataInv(bsize, pages, roles, data) && SameData(pages, roles, pages', roles')
    requires forall p :: p in roles' && roles'[p].Data? ==> p in roles && roles[p].Data?
    ensures DataInv(bsize, pages', roles', data) && KeepData(pages, pages', data, data)
  {
    hide PartOk, Flat, GeomOk;
    DataFrame(bsize, pages, roles, data, pages', roles');
    SameDataBack(bsize, pages, roles, data, pages', roles');
    DataKept(bsize, pages, pages', roles', data, data);
  }

  // ---------------------------------------------------------------- layout

  /** A pair that fits leaves the page laid out without overlap. */
  lemma AddEntryLayout(bsize: nat, pg: Page, e: Entry)
    requires pg.KeyPage? && LayoutOk(bsize, pg) && PairFits(pg, |e.key|)
    ensures LayoutOk(bsize, AddEntry(pg, e))
  {
  }

  /** Every key of allowed size fits on an empty page, and only those do. */
  lemma EmptyPageFits(bsize: nat, p: Pgno, ksize: nat)
    ensures PairFits(InitPage(bsize, p, TKey), ksize) <==> ksize + 59 <= bsize
  {
  }

  /** The lowest byte that the first i pairs of a page use: each key ends at the byte below, and its
      data pointer of 16 bytes starts at a multiple of four below the key. */
  function UsedFrom(bsize: nat, ents: seq<Entry>, i: nat): int
    requires i <= |ents|
  {
    if i == 0 then bsize
    else
      var x := UsedFrom(bsize, ents, i - 1) - |ents[i - 1].key| - 16;
      x - x % 4
  }

  function KeyStart(bsize: nat, ents: seq<Entry>, i: nat): int
    requires i < |ents|
  {
    UsedFrom(bsize, ents, i) - |ents[i].key|
  }

  lemma {:induction false} OffsetIsUsed(bsize: nat, ents: seq<Entry>, i: nat)
    requires i <= |ents|
    ensures LayoutOffset(bsize, ents[..i]) == UsedFrom(bsize, ents, i) - 1
  {
    if i > 0 {
      OffsetIsUsed(bsize, ents, i - 1);
      assert ents[..i][..i - 1] == ents[..i - 1];
    }
  }

  lemma {:induction false} UsedDown(bsize: nat, ents: seq<Entry>, i: nat, j: nat)
    requires i <= j <= |ents|
    ensures UsedFrom(bsize, ents, j) <= UsedFrom(bsize, ents, i) <= bsize
    decreases j
  {
    if j > 0 {
      UsedDown(bsize, ents, if i < j then i else j - 1, j - 1);
    }
  }

  lemma PairAt(bsize: nat, ents: seq<Entry>, i: nat)
    requires i < |ents|
    ensures var ptr, key := UsedFrom(bsize, ents, i + 1), KeyStart(bsize, ents, i);
      ptr % 4 == 0 && ptr + 16 <= key && key + |ents[i].key| == UsedFrom(bsize, ents, i)
  {
  }

  /** On a page that is laid out the index, 28 bytes of header and 12 for each pair, ends below the
      lowest data pointer; each data pointer is aligned and ends below its key, and a later pair ends
      below an earlier one: no two keys or pointers share a byte, and all are inside the page. */
  lemma PageLaidOut(bsize: nat, pg: Page, i: nat, j: nat)
    requires pg.KeyPage? && LayoutOk(bsize, pg)
    ensures 28 + 12 * |pg.ents| <= UsedFrom(bsize, pg.ents, |pg.ents|) == pg.offset + 1
    ensures i < |pg.ents| ==> var ptr, key := UsedFrom(bsize, pg.ents, i + 1), KeyStart(bsize, pg.ents, i);
      && 28 + 12 * |pg.ents| <= ptr && ptr % 4 == 0 && ptr + 16 <= key && key + |pg.ents[i].key| <= bsize
    ensures i < j < |pg.ents| ==> KeyStart(bsize, pg.ents, j) + |pg.ents[j].key| <= UsedFrom(bsize, pg.ents, i + 1)
  {
    hide UsedFrom, KeyStart, LayoutOffset;
    var n := |pg.ents|;
    OffsetIsUsed(bsize, pg.ents, n);
    assert pg.ents[..n] == pg.ents;
    if i < n {
      PairAt(bsize, pg.ents, i);
      UsedDown(bsize, pg.ents, i + 1, n);
      UsedDown(bsize, pg.ents, i, n);
      if i < j < n {
        PairAt(bsize, pg.ents, j);
        UsedDown(bsize, pg.ents, i + 1, j);
      }
    }
  }

  /** A pair fits exactly if the index with one more entry, the key, the data pointer and three bytes
      for alignment are not more than what is below the lowest byte in use. */
  lemma PairFitsMeans(bsize: nat, pg: Page, ksize: nat)
    requires pg.KeyPage? && LayoutOk(bsize, pg)
    ensures PairFits(pg, ksize) <==> 28 + 12 * (|pg.ents| + 1) + ksize + 19 <= UsedFrom(bsize, pg.ents, |pg.ents|)
  {
    OffsetIsUsed(bsize, pg.ents, |pg.ents|);
    assert pg.ents[..|pg.ents|] == pg.ents;
  }

  /** Every page of a chain of a sound key layer is laid out, those never written included. */
  lemma ChainLaidOut(h: Header, pages: PageMap, roles: Roles, chains: seq<seq<Pgno>>, b: nat, x: nat, ksize: nat)
    requires ChainInv(h, pages, roles, chains) && BsizeOk(h.bsize) && b < |chains| && x < |chains[b]|
    ensures var pg, ents := GetCreate(pages, h.bsize, chains[b][x], TKey), Ents(pages, chains[b][x]);
      && 28 + 12 * |ents| <= UsedFrom(h.bsize, ents, |ents|)
      && pg.KeyPage? && (PairFits(pg, ksize) <==> 28 + 12 * (|ents| + 1) + ksize + 19 <= UsedFrom(h.bsize, ents, |ents|))
  {
    hide ChainInv, GetCreate, LayoutOk, PairFits, UsedFrom;
    ChainPageAt(h, pages, roles, chains, b, x);
    var pg := GetCreate(pages, h.bsize, chains[b][x], TKey);
    PageLaidOut(h.bsize, pg, 0, 0);
    PairFitsMeans(h.bsize, pg, ksize);
  }

  // ---------------------------------------------------------------- adding an entry

  /** The pages after a pair was written on page p. */
  function EntryOn(pages: PageMap, bsize: nat, p: Pgno, e: Entry): PageMap
    requires GetCreate(pages, bsize, p, TKey).KeyPage?
  {
    pages[p := AddEntry(GetCreate(pages, bsize, p, TKey), e)]
  }

  /** The pages after a pair was written on a new page n linked behind page p. */
  function EntryBehind(pages: PageMap, bsize: nat, p: Pgno, n: Pgno, e: Entry): PageMap
    requires p in pages
  {
    pages[p := SetNext(pages[p], n)][n := AddEntry(SetPrev(InitPage(bsize, n, TKey), p), e)]
  }

  /** Page i of the chain of bucket b, as a get with the create flag returns it. */
  lemma ChainPageAt(h: Header, pages: PageMap, roles: Roles, chains: seq<seq<Pgno>>, b: nat, i: nat)
    requires ChainInv(h, pages, roles, chains) && BsizeOk(h.bsize) && b < |chains| && i < |chains[b]|
    ensures var p := chains[b][i]; var pg := GetCreate(pages, h.bsize, p, TKey);
      && p in roles && roles[p] == Chain(b, i)
      && pg.KeyPage? && pg.curr == p && pg.next == Follows(chains[b], i) && LayoutOk(h.bsize, pg)
      && pg.prev == (if i == 0 then INVALID_PGNO else chains[b][i - 1])
      && Ents(pages, p) == pg.ents && (pg.ents == [] ==> |chains[b]| == 1)
  {
    assert ChainOk(h, pages, roles, b, chains[b]);
    assert ChainPageOk(h.bsize, pages, chains[b], i);
  }

  /** One page of a chain gets another entry. */
  lemma ChainInsert(h: Header, pages: PageMap, roles: Roles, chains: seq<seq<Pgno>>, b: nat, i: nat, e: Entry)
    requires ChainInv(h, pages, roles, chains) && BsizeOk(h.bsize) && b < |chains| && i < |chains[b]|
    requires var pg := GetCreate(pages, h.bsize, chains[b][i], TKey); pg.KeyPage? && PairFits(pg, |e.key|)
    ensures var p := chains[b][i];
      ChainInv(h, pages[p := AddEntry(GetCreate(pages, h.bsize, p, TKey), e)], roles, chains)
  {
    hide BucketPage, LayoutOk, AddEntry, PairFits, GetCreate;
    var p := chains[b][i];
    ChainPageAt(h, pages, roles, chains, b, i);
    var pg := GetCreate(pages, h.bsize, p, TKey);
    AddEntryLayout(h.bsize, pg, e);
    AddEntryFields(pg, e);
    var pages' := pages[p := AddEntry(pg, e)];
    forall b1 | 0 <= b1 < |chains|
      ensures ChainOk(h, pages', roles, b1, chains[b1])
    {
      assert ChainOk(h, pages, roles, b1, chains[b1]);
      forall i1 | 0 <= i1 < |chains[b1]|
        ensures ChainPageOk(h.bsize, pages', chains[b1], i1)
      {
        assert ChainPageOk(h.bsize, pages, chains[b1], i1);
        if chains[b1][i1] == p {
          assert roles[p] == Chain(b, i) && roles[p] == Chain(b1, i1);
        }
      }
    }
  }

  lemma AddEntryFields(pg: Page, e: Entry)
    requires pg.KeyPage?
    ensures var r := AddEntry(pg, e);
      r.KeyPage? && r.curr == pg.curr && r.prev == pg.prev && r.next == pg.next && r.ents == pg.ents + [e]
  {
  }

  /** The new key is at the end of page p; the others stay. */
  lemma KeyInsert(h: Header, hash: Bytes -> nat, pages: PageMap, roles: Roles, data: DataMap, keys: KeyMap,
                  p: Pgno, pages': PageMap, e: Entry)
    requires KeyInv(h, hash, pages, roles, data, keys)
    requires p in roles && roles[p].Chain? && roles[p].b == CallHash(h, hash(e.key))
    requires forall q :: q != p ==> SamePage(pages, pages', q)
    requires p in pages' && pages'[p].KeyPage? && Ents(pages', p) == Ents(pages, p) + [e]
    requires p in pages ==> pages[p].KeyPage?
    requires e.key !in keys && KeySizeOk(h.bsize, e.key)
    requires e.key in data && PtrOk(e.datap, data[e.key])
    requires HasHeader(pages, data[e.key]) && BackHeader(pages, data[e.key]) == Loc(p, |Ents(pages, p)|)
    ensures KeyInv(h, hash, pages', roles, data, keys[e.key := Loc(p, |Ents(pages, p)|)])
  {
    var n := |Ents(pages, p)|;
    var keys' := keys[e.key := Loc(p, n)];
    forall k | k in keys'
      ensures KeyAt(h, hash, pages', roles, data, k, keys'[k])
    {
      if k != e.key {
        assert KeyAt(h, hash, pages, roles, data, k, keys[k]);
        KeyAtOther(h, hash, pages, roles, data, p, pages', e, k, keys[k]);
      } else {
        assert SamePage(pages, pages', data[k].span[0]);
      }
    }
    forall q, i | q in roles && roles[q].Chain? && 0 <= i < |Ents(pages', q)|
      ensures Ents(pages', q)[i].key in keys' && keys'[Ents(pages', q)[i].key] == Loc(q, i)
    {
      if q == p && i == n {
      } else {
        assert SamePage(pages, pages', q) || q == p;
        assert Ents(pages, q)[i] == Ents(pages', q)[i];
      }
    }
  }

  lemma KeyAtOther(h: Header, hash: Bytes -> nat, pages: PageMap, roles: Roles, data: DataMap,
                   p: Pgno, pages': PageMap, e: Entry, k: Bytes, loc: Loc)
    requires KeyAt(h, hash, pages, roles, data, k, loc)
    requires forall q :: q != p ==> SamePage(pages, pages', q)
    requires p in pages' && pages'[p].KeyPage? && Ents(pages', p) == Ents(pages, p) + [e]
    requires p in pages ==> pages[p].KeyPage?
    ensures KeyAt(h, hash, pages', roles, data, k, loc)
  {
    assert loc.page != p ==> SamePage(pages, pages', loc.page);
    assert SamePage(pages, pages', data[k].span[0]);
  }

  // ---------------------------------------------------------------- a longer chain

  /** A held page with one entry becomes the last page of the chain of bucket b. */
  lemma ChainExtend(h: Header, pages: PageMap, roles: Roles, chains: seq<seq<Pgno>>, b: nat, n: Pgno, e: Entry)
    requires ChainInv(h, pages, roles, chains) && BsizeOk(h.bsize) && b < |chains|
    requires n in roles && roles[n].Held?
    requires Ents(pages, chains[b][|chains[b]| - 1]) != [] && KeySizeOk(h.bsize, e.key) && chains[b] != []
    ensures var c := chains[b]; var last := c[|c| - 1];
      && last in pages && last in roles && roles[last] == Chain(b, |c| - 1)
      && ChainInv(h, pages[last := SetNext(pages[last], n)]
                          [n := AddEntry(SetPrev(InitPage(h.bsize, n, TKey), last), e)],
                  roles[n := Chain(b, |c|)], chains[b := c + [n]])
  {
    hide BucketPage, LayoutOk, AddEntry;
    var c := chains[b];
    var last := c[|c| - 1];
    assert ChainOk(h, pages, roles, b, c);
    assert ChainPageOk(h.bsize, pages, c, |c| - 1);
    var pg := SetPrev(InitPage(h.bsize, n, TKey), last);
    NewOverflow(h.bsize, n, last, e);
    AddEntryFields(pg, e);
    var pages' := pages[last := SetNext(pages[last], n)][n := AddEntry(pg, e)];
    var roles', chains' := roles[n := Chain(b, |c|)], chains[b := c + [n]];
    SetNextLayout(h.bsize, pages[last], n);
    forall b1 | 0 <= b1 < |chains'|
      ensures ChainOk(h, pages', roles', b1, chains'[b1])
    {
      assert ChainOk(h, pages, roles, b1, chains[b1]);
      if b1 != b {
        forall i | 0 <= i < |chains[b1]|
          ensures SamePage(pages, pages', chains[b1][i])
        {
          assert roles[chains[b1][i]] == Chain(b1, i);
        }
        ChainOkFrame(h, pages, roles, h, pages', roles', b1, chains[b1]);
      } else {
        ChainExtendOne(h, pages, roles, b, c, n, pages', roles');
      }
    }
    forall p | p in roles' && roles'[p].Chain?
      ensures roles'[p].b < |chains'| && roles'[p].i < |chains'[roles'[p].b]|
      ensures chains'[roles'[p].b][roles'[p].i] == p
    {
      if p != n {
        assert chains[roles[p].b][roles[p].i] == p;
      }
    }
  }

  lemma ChainExtendOne(h: Header, pages: PageMap, roles: Roles, b: nat, c: seq<Pgno>, n: Pgno, pages': PageMap, roles': Roles)
    requires ChainOk(h, pages, roles, b, c) && n in roles && roles[n].Held?
    requires roles' == roles[n := Chain(b, |c|)]
    requires var last := c[|c| - 1];
      && last in pages && Ents(pages, last) != []
      && last in pages' && pages'[last] == SetNext(pages[last], n) && KeyLayoutOk(h.bsize, pages'[last])
    requires forall p :: p != n && p != c[|c| - 1] ==> SamePage(pages, pages', p)
    requires n in pages' && pages'[n].KeyPage? && pages'[n].curr == n && pages'[n].prev == c[|c| - 1]
    requires pages'[n].next == INVALID_PGNO && LayoutOk(h.bsize, pages'[n]) && pages'[n].ents != []
    ensures ChainOk(h, pages', roles', b, c + [n])
  {
    hide LayoutOk, BucketPage;
    var c' := c + [n];
    forall i | 0 <= i < |c'|
      ensures c'[i] in roles' && roles'[c'[i]] == Chain(b, i)
      ensures ChainPageOk(h.bsize, pages', c', i)
    {
      if i < |c| {
        assert roles[c[i]] == Chain(b, i);
        assert ChainPageOk(h.bsize, pages, c, i);
        if i < |c| - 1 {
          assert c[i] != c[|c| - 1];
          assert SamePage(pages, pages', c[i]);
          assert c[i] in pages;
          assert Follows(c', i) == Follows(c, i);
        }
      }
    }
  }

  ghost predicate KeyLayoutOk(bsize: nat, pg: Page) {
    pg.KeyPage? && LayoutOk(bsize, pg)
  }

  lemma SetNextLayout(bsize: nat, pg: Page, n: Pgno)
    requires pg.KeyPage? && LayoutOk(bsize, pg)
    ensures KeyLayoutOk(bsize, SetNext(pg, n))
  {
  }

  lemma NewOverflow(bsize: nat, n: Pgno, last: Pgno, e: Entry)
    requires BsizeOk(bsize) && KeySizeOk(bsize, e.key)
    ensures var pg := SetPrev(InitPage(bsize, n, TKey), last);
      pg.KeyPage? && pg.curr == n && pg.next == INVALID_PGNO && LayoutOk(bsize, AddEntry(pg, e)) && pg.ents == []
  {
  }

  /** The new key is alone on the new page. */
  lemma KeyExtend(h: Header, hash: Bytes -> nat, pages: PageMap, roles: Roles, data: DataMap, keys: KeyMap,
                  last: Pgno, n: Pgno, b: nat, i: nat, e: Entry, pages': PageMap)
    requires KeyInv(h, hash, pages, roles, data, keys)
    requires last in roles && roles[last].Chain? && last in pages && pages[last].KeyPage?
    requires n in roles && roles[n].Held? && b == CallHash(h, hash(e.key))
    requires forall q :: q != last && q != n ==> SamePage(pages, pages', q)
    requires last in pages' && pages'[last].KeyPage? && Ents(pages', last) == Ents(pages, last)
    requires n in pages' && pages'[n].KeyPage? && Ents(pages', n) == [e]
    requires e.key !in keys && KeySizeOk(h.bsize, e.key)
    requires e.key in data && PtrOk(e.datap, data[e.key])
    requires HasHeader(pages, data[e.key]) && BackHeader(pages, data[e.key]) == Loc(n, 0)
    requires forall k :: k in data && |data[k].span| >= 1 ==> data[k].span[0] != n
    ensures KeyInv(h, hash, pages', roles[n := Chain(b, i)], data, keys[e.key := Loc(n, 0)])
  {
    var keys', roles' := keys[e.key := Loc(n, 0)], roles[n := Chain(b, i)];
    forall k | k in keys'
      ensures KeyAt(h, hash, pages', roles', data, k, keys'[k])
    {
      if k != e.key {
        assert KeyAt(h, hash, pages, roles, data, k, keys[k]);
        KeyAtLonger(h, hash, pages, roles, data, last, n, pages', roles', k, keys[k]);
      } else {
        assert SamePage(pages, pages', data[k].span[0]);
      }
    }
    forall q, x | q in roles' && roles'[q].Chain? && 0 <= x < |Ents(pages', q)|
      ensures Ents(pages', q)[x].key in keys' && keys'[Ents(pages', q)[x].key] == Loc(q, x)
    {
      if q != n {
        assert q == last || SamePage(pages, pages', q);
        assert Ents(pages, q)[x] == Ents(pages', q)[x];
      }
    }
  }

  lemma KeyAtLonger(h: Header, hash: Bytes -> nat, pages: PageMap, roles: Roles, data: DataMap,
                    last: Pgno, n: Pgno, pages': PageMap, roles': Roles, k: Bytes, loc: Loc)
    requires KeyAt(h, hash, pages, roles, data, k, loc)
    requires last in pages && pages[last].KeyPage?
    requires n in roles && roles[n].Held? && n in roles' && roles' == roles[n := roles'[n]]
    requires forall q :: q != last && q != n ==> SamePage(pages, pages', q)
    requires last in pages' && pages'[last].KeyPage? && Ents(pages', last) == Ents(pages, last)
    requires |data[k].span| >= 1 && data[k].span[0] != n
    ensures KeyAt(h, hash, pages', roles', data, k, loc)
  {
    assert loc.page != last ==> SamePage(pages, pages', loc.page);
    assert SamePage(pages, pages', data[k].span[0]);
  }

  // ---------------------------------------------------------------- the key layer as a whole

  ghost predicate KeyState(h: Header, hash: Bytes -> nat, pages: PageMap, roles: Roles, chains: seq<seq<Pgno>>,
                           data: DataMap, keys: KeyMap)
  {
    ChainInv(h, pages, roles, chains) && KeyInv(h, hash, pages, roles, data, keys)
  }

  lemma KeyStateFrame(h: Header, hash: Bytes -> nat, pages: PageMap, roles: Roles, chains: seq<seq<Pgno>>,
                      data: DataMap, keys: KeyMap, h': Header, pages': PageMap, roles': Roles, data': DataMap)
    requires KeyState(h, hash, pages, roles, chains, data, keys) && LevelsOk(h) && HdrStep(h, h')
    requires KeepChains(pages, roles, pages', roles') && KeepData(pages, pages', data, data')
    ensures KeyState(h', hash, pages', roles', chains, data', keys)
  {
    hide LevelsOk;
    ChainFrame(h, pages, roles, chains, h', pages', roles');
    KeyFrame(h, hash, pages, roles, data, keys, h', pages', roles', data');
  }

  /** The key layer does not notice a change of the data layer. */
  lemma AfterData(h: Header, hash: Bytes -> nat, pages: PageMap, roles: Roles, chains: seq<seq<Pgno>>,
                  data: DataMap, keys: KeyMap, h': Header, pages': PageMap, roles': Roles, data': DataMap)
    requires KeyState(h, hash, pages, roles, chains, data, keys) && LevelsOk(h) && HdrStep(h, h')
    requires KeepKeys(pages, roles, pages', roles') && SameBack(pages, pages', data)
    requires DataInv(h'.bsize, pages', roles', data')
    requires forall k :: k in data ==> k in data' && data'[k] == data[k]
    ensures KeyState(h', hash, pages', roles', chains, data', keys)
  {
    hide LevelsOk, DataInv, KeyState;
    KeepChainsOf(pages, roles, pages', roles');
    DataKept(h'.bsize, pages, pages', roles', data, data');
    KeyStateFrame(h, hash, pages, roles, chains, data, keys, h', pages', roles', data');
  }

  lemma KeepChainsOf(pages: PageMap, roles: Roles, pages': PageMap, roles': Roles)
    requires KeepKeys(pages, roles, pages', roles')
    ensures KeepChains(pages, roles, pages', roles')
  {
  }

  /** The key layer does not notice that a page is taken. */
  lemma AfterTake(h: Header, hash: Bytes -> nat, pages: PageMap, roles: Roles, chains: seq<seq<Pgno>>,
                  data: DataMap, keys: KeyMap, h': Header, pages': PageMap, roles': Roles, num: Pgno)
    requires KeyState(h, hash, pages, roles, chains, data, keys) && LevelsOk(h) && HdrStep(h, h')
    requires Taken(roles, roles', num) && KeptPages(pages, pages', roles)
    requires DataInv(h.bsize, pages, roles, data) && LinksOk(pages, roles)
    ensures KeyState(h', hash, pages', roles', chains, data, keys)
    ensures DataInv(h'.bsize, pages', roles', data) && LinksOk(pages', roles')
  {
    hide LevelsOk, DataInv, KeyState, LinksOk;
    TakeKeepsData(h.bsize, pages, roles, data, pages', roles', num);
    DataKept(h.bsize, pages, pages', roles', data, data);
    TakeKeepsChains(pages, roles, pages', roles', num);
    KeyStateFrame(h, hash, pages, roles, chains, data, keys, h', pages', roles', data);
  }

  lemma TakeKeepsChains(pages: PageMap, roles: Roles, pages': PageMap, roles': Roles, num: Pgno)
    requires Taken(roles, roles', num) && KeptPages(pages, pages', roles)
    ensures KeepChains(pages, roles, pages', roles')
  {
  }

  // ---------------------------------------------------------------- searching

  /** A key that is stored is on the chain of its bucket. */
  lemma KeyOnChain(h: Header, hash: Bytes -> nat, pages: PageMap, roles: Roles, chains: seq<seq<Pgno>>,
                   data: DataMap, keys: KeyMap, k: Bytes)
    requires KeyState(h, hash, pages, roles, chains, data, keys) && k in keys
    ensures var b := CallHash(h, hash(k));
      && b < |chains|
      && (exists i :: 0 <= i < |chains[b]| && chains[b][i] == keys[k].page
            && keys[k].idx < |Ents(pages, chains[b][i])| && Ents(pages, chains[b][i])[keys[k].idx].key == k)
  {
    assert KeyAt(h, hash, pages, roles, data, k, keys[k]);
    var p := keys[k].page;
    assert p in roles && roles[p].Chain?;
    assert chains[roles[p].b][roles[p].i] == p;
  }

  /** A stored key lies on the chain of the bucket that plain arithmetic gives for its hash value. */
  lemma KeyInBucket(h: Header, hash: Bytes -> nat, pages: PageMap, roles: Roles, chains: seq<seq<Pgno>>,
                    data: DataMap, keys: KeyMap, k: Bytes)
    requires KeyState(h, hash, pages, roles, chains, data, keys) && MasksOk(h) && k in keys
    ensures var b := BucketOf(h.ovflPoint, h.maxBucket, hash(k)); b < |chains| && keys[k].page in chains[b]
  {
    hide KeyState, CallHash;
    HashIs(h, hash(k));
    KeyOnChain(h, hash, pages, roles, chains, data, keys, k);
  }

  /** An entry on a chain page is the stored key it names. */
  lemma EntryIsKey(h: Header, hash: Bytes -> nat, pages: PageMap, roles: Roles, chains: seq<seq<Pgno>>,
                   data: DataMap, keys: KeyMap, b: nat, i: nat, e: nat)
    requires KeyState(h, hash, pages, roles, chains, data, keys) && b < |chains| && i < |chains[b]|
    requires e < |Ents(pages, chains[b][i])|
    ensures var p := chains[b][i]; var k := Ents(pages, p)[e].key;
      && k in keys && keys[k] == Loc(p, e) && k in data && PtrOk(Ents(pages, p)[e].datap, data[k])
      && BackPtrOk(pages, data[k], keys[k]) && KeySizeOk(h.bsize, k) && CallHash(h, hash(k)) == b
  {
    assert ChainOk(h, pages, roles, b, chains[b]);
    var p := chains[b][i];
    assert p in roles && roles[p] == Chain(b, i);
    var k := Ents(pages, p)[e].key;
    assert KeyAt(h, hash, pages, roles, data, k, keys[k]);
  }

  /** Inserting one entry keeps the whole key layer. */
  lemma StateInsert(h: Header, hash: Bytes -> nat, pages: PageMap, roles: Roles, chains: seq<seq<Pgno>>,
                    data: DataMap, keys: KeyMap, b: nat, i: nat, e: Entry)
    requires KeyState(h, hash, pages, roles, chains, data, keys) && BsizeOk(h.bsize)
    requires b < |chains| && i < |chains[b]| && b == CallHash(h, hash(e.key))
    requires var pg := GetCreate(pages, h.bsize, chains[b][i], TKey); pg.KeyPage? && PairFits(pg, |e.key|)
    requires e.key !in keys && KeySizeOk(h.bsize, e.key)
    requires e.key in data && PtrOk(e.datap, data[e.key])
    requires HasHeader(pages, data[e.key])
    requires BackHeader(pages, data[e.key]) == Loc(chains[b][i], |Ents(pages, chains[b][i])|)
    requires DataInv(h.bsize, pages, roles, data) && LinksOk(pages, roles)
    ensures var p := chains[b][i];
      var pages' := pages[p := AddEntry(GetCreate(pages, h.bsize, p, TKey), e)];
      && KeyState(h, hash, pages', roles, chains, data, keys[e.key := Loc(p, |Ents(pages, p)|)])
      && p in roles && roles[p] == Chain(b, i)
      && DataInv(h.bsize, pages', roles, data) && LinksOk(pages', roles)
  {
    hide DataInv, LinksOk, AddEntry, KeyInv, ChainInv, GetCreate;
    var p := chains[b][i];
    ChainPageAt(h, pages, roles, chains, b, i);
    ChainInsert(h, pages, roles, chains, b, i, e);
    var pages' := pages[p := AddEntry(GetCreate(pages, h.bsize, p, TKey), e)];
    AddEntryFields(GetCreate(pages, h.bsize, p, TKey), e);
    ChainPageKind(h, pages, roles, chains, b, i);
    KeyInsert(h, hash, pages, roles, data, keys, p, pages', e);
    KeyWriteKeepsData(h.bsize, pages, roles, pages', roles, data);
    LinksFrame(pages, roles, pages', roles);
  }

  lemma ChainPageKind(h: Header, pages: PageMap, roles: Roles, chains: seq<seq<Pgno>>, b: nat, i: nat)
    requires ChainInv(h, pages, roles, chains) && b < |chains| && i < |chains[b]|
    ensures chains[b][i] in pages ==> pages[chains[b][i]].KeyPage?
  {
    assert ChainOk(h, pages, roles, b, chains[b]);
    assert ChainPageOk(h.bsize, pages, chains[b], i);
  }

  /** Extending a chain by a page with one entry keeps the whole key layer. */
  lemma StateExtend(h: Header, hash: Bytes -> nat, pages: PageMap, roles: Roles, chains: seq<seq<Pgno>>,
                    data: DataMap, keys: KeyMap, b: nat, n: Pgno, e: Entry)
    requires KeyState(h, hash, pages, roles, chains, data, keys) && BsizeOk(h.bsize)
    requires b < |chains| && chains[b] != [] && b == CallHash(h, hash(e.key))
    requires Ents(pages, chains[b][|chains[b]| - 1]) != []
    requires n in roles && roles[n].Held?
    requires e.key !in keys && KeySizeOk(h.bsize, e.key)
    requires e.key in data && PtrOk(e.datap, data[e.key])
    requires HasHeader(pages, data[e.key]) && BackHeader(pages, data[e.key]) == Loc(n, 0)
    requires DataInv(h.bsize, pages, roles, data) && LinksOk(pages, roles)
    ensures var last := chains[b][|chains[b]| - 1];
      && last in pages && last in roles && roles[last] == Chain(b, |chains[b]| - 1)
      && var pages' := pages[last := SetNext(pages[last], n)]
                            [n := AddEntry(SetPrev(InitPage(h.bsize, n, TKey), last), e)];
      var roles' := roles[n := Chain(b, |chains[b]|)];
      && KeyState(h, hash, pages', roles', chains[b := chains[b] + [n]], data, keys[e.key := Loc(n, 0)])
      && DataInv(h.bsize, pages', roles', data) && LinksOk(pages', roles')
  {
    hide DataInv, LinksOk, AddEntry, KeyInv, ChainInv, GetCreate;
    var last := chains[b][|chains[b]| - 1];
    ChainPageKind(h, pages, roles, chains, b, |chains[b]| - 1);
    ChainExtend(h, pages, roles, chains, b, n, e);
    var pg := SetPrev(InitPage(h.bsize, n, TKey), last);
    AddEntryFields(pg, e);
    var pages' := pages[last := SetNext(pages[last], n)][n := AddEntry(pg, e)];
    var roles' := roles[n := Chain(b, |chains[b]|)];
    SpansAreData(h.bsize, pages, roles, data);
    KeyExtend(h, hash, pages, roles, data, keys, last, n, b, |chains[b]|, e, pages');
    KeyWriteKeepsData(h.bsize, pages, roles, pages', roles', data);
    LinksFrame(pages, roles, pages', roles');
  }

  lemma SpansAreData(bsize: nat, pages: PageMap, roles: Roles, data: DataMap)
    requires DataInv(bsize, pages, roles, data)
    ensures forall k :: k in data && |data[k].span| >= 1 ==> data[k].span[0] in roles && roles[data[k].span[0]].Data?
  {
    hide PartOk, Flat;
    forall k | k in data && |data[k].span| >= 1
      ensures data[k].span[0] in roles && roles[data[k].span[0]].Data?
    {
      assert DatumOk(bsize, pages, roles, k, data[k]);
      PartPage(bsize, pages, roles, k, data[k], 0);
    }
  }

  lemma HeaderThere(bsize: nat, pages: PageMap, roles: Roles, data: DataMap, k: Bytes)
    requires DataInv(bsize, pages, roles, data) && k in data
    ensures HasHeader(pages, data[k])
  {
  }

  // ---------------------------------------------------------------- re-pointing a pending key

  /** The key layer does not notice that a datum not on any chain is pointed elsewhere. */
  lemma AfterRepoint(h: Header, hash: Bytes -> nat, pages: PageMap, roles: Roles, chains: seq<seq<Pgno>>,
                     data: DataMap, keys: KeyMap, pages': PageMap, k: Bytes)
    requires KeyState(h, hash, pages, roles, chains, data, keys) && LevelsOk(h) && k !in keys
    requires h.ovflPoint + 1 < |h.spares|
    requires KeepKeys(pages, roles, pages', roles) && DataInv(h.bsize, pages', roles, data)
    requires forall x :: x in data && x != k ==> BackHeader(pages', data[x]) == BackHeader(pages, data[x])
    ensures KeyState(h, hash, pages', roles, chains, data, keys)
  {
    hide LevelsOk, DataInv, KeyAt, ChainInv;
    var data0 := map x | x in data && x != k :: data[x];
    KeepChainsOf(pages, roles, pages', roles);
    forall x | x in data0
      ensures x in data && data[x] == data0[x] && HasHeader(pages', data0[x])
    {
      HeaderThere(h.bsize, pages', roles, data, x);
    }
    forall x | x in keys
      ensures KeyAt(h, hash, pages, roles, data0, x, keys[x])
    {
      assert KeyAt(h, hash, pages, roles, data, x, keys[x]);
      KeyAtInData(h, hash, pages, roles, data, x, keys[x]);
      KeyAtForget(h, hash, pages, roles, data, data0, x, keys[x]);
    }
    assert HdrStep(h, h);
    KeyStateFrame(h, hash, pages, roles, chains, data0, keys, h, pages', roles, data);
  }

  lemma KeyAtInData(h: Header, hash: Bytes -> nat, pages: PageMap, roles: Roles, data: DataMap, x: Bytes, loc: Loc)
    requires KeyAt(h, hash, pages, roles, data, x, loc)
    ensures x in data
  {
  }

  lemma KeyAtForget(h: Header, hash: Bytes -> nat, pages: PageMap, roles: Roles, data: DataMap, data0: DataMap,
                    x: Bytes, loc: Loc)
    requires KeyAt(h, hash, pages, roles, data, x, loc)
    requires x in data0 && x in data && data0[x] == data[x]
    ensures KeyAt(h, hash, pages, roles, data0, x, loc)
  {
  }

  // ---------------------------------------------------------------- stored pairs

  /** The stored pairs: each key with the data pointer next to it. */
  ghost function Pairs(pages: PageMap, keys: KeyMap): map<Bytes, DataPtr> {
    map k | k in keys && keys[k].idx < |Ents(pages, keys[k].page)| :: Ents(pages, keys[k].page)[keys[k].idx].datap
  }

  lemma KeyEntry(h: Header, hash: Bytes -> nat, pages: PageMap, roles: Roles, data: DataMap, k: Bytes, loc: Loc)
    requires KeyAt(h, hash, pages, roles, data, k, loc)
    ensures loc.page in roles && roles[loc.page].Chain? && loc.idx < |Ents(pages, loc.page)|
  {
  }

  /** While the entries of key pages stay, so do the pairs. */
  lemma PairsFrame(h: Header, hash: Bytes -> nat, pages: PageMap, roles: Roles, chains: seq<seq<Pgno>>,
                   data: DataMap, keys: KeyMap, pages': PageMap)
    requires KeyState(h, hash, pages, roles, chains, data, keys)
    requires forall p :: p in roles && roles[p].Chain? ==> Ents(pages, p) <= Ents(pages', p)
    ensures Pairs(pages', keys) == Pairs(pages, keys)
  {
    hide ChainInv, KeyAt, Ents;
    forall k | k in keys
      ensures keys[k].idx < |Ents(pages, keys[k].page)| && Ents(pages, keys[k].page) <= Ents(pages', keys[k].page)
    {
      KeyEntry(h, hash, pages, roles, data, k, keys[k]);
    }
  }

  /** A page with room for the smallest pair: an empty page takes any allowed key. */
  lemma EmptyFits(bsize: nat, pg: Page, ksize: nat)
    requires pg.KeyPage? && LayoutOk(bsize, pg) && pg.ents == [] && ksize + 59 <= bsize
    ensures PairFits(pg, ksize)
  {
  }

  // ---------------------------------------------------------------- replacing a data pointer

  /** The page with the data pointer of entry x replaced in place. */
  function SetPointer(pg: Page, x: nat, dp: DataPtr): Page
    requires pg.KeyPage? && x < |pg.ents|
  {
    pg.(ents := pg.ents[x := pg.ents[x].(datap := dp)])
  }

  /** The layout of a page depends on the key lengths only. */
  lemma {:induction false} SameLayout(bsize: nat, a: seq<Entry>, b: seq<Entry>)
    requires |a| == |b| && forall i :: 0 <= i < |a| ==> |a[i].key| == |b[i].key|
    ensures LayoutOffset(bsize, a) == LayoutOffset(bsize, b)
  {
    if a != [] {
      SameLayout(bsize, a[..|a| - 1], b[..|b| - 1]);
    }
  }

  lemma SetPointerLayout(bsize: nat, pg: Page, x: nat, dp: DataPtr)
    requires pg.KeyPage? && x < |pg.ents| && LayoutOk(bsize, pg)
    ensures LayoutOk(bsize, SetPointer(pg, x, dp))
  {
    SameLayout(bsize, pg.ents, SetPointer(pg, x, dp).ents);
  }

  lemma ChainReplace(h: Header, pages: PageMap, roles: Roles, chains: seq<seq<Pgno>>, p: Pgno, x: nat, dp: DataPtr)
    requires ChainInv(h, pages, roles, chains) && p in roles && roles[p].Chain?
    requires p in pages && pages[p].KeyPage? && x < |pages[p].ents|
    ensures ChainInv(h, pages[p := SetPointer(pages[p], x, dp)], roles, chains)
  {
    hide BucketPage, LayoutOk;
    var pages' := pages[p := SetPointer(pages[p], x, dp)];
    forall b | 0 <= b < |chains|
      ensures ChainOk(h, pages', roles, b, chains[b])
    {
      assert ChainOk(h, pages, roles, b, chains[b]);
      forall i | 0 <= i < |chains[b]|
        ensures ChainPageOk(h.bsize, pages', chains[b], i)
      {
        assert ChainPageOk(h.bsize, pages, chains[b], i);
        if chains[b][i] == p {
          SetPointerLayout(h.bsize, pages[p], x, dp);
        }
      }
    }
  }

  /** The entry of k has the pointer to the replaced datum; no other key notices. */
  lemma KeyReplace(h: Header, hash: Bytes -> nat, pages: PageMap, roles: Roles, data: DataMap, keys: KeyMap,
                   k: Bytes, dp: DataPtr, d: Datum, pages1: PageMap, pages2: PageMap)
    requires KeyInv(h, hash, pages, roles, data, keys) && k in keys && k in data
    requires var p := keys[k].page;
      && p in pages && pages[p].KeyPage? && p in roles && roles[p].Chain? && keys[k].idx < |pages[p].ents|
      && pages1 == pages[p := SetPointer(pages[p], keys[k].idx, dp)]
    requires KeepChains(pages1, roles, pages2, roles) && PtrOk(dp, d)
    requires forall x :: x in data && x != k ==> HasHeader(pages2, data[x]) && BackHeader(pages2, data[x]) == BackHeader(pages, data[x])
    requires HasHeader(pages2, d) && BackHeader(pages2, d) == BackHeader(pages, data[k])
    ensures KeyInv(h, hash, pages2, roles, data[k := d], keys)
  {
    var p := keys[k].page;
    assert SamePage(pages1, pages2, p);
    assert KeyAt(h, hash, pages, roles, data, k, keys[k]);
    forall x | x in keys
      ensures KeyAt(h, hash, pages2, roles, data[k := d], x, keys[x])
    {
      assert KeyAt(h, hash, pages, roles, data, x, keys[x]);
      assert SamePage(pages1, pages2, keys[x].page);
      if x != k {
        KeyAtReplaced(h, hash, pages, roles, data, k, keys[k].idx, p, dp, d, pages2, x, keys[x]);
      }
    }
    forall q, e | q in roles && roles[q].Chain? && 0 <= e < |Ents(pages2, q)|
      ensures Ents(pages2, q)[e].key in keys && keys[Ents(pages2, q)[e].key] == Loc(q, e)
    {
      assert SamePage(pages1, pages2, q);
      assert Ents(pages, q)[e].key == Ents(pages2, q)[e].key;
    }
  }

  lemma KeyAtReplaced(h: Header, hash: Bytes -> nat, pages: PageMap, roles: Roles, data: DataMap,
                      k: Bytes, i: nat, p: Pgno, dp: DataPtr, d: Datum, pages2: PageMap, x: Bytes, loc: Loc)
    requires KeyAt(h, hash, pages, roles, data, x, loc) && x != k
    requires p in pages && pages[p].KeyPage? && i < |pages[p].ents| && pages[p].ents[i].key == k
    requires SamePage(pages[p := SetPointer(pages[p], i, dp)], pages2, loc.page)
    requires HasHeader(pages2, data[x]) && BackHeader(pages2, data[x]) == BackHeader(pages, data[x])
    ensures KeyAt(h, hash, pages2, roles, data[k := d], x, loc)
  {
    assert loc != Loc(p, i);
  }

  /** Replacing a datum and its pointer keeps the key layer. */
  lemma StateReplace(h: Header, hash: Bytes -> nat, pages: PageMap, roles: Roles, chains: seq<seq<Pgno>>,
                     data: DataMap, keys: KeyMap, k: Bytes, dp: DataPtr, d: Datum, pages1: PageMap, pages2: PageMap)
    requires KeyState(h, hash, pages, roles, chains, data, keys) && LevelsOk(h) && h.ovflPoint + 1 < |h.spares|
    requires k in keys && k in data
    requires var p := keys[k].page;
      && p in pages && pages[p].KeyPage? && p in roles && roles[p].Chain? && keys[k].idx < |pages[p].ents|
      && pages1 == pages[p := SetPointer(pages[p], keys[k].idx, dp)]
    requires KeepKeys(pages1, roles, pages2, roles) && PtrOk(dp, d)
    requires DataInv(h.bsize, pages2, roles, data[k := d])
    requires SameBack(pages, pages1, data) && SameBack(pages1, pages2, data)
    requires BackHeader(pages2, d) == BackHeader(pages1, data[k])
    ensures KeyState(h, hash, pages2, roles, chains, data[k := d], keys)
  {
    hide LevelsOk, DataInv, KeyInv, ChainInv, PtrOk, BackHeader;
    KeepChainsOf(pages1, roles, pages2, roles);
    ChainReplace(h, pages, roles, chains, keys[k].page, keys[k].idx, dp);
    ChainFrame(h, pages1, roles, chains, h, pages2, roles);
    var data' := data[k := d];
    HeaderThere(h.bsize, pages2, roles, data', k);
    forall x | x in data && x != k
      ensures HasHeader(pages2, data[x]) && BackHeader(pages2, data[x]) == BackHeader(pages, data[x])
    {
      HeaderThere(h.bsize, pages2, roles, data', x);
    }
    KeyReplace(h, hash, pages, roles, data, keys, k, dp, d, pages1, pages2);
  }

  /** A key page in a chain may be written without the data layer noticing. */
  lemma PointerWrite(bsize: nat, pages: PageMap, roles: Roles, data: DataMap, p: Pgno, pg: Page)
    requires DataInv(bsize, pages, roles, data) && LinksOk(pages, roles) && p in roles && roles[p].Chain?
    ensures DataInv(bsize, pages[p := pg], roles, data) && LinksOk(pages[p := pg], roles)
    ensures SameBack(pages, pages[p := pg], data)
  {
    hide DataInv, LinksOk;
    KeyWriteKeepsData(bsize, pages, roles, pages[p := pg], roles, data);
    LinksFrame(pages, roles, pages[p := pg], roles);
  }

  // ---------------------------------------------------------------- the key count

  /** No layer reads the number of keys. */
  lemma CountKeepsState(h: Header, n: nat, hash: Bytes -> nat, curr: Pgno, pages: PageMap, roles: Roles, fchain: seq<seq<Pgno>>,
                        chains: seq<seq<Pgno>>, data: DataMap, keys: KeyMap)
    requires BaseInv(h, curr, pages, roles, fchain) && CurrOk(h, curr, pages, roles)
    requires KeyState(h, hash, pages, roles, chains, data, keys)
    ensures var h' := h.(nkeys := n);
      && BaseInv(h', curr, pages, roles, fchain) && CurrOk(h', curr, pages, roles)
      && KeyState(h', hash, pages, roles, chains, data, keys)
  {
    hide FreeInv, InPool, LevelsOk, AllocOk, ChainInv, KeyInv;
    BaseBounds(h, curr, pages, roles, fchain);
    CountKeepsLevels(h, n);
    CountKeepsAlloc(h, n, roles);
    CountKeepsChains(h, n, pages, roles, chains);
    CountKeepsKeys(h, n, hash, pages, roles, data, keys);
  }

  lemma CountKeepsChains(h: Header, n: nat, pages: PageMap, roles: Roles, chains: seq<seq<Pgno>>)
    requires ChainInv(h, pages, roles, chains)
    ensures ChainInv(h.(nkeys := n), pages, roles, chains)
  {
  }

  lemma CountKeepsKeys(h: Header, n: nat, hash: Bytes -> nat, pages: PageMap, roles: Roles, data: DataMap, keys: KeyMap)
    requires KeyInv(h, hash, pages, roles, data, keys)
    ensures KeyInv(h.(nkeys := n), hash, pages, roles, data, keys)
  {
  }

  lemma CountKeepsLevels(h: Header, n: nat)
    requires LevelsOk(h)
    ensures LevelsOk(h.(nkeys := n))
    ensures forall p :: InPool(h, p) ==> InPool(h.(nkeys := n), p)
  {
  }

  lemma CountKeepsAlloc(h: Header, n: nat, roles: Roles)
    requires LevelsOk(h) && AllocOk(h, roles)
    ensures 1 <= h.ovflPoint && h.ovflPoint + 1 < |h.spares| && AllocOk(h.(nkeys := n), roles)
  {
  }
}
