/** Splitting a bucket: the new bucket page, taking a chain apart, giving its pages back. */
module Split {
  import opened Bits
  import opened Pages
  import opened Levels
  import opened StoreInv
  import opened BaseLemmas
  import opened DataLemmas
  import opened DataSteps
  import opened KeyLemmas

  // ---------------------------------------------------------------- one more bucket

  /** The bucket page that the expansion adds is not in use. */
  lemma NewBucketPage(h: Header, curr: Pgno, pages: PageMap, roles: Roles, fchain: seq<seq<Pgno>>)
    requires BaseInv(h, curr, pages, roles, fchain) && curr != INVALID_PGNO && h.ovflPoint + 2 < NCACHED
    ensures LevelsOk(Grow(h)) && 1 <= Grow(h).ovflPoint && Grow(h).ovflPoint + 1 < |Grow(h).spares|
    ensures var np := BucketPage(Grow(h), h.maxBucket + 1);
      np !in roles && np > 0 && !InPool(Grow(h), np)
  {
    hide InPool, FreeInv, BucketPage, Grow;
    GrowKeeps(h);
    GrowMasks(h);
    GrowCount(h);
    var h' := Grow(h);
    var np := BucketPage(h', h.maxBucket + 1);
    BucketPageRange(h', h.maxBucket + 1);
    if InPool(h', np) {
      PoolIsNotBucket(h', h.maxBucket + 1, np);
    }
    if np in roles && roles[np].Chain? && roles[np].i == 0 {
      BucketPageInjective(h', roles[np].b, h.maxBucket + 1);
    }
  }

  lemma GrowCount(h: Header)
    requires MasksOk(h)
    ensures Grow(h).maxBucket == h.maxBucket + 1 && Grow(h).highMask >= h.highMask
    ensures Grow(h) == h.(ovflPoint := Grow(h).ovflPoint, maxBucket := h.maxBucket + 1,
                          highMask := Grow(h).highMask, lowMask := Grow(h).lowMask)
  {
    hide Log2, BitOr;
    GrowMasks(h);
  }

  lemma GrowBsize(h: Header)
    ensures Grow(h).bsize == h.bsize
  {
  }

  /** The current data page after the expansion: none when a level was added. */
  function CurrAfterGrow(h: Header, curr: Pgno): Pgno {
    if Grow(h).ovflPoint > h.ovflPoint then INVALID_PGNO else curr
  }

  lemma GrowCurrStarted(h: Header, curr: Pgno)
    requires LevelsOk(h) && CurrStarted(h, curr) && curr != INVALID_PGNO && h.ovflPoint + 2 < NCACHED
    ensures Grow(h).ovflPoint + 1 < |Grow(h).spares| && CurrStarted(Grow(h), CurrAfterGrow(h, curr))
  {
    hide Log2, BitOr;
    GrowMasks(h);
    GrowKeeps(h);
  }

  lemma GrowAlloc(h: Header, roles: Roles)
    requires LevelsOk(h) && AllocOk(h, roles) && h.ovflPoint + 2 < NCACHED && h.spares[h.ovflPoint + 1] != 0
    ensures LevelsOk(Grow(h)) && AllocOk(Grow(h), roles)
  {
    hide InPool, BucketPage, Grow;
    GrowKeeps(h);
    GrowCount(h);
  }

  /** The allocation layer after the header grew. */
  lemma BaseGrow(h: Header, curr: Pgno, pages: PageMap, roles: Roles, fchain: seq<seq<Pgno>>)
    requires BaseInv(h, curr, pages, roles, fchain) && curr != INVALID_PGNO && h.ovflPoint + 2 < NCACHED
    requires CurrOk(h, curr, pages, roles)
    ensures BaseInv(Grow(h), CurrAfterGrow(h, curr), pages, roles, fchain)
    ensures CurrOk(Grow(h), CurrAfterGrow(h, curr), pages, roles)
  {
    hide InPool, FreeInv, BucketPage, Grow, AllocOk, LevelsOk;
    BaseBounds(h, curr, pages, roles, fchain);
    GrowAlloc(h, roles);
    GrowCount(h);
    GrowCurrStarted(h, curr);
    GrowPool(h);
    LevelsBounds(Grow(h));
  }

  lemma LevelsBounds(h: Header)
    requires LevelsOk(h)
    ensures 1 <= h.ovflPoint && h.ovflPoint + 1 < |h.spares| == NCACHED
  {
  }

  lemma GrowPool(h: Header)
    requires LevelsOk(h) && h.ovflPoint + 2 < NCACHED && h.spares[h.ovflPoint + 1] != 0
    ensures LevelsOk(Grow(h)) && PoolGrows(h, Grow(h))
  {
    hide InPool, BucketPage, Grow;
    GrowKeeps(h);
  }

  // ---------------------------------------------------------------- taking a chain apart

  predicate Detaches(r: Role, b: nat) {
    r.Chain? && r.b == b && r.i > 0
  }

  /** The new bucket has its page; the overflow pages of bucket b are in the hands of the split. */
  function Detached(roles: Roles, b: nat, n: nat, np: Pgno): Roles {
    map p | p in roles.Keys + {np} ::
      if p == np then Chain(n, 0) else if Detaches(roles[p], b) then Held else roles[p]
  }

  /** The base page of bucket b and the page of the new bucket are empty. */
  function SplitPages(bsize: nat, pages: PageMap, op: Pgno, np: Pgno): PageMap {
    pages[np := InitPage(bsize, np, TKey)][op := InitPage(bsize, op, TKey)]
  }

  function OtherKeys(roles: Roles, keys: KeyMap, b: nat): KeyMap {
    map k | k in keys && keys[k].page in roles && roles[keys[k].page].Chain? && roles[keys[k].page].b != b :: keys[k]
  }

  lemma DetachAlloc(h: Header, roles: Roles, b: nat, np: Pgno)
    requires 1 <= h.ovflPoint && h.ovflPoint + 1 < |h.spares| && AllocOk(h, roles)
    requires np == BucketPage(h, h.maxBucket)
    ensures AllocOk(h, Detached(roles, b, h.maxBucket, np))
  {
  }

  lemma DetachBase(h: Header, curr: Pgno, pages: PageMap, roles: Roles, fchain: seq<seq<Pgno>>, b: nat, op: Pgno, np: Pgno)
    requires BaseInv(h, curr, pages, roles, fchain) && CurrOk(h, curr, pages, roles)
    requires np == BucketPage(h, h.maxBucket) && np !in roles && !InPool(h, np)
    requires op in roles && roles[op] == Chain(b, 0)
    ensures var pages', roles' := SplitPages(h.bsize, pages, op, np), Detached(roles, b, h.maxBucket, np);
      BaseInv(h, curr, pages', roles', fchain) && CurrOk(h, curr, pages', roles')
  {
    hide InPool, FreeInv, AllocOk, LevelsOk, BucketPage, InitPage;
    BaseBounds(h, curr, pages, roles, fchain);
    DetachAlloc(h, roles, b, np);
    BaseFrame(h, curr, pages, roles, fchain, SplitPages(h.bsize, pages, op, np), Detached(roles, b, h.maxBucket, np));
  }

  lemma DetachData(bsize: nat, pages: PageMap, roles: Roles, data: DataMap, b: nat, n: nat, op: Pgno, np: Pgno)
    requires DataInv(bsize, pages, roles, data) && LinksOk(pages, roles)
    requires np !in roles && op in roles && roles[op] == Chain(b, 0)
    ensures var pages', roles' := SplitPages(bsize, pages, op, np), Detached(roles, b, n, np);
      && DataInv(bsize, pages', roles', data) && LinksOk(pages', roles')
      && KeepData(pages, pages', data, data)
  {
    hide DataInv, LinksOk, InitPage;
    var pages', roles' := SplitPages(bsize, pages, op, np), Detached(roles, b, n, np);
    KeyWriteKeepsData(bsize, pages, roles, pages', roles', data);
    LinksFrame(pages, roles, pages', roles');
  }

  lemma DetachChains(h: Header, h': Header, pages: PageMap, roles: Roles, chains: seq<seq<Pgno>>, b: nat, np: Pgno)
    requires ChainInv(h, pages, roles, chains) && BsizeOk(h.bsize) && b < |chains|
    requires h'.bsize == h.bsize && h'.maxBucket == h.maxBucket + 1
    requires forall x: nat :: x <= h.maxBucket ==> BucketPage(h', x) == BucketPage(h, x)
    requires np == BucketPage(h', h'.maxBucket) && np !in roles
    ensures |chains[b]| >= 1 && chains[b][0] in roles && roles[chains[b][0]] == Chain(b, 0)
    ensures var op := chains[b][0];
      ChainInv(h', SplitPages(h.bsize, pages, op, np), Detached(roles, b, h'.maxBucket, np),
               chains[b := [op]] + [[np]])
  {
    hide BucketPage, LayoutOk, InitPage;
    assert ChainOk(h, pages, roles, b, chains[b]);
    var op := chains[b][0];
    assert roles[chains[b][0]] == Chain(b, 0);
    var n := h'.maxBucket;
    var pages', roles' := SplitPages(h.bsize, pages, op, np), Detached(roles, b, n, np);
    var chains' := chains[b := [op]] + [[np]];
    InitChainPage(h.bsize, op);
    InitChainPage(h.bsize, np);
    forall x | 0 <= x < |chains'|
      ensures ChainOk(h', pages', roles', x, chains'[x])
    {
      if x != b && x != n {
        assert ChainOk(h, pages, roles, x, chains[x]);
        DetachOther(h, h', pages, roles, b, op, np, x, chains[x]);
      } else if x == b {
        assert ChainPageOk(h.bsize, pages', [op], 0);
      } else {
        assert ChainPageOk(h.bsize, pages', [np], 0);
      }
    }
    forall p | p in roles' && roles'[p].Chain?
      ensures roles'[p].b < |chains'| && roles'[p].i < |chains'[roles'[p].b]|
      ensures chains'[roles'[p].b][roles'[p].i] == p
    {
      if p != np {
        assert chains[roles[p].b][roles[p].i] == p;
      }
    }
  }

  lemma DetachOther(h: Header, h': Header, pages: PageMap, roles: Roles, b: nat, op: Pgno, np: Pgno, x: nat, c: seq<Pgno>)
    requires ChainOk(h, pages, roles, x, c) && x != b
    requires h'.bsize == h.bsize && BucketPage(h', x) == BucketPage(h, x)
    requires np !in roles && op in roles && roles[op] == Chain(b, 0)
    ensures ChainOk(h', SplitPages(h.bsize, pages, op, np), Detached(roles, b, h'.maxBucket, np), x, c)
  {
    hide BucketPage, LayoutOk, InitPage, ChainPageOk;
    var pages', roles' := SplitPages(h.bsize, pages, op, np), Detached(roles, b, h'.maxBucket, np);
    forall i | 0 <= i < |c|
      ensures c[i] in roles' && roles'[c[i]] == roles[c[i]] && SamePage(pages, pages', c[i])
    {
      var p := c[i];
      assert p in roles && roles[p] == Chain(x, i);
    }
    ChainOkFrame(h, pages, roles, h', pages', roles', x, c);
  }

  lemma InitChainPage(bsize: nat, p: Pgno)
    requires BsizeOk(bsize)
    ensures var pg := InitPage(bsize, p, TKey);
      pg.KeyPage? && pg.curr == p && pg.next == INVALID_PGNO && pg.prev == INVALID_PGNO && pg.ents == []
      && LayoutOk(bsize, pg)
  {
  }

  /** The keys of the other buckets stay where they are. */
  lemma DetachKeys(h: Header, hash: Bytes -> nat, pages: PageMap, roles: Roles, data: DataMap, keys: KeyMap,
                   b: nat, op: Pgno, np: Pgno)
    requires KeyInv(h, hash, pages, roles, data, keys) && MasksOk(h)
    requires np !in roles && op in roles && roles[op] == Chain(b, 0) && b == SplitBucketOf(h)
    requires forall p :: p in roles && roles[p] == Chain(b, 0) ==> p == op
    requires KeepData(pages, SplitPages(h.bsize, pages, op, np), data, data)
    ensures KeyInv(Grow(h), hash, SplitPages(h.bsize, pages, op, np), Detached(roles, b, h.maxBucket + 1, np), data,
                   OtherKeys(roles, keys, b))
  {
    hide Grow, CallHash, InitPage, KeepData, MasksOk;
    var h' := Grow(h);
    GrowCount(h);
    var pages', roles' := SplitPages(h.bsize, pages, op, np), Detached(roles, b, h.maxBucket + 1, np);
    var keys' := OtherKeys(roles, keys, b);
    InitEmpty(h.bsize, op);
    InitEmpty(h.bsize, np);
    forall k | k in keys'
      ensures KeyAt(h', hash, pages', roles', data, k, keys'[k])
    {
      assert KeyAt(h, hash, pages, roles, data, k, keys[k]);
      GrowMovesOnlySplit(h, hash(k));
      DetachKeyAt(h, hash, pages, roles, data, b, op, np, k, keys[k]);
    }
    DetachPlaces(h, hash, pages, roles, data, keys, b, op, np);
  }

  lemma DetachPlaces(h: Header, hash: Bytes -> nat, pages: PageMap, roles: Roles, data: DataMap, keys: KeyMap,
                     b: nat, op: Pgno, np: Pgno)
    requires KeyInv(h, hash, pages, roles, data, keys)
    requires np !in roles && op in roles && roles[op] == Chain(b, 0)
    requires forall p :: p in roles && roles[p] == Chain(b, 0) ==> p == op
    ensures var pages', roles', keys' := SplitPages(h.bsize, pages, op, np), Detached(roles, b, h.maxBucket + 1, np),
                                         OtherKeys(roles, keys, b);
      forall p, e :: p in roles' && roles'[p].Chain? && 0 <= e < |Ents(pages', p)| ==>
        Ents(pages', p)[e].key in keys' && keys'[Ents(pages', p)[e].key] == Loc(p, e)
  {
    hide InitPage, KeyAt;
    var pages', roles' := SplitPages(h.bsize, pages, op, np), Detached(roles, b, h.maxBucket + 1, np);
    var keys' := OtherKeys(roles, keys, b);
    InitEmpty(h.bsize, op);
    InitEmpty(h.bsize, np);
    forall p, e | p in roles' && roles'[p].Chain? && 0 <= e < |Ents(pages', p)|
      ensures Ents(pages', p)[e].key in keys' && keys'[Ents(pages', p)[e].key] == Loc(p, e)
    {
      assert p != op && p != np;
      assert roles'[p] == roles[p];
      assert Ents(pages', p) == Ents(pages, p);
      assert Ents(pages, p)[e].key in keys;
    }
  }

  lemma InitEmpty(bsize: nat, p: Pgno)
    ensures InitPage(bsize, p, TKey).KeyPage? && InitPage(bsize, p, TKey).ents == []
  {
  }

  lemma DetachKeyAt(h: Header, hash: Bytes -> nat, pages: PageMap, roles: Roles, data: DataMap,
                    b: nat, op: Pgno, np: Pgno, k: Bytes, loc: Loc)
    requires KeyAt(h, hash, pages, roles, data, k, loc) && roles[loc.page].b != b
    requires np !in roles && op in roles && roles[op] == Chain(b, 0)
    requires CallHash(Grow(h), hash(k)) == CallHash(h, hash(k)) && Grow(h).bsize == h.bsize
    requires KeepData(pages, SplitPages(h.bsize, pages, op, np), data, data)
    ensures KeyAt(Grow(h), hash, SplitPages(h.bsize, pages, op, np), Detached(roles, b, h.maxBucket + 1, np), data, k, loc)
  {
    hide Grow, CallHash, InitPage;
    var p := loc.page;
    assert p != np && p != op;
    assert SamePage(pages, SplitPages(h.bsize, pages, op, np), p);
  }

  // ---------------------------------------------------------------- giving a page back

  /** The key and data layers do not notice that a held page goes to a free list. */
  lemma AfterFree(h: Header, hash: Bytes -> nat, curr: Pgno, pages: PageMap, roles: Roles, chains: seq<seq<Pgno>>,
                  data: DataMap, keys: KeyMap, h': Header, pages': PageMap, roles': Roles, op: Pgno)
    requires KeyState(h, hash, pages, roles, chains, data, keys) && LevelsOk(h)
    requires DataInv(h.bsize, pages, roles, data) && LinksOk(pages, roles) && CurrOk(h, curr, pages, roles)
    requires h' == h.(freePages := h'.freePages)
    requires op in roles && roles[op].Held? && op in roles' && IsFree(roles'[op]) && roles' == roles[op := roles'[op]]
    requires pages'.Keys == pages.Keys + {op}
    requires forall p :: p in pages && p != op && !(p in roles && roles[p].FreeMap?) ==> pages'[p] == pages[p]
    ensures KeyState(h', hash, pages', roles', chains, data, keys)
    ensures DataInv(h'.bsize, pages', roles', data) && LinksOk(pages', roles') && CurrOk(h', curr, pages', roles')
    ensures Pairs(pages', keys) == Pairs(pages, keys)
  {
    hide KeyState, DataInv, LinksOk, InPool, CurrOk, Pairs;
    FreeKeepsData(h, curr, pages, roles, data, h', pages', roles', op);
    DataKept(h.bsize, pages, pages', roles', data, data);
    LevelsBounds(h);
    assert KeepChains(pages, roles, pages', roles') by {
      FreeKeepsChains(pages, roles, pages', roles', op);
    }
    KeyStateFrame(h, hash, pages, roles, chains, data, keys, h', pages', roles', data);
    assert forall p :: p in roles && roles[p].Chain? ==> SamePage(pages, pages', p);
    PairsFrame(h, hash, pages, roles, chains, data, keys, pages');
  }

  lemma FreeKeepsChains(pages: PageMap, roles: Roles, pages': PageMap, roles': Roles, op: Pgno)
    requires op in roles && roles[op].Held? && op in roles' && IsFree(roles'[op]) && roles' == roles[op := roles'[op]]
    requires pages'.Keys == pages.Keys + {op}
    requires forall p :: p in pages && p != op && !(p in roles && roles[p].FreeMap?) ==> pages'[p] == pages[p]
    ensures KeepChains(pages, roles, pages', roles')
  {
  }

  lemma FreeKeepsData(h: Header, curr: Pgno, pages: PageMap, roles: Roles, data: DataMap, h': Header,
                      pages': PageMap, roles': Roles, op: Pgno)
    requires DataInv(h.bsize, pages, roles, data) && LinksOk(pages, roles) && CurrOk(h, curr, pages, roles)
    requires h' == h.(freePages := h'.freePages)
    requires op in roles && roles[op].Held? && op in roles' && IsFree(roles'[op]) && roles' == roles[op := roles'[op]]
    requires pages'.Keys == pages.Keys + {op}
    requires forall p :: p in pages && p != op && !(p in roles && roles[p].FreeMap?) ==> pages'[p] == pages[p]
    ensures DataInv(h.bsize, pages', roles', data) && LinksOk(pages', roles') && CurrOk(h', curr, pages', roles')
    ensures SameBack(pages, pages', data)
  {
    hide DatumOk, GeomOk, InPool;
    DataFrame(h.bsize, pages, roles, data, pages', roles');
    LinksFrame(pages, roles, pages', roles');
    SameDataBack(h.bsize, pages, roles, data, pages', roles');
    assert InPool(h, curr) ==> InPool(h', curr) by {
      if InPool(h, curr) {
        SamePool(h, h');
      }
    }
  }

  // ---------------------------------------------------------------- progress of a split

  /** A whole store as a value. */
  datatype State = State(hdr: Header, curr: Pgno, pages: PageMap, roles: Roles, fchain: seq<seq<Pgno>>,
                         chains: seq<seq<Pgno>>, data: DataMap, keys: KeyMap)

  ghost predicate StateOk(s: State, hash: Bytes -> nat) {
    && BaseInv(s.hdr, s.curr, s.pages, s.roles, s.fchain) && CurrOk(s.hdr, s.curr, s.pages, s.roles)
    && DataInv(s.hdr.bsize, s.pages, s.roles, s.data) && LinksOk(s.pages, s.roles)
    && KeyState(s.hdr, hash, s.pages, s.roles, s.chains, s.data, s.keys)
  }

  ghost predicate NoHeld(roles: Roles) {
    forall p :: p in roles ==> !roles[p].Held?
  }

  /** The place is on the chain of bucket b, at or after entry i of page x. */
  predicate Later(roles: Roles, b: nat, x: nat, i: nat, loc: Loc) {
    && loc.page in roles && roles[loc.page].Chain? && roles[loc.page].b == b
    && (roles[loc.page].i > x || (roles[loc.page].i == x && loc.idx >= i))
  }

  /** The split of bucket b has come to entry i of page x of the old chain: the keys from
      there on are not stored, the pages from there on are untouched, every stored pair is
      one of the pairs before the split. */
  ghost predicate Pending(s: State, b: nat, x: nat, i: nat, pages: PageMap, roles: Roles, keys: KeyMap) {
    && b < |s.chains| && x < |s.chains[b]|
    && keys.Keys <= s.keys.Keys
    && (forall k :: k in s.keys ==> (k in keys <==> !Later(s.roles, b, x, i, s.keys[k])))
    && (forall j :: x <= j < |s.chains[b]| && 1 <= j ==>
          s.chains[b][j] in roles && roles[s.chains[b][j]].Held? && SamePage(s.pages, pages, s.chains[b][j]))
    && (forall p :: p in roles && roles[p].Held? ==>
          p in s.roles && s.roles[p].Chain? && s.roles[p].b == b && 1 <= s.roles[p].i && x <= s.roles[p].i)
    && SubPairs(s, pages, keys)
  }

  /** Every stored pair is one of the pairs before the split. */
  ghost predicate SubPairs(s: State, pages: PageMap, keys: KeyMap) {
    forall k :: k in Pairs(pages, keys) ==>
      k in Pairs(s.pages, s.keys) && Pairs(pages, keys)[k] == Pairs(s.pages, s.keys)[k]
  }

  /** The next entry is a pair that may be stored in one of the two buckets. */
  lemma PendingEntry(s: State, hash: Bytes -> nat, b: nat, x: nat, i: nat, pages: PageMap, roles: Roles, keys: KeyMap)
    requires StateOk(s, hash) && Pending(s, b, x, i, pages, roles, keys) && b == SplitBucketOf(s.hdr)
    requires i < |Ents(s.pages, s.chains[b][x])|
    ensures var e := Ents(s.pages, s.chains[b][x])[i];
      && e.key !in keys && e.key in s.keys && s.keys[e.key] == Loc(s.chains[b][x], i)
      && e.key in s.data && PtrOk(e.datap, s.data[e.key]) && KeySizeOk(s.hdr.bsize, e.key)
      && e.key in Pairs(s.pages, s.keys) && Pairs(s.pages, s.keys)[e.key] == e.datap
      && (CallHash(Grow(s.hdr), hash(e.key)) == b || CallHash(Grow(s.hdr), hash(e.key)) == s.hdr.maxBucket + 1)
      && s.chains[b][x] in s.roles && s.roles[s.chains[b][x]] == Chain(b, x)
  {
    hide KeyState, DataInv, LinksOk, InPool, CurrOk, BucketPage, Grow, CallHash, FreeInv, AllocOk;
    EntryIsKey(s.hdr, hash, s.pages, s.roles, s.chains, s.data, s.keys, b, x, i);
    PageOfChain(s, hash, b, x);
    GrowMovesOnlySplit(s.hdr, hash(Ents(s.pages, s.chains[b][x])[i].key));
  }

  lemma PageOfChain(s: State, hash: Bytes -> nat, b: nat, x: nat)
    requires StateOk(s, hash) && b < |s.chains| && x < |s.chains[b]|
    ensures var p := s.chains[b][x]; var pg := GetCreate(s.pages, s.hdr.bsize, p, TKey);
      && p in s.roles && s.roles[p] == Chain(b, x) && p > 0
      && pg.KeyPage? && pg.next == Follows(s.chains[b], x) && pg.ents == Ents(s.pages, p)
      && (x > 0 ==> p in s.pages)
  {
    ChainPageAt(s.hdr, s.pages, s.roles, s.chains, b, x);
    PageNumbersPositive(s.hdr, s.curr, s.pages, s.roles, s.fchain, s.chains[b][x]);
    assert ChainOk(s.hdr, s.pages, s.roles, b, s.chains[b]);
    assert ChainPageOk(s.hdr.bsize, s.pages, s.chains[b], x);
  }

  /** One pair was stored. */
  lemma PendingStep(s: State, hash: Bytes -> nat, b: nat, x: nat, i: nat, pages: PageMap, roles: Roles, keys: KeyMap,
                    pages': PageMap, roles': Roles, keys': KeyMap)
    requires StateOk(s, hash) && Pending(s, b, x, i, pages, roles, keys) && b == SplitBucketOf(s.hdr)
    requires i < |Ents(s.pages, s.chains[b][x])|
    requires var e := Ents(s.pages, s.chains[b][x])[i];
      e.key in keys' && keys' == keys[e.key := keys'[e.key]] && Pairs(pages', keys') == Pairs(pages, keys)[e.key := e.datap]
    requires forall p :: p in roles && roles[p].Held? ==> p in roles' && roles'[p].Held? && SamePage(pages, pages', p)
    requires forall p :: p in roles' && roles'[p].Held? ==> p in roles && roles[p].Held?
    ensures Pending(s, b, x, i + 1, pages', roles', keys')
  {
    hide StateOk, Pairs, Ents, Later, SplitBucketOf, PtrOk, CallHash, Grow;
    PendingEntry(s, hash, b, x, i, pages, roles, keys);
    StepKeys(s, hash, b, x, i, keys, keys', Ents(s.pages, s.chains[b][x])[i].key);
    forall j | x <= j < |s.chains[b]| && 1 <= j
      ensures s.chains[b][j] in roles' && roles'[s.chains[b][j]].Held? && SamePage(s.pages, pages', s.chains[b][j])
    {
      var p := s.chains[b][j];
      assert p in roles && roles[p].Held? && SamePage(s.pages, pages, p);
      assert SamePage(pages, pages', p);
    }
  }

  lemma StepKeys(s: State, hash: Bytes -> nat, b: nat, x: nat, i: nat, keys: KeyMap, keys': KeyMap, k0: Bytes)
    requires StateOk(s, hash) && b < |s.chains| && x < |s.chains[b]|
    requires k0 in s.keys && s.keys[k0] == Loc(s.chains[b][x], i)
    requires s.chains[b][x] in s.roles && s.roles[s.chains[b][x]] == Chain(b, x)
    requires k0 in keys' && keys' == keys[k0 := keys'[k0]]
    requires forall k :: k in s.keys ==> (k in keys <==> !Later(s.roles, b, x, i, s.keys[k]))
    ensures forall k :: k in s.keys ==> (k in keys' <==> !Later(s.roles, b, x, i + 1, s.keys[k]))
  {
    hide StateOk;
    forall k | k in s.keys
      ensures k in keys' <==> !Later(s.roles, b, x, i + 1, s.keys[k])
    {
      if k != k0 && s.keys[k] != s.keys[k0] {
        LaterNext(s, hash, b, x, i, k);
      } else if k != k0 {
        SamePlace(s, hash, k, k0);
      }
    }
  }

  /** Two keys are not in one place. */
  lemma SamePlace(s: State, hash: Bytes -> nat, k: Bytes, k': Bytes)
    requires StateOk(s, hash) && k in s.keys && k' in s.keys && s.keys[k] == s.keys[k']
    ensures k == k'
  {
    assert KeyAt(s.hdr, hash, s.pages, s.roles, s.data, k, s.keys[k]);
    assert KeyAt(s.hdr, hash, s.pages, s.roles, s.data, k', s.keys[k']);
  }

  lemma LaterNext(s: State, hash: Bytes -> nat, b: nat, x: nat, i: nat, k: Bytes)
    requires StateOk(s, hash) && b < |s.chains| && x < |s.chains[b]| && k in s.keys
    requires s.keys[k] != Loc(s.chains[b][x], i)
    ensures Later(s.roles, b, x, i + 1, s.keys[k]) <==> Later(s.roles, b, x, i, s.keys[k])
  {
    var p := s.keys[k].page;
    if p in s.roles && s.roles[p] == Chain(b, x) {
      assert s.chains[b][x] == p;
    }
  }

  /** The keys of page x are all stored: on to the next page. */
  lemma PendingNext(s: State, hash: Bytes -> nat, b: nat, x: nat, pages: PageMap, roles: Roles, keys: KeyMap,
                    pages': PageMap, roles': Roles)
    requires StateOk(s, hash) && b < |s.chains| && x < |s.chains[b]|
    requires Pending(s, b, x, |Ents(s.pages, s.chains[b][x])|, pages, roles, keys)
    requires forall p :: p in roles && roles[p].Held? && p != s.chains[b][x] ==>
               p in roles' && roles'[p].Held? && SamePage(pages, pages', p)
    requires forall p :: p in roles' && roles'[p].Held? ==> p in roles && roles[p].Held? && p != s.chains[b][x]
    requires Pairs(pages', keys) == Pairs(pages, keys)
    ensures x + 1 < |s.chains[b]| ==> Pending(s, b, x + 1, 0, pages', roles', keys)
    ensures x + 1 == |s.chains[b]| ==> keys.Keys == s.keys.Keys && NoHeld(roles') && SubPairs(s, pages', keys)
  {
    hide StateOk, Pairs;
    var c := s.chains[b];
    forall k | k in s.keys
      ensures k in keys <==> !Later(s.roles, b, x + 1, 0, s.keys[k])
      ensures x + 1 == |c| ==> k in keys
    {
      LaterPage(s, hash, b, x, k);
    }
    forall j | x + 1 <= j < |c|
      ensures c[j] in roles' && roles'[c[j]].Held? && SamePage(s.pages, pages', c[j])
    {
      var p := c[j];
      PageOfChain(s, hash, b, x);
      PageOfChain(s, hash, b, j);
      assert p in roles && roles[p].Held? && SamePage(s.pages, pages, p);
      assert SamePage(pages, pages', p);
    }
    forall p | p in roles' && roles'[p].Held?
      ensures p in s.roles && s.roles[p].Chain? && s.roles[p].b == b && x + 1 <= s.roles[p].i < |c|
    {
      ChainPageIs(s, hash, b, p);
    }
  }

  /** A chain page is where its role says. */
  lemma ChainPageIs(s: State, hash: Bytes -> nat, b: nat, p: Pgno)
    requires StateOk(s, hash) && b < |s.chains| && p in s.roles && s.roles[p].Chain? && s.roles[p].b == b
    ensures s.roles[p].i < |s.chains[b]| && s.chains[b][s.roles[p].i] == p
  {
  }

  lemma BaseNotHeld(s: State, hash: Bytes -> nat, b: nat, i: nat, pages: PageMap, roles: Roles, keys: KeyMap)
    requires StateOk(s, hash) && Pending(s, b, 0, i, pages, roles, keys)
    ensures forall p :: p in roles && roles[p].Held? ==> p != s.chains[b][0]
  {
  }

  lemma ChainEnd(s: State, hash: Bytes -> nat, b: nat, x: nat)
    requires StateOk(s, hash) && b < |s.chains| && x < |s.chains[b]|
    ensures Follows(s.chains[b], x) == INVALID_PGNO <==> x + 1 == |s.chains[b]|
  {
  }

  lemma LaterPage(s: State, hash: Bytes -> nat, b: nat, x: nat, k: Bytes)
    requires StateOk(s, hash) && b < |s.chains| && x < |s.chains[b]| && k in s.keys
    ensures Later(s.roles, b, x + 1, 0, s.keys[k]) <==> Later(s.roles, b, x, |Ents(s.pages, s.chains[b][x])|, s.keys[k])
    ensures x + 1 == |s.chains[b]| ==> !Later(s.roles, b, x + 1, 0, s.keys[k])
  {
    assert KeyAt(s.hdr, hash, s.pages, s.roles, s.data, k, s.keys[k]);
    var p := s.keys[k].page;
    assert s.chains[s.roles[p].b][s.roles[p].i] == p;
  }

  /** When all keys are stored, the pairs are the pairs before. */
  lemma PairsBack(s: State, hash: Bytes -> nat, pages: PageMap, keys: KeyMap, h: Header, roles: Roles, chains: seq<seq<Pgno>>)
    requires StateOk(s, hash) && KeyState(h, hash, pages, roles, chains, s.data, keys) && keys.Keys == s.keys.Keys
    requires SubPairs(s, pages, keys)
    ensures Pairs(pages, keys) == Pairs(s.pages, s.keys)
  {
    hide StateOk, Pairs, KeyState;
    PairsDomain(h, hash, pages, roles, chains, s.data, keys);
    StatePairs(s, hash);
  }

  lemma StatePairs(s: State, hash: Bytes -> nat)
    requires StateOk(s, hash)
    ensures Pairs(s.pages, s.keys).Keys == s.keys.Keys
  {
  }

  lemma PairsDomain(h: Header, hash: Bytes -> nat, pages: PageMap, roles: Roles, chains: seq<seq<Pgno>>,
                    data: DataMap, keys: KeyMap)
    requires KeyState(h, hash, pages, roles, chains, data, keys)
    ensures Pairs(pages, keys).Keys == keys.Keys
  {
  }

  // ---------------------------------------------------------------- the start of a split

  lemma DetachPending(s: State, hash: Bytes -> nat, b: nat, op: Pgno, np: Pgno)
    requires StateOk(s, hash) && NoHeld(s.roles) && b < |s.chains| && np !in s.roles
    requires |s.chains[b]| >= 1 && op == s.chains[b][0] && op in s.roles && s.roles[op] == Chain(b, 0)
    ensures Pending(s, b, 0, 0, SplitPages(s.hdr.bsize, s.pages, op, np), Detached(s.roles, b, s.hdr.maxBucket + 1, np),
                    OtherKeys(s.roles, s.keys, b))
  {
    hide InitPage, StateOk, Pairs, Ents;
    var pages', roles', keys' := SplitPages(s.hdr.bsize, s.pages, op, np),
      Detached(s.roles, b, s.hdr.maxBucket + 1, np), OtherKeys(s.roles, s.keys, b);
    forall k | k in s.keys
      ensures s.keys[k].page in s.roles && s.roles[s.keys[k].page].Chain?
    {
      PageOfKey(s, hash, k);
    }
    forall j | 0 <= j < |s.chains[b]| && 1 <= j
      ensures s.chains[b][j] in roles' && roles'[s.chains[b][j]].Held? && SamePage(s.pages, pages', s.chains[b][j])
    {
      PageOfChain(s, hash, b, j);
    }
    DetachPairs(s, hash, b, op, np);
  }

  lemma PageOfKey(s: State, hash: Bytes -> nat, k: Bytes)
    requires StateOk(s, hash) && k in s.keys
    ensures s.keys[k].page in s.roles && s.roles[s.keys[k].page].Chain?
  {
    assert KeyAt(s.hdr, hash, s.pages, s.roles, s.data, k, s.keys[k]);
  }

  lemma DetachPairs(s: State, hash: Bytes -> nat, b: nat, op: Pgno, np: Pgno)
    requires StateOk(s, hash) && np !in s.roles && op in s.roles && s.roles[op] == Chain(b, 0)
    ensures var pages', keys' := SplitPages(s.hdr.bsize, s.pages, op, np), OtherKeys(s.roles, s.keys, b);
      SubPairs(s, pages', keys')
  {
    hide InitPage, StateOk;
    var pages', keys' := SplitPages(s.hdr.bsize, s.pages, op, np), OtherKeys(s.roles, s.keys, b);
    forall k | k in Pairs(pages', keys')
      ensures k in Pairs(s.pages, s.keys) && Pairs(pages', keys')[k] == Pairs(s.pages, s.keys)[k]
    {
      var p := s.keys[k].page;
      assert p != op && p != np;
      assert Ents(pages', p) == Ents(s.pages, p);
    }
  }

  /** The store right after the chain was taken apart, with one bucket more. */
  lemma SplitStart(s: State, hash: Bytes -> nat)
    requires StateOk(s, hash) && NoHeld(s.roles) && s.curr != INVALID_PGNO && s.hdr.ovflPoint + 2 < NCACHED
    ensures 1 <= Grow(s.hdr).ovflPoint && Grow(s.hdr).ovflPoint + 1 < |Grow(s.hdr).spares|
    ensures var b, n, h' := SplitBucketOf(s.hdr), s.hdr.maxBucket + 1, Grow(s.hdr);
      var op, np := BucketPage(h', b), BucketPage(h', n);
      var pages', roles', keys' := SplitPages(s.hdr.bsize, s.pages, op, np), Detached(s.roles, b, n, np),
                                   OtherKeys(s.roles, s.keys, b);
      && h'.bsize == s.hdr.bsize && b < |s.chains| && |s.chains[b]| >= 1 && s.chains[b][0] == op && op != np
      && BaseInv(h', CurrAfterGrow(s.hdr, s.curr), pages', roles', s.fchain)
      && CurrOk(h', CurrAfterGrow(s.hdr, s.curr), pages', roles')
      && DataInv(h'.bsize, pages', roles', s.data) && LinksOk(pages', roles')
      && KeyState(h', hash, pages', roles', s.chains[b := [op]] + [[np]], s.data, keys')
      && Pending(s, b, 0, 0, pages', roles', keys')
  {
    hide DataInv, LinksOk, InPool, CurrOk, BucketPage, Grow, FreeInv, AllocOk, LevelsOk, MasksOk, KeyInv, SplitPages, Detached,
      OtherKeys, Pending, NoHeld, SplitBucketOf;
    var b, n, h' := SplitBucketOf(s.hdr), s.hdr.maxBucket + 1, Grow(s.hdr);
    var op, np := BucketPage(h', b), BucketPage(h', n);
    BaseBounds(s.hdr, s.curr, s.pages, s.roles, s.fchain);
    LevelsBounds(s.hdr);
    LevelsMasks(s.hdr);
    SplitBasics(s.hdr, s.pages, s.roles, s.chains);
    NewBucketPage(s.hdr, s.curr, s.pages, s.roles, s.fchain);
    BaseGrow(s.hdr, s.curr, s.pages, s.roles, s.fchain);
    DetachBase(h', CurrAfterGrow(s.hdr, s.curr), s.pages, s.roles, s.fchain, b, op, np);
    DetachData(s.hdr.bsize, s.pages, s.roles, s.data, b, n, op, np);
    DetachChains(s.hdr, h', s.pages, s.roles, s.chains, b, np);
    DetachKeys(s.hdr, hash, s.pages, s.roles, s.data, s.keys, b, op, np);
    DetachPending(s, hash, b, op, np);
  }

  lemma LevelsMasks(h: Header)
    requires LevelsOk(h)
    ensures MasksOk(h)
  {
  }

  lemma SplitBasics(h: Header, pages: PageMap, roles: Roles, chains: seq<seq<Pgno>>)
    requires LevelsOk(h) && h.ovflPoint + 2 < NCACHED && h.spares[h.ovflPoint + 1] != 0
    requires ChainInv(h, pages, roles, chains)
    ensures var b, h' := SplitBucketOf(h), Grow(h);
      && b <= h.maxBucket && b < |chains| && |chains[b]| >= 1
      && h'.bsize == h.bsize && h'.maxBucket == h.maxBucket + 1
      && (forall x: nat :: x <= h.maxBucket ==> BucketPage(h', x) == BucketPage(h, x))
      && chains[b][0] == BucketPage(h', b) && chains[b][0] in roles && roles[chains[b][0]] == Chain(b, 0)
      && (forall p :: p in roles && roles[p] == Chain(b, 0) ==> p == chains[b][0])
  {
    hide BucketPage, Grow, ChainPageOk, InPool;
    SplitBucketRange(h);
    GrowCount(h);
    GrowKeeps(h);
    var b := SplitBucketOf(h);
    assert ChainOk(h, pages, roles, b, chains[b]);
    assert chains[b][0] in roles && roles[chains[b][0]] == Chain(b, 0);
  }
}
