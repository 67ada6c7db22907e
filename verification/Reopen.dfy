/** A store between operations is a page graph, so closing and opening gives it back. */
module Reopen {
  import opened Pages
  import opened Levels
  import opened StoreInv
  import opened Alloc
  import opened BaseLemmas
  import opened DataLemmas
  import opened DataSteps
  import opened KeyLemmas
  import opened Split
  import R = Relocate
  import H = StaleHeads
  import L = SpoiledLinks

  /** The pages that free lists remember in front of their first pages. */
  function FirstPrevs(h: Header, pages: PageMap): H.Prevs {
    map p | p in pages && p in h.freePages && pages[p].FreePage? && pages[p].prev != INVALID_PGNO :: pages[p].prev
  }

  /** The pages without these. */
  function Freshened(h: Header, pages: PageMap): PageMap {
    map p | p in pages :: if p in FirstPrevs(h, pages) then SetPrev(pages[p], INVALID_PGNO) else pages[p]
  }

  /** What pages of free lists remember does no harm when the file is closed. */
  predicate HarmlessHeads(h: Header, pages: PageMap)
    requires h.ovflPoint + 1 < |h.spares|
  {
    H.Harmless(R.CloseMove(h), Freshened(h, pages), FirstPrevs(h, pages))
  }

  /** The pages whose next link is overwritten when the file is closed, and with what. */
  function SpoiledPages(h: Header, pages: PageMap): L.Nexts
    requires h.ovflPoint + 1 < |h.spares|
  {
    L.Spoiled(R.CloseMove(h), Freshened(h, pages), FirstPrevs(h, pages))
  }

  /** The pages of a file that was closed with pages moved and opened again. */
  function Reopened(h: Header, pages: PageMap): PageMap
    requires h.ovflPoint + 1 < |h.spares|
  {
    L.Bent(SpoiledPages(h, pages), R.Survivors(R.CloseMove(h), pages))
  }

  /** Some last data page is not spoiled. */
  ghost predicate EndInReach(h: Header, pages: PageMap)
    requires h.ovflPoint + 1 < |h.spares|
  {
    exists p :: R.LastData(pages, p) && p !in SpoiledPages(h, pages)
  }

  /** No free list starts with a page that remembers a page in front of it. */
  ghost predicate FreshHeads(h: Header, pages: PageMap) {
    forall lv :: 0 <= lv < |h.freePages| && h.freePages[lv] in pages ==> pages[h.freePages[lv]].prev == INVALID_PGNO
  }

  /** Between operations. */
  ghost predicate Settled(s: State, hash: Bytes -> nat) {
    StateOk(s, hash) && NoHeld(s.roles) && s.keys.Keys == s.data.Keys
  }

  /** The same with the counts right: the whole invariant of a store, as a value. */
  ghost predicate Resting(s: State, hash: Bytes -> nat) {
    && Settled(s, hash) && s.hdr.nkeys == |s.keys| && s.hdr.numMoved == 0
    && (s.curr != INVALID_PGNO ==> s.data != map[])
  }

  // ---------------------------------------------------------------- headers of a page

  function Offsets(slots: seq<Slot>): seq<nat> {
    seq(|slots|, i requires 0 <= i < |slots| => slots[i].off)
  }

  lemma {:induction false} WalkIsSlots(bsize: nat, pg: Page, tail: Tail, slots: seq<Slot>, i: nat)
    requires GeomOk(bsize, pg, tail, slots) && i <= |slots|
    ensures R.Walk(pg.hd, if i < |slots| then slots[i].off else pg.free, |slots| - i) == Offsets(slots)[i..]
    decreases |slots| - i
  {
    hide GeomOk;
    if i < |slots| {
      SlotAt(bsize, pg, tail, slots, i);
      WalkIsSlots(bsize, pg, tail, slots, i + 1);
      WalkOnce(pg.hd, slots[i].off, |slots| - i);
      assert Offsets(slots)[i..] == [slots[i].off] + Offsets(slots)[i + 1..];
    }
  }

  lemma WalkOnce(hd: map<nat, DataHeader>, off: nat, n: nat)
    requires n > 0 && off in hd
    ensures R.Walk(hd, off, n) == [off] + R.Walk(hd, hd[off].next, n - 1)
  {
  }

  /** The headers met by walking a page are the headers of its slots. */
  lemma HeadsAreSlots(bsize: nat, pg: Page, tail: Tail, slots: seq<Slot>)
    requires GeomOk(bsize, pg, tail, slots)
    ensures |R.Heads(pg)| == |slots| == pg.num
    ensures forall i :: 0 <= i < |slots| ==> R.Heads(pg)[i] == slots[i].off
    ensures forall i, j :: 0 <= i < j < |slots| ==> R.Heads(pg)[i] != R.Heads(pg)[j]
  {
    WalkIsSlots(bsize, pg, tail, slots, 0);
    forall i, j | 0 <= i < j < |slots|
      ensures slots[i].off != slots[j].off
    {
      SlotAt(bsize, pg, tail, slots, i);
    }
  }

  // ---------------------------------------------------------------- the graph of a settled store

  /** The datum of slot i of a data page, its key, and the entry of the key. */
  lemma SlotEntry(s: State, hash: Bytes -> nat, p: Pgno, i: nat)
    requires Settled(s, hash) && p in s.roles && s.roles[p].Data? && i < |s.roles[p].slots|
    ensures p in s.pages && s.pages[p].DataPage? && |R.Heads(s.pages[p])| == |s.roles[p].slots|
    ensures R.Heads(s.pages[p])[i] in s.pages[p].hd && R.HeaderBack(s.pages, p, R.Heads(s.pages[p])[i])
  {
    hide BaseInv, LinksOk, ChainInv, Flat, GeomOk;
    assert DataPageOk(s.hdr.bsize, s.pages, s.roles, p);
    HeadsAreSlots(s.hdr.bsize, s.pages[p], s.roles[p].tail, s.roles[p].slots);
    SlotAt(s.hdr.bsize, s.pages[p], s.roles[p].tail, s.roles[p].slots, i);
    var k := s.roles[p].slots[i].key;
    assert k in s.data && DatumOk(s.hdr.bsize, s.pages, s.roles, k, s.data[k]);
    assert PartOk(s.hdr.bsize, s.pages, s.roles, k, s.data[k], 0);
    assert KeyAt(s.hdr, hash, s.pages, s.roles, s.data, k, s.keys[k]);
  }

  lemma DataHeads(s: State, hash: Bytes -> nat, p: Pgno)
    requires Settled(s, hash) && p in s.roles && s.roles[p].Data?
    ensures p in s.pages && s.pages[p].DataPage? && s.pages[p].curr == p && R.HeadsOk(s.pages, p)
  {
    hide BaseInv, LinksOk, KeyState, GeomOk;
    assert DataPageOk(s.hdr.bsize, s.pages, s.roles, p);
    DataKind(s.hdr.bsize, s.pages[p], s.roles[p].tail, s.roles[p].slots);
    HeadsAreSlots(s.hdr.bsize, s.pages[p], s.roles[p].tail, s.roles[p].slots);
    forall i | 0 <= i < |R.Heads(s.pages[p])|
      ensures R.Heads(s.pages[p])[i] in s.pages[p].hd && R.HeaderBack(s.pages, p, R.Heads(s.pages[p])[i])
    {
      SlotEntry(s, hash, p, i);
    }
  }

  lemma DataKind(bsize: nat, pg: Page, tail: Tail, slots: seq<Slot>)
    requires GeomOk(bsize, pg, tail, slots)
    ensures pg.DataPage? && pg.num == |slots|
  {
  }

  lemma DataLinks(s: State, hash: Bytes -> nat, p: Pgno)
    requires Settled(s, hash) && p in s.roles && s.roles[p].Data?
    ensures p in s.pages && R.LinksBack(s.pages, p)
  {
    hide BaseInv, KeyState, R.HeadsOk;
    DataHeads(s, hash, p);
    assert LinksAt(s.pages, s.roles, p);
    if s.pages[p].next != INVALID_PGNO {
      DataHeads(s, hash, s.pages[p].next);
    }
    if s.pages[p].prev != INVALID_PGNO {
      DataHeads(s, hash, s.pages[p].prev);
    }
  }

  lemma KeyEntries(s: State, hash: Bytes -> nat, p: Pgno)
    requires Settled(s, hash) && p in s.roles && s.roles[p].Chain? && p in s.pages
    ensures s.pages[p].KeyPage? && s.pages[p].curr == p && R.EntriesOk(s.pages, p)
  {
    hide BaseInv, LinksOk, KeyState, DataInv, R.Heads;
    var b, i := s.roles[p].b, s.roles[p].i;
    RoleOnChain(s, hash, p);
    PageOfChain(s, hash, b, i);
    KindOnChain(s, hash, b, i);
    forall e | 0 <= e < |s.pages[p].ents|
      ensures R.EntryBack(s.pages, p, e)
    {
      EntryLeads(s, hash, p, e);
    }
  }

  lemma RoleOnChain(s: State, hash: Bytes -> nat, p: Pgno)
    requires StateOk(s, hash) && p in s.roles && s.roles[p].Chain?
    ensures s.roles[p].b < |s.chains| && s.roles[p].i < |s.chains[s.roles[p].b]|
    ensures s.chains[s.roles[p].b][s.roles[p].i] == p
  {
  }

  lemma KindOnChain(s: State, hash: Bytes -> nat, b: nat, i: nat)
    requires StateOk(s, hash) && b < |s.chains| && i < |s.chains[b]| && s.chains[b][i] in s.pages
    ensures var pg := s.pages[s.chains[b][i]];
      && pg.KeyPage? && pg.curr == s.chains[b][i] && pg.next == Follows(s.chains[b], i)
      && pg.prev == (if i == 0 then INVALID_PGNO else s.chains[b][i - 1])
  {
    assert ChainOk(s.hdr, s.pages, s.roles, b, s.chains[b]);
    assert ChainPageOk(s.hdr.bsize, s.pages, s.chains[b], i);
  }

  lemma EntryLeads(s: State, hash: Bytes -> nat, p: Pgno, e: nat)
    requires Settled(s, hash) && p in s.roles && s.roles[p].Chain? && p in s.pages && s.pages[p].KeyPage?
    requires e < |s.pages[p].ents|
    ensures R.EntryBack(s.pages, p, e)
  {
    hide BaseInv, LinksOk, KeyState, Flat, GeomOk, R.Heads;
    RoleOnChain(s, hash, p);
    EntryIsKey(s.hdr, hash, s.pages, s.roles, s.chains, s.data, s.keys, s.roles[p].b, s.roles[p].i, e);
    var k := s.pages[p].ents[e].key;
    var d := s.data[k];
    assert DatumOk(s.hdr.bsize, s.pages, s.roles, k, d);
    assert PartOk(s.hdr.bsize, s.pages, s.roles, k, d, 0);
    assert DataPageOk(s.hdr.bsize, s.pages, s.roles, d.span[0]);
    HeadsAreSlots(s.hdr.bsize, s.pages[d.span[0]], s.roles[d.span[0]].tail, s.roles[d.span[0]].slots);
    assert R.Heads(s.pages[d.span[0]])[d.slot] == d.off;
  }

  lemma KeyLinks(s: State, hash: Bytes -> nat, p: Pgno)
    requires Settled(s, hash) && p in s.roles && s.roles[p].Chain? && p in s.pages
    ensures R.LinksBack(s.pages, p)
  {
    hide BaseInv, LinksOk, KeyState, DataInv;
    var b, i := s.roles[p].b, s.roles[p].i;
    RoleOnChain(s, hash, p);
    KindOnChain(s, hash, b, i);
    if i + 1 < |s.chains[b]| {
      PageOfChain(s, hash, b, i + 1);
      KindOnChain(s, hash, b, i + 1);
    }
    if i > 0 {
      OnPages(s, hash, b, i - 1);
      KindOnChain(s, hash, b, i - 1);
    }
  }

  /** Every page of a chain with an overflow page has content. */
  lemma OnPages(s: State, hash: Bytes -> nat, b: nat, i: nat)
    requires StateOk(s, hash) && b < |s.chains| && i < |s.chains[b]| && |s.chains[b]| > 1
    ensures s.chains[b][i] in s.pages
  {
    assert ChainOk(s.hdr, s.pages, s.roles, b, s.chains[b]);
    assert ChainPageOk(s.hdr.bsize, s.pages, s.chains[b], i);
  }

  lemma ChainEmpty(lv: nat, head: Pgno, c: seq<Pgno>, pages: PageMap, roles: Roles, s: State)
    requires FreeChainOk(lv, head, c, pages, roles) && roles == s.roles
    requires BaseInv(s.hdr, s.curr, s.pages, s.roles, s.fchain) && head == INVALID_PGNO
    ensures c == []
  {
  }

  lemma FreeLinks(s: State, hash: Bytes -> nat, p: Pgno)
    requires Settled(s, hash) && FreshHeads(s.hdr, s.pages) && p in s.roles && s.roles[p].FreeMap?
    ensures p in s.pages && s.pages[p].FreePage? && s.pages[p].curr == p && R.LinksBack(s.pages, p)
  {
    hide DataInv, LinksOk, KeyState, LevelsOk, AllocOk, CurrOk, FreeEntries, FreeChainOk;
    var lv := s.roles[p].lv;
    var c := s.fchain[lv];
    assert FreeChainOk(lv, s.hdr.freePages[lv], c, s.pages, s.roles);
    var i :| 0 <= i < |c| && c[i] == p;
    if s.hdr.freePages[lv] == INVALID_PGNO {
      ChainEmpty(lv, s.hdr.freePages[lv], c, s.pages, s.roles, s);
    } else {
      ChainHead(lv, s.hdr.freePages[lv], c, s.pages, s.roles);
    }
    ChainMember(lv, s.hdr.freePages[lv], c, s.pages, s.roles, i);
    if i + 1 < |c| {
      ChainMember(lv, s.hdr.freePages[lv], c, s.pages, s.roles, i + 1);
    }
    if i > 0 {
      ChainMember(lv, s.hdr.freePages[lv], c, s.pages, s.roles, i - 1);
    }
  }

  /** A settled store is a page graph. */
  lemma StateGraph(s: State, hash: Bytes -> nat)
    requires Settled(s, hash) && FreshHeads(s.hdr, s.pages)
    ensures R.Graph(s.pages)
  {
    hide Settled, R.LinksBack, R.HeadsOk, R.EntriesOk, FreshHeads;
    forall p | p in s.pages
      ensures p > 0 && s.pages[p].curr == p && R.LinksBack(s.pages, p)
      ensures s.pages[p].DataPage? ==> R.HeadsOk(s.pages, p)
      ensures s.pages[p].KeyPage? ==> R.EntriesOk(s.pages, p)
    {
      PageRole(s, hash, p);
      match s.roles[p]
      case Data(_, _) =>
        DataHeads(s, hash, p);
        DataLinks(s, hash, p);
      case Chain(_, _) =>
        KeyEntries(s, hash, p);
        KeyLinks(s, hash, p);
      case FreeMap(_) => FreeLinks(s, hash, p);
      case Listed(_, _) => DeletedLinks(s, hash, p);
    }
  }

  lemma PageRole(s: State, hash: Bytes -> nat, p: Pgno)
    requires Settled(s, hash) && p in s.pages
    ensures p in s.roles && !s.roles[p].Held? && p > 0 && s.hdr.ovflPoint + 1 < |s.hdr.spares| && 1 <= s.hdr.ovflPoint && p < Top(s.hdr)
  {
    PageNumbersPositive(s.hdr, s.curr, s.pages, s.roles, s.fchain, p);
  }

  lemma DeletedLinks(s: State, hash: Bytes -> nat, p: Pgno)
    requires Settled(s, hash) && p in s.pages && p in s.roles && s.roles[p].Listed?
    ensures s.pages[p] == DeletedPage(p, INVALID_PGNO, INVALID_PGNO) && R.LinksBack(s.pages, p)
  {
  }

  // ---------------------------------------------------------------- closing and opening

  /** The bucket pages that the level has not reached are free for the move. */
  lemma CloseRangeFree(s: State, hash: Bytes -> nat)
    requires Settled(s, hash) && s.hdr.maxBucket < s.hdr.highMask && s.curr != INVALID_PGNO
    ensures s.hdr.ovflPoint + 1 < |s.hdr.spares| && s.hdr.spares[s.hdr.ovflPoint + 1] != 0
    ensures R.MoveOk(R.CloseMove(s.hdr), s.pages)
    ensures forall p :: p in s.pages ==> p <= R.CloseMove(s.hdr).oldLast
  {
    hide DataInv, LinksOk, KeyState, CurrOk, FreeInv, InPool, BucketPage, LevelsOk, R.CloseMove;
    BaseBounds(s.hdr, s.curr, s.pages, s.roles, s.fchain);
    R.CloseMoveOk(s.hdr);
    var m := R.CloseMove(s.hdr);
    forall p | p in s.pages
      ensures !R.InNew(m, p) && p <= m.oldLast
    {
      PageRole(s, hash, p);
      if R.InNew(m, p) {
        var b: nat :| s.hdr.maxBucket < b <= s.hdr.highMask && BucketPage(s.hdr, b) == p;
        UnreachedBucket(s.hdr, s.roles, b, p);
      }
    }
  }

  lemma UnreachedBucket(h: Header, roles: Roles, b: nat, p: Pgno)
    requires LevelsOk(h) && AllocOk(h, roles) && h.maxBucket < b <= h.highMask && p == BucketPage(h, b)
    ensures p !in roles
  {
    hide InPool, BucketPage;
    if p in roles {
      if roles[p].Chain? && roles[p].i == 0 {
        BucketPageInjective(h, roles[p].b, b);
      } else {
        PoolIsNotBucket(h, b, p);
      }
    }
  }

  lemma FreshenedIs(h: Header, pages: PageMap)
    ensures H.Dirty(FirstPrevs(h, pages), Freshened(h, pages)) == pages
  {
    forall p | p in pages
      ensures H.Dirty(FirstPrevs(h, pages), Freshened(h, pages))[p] == pages[p]
    {
    }
  }

  /** Cutting the file leaves out the range that was moved. */
  lemma CutIsCut(m: R.Move, now: PageMap)
    requires forall p :: p in now ==> p <= m.oldLast
    ensures R.FileUpTo(now, m.oldFirst - 1) == R.CutRange(m, now)
  {
  }

  // ---------------------------------------------------------------- what free lists remember

  /** A first page of a free list: its role, and that only pages in front of it are remembered. */
  lemma HeadFacts(s: State, hash: Bytes -> nat, p: Pgno)
    requires Settled(s, hash) && p in FirstPrevs(s.hdr, s.pages)
    ensures p in s.roles && s.roles[p].FreeMap? && s.pages[p].prev in s.roles
    ensures s.roles[p].lv < |s.fchain| && s.fchain[s.roles[p].lv] != [] && s.fchain[s.roles[p].lv][0] == p
  {
    hide DataInv, LinksOk, KeyState, LevelsOk, AllocOk, CurrOk, FreeEntries;
    var lv :| 0 <= lv < |s.hdr.freePages| && s.hdr.freePages[lv] == p;
    BaseBounds(s.hdr, s.curr, s.pages, s.roles, s.fchain);
    assert FreeChainOk(lv, s.hdr.freePages[lv], s.fchain[lv], s.pages, s.roles);
    PageRole(s, hash, p);
  }

  /** Without what free lists remember, the chains are as good. */
  lemma FreshChain(s: State, hash: Bytes -> nat, lv: nat)
    requires Settled(s, hash) && lv < |s.fchain| && lv < |s.hdr.freePages|
    ensures FreeChainOk(lv, s.hdr.freePages[lv], s.fchain[lv], Freshened(s.hdr, s.pages), s.roles)
  {
    hide DataInv, LinksOk, KeyState, LevelsOk, AllocOk, CurrOk, FreeEntries;
    var c, fresh0 := s.fchain[lv], Freshened(s.hdr, s.pages);
    BaseBounds(s.hdr, s.curr, s.pages, s.roles, s.fchain);
    assert FreeChainOk(lv, s.hdr.freePages[lv], c, s.pages, s.roles);
    forall i | 0 <= i < |c|
      ensures c[i] in fresh0 && fresh0[c[i]].FreePage? && fresh0[c[i]].curr == c[i] && fresh0[c[i]].next == Follows(c, i)
      ensures if i > 0 then fresh0[c[i]].prev == Before(c, i) else fresh0[c[i]].prev == INVALID_PGNO || fresh0[c[i]].prev in s.roles
    {
      if c[i] in FirstPrevs(s.hdr, s.pages) {
        HeadFacts(s, hash, c[i]);
      }
    }
  }

  lemma FreshSettled(s: State, hash: Bytes -> nat)
    requires Settled(s, hash)
    ensures Settled(s.(pages := Freshened(s.hdr, s.pages)), hash) && FreshHeads(s.hdr, Freshened(s.hdr, s.pages))
  {
    hide DataInv, LinksOk, KeyState, LevelsOk, AllocOk, FreeEntries, FreeChainOk;
    var fresh0 := Freshened(s.hdr, s.pages);
    BaseBounds(s.hdr, s.curr, s.pages, s.roles, s.fchain);
    forall p | p in s.roles && !s.roles[p].FreeMap?
      ensures SamePage(s.pages, fresh0, p)
    {
      if p in FirstPrevs(s.hdr, s.pages) {
        HeadFacts(s, hash, p);
      }
    }
    forall lv | 0 <= lv < NCACHED
      ensures FreeChainOk(lv, s.hdr.freePages[lv], s.fchain[lv], fresh0, s.roles)
    {
      FreshChain(s, hash, lv);
    }
    FreshKeys(s.hdr, s.pages);
    EntriesFrame(s.pages, s.roles, fresh0, s.roles);
    DropData(s, hash, fresh0);
    KeyStateFrame(s.hdr, hash, s.pages, s.roles, s.chains, s.data, s.keys, s.hdr, fresh0, s.roles, s.data);
    FreshHeadsFree(s, hash);
  }

  lemma FreshKeys(h: Header, pages: PageMap)
    ensures Freshened(h, pages).Keys == pages.Keys
    ensures forall m :: Frees(Freshened(h, pages), m) == Frees(pages, m)
  {
  }

  lemma FreshHeadsFree(s: State, hash: Bytes -> nat)
    requires Settled(s, hash)
    ensures FreshHeads(s.hdr, Freshened(s.hdr, s.pages))
  {
    hide DataInv, LinksOk, KeyState, LevelsOk, AllocOk, CurrOk, FreeEntries;
    BaseBounds(s.hdr, s.curr, s.pages, s.roles, s.fchain);
    FreshenedIs(s.hdr, s.pages);
    forall lv | 0 <= lv < |s.hdr.freePages| && s.hdr.freePages[lv] in s.pages
      ensures s.pages[s.hdr.freePages[lv]].FreePage?
    {
      assert FreeChainOk(lv, s.hdr.freePages[lv], s.fchain[lv], s.pages, s.roles);
      PageRole(s, hash, s.hdr.freePages[lv]);
    }
  }

  /** A settled store is a page graph but for what its free lists remember. */
  lemma SettledDirt(s: State, hash: Bytes -> nat)
    requires Settled(s, hash) && s.hdr.maxBucket < s.hdr.highMask && s.curr != INVALID_PGNO
    ensures s.hdr.ovflPoint + 1 < |s.hdr.spares| && s.hdr.spares[s.hdr.ovflPoint + 1] != 0
    ensures H.DirtOk(R.CloseMove(s.hdr), Freshened(s.hdr, s.pages), FirstPrevs(s.hdr, s.pages))
    ensures forall p :: p in s.pages ==> p <= R.CloseMove(s.hdr).oldLast
    ensures H.Dirty(FirstPrevs(s.hdr, s.pages), Freshened(s.hdr, s.pages)) == s.pages
  {
    hide Settled, R.Graph, R.MoveOk, R.CloseMove, BucketPage, LevelsOk, AllocOk;
    var s0 := s.(pages := Freshened(s.hdr, s.pages));
    FreshSettled(s, hash);
    StateGraph(s0, hash);
    CloseRangeFree(s0, hash);
    CloseRangeFree(s, hash);
    FreshenedIs(s.hdr, s.pages);
    SettledBounds(s, hash);
    R.CloseMoveOk(s.hdr);
    forall p | p in FirstPrevs(s.hdr, s.pages)
      ensures !R.InNew(R.CloseMove(s.hdr), FirstPrevs(s.hdr, s.pages)[p])
    {
      HeadFacts(s, hash, p);
      var q := s.pages[p].prev;
      if R.InNew(R.CloseMove(s.hdr), q) {
        var b: nat :| s.hdr.maxBucket < b <= s.hdr.highMask && BucketPage(s.hdr, b) == q;
        UnreachedBucket(s.hdr, s.roles, b, q);
      }
    }
  }

  lemma SettledBounds(s: State, hash: Bytes -> nat)
    requires Settled(s, hash)
    ensures LevelsOk(s.hdr) && AllocOk(s.hdr, s.roles) && s.hdr.ovflPoint + 1 < |s.hdr.spares|
  {
  }

  /** Where there is data, there is a last data page. */
  lemma SettledLast(s: State, hash: Bytes -> nat)
    requires Settled(s, hash) && s.data != map[]
    ensures exists p :: R.LastData(s.pages, p)
  {
    hide BaseInv, KeyState, CurrOk, GeomOk, PartOk;
    var k :| k in s.data;
    SpansAreData(s.hdr.bsize, s.pages, s.roles, s.data);
    assert DatumOk(s.hdr.bsize, s.pages, s.roles, k, s.data[k]);
    var q := s.data[k].span[0];
    DataHeads(s, hash, q);
    assert DataAt(s.pages, s.roles, q);
    var p :| DataAt(s.pages, s.roles, p) && s.pages[p].next == INVALID_PGNO;
    DataHeads(s, hash, p);
    assert R.LastData(s.pages, p);
  }

  /** A last data page of the range is one of the moved pages of the new file. */
  lemma LastMoves(m: R.Move, pages: PageMap, now: PageMap, p: Pgno)
    requires R.Graph(pages) && R.MoveOk(m, pages) && R.IsRenamed(m, pages, now) && R.LastData(pages, p) && R.InOld(m, p)
    ensures var q := R.Ren(m, p); var cut := R.CutRange(m, now);
      q in R.KindBelow(R.Undo(m), cut, 0, R.Undo(m).oldLast + 1) && cut[q].next == INVALID_PGNO
  {
    hide R.Graph, R.RenPage, R.IsRenamed;
    R.MovedPage(m, pages, now, p);
    LastRen(m, pages[p]);
  }

  lemma LastRen(m: R.Move, pg: Page)
    requires pg.DataPage? && pg.next == INVALID_PGNO && 0 < m.oldFirst
    ensures R.RenPage(m, pg).DataPage? && R.RenPage(m, pg).next == INVALID_PGNO
  {
  }

  /** What opening a file closed with moved pages needs, and gives. */
  lemma ReadyToOpen(s: State, hash: Bytes -> nat)
    requires Settled(s, hash) && s.hdr.maxBucket < s.hdr.highMask && s.curr != INVALID_PGNO
    ensures s.hdr.ovflPoint + 1 < |s.hdr.spares|
    ensures var m := R.CloseMove(s.hdr); var u := R.Undo(m); var cut := R.CutRange(m, R.MovedAll(m, s.pages));
      && R.Movable(u, cut) && R.CutRange(u, R.MovedAll(u, cut)) == Reopened(s.hdr, s.pages)
      && (EndInReach(s.hdr, s.pages) <==>
            R.LastMoved(u, cut, u.oldLast + 1) || exists p :: 0 <= p <= u.newFirst - 1 && R.LastData(R.MovedAll(u, cut), p))
  {
    hide Settled, R.Graph, R.MoveOk, R.IsRenamed, R.CloseMove, LevelsOk, R.MovedAll, R.Movable, R.LastMoved,
      H.Dirty, Freshened, FirstPrevs, H.DirtOk, R.KindBelow, L.Spoiled, R.Survivors, R.CutRange, L.Bent;
    SettledDirt(s, hash);
    var m, pages0, h := R.CloseMove(s.hdr), Freshened(s.hdr, s.pages), FirstPrevs(s.hdr, s.pages);
    var u, cut := R.Undo(m), R.CutRange(m, R.MovedAll(m, s.pages));
    L.OpenSpoils(m, pages0, h);
    H.DirtGraph(m, pages0, h);
    H.CloseExact(m, pages0, h);
    if EndInReach(s.hdr, s.pages) && !R.LastMoved(u, cut, u.oldLast + 1) {
      var p :| R.LastData(s.pages, p) && p !in SpoiledPages(s.hdr, s.pages);
      LastFresh(s.hdr, s.pages, p);
      if R.InOld(m, p) {
        LastMoves(m, pages0, R.MovedAll(m, pages0), p);
      }
      PageRole(s, hash, p);
      LastSurvives(s.hdr, s.pages, m, p);
      LastUncut(u, R.MovedAll(u, cut), p);
    }
    if R.LastMoved(u, cut, u.oldLast + 1) {
      LastCameFrom(s.hdr, s.pages, R.MovedAll(m, pages0));
    } else if p :| 0 <= p <= u.newFirst - 1 && R.LastData(R.MovedAll(u, cut), p) {
      assert !R.InOld(u, p);
      UncutLast(u, R.MovedAll(u, cut), p);
      NotSpoiledLast(s.hdr, s.pages, p);
    }
  }

  /** A last data page among those that move back was one, and is not spoiled. */
  lemma LastCameFrom(h: Header, pages: PageMap, now: PageMap)
    requires h.ovflPoint + 1 < |h.spares|
    requires var m := R.CloseMove(h);
      && R.Graph(Freshened(h, pages)) && R.MoveOk(m, Freshened(h, pages)) && R.IsRenamed(m, Freshened(h, pages), now)
      && exists x :: x in R.KindBelow(R.Undo(m), R.CutRange(m, now), 0, R.Undo(m).oldLast + 1)
                     && R.CutRange(m, now)[x].next == INVALID_PGNO
    ensures EndInReach(h, pages)
  {
    hide R.CloseMove, R.IsRenamed, FirstPrevs, R.LinksBack, R.HeadsOk, R.EntriesOk, L.Culprit;
    var m, pages0 := R.CloseMove(h), Freshened(h, pages);
    var x :| x in R.KindBelow(R.Undo(m), R.CutRange(m, now), 0, R.Undo(m).oldLast + 1) && R.CutRange(m, now)[x].next == INVALID_PGNO;
    var r := R.CutSource(m, pages0, now, x);
    R.RankRen(m, pages0[r]);
    L.StaysOnly(m, pages0, FirstPrevs(h, pages), r);
    assert pages0[r].curr == r;
    assert R.RenPage(m, pages0[r]).next == R.Ren(m, pages0[r].next);
    assert R.LastData(pages, r) && r !in SpoiledPages(h, pages);
  }

  lemma UncutLast(m: R.Move, pages: PageMap, p: Pgno)
    requires R.LastData(pages, p) && !R.InOld(m, p)
    ensures R.LastData(R.CutRange(m, pages), p)
  {
  }

  lemma NotSpoiledLast(h: Header, pages: PageMap, p: Pgno)
    requires h.ovflPoint + 1 < |h.spares| && R.LastData(Reopened(h, pages), p)
    ensures EndInReach(h, pages)
  {
    hide L.Culprit, R.CloseMove, Freshened, FirstPrevs;
    assert R.LastData(pages, p) && p !in SpoiledPages(h, pages);
  }

  /** The file closed with n pages moved: it ends n pages earlier, every page in front of that is in
      it, and every live page behind is in the unused bucket pages, in order and of its kind. */
  ghost predicate ShortFile(h: Header, pages: PageMap, n: int, file: PageMap)
    requires 1 <= h.ovflPoint && h.ovflPoint + 1 < |h.spares|
  {
    var end, first := Top(h) - n, BucketPage(h, h.maxBucket + 1);
    && (forall p :: p in file ==> p < end)
    && (forall p :: p in pages && p < end ==> p in file && R.Rank(file[p]) == R.Rank(pages[p]))
    && (forall p :: p in pages && p >= end && !pages[p].DeletedPage? ==>
          first + (p - end) in file && R.Rank(file[first + (p - end)]) == R.Rank(pages[p]))
  }

  lemma ClosedIsShort(s: State, hash: Bytes -> nat)
    requires Settled(s, hash) && s.hdr.maxBucket < s.hdr.highMask && s.curr != INVALID_PGNO
    ensures 1 <= s.hdr.ovflPoint && s.hdr.ovflPoint + 1 < |s.hdr.spares|
    ensures var m := R.CloseMove(s.hdr); ShortFile(s.hdr, s.pages, R.Count(m), R.CutRange(m, R.MovedAll(m, s.pages)))
  {
    hide Settled, BucketPage, R.MovedAll, LevelsOk, ShortFile, R.CutRange, R.Place, R.Rank;
    SettledDirt(s, hash);
    SettledBounds(s, hash);
    R.LevelBounds(s.hdr);
    R.CloseMoveOk(s.hdr);
    var m := R.CloseMove(s.hdr);
    forall p | p in R.MovedAll(m, s.pages)
      ensures p <= m.oldLast
    {
      MovedBelow(s, hash, p);
    }
    forall p | p in s.pages && (!s.pages[p].DeletedPage? || !R.InOld(m, p))
      ensures R.Place(m, p, s.pages[p]) in R.MovedAll(m, s.pages)
      ensures R.Rank(R.MovedAll(m, s.pages)[R.Place(m, p, s.pages[p])]) == R.Rank(s.pages[p])
    {
      PlacedAs(s, hash, p);
    }
    forall p | p in s.pages
      ensures p <= m.oldLast
    {
      PageRole(s, hash, p);
    }
    ShortFrom(s.hdr, s.pages, m, R.MovedAll(m, s.pages));
  }

  /** The moved file has no page behind the range. */
  lemma MovedBelow(s: State, hash: Bytes -> nat, p: Pgno)
    requires Settled(s, hash) && s.hdr.maxBucket < s.hdr.highMask && s.curr != INVALID_PGNO
    requires s.hdr.ovflPoint + 1 < |s.hdr.spares| && p in R.MovedAll(R.CloseMove(s.hdr), s.pages)
    ensures p <= R.CloseMove(s.hdr).oldLast
  {
    hide Settled, R.CloseMove, R.MovedAll, R.IsRenamed, R.MoveOk, R.Graph, Freshened, FirstPrevs, H.DirtOk, H.Dirty, L.Bent, R.Rank,
      R.Movable, R.LastMoved, R.KindBelow, R.Moving, L.Spoiled;
    SettledDirt(s, hash);
    SettledBounds(s, hash);
    R.CloseMoveOk(s.hdr);
    var m, pages0, h := R.CloseMove(s.hdr), Freshened(s.hdr, s.pages), FirstPrevs(s.hdr, s.pages);
    L.MoveSpoils(m, pages0, h);
    H.DirtGraph(m, pages0, h);
    R.GraphMoves(m, pages0);
    FreshKeys(s.hdr, s.pages);
    L.SameKindAt(L.Renamed(m, L.Spoiled(m, pages0, h)), H.NewPrevs(m, h), R.MovedAll(m, pages0), p);
    var q := H.PlaceSource(m, pages0, R.MovedAll(m, pages0), p);
    PageRole(s, hash, q);
  }

  /** Every page is where it goes, and of its kind. */
  lemma PlacedAs(s: State, hash: Bytes -> nat, p: Pgno)
    requires Settled(s, hash) && s.hdr.maxBucket < s.hdr.highMask && s.curr != INVALID_PGNO
    requires s.hdr.ovflPoint + 1 < |s.hdr.spares| && p in s.pages
    ensures var m := R.CloseMove(s.hdr); var f, l := R.MovedAll(m, s.pages), R.Place(m, p, s.pages[p]);
      l in f && R.Rank(f[l]) == R.Rank(s.pages[p])
  {
    hide Settled, R.CloseMove, R.MovedAll, R.IsRenamed, R.MoveOk, R.Graph, Freshened, FirstPrevs, H.DirtOk, H.Dirty, L.Bent, R.Rank,
      R.Movable, R.LastMoved, R.KindBelow, R.Moving, R.RenPage, L.Spoiled;
    SettledDirt(s, hash);
    var m, pages0, h := R.CloseMove(s.hdr), Freshened(s.hdr, s.pages), FirstPrevs(s.hdr, s.pages);
    L.MoveSpoils(m, pages0, h);
    H.DirtGraph(m, pages0, h);
    R.GraphMoves(m, pages0);
    FreshKind(s.hdr, s.pages, p);
    H.RenamedAt(m, pages0, R.MovedAll(m, pages0), p);
    R.RankRen(m, pages0[p]);
    BentKeys(L.Renamed(m, L.Spoiled(m, pages0, h)), H.NewPrevs(m, h), R.MovedAll(m, pages0), R.Place(m, p, pages0[p]));
  }

  lemma ShortFrom(h: Header, pages: PageMap, m: R.Move, f: PageMap)
    requires 1 <= h.ovflPoint && h.ovflPoint + 1 < |h.spares|
    requires m.oldLast == Top(h) - 1 && m.newFirst == BucketPage(h, h.maxBucket + 1)
    requires m.newFirst + (m.oldLast - m.oldFirst) < m.oldFirst
    requires forall p :: p in f || p in pages ==> p <= m.oldLast
    requires forall p :: p in pages && (!pages[p].DeletedPage? || !R.InOld(m, p)) ==>
      R.Place(m, p, pages[p]) in f && R.Rank(f[R.Place(m, p, pages[p])]) == R.Rank(pages[p])
    ensures ShortFile(h, pages, R.Count(m), R.CutRange(m, f))
  {
    hide BucketPage, Top, R.Rank;
    forall p | p in pages
      ensures R.Place(m, p, pages[p]) == if R.InOld(m, p) && !pages[p].DeletedPage? then R.Shift(m, p) else p
    {
      PlaceIs(m, p, pages[p]);
    }
  }

  lemma PlaceIs(m: R.Move, p: Pgno, pg: Page)
    ensures R.Place(m, p, pg) == if R.InOld(m, p) && !pg.DeletedPage? then R.Shift(m, p) else p
  {
  }

  lemma FreshKind(h: Header, pages: PageMap, p: Pgno)
    requires p in pages
    ensures p in Freshened(h, pages) && R.Rank(Freshened(h, pages)[p]) == R.Rank(pages[p])
  {
  }

  lemma BentKeys(g: L.Nexts, h: H.Prevs, pages: PageMap, x: Pgno)
    requires x in pages
    ensures x in L.Bent(g, H.Dirty(h, pages)) && R.Rank(L.Bent(g, H.Dirty(h, pages))[x]) == R.Rank(pages[x])
  {
  }

  lemma LastFresh(h: Header, pages0: PageMap, p: Pgno)
    requires R.LastData(pages0, p)
    ensures R.LastData(Freshened(h, pages0), p)
  {
  }

  lemma LastSurvives(h: Header, pages: PageMap, m: R.Move, p: Pgno)
    requires h.ovflPoint + 1 < |h.spares| && m == R.CloseMove(h) && R.LastData(pages, p) && p !in SpoiledPages(h, pages)
    ensures R.LastData(Reopened(h, pages), p)
  {
    hide L.Spoiled, R.CloseMove, Freshened, FirstPrevs;
  }

  lemma LastUncut(m: R.Move, pages: PageMap, p: Pgno)
    requires R.LastData(R.CutRange(m, pages), p)
    ensures R.LastData(pages, p)
  {
  }

  /** Where free lists remember nothing harmful, the pages come back and the end is in reach. */
  lemma HarmlessReopens(s: State, hash: Bytes -> nat)
    requires Settled(s, hash) && s.hdr.maxBucket < s.hdr.highMask && s.curr != INVALID_PGNO
    requires s.hdr.ovflPoint + 1 < |s.hdr.spares| && HarmlessHeads(s.hdr, s.pages)
    ensures Reopened(s.hdr, s.pages) == R.Survivors(R.CloseMove(s.hdr), s.pages)
    ensures s.data != map[] ==> EndInReach(s.hdr, s.pages)
  {
    hide Settled, R.CloseMove, H.Dirty, Freshened, FirstPrevs, H.DirtOk, L.Spoiled, R.Survivors, L.Bent, H.Harmless;
    SettledDirt(s, hash);
    var m := R.CloseMove(s.hdr);
    L.MoveSpoils(m, Freshened(s.hdr, s.pages), FirstPrevs(s.hdr, s.pages));
    L.BentNone(R.Survivors(m, s.pages));
    if s.data != map[] {
      SettledLast(s, hash);
    }
  }

  /** Losing deleted pages and choosing a last data page keeps a store settled. */
  lemma DropKeeps(s: State, hash: Bytes -> nat, pages': PageMap, curr': Pgno)
    requires Settled(s, hash)
    requires forall p :: p in pages' ==> p in s.pages && pages'[p] == s.pages[p]
    requires forall p :: p in s.pages && !s.pages[p].DeletedPage? ==> p in pages'
    requires s.curr == INVALID_PGNO ==> curr' == INVALID_PGNO
    requires s.curr != INVALID_PGNO ==> R.LastData(pages', curr')
    ensures Settled(s.(pages := pages', curr := curr'), hash)
  {
    hide DataInv, LinksOk, KeyState, FreeInv, LevelsOk, AllocOk;
    BaseBounds(s.hdr, s.curr, s.pages, s.roles, s.fchain);
    DropFree(s, hash, pages');
    LiveKept(s, hash, pages');
    DropData(s, hash, pages');
    KeyStateFrame(s.hdr, hash, s.pages, s.roles, s.chains, s.data, s.keys, s.hdr, pages', s.roles, s.data);
    if s.curr != INVALID_PGNO {
      PageRole(s, hash, curr');
      KindIsRole(s, hash, curr');
    }
  }

  lemma KindIsRole(s: State, hash: Bytes -> nat, p: Pgno)
    requires Settled(s, hash) && p in s.pages && p in s.roles
    ensures s.roles[p].Data? <==> s.pages[p].DataPage?
    ensures s.pages[p].DeletedPage? ==> s.roles[p].Listed?
  {
    hide Settled;
    PageRole(s, hash, p);
    match s.roles[p]
    case Data(_, _) => DataHeads(s, hash, p);
    case Chain(_, _) => KeyEntries(s, hash, p);
    case FreeMap(_) => FreeThere(s, hash, p);
    case Listed(_, _) => DeletedLinks(s, hash, p);
  }

  lemma FreeThere(s: State, hash: Bytes -> nat, p: Pgno)
    requires Settled(s, hash) && p in s.roles && s.roles[p].FreeMap?
    ensures p in s.pages && s.pages[p].FreePage?
  {
    hide DataInv, LinksOk, KeyState, LevelsOk, AllocOk, CurrOk, FreeEntries, FreeChains;
    MapPageThere(s.hdr.freePages, s.fchain, s.pages, s.roles, p);
  }

  lemma DropFree(s: State, hash: Bytes -> nat, pages': PageMap)
    requires Settled(s, hash)
    requires forall p :: p in pages' ==> p in s.pages && pages'[p] == s.pages[p]
    requires forall p :: p in s.pages && !s.pages[p].DeletedPage? ==> p in pages'
    ensures FreeInv(s.hdr.freePages, s.fchain, pages', s.roles) && DomOk(pages', s.roles)
  {
    hide DataInv, LinksOk, KeyState, LevelsOk, AllocOk, CurrOk, FreeEntries, FreeChains;
    forall p | p in s.roles && s.roles[p].FreeMap?
      ensures SamePage(s.pages, pages', p)
    {
      FreeThere(s, hash, p);
    }
    ChainsFrame(s.hdr.freePages, s.fchain, s.pages, s.roles, pages', s.roles);
    EntriesFrame(s.pages, s.roles, pages', s.roles);
  }

  lemma LiveKept(s: State, hash: Bytes -> nat, pages': PageMap)
    requires Settled(s, hash)
    requires forall p :: p in pages' ==> p in s.pages && pages'[p] == s.pages[p]
    requires forall p :: p in s.pages && !s.pages[p].DeletedPage? ==> p in pages'
    ensures forall p :: p in s.roles && (s.roles[p].Data? || s.roles[p].Chain?) ==> SamePage(s.pages, pages', p)
    ensures KeepChains(s.pages, s.roles, pages', s.roles)
  {
    hide Settled;
    forall p | p in s.roles && (s.roles[p].Data? || s.roles[p].Chain?)
      ensures SamePage(s.pages, pages', p)
    {
      if p in s.pages {
        KindIsRole(s, hash, p);
      }
    }
  }

  lemma DropData(s: State, hash: Bytes -> nat, pages': PageMap)
    requires Settled(s, hash)
    requires forall p :: p in s.roles && (s.roles[p].Data? || s.roles[p].Chain?) ==> SamePage(s.pages, pages', p)
    ensures DataInv(s.hdr.bsize, pages', s.roles, s.data) && LinksOk(pages', s.roles)
    ensures KeepData(s.pages, pages', s.data, s.data)
  {
    hide DataInv, LinksOk, KeyState, BaseInv, CurrOk;
    forall p | p in s.roles && s.roles[p].Data?
      ensures SamePage(s.pages, pages', p)
    {
    }
    DataFrame(s.hdr.bsize, s.pages, s.roles, s.data, pages', s.roles);
    LinksFrame(s.pages, s.roles, pages', s.roles);
    SameDataBack(s.hdr.bsize, s.pages, s.roles, s.data, pages', s.roles);
    DataKept(s.hdr.bsize, s.pages, pages', s.roles, s.data, s.data);
  }
}
