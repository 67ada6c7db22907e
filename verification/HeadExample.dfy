/** How a free list comes to remember a page, and a store in which moving pages then goes wrong. */
module HeadExample {
  import opened Bits
  import opened Pages
  import opened Levels
  import opened Lengths
  import opened Crc32
  import opened StoreInv
  import opened Alloc
  import opened BaseLemmas
  import opened Split
  import opened Reopen
  import opened Losses
  import R = Relocate
  import H = StaleHeads
  import L = SpoiledLinks

  /** Taking an empty first list page for use leaves a free list whose new first page remembers
      it: the taken page may become a data page or anything else. */
  lemma TakenHeadRemembered(h: Header, curr: Pgno, pages: PageMap, roles: Roles, fchain: seq<seq<Pgno>>, lv: nat)
    requires BaseInv(h, curr, pages, roles, fchain)
    requires lv < |fchain| && |fchain[lv]| >= 2 && Frees(pages, fchain[lv][0]) == []
    ensures lv < |h.freePages| && h.freePages[lv] == fchain[lv][0] && fchain[lv][0] in pages
    ensures var m, p := fchain[lv][0], fchain[lv][1]; var h' := h.(freePages := h.freePages[lv := pages[m].next]);
      && BaseInv(h', curr, pages, roles[m := Held], fchain[lv := fchain[lv][1..]])
      && h'.freePages[lv] == p && p in FirstPrevs(h', pages) && FirstPrevs(h', pages)[p] == m && !FreshHeads(h', pages)
  {
    hide LevelsOk, AllocOk, FreeEntries, FreeChainOk;
    BaseBounds(h, curr, pages, roles, fchain);
    var c := fchain[lv];
    assert FreeChainOk(lv, h.freePages[lv], c, pages, roles);
    ChainMember(lv, h.freePages[lv], c, pages, roles, 0);
    ChainMember(lv, h.freePages[lv], c, pages, roles, 1);
    HeadIs(lv, h.freePages[lv], c, pages, roles);
    PageNumbersPositive(h, curr, pages, roles, fchain, c[0]);
    BasePopMap(h, curr, pages, roles, fchain, lv);
    var h' := h.(freePages := h.freePages[lv := pages[c[0]].next]);
    assert h'.freePages[lv] == c[1];
    assert c[1] in h'.freePages;
  }

  lemma HeadIs(lv: nat, head: Pgno, c: seq<Pgno>, pages: PageMap, roles: Roles)
    requires FreeChainOk(lv, head, c, pages, roles) && c != []
    ensures head == c[0]
  {
  }

  // ---------------------------------------------------------------- a store

  function Spares(): (s: seq<nat>)
    ensures |s| == NCACHED && s[0] == 3 && s[1] == 4 && s[2] == 5 && s[3] == 10
    ensures forall l :: 3 < l < NCACHED ==> s[l] == 0
  {
    [3, 4, 5, 10] + seq(NCACHED - 4, _ => 0)
  }

  function Lists(): (s: seq<Pgno>)
    ensures |s| == NCACHED && s[2] == 9
    ensures forall l :: 0 <= l < NCACHED && l != 2 ==> s[l] == INVALID_PGNO
  {
    [INVALID_PGNO, INVALID_PGNO, 9] + seq(NCACHED - 3, _ => INVALID_PGNO)
  }

  function ListChains(): (s: seq<seq<Pgno>>)
    ensures |s| == NCACHED && s[2] == [9]
    ensures forall l :: 0 <= l < NCACHED && l != 2 ==> s[l] == []
  {
    [[], [], [9]] + seq(NCACHED - 3, _ => [])
  }

  /** Three of four buckets on pages 3 to 5; page 6 is the page of the fourth. One key. */
  function Hdr(): Header {
    Header(512, 2, 2, 3, 1, 1, 3, 0, Spares(), Lists())
  }

  /** Every key belongs in the first bucket. */
  function ToFirst(): Bytes -> nat {
    _ => 0
  }

  const KEY: Bytes := [1]

  /** The value has 600 bytes: 460 fill page 7 from its header on, the rest is on page 8. */
  function First(): Bytes {
    seq(460, _ => 9 as Byte)
  }

  function Rest(): Bytes {
    seq(140, _ => 9 as Byte)
  }

  function KeyDatum(): Datum {
    Datum(32, 0, [7, 8], [First(), Rest()])
  }

  function Pointer(): DataPtr {
    DataPtr(7, 32, 600, Crc(0, First() + Rest()))
  }

  function Bucket(): Page {
    AddEntry(InitPage(512, 3, TKey), Entry(KEY, Pointer()))
  }

  function Page7(): Page {
    DataPage(7, INVALID_PGNO, 8, 1, 32, 0, seq(52, _ => 0 as Byte) + First(), map[32 := DataHeader(600, DATA_VALID, 0, 3, 0)])
  }

  function Page8(): Page {
    DataPage(8, 7, INVALID_PGNO, 0, 172, 172, seq(32, _ => 0 as Byte) + Rest() + seq(340, _ => 0 as Byte), map[])
  }

  /** The key on page 3, its datum on pages 7 and 8, and a free list of one page, page 9, which
      remembers page 7. */
  function Pages0(): PageMap {
    map[3 := Bucket(), 7 := Page7(), 8 := Page8(), 9 := FreePage(9, 7, INVALID_PGNO, [])]
  }

  function Roles0(): Roles {
    map[3 := Chain(0, 0), 4 := Chain(1, 0), 5 := Chain(2, 0), 7 := Data(NoTail, [Slot(KEY, 32, 512)]),
        8 := Data(Tail(KEY, 1, 172), []), 9 := FreeMap(2)]
  }

  function Data0(): DataMap {
    map[KEY := KeyDatum()]
  }

  function Keys0(): KeyMap {
    map[KEY := Loc(3, 0)]
  }

  function Example(): State {
    State(Hdr(), 8, Pages0(), Roles0(), ListChains(), [[3], [4], [5]], Data0(), Keys0())
  }

  lemma SmallLogs()
    ensures Pow2(0) == 1 && Pow2(1) == 2 && Pow2(2) == 4
    ensures Log2(1) == 0 && Log2(2) == 1 && Log2(3) == 2 && Log2(4) == 2
  {
    Log2Unique(2, 1);
    Log2Unique(3, 2);
    Log2Unique(4, 2);
    Log2Unique(1, 0);
  }

  lemma LevelsHold()
    ensures LevelsOk(Hdr()) && BsizeOk(Hdr().bsize) && Hdr().spares[3] == 10
  {
    hide Log2, Pow2, Spares, Lists;
    SmallLogs();
  }

  lemma BucketPages()
    ensures BucketPage(Hdr(), 0) == 3 && BucketPage(Hdr(), 1) == 4 && BucketPage(Hdr(), 2) == 5 && BucketPage(Hdr(), 3) == 6
  {
    hide Log2, Pow2, Spares, Lists;
    SmallLogs();
  }

  lemma PoolPages()
    ensures 1 <= Hdr().ovflPoint && Hdr().ovflPoint + 1 < |Hdr().spares|
    ensures InPool(Hdr(), 7) && InPool(Hdr(), 8) && InPool(Hdr(), 9)
  {
    hide Log2, Pow2, Spares, Lists;
    SmallLogs();
  }

  lemma Allocated()
    ensures 1 <= Hdr().ovflPoint && Hdr().ovflPoint + 1 < |Hdr().spares| && AllocOk(Hdr(), Roles0()) && DomOk(Pages0(), Roles0())
    ensures CurrStarted(Hdr(), 8) && CurrOk(Hdr(), 8, Pages0(), Roles0())
  {
    hide BucketPage, InPool, LevelsOk, Bucket, First, Rest;
    LevelsHold();
    BucketPages();
    PoolPages();
  }

  lemma FreeLists()
    ensures FreeInv(Lists(), ListChains(), Pages0(), Roles0())
  {
    hide Lists, ListChains, Bucket, Page7, Page8;
    forall lv | 0 <= lv < NCACHED
      ensures FreeChainOk(lv, Lists()[lv], ListChains()[lv], Pages0(), Roles0())
    {
    }
    assert FreeChains(Lists(), ListChains(), Pages0(), Roles0());
    assert FreeEntries(Pages0(), Roles0());
    assert DeletedOk(Pages0(), Roles0());
  }

  lemma BothPages()
    ensures DataPageOk(512, Pages0(), Roles0(), 7) && DataPageOk(512, Pages0(), Roles0(), 8)
  {
    hide Bucket;
  }

  lemma BothParts()
    ensures PartOk(512, Pages0(), Roles0(), KEY, KeyDatum(), 0) && PartOk(512, Pages0(), Roles0(), KEY, KeyDatum(), 1)
  {
    hide Bucket;
    assert Page7().mem[52..512] == First();
    assert Page8().mem[32..172] == Rest();
  }

  lemma Value()
    ensures Flat(KeyDatum().parts) == First() + Rest() && |First() + Rest()| == 600
  {
    var parts := KeyDatum().parts;
    assert parts[..1] == [First()] && parts[..1][..0] == [];
    assert Flat(parts[..1]) == First();
  }

  lemma Stored()
    ensures DatumOk(512, Pages0(), Roles0(), KEY, KeyDatum())
  {
    hide PartOk, Flat, Bucket, First, Rest;
    BothParts();
    Value();
    PlainLenDecodes(600, DATA_VALID);
    assert |First()| == 460 && |Rest()| == 140 by { Sizes(); }
  }

  lemma Sizes()
    ensures |First()| == 460 && |Rest()| == 140
  {
  }

  lemma DataPages()
    ensures DataInv(512, Pages0(), Roles0(), Data0()) && LinksOk(Pages0(), Roles0())
  {
    hide PartOk, GeomOk, DatumOk, DataPageOk, Bucket, First, Rest;
    BothPages();
    Stored();
    assert DataAt(Pages0(), Roles0(), 8) && Pages0()[8].next == INVALID_PGNO;
    assert LinksAt(Pages0(), Roles0(), 7) && LinksAt(Pages0(), Roles0(), 8);
  }

  lemma BucketOk()
    ensures ChainPageOk(512, Pages0(), [3], 0)
    ensures Bucket().KeyPage? && Bucket().ents == [Entry(KEY, Pointer())]
  {
    hide Page7, Page8;
    var e := Entry(KEY, Pointer());
    assert [e][..0] == [];
    assert LayoutOffset(512, []) == 511;
    assert LayoutOffset(512, [e]) == OffsetAfter(511, 1);
  }

  lemma Chains()
    ensures ChainInv(Hdr(), Pages0(), Roles0(), [[3], [4], [5]])
  {
    hide BucketPage, LevelsOk, InPool, ChainPageOk, Bucket, Page7, Page8, Spares, Lists, BsizeOk;
    LevelsHold();
    BucketPages();
    PoolPages();
    BucketOk();
    NotWritten(4);
    NotWritten(5);
    assert ChainOk(Hdr(), Pages0(), Roles0(), 0, [3]);
    assert ChainOk(Hdr(), Pages0(), Roles0(), 1, [4]);
    assert ChainOk(Hdr(), Pages0(), Roles0(), 2, [5]);
  }

  lemma NotWritten(p: Pgno)
    requires p !in Pages0()
    ensures ChainPageOk(512, Pages0(), [p], 0)
  {
  }

  lemma TheKey()
    ensures KeyInv(Hdr(), ToFirst(), Pages0(), Roles0(), Data0(), Keys0())
  {
    hide Bucket, Page8, First, Rest, Flat, Crc, CallHash;
    BucketOk();
    Value();
    PlainLenDecodes(600, 32);
    FirstBucket();
    assert KeyAt(Hdr(), ToFirst(), Pages0(), Roles0(), Data0(), KEY, Loc(3, 0));
    forall p, e | p in Roles0() && Roles0()[p].Chain? && 0 <= e < |Ents(Pages0(), p)|
      ensures Ents(Pages0(), p)[e].key in Keys0() && Keys0()[Ents(Pages0(), p)[e].key] == Loc(p, e)
    {
      assert p == 3 || p == 4 || p == 5;
    }
  }

  lemma FirstBucket()
    ensures CallHash(Hdr(), ToFirst()(KEY)) == 0
  {
  }

  lemma HdrFields()
    ensures Hdr().freePages == Lists() && Hdr().bsize == 512 && Hdr().nkeys == |Keys0()| && Hdr().numMoved == 0
    ensures NoHeld(Roles0()) && Keys0().Keys == Data0().Keys && Data0() != map[]
  {
    assert KEY in Data0();
    hide Bucket, Page7, Page8;
  }

  /** The whole invariant of a store holds of it. */
  lemma ExampleResting()
    ensures Resting(Example(), ToFirst())
  {
    hide Hdr, Pages0, Roles0, Data0, Keys0, LevelsOk, AllocOk, DomOk, FreeInv, CurrStarted, CurrOk, DataInv, LinksOk, ChainInv, BsizeOk,
      KeyInv, Lists, ListChains, NoHeld;
    LevelsHold();
    BucketPages();
    PoolPages();
    Allocated();
    FreeLists();
    DataPages();
    Chains();
    TheKey();
    HdrFields();
  }

  lemma ExampleMove()
    ensures Hdr().ovflPoint + 1 < |Hdr().spares| && R.CloseMove(Hdr()) == R.Move(9, 9, 6)
  {
    hide BucketPage, LevelsOk, InPool;
    LevelsHold();
    BucketPages();
    PoolPages();
  }

  /** Closing it moves page 9 to page 6, and the first page of the datum, whose next is page 8,
      gets the free-list page as its next. */
  lemma ExampleGoesWrong()
    ensures Hdr().ovflPoint + 1 < |Hdr().spares| && !HarmlessHeads(Hdr(), Pages0())
    ensures var now := R.MovedAll(R.CloseMove(Hdr()), Pages0());
      && Pages0()[7].next == 8 == KeyDatum().span[1]
      && 7 in now && now[7] == SetNext(Pages0()[7], 6) && 6 in now && now[6].FreePage?
  {
    hide Bucket, First, Rest;
    ExampleMove();
    var m := R.Move(9, 9, 6);
    assert R.MoveKind(m, Pages0(), 0, 9) == Pages0() && R.DataMoved(m, Pages0()) == Pages0();
    assert R.MoveKind(m, Pages0(), 1, 9) == Pages0() && R.KeysMoved(m, Pages0()) == Pages0();
    assert R.MoveKind(m, Pages0(), 2, 9) == Pages0();
    assert R.MovedAll(m, Pages0()) == R.MoveOne(m, Pages0(), 9);
    assert Hdr().freePages[2] == 9;
    assert 9 in FirstPrevs(Hdr(), Pages0()) && FirstPrevs(Hdr(), Pages0())[9] == 7;
    assert Freshened(Hdr(), Pages0())[7] == Pages0()[7];
    assert !H.HarmlessAt(m, Freshened(Hdr(), Pages0()), 9, 7);
  }

  lemma ExampleSpoils()
    ensures Hdr().ovflPoint + 1 < |Hdr().spares| && 7 in SpoiledPages(Hdr(), Pages0()) && 8 !in SpoiledPages(Hdr(), Pages0())
  {
    hide Bucket, Page7, Page8;
    ExampleMove();
    PageLinks();
    var m, h := R.Move(9, 9, 6), FirstPrevs(Hdr(), Pages0());
    assert Hdr().freePages[2] == 9;
    assert 9 in h && h[9] == 7;
    assert L.LastHead(m, h, 7, 10) == 9;
    assert L.LastHead(m, h, 8, 10) == L.LastHead(m, h, 8, 9) == INVALID_PGNO;
    assert Freshened(Hdr(), Pages0())[7] == Page7();
  }

  lemma PageLinks()
    ensures Page7().DataPage? && Page7().prev == INVALID_PGNO && Page8().DataPage? && Page8().next == INVALID_PGNO
  {
    hide First, Rest;
  }

  /** Before that the value is read; once the file was closed and opened it is lost, although opening
      finds a last data page. */
  lemma ExampleLoses()
    ensures Fetch(Pages0(), 512, 3, KEY, 1) == Got(First() + Rest())
    ensures Hdr().ovflPoint + 1 < |Hdr().spares| && EndInReach(Hdr(), Pages0())
    ensures Fetch(Reopened(Hdr(), Pages0()), 512, 3, KEY, 1) == Lost
  {
    hide Hdr, Pages0, Roles0, StateOk, Fetch, SpoiledPages, Reopened, First, Rest, Flat, Crc, CallHash, Bucket, Page7, Page8;
    ExampleResting();
    ExampleSpoils();
    FirstBucket();
    HdrFields();
    ExampleShape();
    Value();
    var s := Example();
    StoreServes(s, ToFirst(), KEY, 1);
    WhatIsLost(s, ToFirst(), KEY, 1);
    assert KeyDatum().span[0] == 7;
    assert !DataClear(KeyDatum(), SpoiledPages(Hdr(), Pages0()), 0);
  }

  lemma ExampleShape()
    ensures Hdr().maxBucket < Hdr().highMask && Keys0() == map[KEY := Loc(3, 0)] && Data0() == map[KEY := KeyDatum()]
    ensures R.LastData(Pages0(), 8)
  {
    PageLinks();
  }
}
