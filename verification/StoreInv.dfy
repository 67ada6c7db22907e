/** What holds of a store between operations, as predicates on values. Each predicate speaks
    about one layer: page allocation, data pages, bucket chains, keys. A ghost role per
    allocated page keeps the layers apart. */
module StoreInv {
  import opened Pages
  import opened Levels
  import opened Lengths
  import opened Crc32

  /** The space a datum's continuation owns at the start of a data page, up to `end`. */
  datatype Tail = NoTail | Tail(key: Bytes, j: nat, end: nat)

  /** The space a datum owns from its header on, up to `end`. */
  datatype Slot = Slot(key: Bytes, off: nat, end: nat)

  /** What a page in use is for: page i of the chain of bucket b, a data page, a page of the
      free list of a level, the entry j of free-list page m, or taken by the operation that
      is running. */
  datatype Role =
    | Chain(b: nat, i: nat)
    | Data(tail: Tail, slots: seq<Slot>)
    | FreeMap(lv: nat)
    | Listed(m: Pgno, j: nat)
    | Held

  type Roles = map<Pgno, Role>

  /** Where the bytes of a datum are: a header at `off` of span[0], part j on span[j]. */
  datatype Datum = Datum(off: nat, slot: nat, span: seq<Pgno>, parts: seq<Bytes>)

  type DataMap = map<Bytes, Datum>

  datatype Loc = Loc(page: Pgno, idx: nat)

  type KeyMap = map<Bytes, Loc>

  function Flat(parts: seq<Bytes>): Bytes {
    if parts == [] then [] else Flat(parts[..|parts| - 1]) + parts[|parts| - 1]
  }

  ghost predicate BsizeOk(bsize: nat) {
    512 <= bsize <= TWO20 && bsize % 4 == 0
  }

  // ---------------------------------------------------------------- allocation

  /** Every page in use is the base page of its bucket or a page of the pool. */
  ghost predicate AllocOk(h: Header, roles: Roles)
    requires 1 <= h.ovflPoint && h.ovflPoint + 1 < |h.spares|
  {
    forall p :: p in roles ==>
      if roles[p].Chain? && roles[p].i == 0
      then roles[p].b <= h.maxBucket && p == BucketPage(h, roles[p].b)
      else InPool(h, p)
  }

  /** Only pages in use have content. */
  ghost predicate DomOk(pages: PageMap, roles: Roles) {
    forall p :: p in pages ==> p in roles
  }

  predicate IsFree(r: Role) {
    r.FreeMap? || r.Listed?
  }

  function Follows(s: seq<Pgno>, i: nat): Pgno
    requires i < |s|
  {
    if i + 1 < |s| then s[i + 1] else INVALID_PGNO
  }

  function Before(s: seq<Pgno>, i: nat): Pgno
    requires i < |s|
  {
    if i > 0 then s[i - 1] else INVALID_PGNO
  }

  ghost predicate SamePage(pages: PageMap, pages': PageMap, p: Pgno) {
    (p in pages <==> p in pages') && (p in pages ==> pages'[p] == pages[p])
  }

  function Frees(pages: PageMap, m: Pgno): seq<Pgno> {
    if m in pages && pages[m].FreePage? then pages[m].frees else []
  }

  /** A page of a free list has no room for another entry. */
  predicate Full(bsize: nat, pages: PageMap, m: Pgno) {
    |Frees(pages, m)| >= (bsize - 28) / 4 - 1
  }

  ghost predicate FreeChainOk(lv: nat, head: Pgno, c: seq<Pgno>, pages: PageMap, roles: Roles) {
    && head == (if c == [] then INVALID_PGNO else c[0])
    && (forall i :: 0 <= i < |c| ==>
          && c[i] in roles && roles[c[i]] == FreeMap(lv)
          && c[i] in pages && pages[c[i]].FreePage? && pages[c[i]].curr == c[i]
          && pages[c[i]].next == Follows(c, i)
          && (if i > 0 then pages[c[i]].prev == Before(c, i) else pages[c[i]].prev == INVALID_PGNO || pages[c[i]].prev in roles))
    && (forall i, j :: 0 <= i < j < |c| ==> c[i] != c[j])
  }

  /** One chain of free-list pages per level. The previous link of the first page may still
      name a page that was in front of it. */
  ghost predicate FreeChains(heads: seq<Pgno>, fchain: seq<seq<Pgno>>, pages: PageMap, roles: Roles) {
    && |heads| == |fchain| == NCACHED
    && (forall lv :: 0 <= lv < NCACHED ==> FreeChainOk(lv, heads[lv], fchain[lv], pages, roles))
    && (forall m :: m in roles && roles[m].FreeMap? ==>
          roles[m].lv < NCACHED && m in fchain[roles[m].lv])
  }

  /** Entry j of list page m has the role Listed(m, j), and nothing else has it. */
  ghost predicate FreeEntries(pages: PageMap, roles: Roles) {
    && (forall m, j :: m in roles && roles[m].FreeMap? && 0 <= j < |Frees(pages, m)| ==>
          Frees(pages, m)[j] in roles && roles[Frees(pages, m)[j]] == Listed(m, j))
    && (forall p :: p in roles && roles[p].Listed? ==>
          && roles[p].m in roles && roles[roles[p].m].FreeMap?
          && roles[p].j < |Frees(pages, roles[p].m)|
          && Frees(pages, roles[p].m)[roles[p].j] == p)
  }

  /** A page that is an entry of a free list was deleted. */
  ghost predicate DeletedOk(pages: PageMap, roles: Roles) {
    forall p :: p in roles && roles[p].Listed? && p in pages ==> pages[p] == DeletedPage(p, INVALID_PGNO, INVALID_PGNO)
  }

  ghost predicate FreeInv(heads: seq<Pgno>, fchain: seq<seq<Pgno>>, pages: PageMap, roles: Roles) {
    FreeChains(heads, fchain, pages, roles) && FreeEntries(pages, roles) && DeletedOk(pages, roles)
  }

  /** The allocator's counter is started exactly when there is a current data page. */
  ghost predicate CurrStarted(h: Header, curr: Pgno)
    requires h.ovflPoint + 1 < |h.spares|
  {
    (curr == INVALID_PGNO <==> h.spares[h.ovflPoint + 1] == 0)
  }

  /** The current data page is the last of its list, or reserved and not yet in use. */
  ghost predicate CurrOk(h: Header, curr: Pgno, pages: PageMap, roles: Roles) {
    && 1 <= h.ovflPoint && h.ovflPoint + 1 < |h.spares|
    && (curr != INVALID_PGNO ==>
          if curr in roles
          then roles[curr].Data? && curr in pages && pages[curr].next == INVALID_PGNO
          else InPool(h, curr))
  }

  ghost predicate BaseInv(h: Header, curr: Pgno, pages: PageMap, roles: Roles, fchain: seq<seq<Pgno>>) {
    && LevelsOk(h) && BsizeOk(h.bsize)
    && AllocOk(h, roles) && DomOk(pages, roles)
    && FreeInv(h.freePages, fchain, pages, roles)
    && CurrStarted(h, curr)
  }

  // ---------------------------------------------------------------- data pages

  /** First byte above everything the page's data own. */
  function Limit(bsize: nat, pg: Page): nat
    requires pg.DataPage?
  {
    if pg.free == 0 then bsize else pg.free
  }

  /** Where the header of slot i leads: the next slot, or the free space. */
  function NextPos(pg: Page, slots: seq<Slot>, i: nat): nat
    requires pg.DataPage? && i < |slots|
  {
    if i + 1 < |slots| then slots[i + 1].off else pg.free
  }

  /** Walking from `first` along the `next` fields meets the slots in order and ends at the
      free space; the tail and the slots own disjoint ranges below it. */
  ghost predicate GeomOk(bsize: nat, pg: Page, tail: Tail, slots: seq<Slot>) {
    && pg.DataPage? && |pg.mem| == bsize && pg.num == |slots|
    && (pg.free == 0 || (BIG_PAGE_OVERHEAD <= pg.free <= bsize - BIG_DATA_OVERHEAD && pg.free % 4 == 0))
    && pg.first == (if slots == [] then pg.free else slots[0].off)
    && (tail.Tail? ==> BIG_PAGE_OVERHEAD <= tail.end <= (if slots == [] then Limit(bsize, pg) else slots[0].off))
    && (forall i :: 0 <= i < |slots| ==>
          && BIG_PAGE_OVERHEAD <= slots[i].off
          && slots[i].off + BIG_DATA_OVERHEAD <= slots[i].end <= Limit(bsize, pg)
          && slots[i].off in pg.hd
          && pg.hd[slots[i].off].next == NextPos(pg, slots, i))
    && (forall i, j :: 0 <= i < j < |slots| ==> slots[i].end <= slots[j].off)
  }

  ghost predicate DataPageOk(bsize: nat, pages: PageMap, roles: Roles, p: Pgno)
    requires p in roles && roles[p].Data?
  {
    p in pages && pages[p].curr == p && GeomOk(bsize, pages[p], roles[p].tail, roles[p].slots)
  }

  function Start(d: Datum, j: nat): nat {
    if j == 0 then d.off + BIG_DATA_OVERHEAD else BIG_PAGE_OVERHEAD
  }

  /** Part j of a datum: its bytes are on page span[j] inside the range it owns there, it
      fills the page unless it is the last part, and the page links to the next one. */
  ghost predicate PartOk(bsize: nat, pages: PageMap, roles: Roles, k: Bytes, d: Datum, j: nat)
    requires j < |d.span| == |d.parts|
  {
    var p := d.span[j];
    var s, e := Start(d, j), Start(d, j) + |d.parts[j]|;
    && p in roles && roles[p].Data?
    && p in pages && pages[p].DataPage? && |pages[p].mem| == bsize
    && e <= bsize && pages[p].mem[s..e] == d.parts[j]
    && (j + 1 < |d.span| ==> e == bsize && pages[p].next == d.span[j + 1])
    && (if j == 0
        then d.slot < |roles[p].slots| && roles[p].slots[d.slot].key == k
             && roles[p].slots[d.slot].off == d.off && e <= roles[p].slots[d.slot].end
        else roles[p].tail.Tail? && roles[p].tail.key == k && roles[p].tail.j == j && e <= roles[p].tail.end)
  }

  ghost predicate HeaderOk(pages: PageMap, d: Datum)
    requires |d.span| >= 1
  {
    && d.span[0] in pages && pages[d.span[0]].DataPage? && d.off in pages[d.span[0]].hd
    && var hd := pages[d.span[0]].hd[d.off];
       RealLen(hd.len, hd.status) == |Flat(d.parts)| && LowBits(hd.status) == DATA_VALID
  }

  ghost predicate DatumOk(bsize: nat, pages: PageMap, roles: Roles, k: Bytes, d: Datum) {
    && 1 <= |d.span| == |d.parts|
    && d.off + BIG_DATA_OVERHEAD <= bsize
    && (|d.span| > 1 ==> |d.parts[|d.parts| - 1]| > 0)
    && (forall j :: 0 <= j < |d.span| ==> PartOk(bsize, pages, roles, k, d, j))
    && HeaderOk(pages, d)
    && |Flat(d.parts)| <= MAX_DATASIZE
  }

  /** Every slot belongs to a datum. */
  ghost predicate SlotsOk(roles: Roles, data: DataMap) {
    forall p, i :: p in roles && roles[p].Data? && 0 <= i < |roles[p].slots| ==>
      var k := roles[p].slots[i].key;
      k in data && |data[k].span| >= 1 && data[k].span[0] == p && data[k].slot == i
  }

  ghost predicate DataInv(bsize: nat, pages: PageMap, roles: Roles, data: DataMap) {
    && (forall p :: p in roles && roles[p].Data? ==> DataPageOk(bsize, pages, roles, p))
    && (forall k :: k in data ==> DatumOk(bsize, pages, roles, k, data[k]))
    && SlotsOk(roles, data)
  }

  /** The data pages are doubly linked: next and previous links mirror each other. */
  ghost predicate LinksAt(pages: PageMap, roles: Roles, p: Pgno)
    requires p in pages
  {
    && (pages[p].next != INVALID_PGNO ==>
          var q := pages[p].next;
          q in roles && roles[q].Data? && q in pages && pages[q].prev == p)
    && (pages[p].prev != INVALID_PGNO ==>
          var q := pages[p].prev;
          q in roles && roles[q].Data? && q in pages && pages[q].next == p)
  }

  predicate DataAt(pages: PageMap, roles: Roles, p: Pgno) {
    p in roles && roles[p].Data? && p in pages
  }

  /** Among the data pages, if there are any, is one that is the last of its list. */
  ghost predicate HasLast(pages: PageMap, roles: Roles) {
    (exists p :: DataAt(pages, roles, p)) ==> exists p :: DataAt(pages, roles, p) && pages[p].next == INVALID_PGNO
  }

  ghost predicate LinksOk(pages: PageMap, roles: Roles) {
    && (forall p :: p in roles && roles[p].Data? && p in pages ==> LinksAt(pages, roles, p))
    && HasLast(pages, roles)
  }

  // ---------------------------------------------------------------- chains

  function Ents(pages: PageMap, p: Pgno): seq<Entry> {
    if p in pages && pages[p].KeyPage? then pages[p].ents else []
  }

  /** The space of a key page is what its entries leave. */
  ghost predicate LayoutOk(bsize: nat, pg: Page)
    requires pg.KeyPage?
  {
    pg.offset == LayoutOffset(bsize, pg.ents) && FreeSpace(pg) >= 0
  }

  function LayoutOffset(bsize: nat, ents: seq<Entry>): int {
    if ents == [] then bsize - 1
    else OffsetAfter(LayoutOffset(bsize, ents[..|ents| - 1]), |ents[|ents| - 1].key|)
  }

  /** Page i of chain c: linked both ways; an untouched base page has no content yet; only a
      base page without a chain is empty. */
  ghost predicate ChainPageOk(bsize: nat, pages: PageMap, c: seq<Pgno>, i: nat)
    requires i < |c|
  {
    if c[i] in pages then
      && pages[c[i]].KeyPage? && pages[c[i]].curr == c[i]
      && pages[c[i]].next == Follows(c, i)
      && pages[c[i]].prev == (if i == 0 then INVALID_PGNO else c[i - 1])
      && LayoutOk(bsize, pages[c[i]])
      && (pages[c[i]].ents == [] ==> |c| == 1)
    else |c| == 1
  }

  ghost predicate ChainOk(h: Header, pages: PageMap, roles: Roles, b: nat, c: seq<Pgno>) {
    && 1 <= |c| && c[0] == BucketPage(h, b)
    && (forall i :: 0 <= i < |c| ==> c[i] in roles && roles[c[i]] == Chain(b, i))
    && (forall i :: 0 <= i < |c| ==> ChainPageOk(h.bsize, pages, c, i))
  }

  ghost predicate ChainInv(h: Header, pages: PageMap, roles: Roles, chains: seq<seq<Pgno>>) {
    && |chains| == h.maxBucket + 1
    && (forall b :: 0 <= b < |chains| ==> ChainOk(h, pages, roles, b, chains[b]))
    && (forall p :: p in roles && roles[p].Chain? ==>
          roles[p].b < |chains| && roles[p].i < |chains[roles[p].b]| && chains[roles[p].b][roles[p].i] == p)
  }

  // ---------------------------------------------------------------- keys

  /** A data pointer decodes to the place, length and checksum of a datum. */
  ghost predicate PtrOk(dp: DataPtr, d: Datum) {
    && |d.span| >= 1 && dp.first == d.span[0]
    && LowBits(dp.offset) == d.off
    && RealLen(dp.len, dp.offset) == |Flat(d.parts)|
    && dp.chksum == Crc(0, Flat(d.parts))
  }

  /** The data header points back at the key's slot. */
  ghost predicate BackPtrOk(pages: PageMap, d: Datum, loc: Loc) {
    && |d.span| >= 1 && d.span[0] in pages && pages[d.span[0]].DataPage?
    && d.off in pages[d.span[0]].hd
    && pages[d.span[0]].hd[d.off].keyPage == loc.page
    && pages[d.span[0]].hd[d.off].keyIdx == loc.idx
  }

  predicate KeySizeOk(bsize: nat, k: Bytes) {
    |k| + 59 <= bsize
  }

  /** The key is where the map says, in the bucket its hash selects, with a good pointer. */
  ghost predicate KeyAt(h: Header, hash: Bytes -> nat, pages: PageMap, roles: Roles, data: DataMap,
                        k: Bytes, loc: Loc)
  {
    && loc.page in roles && roles[loc.page].Chain?
    && roles[loc.page].b == CallHash(h, hash(k))
    && loc.idx < |Ents(pages, loc.page)|
    && Ents(pages, loc.page)[loc.idx].key == k
    && KeySizeOk(h.bsize, k)
    && k in data && PtrOk(Ents(pages, loc.page)[loc.idx].datap, data[k])
    && BackPtrOk(pages, data[k], loc)
  }

  ghost predicate KeyInv(h: Header, hash: Bytes -> nat, pages: PageMap, roles: Roles, data: DataMap,
                         keys: KeyMap)
  {
    && (forall k :: k in keys ==> KeyAt(h, hash, pages, roles, data, k, keys[k]))
    && (forall p, e :: p in roles && roles[p].Chain? && 0 <= e < |Ents(pages, p)| ==>
          Ents(pages, p)[e].key in keys && keys[Ents(pages, p)[e].key] == Loc(p, e))
  }
}
