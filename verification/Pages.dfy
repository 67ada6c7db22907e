/** The pages of a store file. A page number is an integer, the invalid page number is -1. */
module Pages {

  newtype Byte = b: int | 0 <= b < 256
  type Bytes = seq<Byte>
  type Pgno = int

  const INVALID_PGNO: Pgno := -1

  /** Bytes before the first index entry of a key page, and of each index entry. */
  const PAGE_OVERHEAD: nat := 28
  const PAIR_OVERHEAD: nat := 12
  /** Bytes before the data of a data page, and of each data header. */
  const BIG_PAGE_OVERHEAD: nat := 32
  const BIG_DATA_OVERHEAD: nat := 20
  const DATAP_SIZE: nat := 16

  /** A data pointer as it is stored: 32-bit `offset` and `len`, the high eight bits of
      the length sit in bits 20 to 27 of `offset`. */
  datatype DataPtr = DataPtr(first: Pgno, offset: nat, len: nat, chksum: nat)

  /** The header in front of each datum, the high length bits sit in `status`. */
  datatype DataHeader = DataHeader(len: nat, status: nat, next: nat, keyPage: Pgno, keyIdx: nat)

  datatype Entry = Entry(key: Bytes, datap: DataPtr)

  /** KeyPage: a bucket page or an overflow page; `offset` is its highest free byte.
      DataPage: `mem` is the raw memory, `hd` the headers in it by offset, `num` of
      them start on this page, `first` and `free` are the offsets of the first header
      and of the free space (0 when full).
      FreePage: a list of free page numbers. */
  datatype Page =
    | KeyPage(curr: Pgno, prev: Pgno, next: Pgno, ents: seq<Entry>, offset: int)
    | DataPage(curr: Pgno, prev: Pgno, next: Pgno, num: nat, first: nat, free: nat,
               mem: Bytes, hd: map<nat, DataHeader>)
    | FreePage(curr: Pgno, prev: Pgno, next: Pgno, frees: seq<Pgno>)
    | DeletedPage(curr: Pgno, prev: Pgno, next: Pgno)

  type PageMap = map<Pgno, Page>

  function SetNext(pg: Page, p: Pgno): (r: Page) {
    match pg
    case KeyPage(c, b, n, e, o) => KeyPage(c, b, p, e, o)
    case DataPage(c, b, n, k, f, g, m, h) => DataPage(c, b, p, k, f, g, m, h)
    case FreePage(c, b, n, f) => FreePage(c, b, p, f)
    case DeletedPage(c, b, n) => DeletedPage(c, b, p)
  }

  function SetPrev(pg: Page, p: Pgno): (r: Page) {
    match pg
    case KeyPage(c, b, n, e, o) => KeyPage(c, p, n, e, o)
    case DataPage(c, b, n, k, f, g, m, h) => DataPage(c, p, n, k, f, g, m, h)
    case FreePage(c, b, n, f) => FreePage(c, p, n, f)
    case DeletedPage(c, b, n) => DeletedPage(c, p, n)
  }

  function SetCurr(pg: Page, p: Pgno): (r: Page) {
    match pg
    case KeyPage(c, b, n, e, o) => KeyPage(p, b, n, e, o)
    case DataPage(c, b, n, k, f, g, m, h) => DataPage(p, b, n, k, f, g, m, h)
    case FreePage(c, b, n, f) => FreePage(p, b, n, f)
    case DeletedPage(c, b, n) => DeletedPage(p, b, n)
  }

  /** Rounds up to a multiple of four. */
  function AlignUp(n: nat): (r: nat)
    ensures n <= r < n + 4 && r % 4 == 0
  {
    if n % 4 != 0 then n + (4 - n % 4) else n
  }

  /** Rounds down to a multiple of four. */
  function AlignDown(n: int): (r: int)
    ensures n - 4 < r <= n && r % 4 == 0
  {
    n - n % 4
  }

  // ---------------------------------------------------------------- typed memory

  /** A header at `a` and the byte range from `b` to `c` share no byte. */
  predicate Apart(a: nat, b: nat, c: nat) {
    a + BIG_DATA_OVERHEAD <= b || c <= a || b == c
  }

  /** Copies bytes into the memory of a data page; a header the range touches is lost. */
  function PutBytes(pg: Page, off: nat, bs: Bytes): (r: Page)
    requires pg.DataPage? && off + |bs| <= |pg.mem|
    ensures r.DataPage? && |r.mem| == |pg.mem|
  {
    pg.(mem := pg.mem[..off] + bs + pg.mem[off + |bs|..],
        hd := map o | o in pg.hd && Apart(o, off, off + |bs|) :: pg.hd[o])
  }

  /** Copies a header into the memory of a data page: the 20 bytes under it no longer hold
      data, and a header that shares a byte with it is lost. */
  function PutHeader(pg: Page, off: nat, h: DataHeader): (r: Page)
    requires pg.DataPage? && off + BIG_DATA_OVERHEAD <= |pg.mem|
    ensures r.DataPage? && |r.mem| == |pg.mem|
  {
    pg.(mem := pg.mem[..off] + seq(BIG_DATA_OVERHEAD, _ => 0 as Byte) + pg.mem[off + BIG_DATA_OVERHEAD..],
        hd := (map o | o in pg.hd && Apart(o, off, off + BIG_DATA_OVERHEAD) :: pg.hd[o])[off := h])
  }

  // ---------------------------------------------------------------- page set-up

  datatype PageType = TKey | TData | TFree | TDeleted

  /** A page as it is initialised for a type: no links, no items. */
  function InitPage(bsize: nat, p: Pgno, t: PageType): Page {
    match t
    case TKey => KeyPage(p, INVALID_PGNO, INVALID_PGNO, [], bsize as int - 1)
    case TData => DataPage(p, INVALID_PGNO, INVALID_PGNO, 0, BIG_PAGE_OVERHEAD, BIG_PAGE_OVERHEAD,
                           seq(bsize, _ => 0 as Byte), map[])
    case TFree => FreePage(p, INVALID_PGNO, INVALID_PGNO, [])
    case TDeleted => DeletedPage(p, INVALID_PGNO, INVALID_PGNO)
  }

  /** What a get with the create flag returns: a page never written is initialised, any
      other page comes back as it is. */
  function GetCreate(pages: PageMap, bsize: nat, p: Pgno, t: PageType): Page {
    if p in pages then pages[p] else InitPage(bsize, p, t)
  }

  // ---------------------------------------------------------------- key page layout

  /** The worst-case space of a pair whose key has `ksize` bytes. */
  function PairSize(ksize: nat): nat {
    PAIR_OVERHEAD + ksize + DATAP_SIZE + 3
  }

  function FreeSpace(pg: Page): int
    requires pg.KeyPage?
  {
    pg.offset + 1 - PAGE_OVERHEAD as int - |pg.ents| * PAIR_OVERHEAD
  }

  predicate PairFits(pg: Page, ksize: nat)
    requires pg.KeyPage?
  {
    PairSize(ksize) as int <= FreeSpace(pg)
  }

  /** Highest free byte after a key and an aligned data pointer go below `offset`. */
  function OffsetAfter(offset: int, ksize: nat): int {
    AlignDown(offset - ksize as int + 1 - DATAP_SIZE as int) - 1
  }

  /** The page with the pair added; the key ends at the old highest free byte, the data
      pointer is aligned down below it. */
  function AddEntry(pg: Page, e: Entry): Page
    requires pg.KeyPage?
  {
    pg.(ents := pg.ents + [e], offset := OffsetAfter(pg.offset, |e.key|))
  }
}
