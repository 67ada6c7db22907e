/** The entries of a chain, page by page: where a put and a split place a pair. */
module ChainRows {
  import opened Pages
  import opened Levels
  import opened StoreInv
  import opened KeyLemmas
  import opened Split

  type Row = seq<Entry>

  function Rows(pages: PageMap, c: seq<Pgno>): (r: seq<Row>)
    ensures |r| == |c| && forall i :: 0 <= i < |c| ==> r[i] == Ents(pages, c[i])
  {
    seq(|c|, i requires 0 <= i < |c| => Ents(pages, c[i]))
  }

  /** The rows of every bucket. */
  function Table(pages: PageMap, chains: seq<seq<Pgno>>): (r: seq<seq<Row>>)
    ensures |r| == |chains| && forall b :: 0 <= b < |chains| ==> r[b] == Rows(pages, chains[b])
  {
    seq(|chains|, b requires 0 <= b < |chains| => Rows(pages, chains[b]))
  }

  /** A page with these entries has room for a pair with a key of this size. */
  predicate RowFits(bsize: nat, row: Row, ksize: nat) {
    PairFits(KeyPage(0, INVALID_PGNO, INVALID_PGNO, row, LayoutOffset(bsize, row)), ksize)
  }

  lemma RowFitsPage(bsize: nat, pg: Page, ksize: nat)
    requires pg.KeyPage? && LayoutOk(bsize, pg)
    ensures RowFits(bsize, pg.ents, ksize) <==> PairFits(pg, ksize)
  {
  }

  /** An empty page takes keys of bsize-59 bytes at most. */
  lemma EmptyRowFits(bsize: nat, k: Bytes)
    ensures RowFits(bsize, [], |k|) <==> KeySizeOk(bsize, k)
  {
  }

  // ---------------------------------------------------------------- where a pair goes

  /** One more entry on page i of a chain. */
  function WithEntry(rows: seq<Row>, i: nat, e: Entry): seq<Row>
    requires i < |rows|
  {
    rows[i := rows[i] + [e]]
  }

  predicate LastFits(bsize: nat, rows: seq<Row>, ksize: nat)
    requires rows != []
  {
    RowFits(bsize, rows[|rows| - 1], ksize)
  }

  /** A new pair goes to the last page if that has room, or else to a new page behind it. */
  function AppendLast(bsize: nat, rows: seq<Row>, e: Entry): seq<Row>
    requires rows != []
  {
    if LastFits(bsize, rows, |e.key|) then WithEntry(rows, |rows| - 1, e) else rows + [[e]]
  }

  /** A pair that moves goes to the first page that has room, or to a new page at the end. */
  function FirstFit(bsize: nat, rows: seq<Row>, e: Entry): (r: seq<Row>)
    ensures |r| >= 1
  {
    if rows == [] then [[e]]
    else if RowFits(bsize, rows[0], |e.key|) then [rows[0] + [e]] + rows[1..]
    else [rows[0]] + FirstFit(bsize, rows[1..], e)
  }

  predicate NoneFits(bsize: nat, rows: seq<Row>, i: nat, ksize: nat)
    requires i <= |rows|
  {
    forall j :: 0 <= j < i ==> !RowFits(bsize, rows[j], ksize)
  }

  lemma {:induction false} FirstFitAt(bsize: nat, rows: seq<Row>, e: Entry, i: nat)
    requires i <= |rows| && NoneFits(bsize, rows, i, |e.key|)
    requires i < |rows| ==> RowFits(bsize, rows[i], |e.key|)
    ensures FirstFit(bsize, rows, e) == if i < |rows| then WithEntry(rows, i, e) else rows + [[e]]
    decreases |rows|
  {
    hide RowFits;
    if rows == [] {
    } else if i == 0 {
      assert WithEntry(rows, 0, e) == [rows[0] + [e]] + rows[1..];
    } else {
      FirstFitAt(bsize, rows[1..], e, i - 1);
      assert rows == [rows[0]] + rows[1..];
    }
  }

  // ---------------------------------------------------------------- the table while pages change

  lemma TableKept(h: Header, pages: PageMap, roles: Roles, chains: seq<seq<Pgno>>, pages': PageMap, roles': Roles)
    requires ChainInv(h, pages, roles, chains) && KeepChains(pages, roles, pages', roles')
    ensures Table(pages', chains) == Table(pages, chains)
  {
    forall b | 0 <= b < |chains|
      ensures Rows(pages', chains[b]) == Rows(pages, chains[b])
    {
      assert ChainOk(h, pages, roles, b, chains[b]);
      forall i | 0 <= i < |chains[b]|
        ensures Ents(pages', chains[b][i]) == Ents(pages, chains[b][i])
      {
        assert roles[chains[b][i]] == Chain(b, i);
        assert SamePage(pages, pages', chains[b][i]);
      }
    }
  }

  /** Writing one chain page changes the row of that page only. */
  lemma TableWrite(h: Header, pages: PageMap, roles: Roles, chains: seq<seq<Pgno>>, pages': PageMap, b: nat, i: nat, e: Entry)
    requires ChainInv(h, pages, roles, chains) && b < |chains| && i < |chains[b]|
    requires var p := chains[b][i]; p in pages' && pages' == pages[p := pages'[p]] && Ents(pages', p) == Ents(pages, p) + [e]
    ensures Table(pages', chains) == Table(pages, chains)[b := WithEntry(Rows(pages, chains[b]), i, e)]
  {
    var t := Table(pages, chains)[b := WithEntry(Rows(pages, chains[b]), i, e)];
    forall x | 0 <= x < |chains|
      ensures Rows(pages', chains[x]) == t[x]
    {
      assert ChainOk(h, pages, roles, b, chains[b]);
      assert ChainOk(h, pages, roles, x, chains[x]);
      assert roles[chains[b][i]] == Chain(b, i);
      forall j | 0 <= j < |chains[x]|
        ensures Ents(pages', chains[x][j]) == t[x][j]
      {
        assert roles[chains[x][j]] == Chain(x, j);
      }
    }
  }

  /** Linking a held page behind a chain adds its row to that chain. */
  lemma TableExtend(h: Header, pages: PageMap, roles: Roles, chains: seq<seq<Pgno>>, pages': PageMap, b: nat, n: Pgno, e: Entry)
    requires ChainInv(h, pages, roles, chains) && b < |chains| && chains[b] != [] && n in roles && roles[n].Held?
    requires var last := chains[b][|chains[b]| - 1];
      last in pages && n in pages' && pages' == pages[last := SetNext(pages[last], n)][n := pages'[n]] && Ents(pages', n) == [e]
    ensures Table(pages', chains[b := chains[b] + [n]]) == Table(pages, chains)[b := Rows(pages, chains[b]) + [[e]]]
  {
    var t := Table(pages, chains)[b := Rows(pages, chains[b]) + [[e]]];
    var c := chains[b := chains[b] + [n]];
    forall x | 0 <= x < |c|
      ensures Rows(pages', c[x]) == t[x]
    {
      assert ChainOk(h, pages, roles, x, chains[x]);
      forall j | 0 <= j < |chains[x]|
        ensures Ents(pages', chains[x][j]) == Ents(pages, chains[x][j])
      {
        assert roles[chains[x][j]] == Chain(x, j);
      }
    }
  }

  // ---------------------------------------------------------------- a split

  /** Taking the chain of bucket b apart empties its first page; the new bucket has an empty page. */
  lemma TableDetached(s: State, hash: Bytes -> nat, b: nat)
    requires StateOk(s, hash) && s.curr != INVALID_PGNO && s.hdr.ovflPoint + 2 < NCACHED
    requires b < |s.chains| && |s.chains[b]| >= 1
    ensures var op, np := s.chains[b][0], BucketPage(Grow(s.hdr), s.hdr.maxBucket + 1);
      Table(SplitPages(s.hdr.bsize, s.pages, op, np), s.chains[b := [op]] + [[np]])
        == Table(s.pages, s.chains)[b := [[]]] + [[[]]]
  {
    hide Grow, BucketPage, InPool, DataInv, LinksOk, KeyInv, LevelsOk, FreeInv;
    NewBucketPage(s.hdr, s.curr, s.pages, s.roles, s.fchain);
    var op, np := s.chains[b][0], BucketPage(Grow(s.hdr), s.hdr.maxBucket + 1);
    var pages', c := SplitPages(s.hdr.bsize, s.pages, op, np), s.chains[b := [op]] + [[np]];
    var t := Table(s.pages, s.chains)[b := [[]]] + [[[]]];
    InitEmpty(s.hdr.bsize, op);
    InitEmpty(s.hdr.bsize, np);
    assert ChainOk(s.hdr, s.pages, s.roles, b, s.chains[b]);
    forall x | 0 <= x < |c|
      ensures Rows(pages', c[x]) == t[x]
    {
      if x != b && x < |s.chains| {
        assert ChainOk(s.hdr, s.pages, s.roles, x, s.chains[x]);
        forall j | 0 <= j < |c[x]|
          ensures Ents(pages', c[x][j]) == Ents(s.pages, c[x][j])
        {
          assert s.roles[c[x][j]] == Chain(x, j);
        }
      }
    }
  }

  /** The table after the pairs were put back one by one, each in its bucket. */
  function PutBack(h: Header, hash: Bytes -> nat, t: seq<seq<Row>>, es: seq<Entry>): (r: seq<seq<Row>>)
    ensures |r| == |t|
    decreases |es|
  {
    if es == [] then t
    else PutOne(h, hash, PutBack(h, hash, t, es[..|es| - 1]), es[|es| - 1])
  }

  function PutOne(h: Header, hash: Bytes -> nat, t: seq<seq<Row>>, e: Entry): (r: seq<seq<Row>>)
    ensures |r| == |t|
  {
    var b := CallHash(h, hash(e.key));
    if b < |t| then t[b := FirstFit(h.bsize, t[b], e)] else t
  }

  /** The entries of a chain in order. */
  function Joined(rows: seq<Row>): seq<Entry> {
    if rows == [] then [] else Joined(rows[..|rows| - 1]) + rows[|rows| - 1]
  }

  /** The entries that belong to bucket b. */
  function OfBucket(h: Header, hash: Bytes -> nat, es: seq<Entry>, b: nat): seq<Entry>
    decreases |es|
  {
    if es == [] then []
    else OfBucket(h, hash, es[..|es| - 1], b) + (if CallHash(h, hash(es[|es| - 1].key)) == b then [es[|es| - 1]] else [])
  }

  /** The chain of a bucket whose pairs are put back one by one, starting from an empty page. */
  function Refill(bsize: nat, es: seq<Entry>): (r: seq<Row>)
    ensures |r| >= 1
    decreases |es|
  {
    if es == [] then [[]] else FirstFit(bsize, Refill(bsize, es[..|es| - 1]), es[|es| - 1])
  }

  /** A bucket that starts empty ends up with its own pairs in the old order, and a bucket that
      gets none stays. */
  lemma {:induction false} PutBackBucket(h: Header, hash: Bytes -> nat, t: seq<seq<Row>>, es: seq<Entry>, b: nat)
    requires b < |t|
    ensures t[b] == [[]] ==> PutBack(h, hash, t, es)[b] == Refill(h.bsize, OfBucket(h, hash, es, b))
    ensures OfBucket(h, hash, es, b) == [] ==> PutBack(h, hash, t, es)[b] == t[b]
    decreases |es|
  {
    hide FirstFit, CallHash;
    if es != [] {
      var pre, e := es[..|es| - 1], es[|es| - 1];
      PutBackBucket(h, hash, t, pre, b);
      if CallHash(h, hash(e.key)) == b {
        var mine := OfBucket(h, hash, es, b);
        assert mine[..|mine| - 1] == OfBucket(h, hash, pre, b);
      } else {
        assert OfBucket(h, hash, es, b) == OfBucket(h, hash, pre, b);
      }
    }
  }

  lemma PutBackStep(h: Header, hash: Bytes -> nat, t: seq<seq<Row>>, es: seq<Entry>, e: Entry)
    ensures PutBack(h, hash, t, es + [e]) == PutOne(h, hash, PutBack(h, hash, t, es), e)
  {
    assert (es + [e])[..|es|] == es;
  }

  lemma {:induction false} PutBackAppend(h: Header, hash: Bytes -> nat, t: seq<seq<Row>>, a: seq<Entry>, b: seq<Entry>)
    ensures PutBack(h, hash, t, a + b) == PutBack(h, hash, PutBack(h, hash, t, a), b)
    decreases |b|
  {
    hide PutOne;
    if b == [] {
      assert a + b == a;
    } else {
      var n := |b| - 1;
      PutBackAppend(h, hash, t, a, b[..n]);
      assert (a + b)[..|a + b| - 1] == a + b[..n];
    }
  }

  /** One more page of the old chain is done. */
  lemma PutBackPage(h: Header, hash: Bytes -> nat, t: seq<seq<Row>>, rows: seq<Row>, x: nat)
    requires x < |rows|
    ensures PutBack(h, hash, PutBack(h, hash, t, Joined(rows[..x])), rows[x]) == PutBack(h, hash, t, Joined(rows[..x + 1]))
    ensures PutBack(h, hash, t, Joined(rows[..0])) == t
    ensures x + 1 == |rows| ==> rows[..x + 1] == rows
  {
    PutBackAppend(h, hash, t, Joined(rows[..x]), rows[x]);
    assert rows[..x + 1][..x] == rows[..x];
  }

  // ---------------------------------------------------------------- what a search meets

  predicate Among(es: seq<Entry>, k: Bytes) {
    exists i :: 0 <= i < |es| && es[i].key == k
  }

  predicate InRows(rows: seq<Row>, k: Bytes) {
    exists i :: 0 <= i < |rows| && Among(rows[i], k)
  }

  /** A search reads no page behind an empty first page. */
  predicate SearchRows(rows: seq<Row>, k: Bytes) {
    rows != [] && rows[0] != [] && InRows(rows, k)
  }

  lemma AmongAdd(es: seq<Entry>, e: Entry, k: Bytes)
    ensures Among(es + [e], k) <==> Among(es, k) || e.key == k
  {
    if Among(es, k) {
      var i :| 0 <= i < |es| && es[i].key == k;
      assert (es + [e])[i].key == k;
    }
    if e.key == k {
      assert (es + [e])[|es|].key == k;
    }
  }

  lemma InRowsHead(row: Row, rest: seq<Row>, k: Bytes)
    ensures InRows([row] + rest, k) <==> Among(row, k) || InRows(rest, k)
  {
    hide Among;
    var r: seq<Row> := [row] + rest;
    if Among(row, k) {
      assert Among(r[0], k);
    }
    if InRows(rest, k) {
      var i :| 0 <= i < |rest| && Among(rest[i], k);
      assert Among(r[i + 1], k);
    }
    if InRows(r, k) {
      var i :| 0 <= i < |r| && Among(r[i], k);
      if i > 0 {
        assert Among(rest[i - 1], k);
      }
    }
  }

  lemma {:induction false} FirstFitIn(bsize: nat, rows: seq<Row>, e: Entry, k: Bytes)
    ensures InRows(FirstFit(bsize, rows, e), k) <==> InRows(rows, k) || e.key == k
    decreases |rows|
  {
    hide RowFits, Among, InRows;
    InRowsHead([], [], k);
    AmongAdd([], e, k);
    NoRows(k);
    if rows == [] {
      InRowsHead([e], [], k);
      assert FirstFit(bsize, rows, e) == [[e]] + [];
      assert [] + [e] == [e];
    } else {
      InRowsHead(rows[0], rows[1..], k);
      assert rows == [rows[0]] + rows[1..];
      if RowFits(bsize, rows[0], |e.key|) {
        InRowsHead(rows[0] + [e], rows[1..], k);
        AmongAdd(rows[0], e, k);
      } else {
        FirstFitIn(bsize, rows[1..], e, k);
        InRowsHead(rows[0], FirstFit(bsize, rows[1..], e), k);
      }
    }
  }

  lemma NoRows(k: Bytes)
    ensures !InRows([], k) && !Among([], k)
  {
  }

  lemma AppendLastIn(bsize: nat, rows: seq<Row>, e: Entry, k: Bytes)
    requires rows != []
    ensures InRows(AppendLast(bsize, rows, e), k) <==> InRows(rows, k) || e.key == k
  {
    hide RowFits, Among;
    var n := |rows| - 1;
    var r := AppendLast(bsize, rows, e);
    AmongAdd(rows[n], e, k);
    AmongAdd([], e, k);
    NoRows(k);
    assert [] + [e] == [e];
    if InRows(rows, k) {
      var i :| 0 <= i < |rows| && Among(rows[i], k);
      assert Among(r[i], k);
    }
    if e.key == k {
      assert Among(r[|r| - 1], k);
    }
    if InRows(r, k) {
      var i :| 0 <= i < |r| && Among(r[i], k);
      if i <= n {
        assert Among(rows[i], k) || e.key == k;
      }
    }
  }

  // ---------------------------------------------------------------- puts of keys of any size

  /** A search that meets an empty first page initialises it: what was chained behind is cut off. */
  function Cut(rows: seq<Row>): (r: seq<Row>)
    ensures r != []
  {
    if rows == [] || rows[0] == [] then [[]] else rows
  }

  /** A put of a key that the search did not find. */
  function PutRows(bsize: nat, rows: seq<Row>, e: Entry): seq<Row> {
    AppendLast(bsize, Cut(rows), e)
  }

  /** What such a put does to every search: it adds its own key, if that fits on an empty page
      or the first page has an entry; else nothing. */
  lemma PutFinds(bsize: nat, rows: seq<Row>, e: Entry, k: Bytes)
    requires rows != []
    ensures SearchRows(PutRows(bsize, rows, e), k) <==>
      SearchRows(rows, k) || (k == e.key && (KeySizeOk(bsize, e.key) || rows[0] != []))
  {
    hide RowFits, InRows, KeySizeOk;
    EmptyRowFits(bsize, e.key);
    AppendLastIn(bsize, Cut(rows), e, k);
    if rows[0] == [] {
      OneEmptyRow(k);
    }
  }

  lemma OneEmptyRow(k: Bytes)
    ensures !InRows([[]], k)
  {
  }

  /** The chain of a bucket after puts, a key that is found being left where it is. */
  function AfterPuts(bsize: nat, es: seq<Entry>): (r: seq<Row>)
    ensures r != []
    decreases |es|
  {
    if es == [] then [[]]
    else
      var rows, e := AfterPuts(bsize, es[..|es| - 1]), es[|es| - 1];
      if SearchRows(rows, e.key) then rows else PutRows(bsize, rows, e)
  }

  /** The key was put at i, and then or before a key was put that fits on an empty page. */
  predicate Reached(bsize: nat, es: seq<Entry>, k: Bytes, i: nat) {
    i < |es| && es[i].key == k && SmallBefore(bsize, es, i + 1)
  }

  predicate SmallBefore(bsize: nat, es: seq<Entry>, n: nat) {
    exists j :: 0 <= j < n && j < |es| && KeySizeOk(bsize, es[j].key)
  }

  lemma PutFirst(bsize: nat, rows: seq<Row>, e: Entry)
    requires rows != []
    ensures PutRows(bsize, rows, e)[0] != [] <==> rows[0] != [] || KeySizeOk(bsize, e.key)
  {
    hide RowFits, KeySizeOk;
    EmptyRowFits(bsize, e.key);
  }

  lemma SmallStep(bsize: nat, es: seq<Entry>, i: nat)
    requires es != [] && i < |es|
    ensures SmallBefore(bsize, es, i) <==> SmallBefore(bsize, es[..|es| - 1], i)
    ensures SmallBefore(bsize, es, |es|) <==> SmallBefore(bsize, es, |es| - 1) || KeySizeOk(bsize, es[|es| - 1].key)
  {
    hide KeySizeOk;
    var pre := es[..|es| - 1];
    if SmallBefore(bsize, es, i) {
      var j :| 0 <= j < i && KeySizeOk(bsize, es[j].key);
      assert KeySizeOk(bsize, pre[j].key);
    }
  }

  lemma ReachedStep(bsize: nat, es: seq<Entry>, k: Bytes)
    requires es != []
    ensures var n := |es| - 1;
      (exists i :: Reached(bsize, es, k, i)) <==>
        (exists i :: Reached(bsize, es[..n], k, i)) || (k == es[n].key && SmallBefore(bsize, es, |es|))
  {
    hide SmallBefore;
    var n := |es| - 1;
    if i: nat :| Reached(bsize, es, k, i) {
      if i < n {
        SmallStep(bsize, es, i + 1);
        assert Reached(bsize, es[..n], k, i);
      }
    }
    if i: nat :| Reached(bsize, es[..n], k, i) {
      SmallStep(bsize, es, i + 1);
      assert Reached(bsize, es, k, i);
    }
    if k == es[n].key && SmallBefore(bsize, es, |es|) {
      assert Reached(bsize, es, k, n);
    }
  }

  /** Without a split a bucket loses exactly the keys put before the first key that fits on an
      empty page. */
  lemma {:induction false} PutsFind(bsize: nat, es: seq<Entry>, k: Bytes)
    ensures SearchRows(AfterPuts(bsize, es), k) <==> exists i :: Reached(bsize, es, k, i)
    ensures AfterPuts(bsize, es)[0] != [] <==> SmallBefore(bsize, es, |es|)
    decreases |es|
  {
    hide RowFits, InRows, KeySizeOk, PutRows;
    if es != [] {
      var n := |es| - 1;
      var rows, e := AfterPuts(bsize, es[..n]), es[n];
      PutsFind(bsize, es[..n], k);
      PutsFind(bsize, es[..n], e.key);
      SmallStep(bsize, es, n);
      ReachedStep(bsize, es, k);
      PutFinds(bsize, rows, e, k);
      PutFirst(bsize, rows, e);
    }
  }

  // ---------------------------------------------------------------- what a split does to such keys

  predicate SomeFits(bsize: nat, es: seq<Entry>) {
    exists i :: 0 <= i < |es| && KeySizeOk(bsize, es[i].key)
  }

  lemma SomeFitsAdd(bsize: nat, es: seq<Entry>, e: Entry)
    ensures SomeFits(bsize, es + [e]) <==> SomeFits(bsize, es) || KeySizeOk(bsize, e.key)
  {
    hide KeySizeOk;
    var all := es + [e];
    if SomeFits(bsize, es) {
      var i :| 0 <= i < |es| && KeySizeOk(bsize, es[i].key);
      assert KeySizeOk(bsize, all[i].key);
    }
    if KeySizeOk(bsize, e.key) {
      assert KeySizeOk(bsize, all[|es|].key);
    }
  }

  /** Every pair is put back somewhere; the first page holds one exactly if some key fits on an
      empty page. */
  lemma {:induction false} RefillHolds(bsize: nat, es: seq<Entry>, k: Bytes)
    ensures InRows(Refill(bsize, es), k) <==> Among(es, k)
    ensures Refill(bsize, es)[0] != [] <==> SomeFits(bsize, es)
    decreases |es|
  {
    hide RowFits, KeySizeOk, InRows, Among, SomeFits;
    if es == [] {
      OneEmptyRow(k);
      NoRows(k);
      assert !SomeFits(bsize, []) by { NoneSmall(bsize); }
    } else {
      var n := |es| - 1;
      var pre, e := es[..n], es[n];
      assert es == pre + [e];
      RefillHolds(bsize, pre, k);
      FirstFitIn(bsize, Refill(bsize, pre), e, k);
      EmptyRowFits(bsize, e.key);
      AmongAdd(pre, e, k);
      SomeFitsAdd(bsize, pre, e);
    }
  }

  lemma NoneSmall(bsize: nat)
    ensures !SomeFits(bsize, [])
  {
  }

  /** After a split a search finds every key of the bucket if one of them fits on an empty page,
      and none at all otherwise. */
  lemma RefillFinds(bsize: nat, es: seq<Entry>, k: Bytes)
    ensures SearchRows(Refill(bsize, es), k) <==> Among(es, k) && SomeFits(bsize, es)
  {
    hide InRows, Among, SomeFits;
    RefillHolds(bsize, es, k);
  }

  /** The table of a split: the old and the new bucket start with an empty page, and the pairs of
      the old chain are put back in order. */
  function SplitTable(h: Header, hash: Bytes -> nat, t: seq<seq<Row>>, b: nat): seq<seq<Row>>
    requires b < |t|
  {
    PutBack(h, hash, t[b := [[]]] + [[[]]], Joined(t[b]))
  }

  /** A split asks the header for the page size, the masks and the last bucket only. */
  lemma {:induction false} PutBackSame(h: Header, h': Header, hash: Bytes -> nat, t: seq<seq<Row>>, es: seq<Entry>)
    requires h' == h.(spares := h'.spares, freePages := h'.freePages)
    ensures PutBack(h', hash, t, es) == PutBack(h, hash, t, es)
    decreases |es|
  {
    if es != [] {
      PutBackSame(h, h', hash, t, es[..|es| - 1]);
    }
  }

  /** The table after a new key was put into bucket b: the pair goes to the last page of the
      chain, or to a new page behind it, and then one bucket of the table is split. */
  function InsertTable(h: Header, hash: Bytes -> nat, t: seq<seq<Row>>, b: nat, e: Entry): seq<seq<Row>>
    requires b < |t| && t[b] != [] && SplitBucketOf(h) < |t|
  {
    var t1 := t[b := AppendLast(h.bsize, t[b], e)];
    if LastFits(h.bsize, t[b], |e.key|) then t1 else SplitTable(Grow(h), hash, t1, SplitBucketOf(h))
  }

  /** After a split a search in either bucket finds the keys that belong there if one of them fits
      on an empty page, and none at all otherwise. */
  lemma SplitFinds(h: Header, hash: Bytes -> nat, t: seq<seq<Row>>, b: nat, x: nat, k: Bytes)
    requires b < |t| && (x == b || x == |t|)
    ensures var es := OfBucket(h, hash, Joined(t[b]), x);
      SearchRows(SplitTable(h, hash, t, b)[x], k) <==> Among(es, k) && SomeFits(h.bsize, es)
  {
    hide InRows, Among, SomeFits, SearchRows;
    var t0 := t[b := [[]]] + [[[]]];
    PutBackBucket(h, hash, t0, Joined(t[b]), x);
    RefillFinds(h.bsize, OfBucket(h, hash, Joined(t[b]), x), k);
  }

  /** A split separates a key too large for an empty page from the key that kept it in reach: it
      is found before the split and lost after it. */
  lemma SplitLoses(h: Header, hash: Bytes -> nat, t: seq<seq<Row>>, b: nat, x: nat, small: Entry, large: Entry)
    requires KeySizeOk(h.bsize, small.key) && !KeySizeOk(h.bsize, large.key) && small.key != large.key
    requires b < |t| && (x == b || x == |t|) && t[b] == AfterPuts(h.bsize, [small, large])
    requires CallHash(h, hash(large.key)) == x && CallHash(h, hash(small.key)) != x
    ensures SearchRows(t[b], large.key) && !SearchRows(SplitTable(h, hash, t, b)[x], large.key)
  {
    hide KeySizeOk, CallHash, SearchRows, AfterPuts, PutBack, Joined;
    var es := [small, large];
    PutsFind(h.bsize, es, large.key);
    assert KeySizeOk(h.bsize, es[0].key);
    assert Reached(h.bsize, es, large.key, 1);
    JoinedPuts(h.bsize, small, large);
    assert es[..1] == [small] && es[..1][..0] == [];
    assert OfBucket(h, hash, es[..1], x) == [];
    assert OfBucket(h, hash, es, x) == [large];
    SplitFinds(h, hash, t, b, x, large.key);
  }

  lemma JoinedPuts(bsize: nat, small: Entry, large: Entry)
    requires KeySizeOk(bsize, small.key) && small.key != large.key
    ensures Joined(AfterPuts(bsize, [small, large])) == [small, large]
  {
    hide RowFits, KeySizeOk;
    FirstPut(bsize, small);
    var es := [small, large];
    assert es[..1] == [small];
    assert !SearchRows([[small]], large.key);
    assert [small] + [large] == [small, large];
    JoinedTwo([small], [large]);
  }

  lemma FirstPut(bsize: nat, e: Entry)
    requires KeySizeOk(bsize, e.key)
    ensures AfterPuts(bsize, [e]) == [[e]]
  {
    hide RowFits, KeySizeOk;
    EmptyRowFits(bsize, e.key);
    assert [e][..0] == [];
    assert !SearchRows([[]], e.key);
    var none: Row := [];
    assert none + [e] == [e];
    assert WithEntry([none], 0, e) == [[e]];
  }

  lemma JoinedTwo(a: Row, b: Row)
    ensures Joined([a, b]) == a + b && Joined([a + b]) == a + b
  {
    assert [a, b][..1] == [a] && [a][..0] == [] && [a + b][..0] == [];
    assert Joined([a]) == Joined([]) + a;
    assert Joined([a + b]) == Joined([]) + (a + b);
  }
}
