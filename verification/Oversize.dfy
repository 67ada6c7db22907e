/** Keys that a put accepts although they do not fit on an empty page: what a search then sees. */
module Oversize {
  import opened Pages
  import opened Levels
  import opened StoreInv
  import opened KeyLemmas
  import opened Split
  import opened ChainRows
  import opened Spec

  // ---------------------------------------------------------------- searching pages

  predicate OnPage(pg: Page, k: Bytes) {
    pg.KeyPage? && Among(pg.ents, k)
  }

  /** The key is met on page p or on one of the `fuel` pages that follow it. */
  predicate Finds(pages: PageMap, bsize: nat, p: Pgno, k: Bytes, fuel: nat)
    decreases fuel
  {
    var pg := GetCreate(pages, bsize, p, TKey);
    OnPage(pg, k) || (fuel > 0 && pg.KeyPage? && pg.next != INVALID_PGNO && Finds(pages, bsize, pg.next, k, fuel - 1))
  }

  /** A search stops at a base page without entries. */
  predicate Search(pages: PageMap, bsize: nat, base: Pgno, k: Bytes, fuel: nat) {
    Ents(pages, base) != [] && Finds(pages, bsize, base, k, fuel)
  }

  /** The pages of a chain are key pages, laid out without overlap and linked in this order. */
  ghost predicate Linked(pages: PageMap, bsize: nat, c: seq<Pgno>) {
    && c != []
    && (forall i :: 0 <= i < |c| ==> LinkedAt(pages, bsize, c, i))
    && (forall i, j :: 0 <= i < j < |c| ==> c[i] != c[j])
  }

  ghost predicate LinkedAt(pages: PageMap, bsize: nat, c: seq<Pgno>, i: nat)
    requires i < |c|
  {
    var pg := GetCreate(pages, bsize, c[i], TKey);
    && c[i] != INVALID_PGNO && pg.KeyPage? && pg.next == Follows(c, i) && LayoutOk(bsize, pg)
  }

  /** The chains of a sound store are linked. */
  lemma StoreLinked(s: State, hash: Bytes -> nat, b: nat)
    requires StateOk(s, hash) && b < |s.chains| && |s.chains[b]| >= 1
    ensures Linked(s.pages, s.hdr.bsize, s.chains[b])
  {
    hide StateOk, LayoutOk;
    var c := s.chains[b];
    forall i | 0 <= i < |c|
      ensures LinkedAt(s.pages, s.hdr.bsize, c, i)
    {
      PageOfChain(s, hash, b, i);
      ChainLayout(s, hash, b, i);
    }
    forall i, j | 0 <= i < j < |c|
      ensures c[i] != c[j]
    {
      PageOfChain(s, hash, b, i);
      PageOfChain(s, hash, b, j);
    }
  }

  lemma ChainLayout(s: State, hash: Bytes -> nat, b: nat, i: nat)
    requires StateOk(s, hash) && b < |s.chains| && i < |s.chains[b]|
    ensures KeyLayoutOk(s.hdr.bsize, GetCreate(s.pages, s.hdr.bsize, s.chains[b][i], TKey))
  {
    ChainPageAt(s.hdr, s.pages, s.roles, s.chains, b, i);
  }

  lemma EntsOf(pages: PageMap, bsize: nat, p: Pgno)
    requires GetCreate(pages, bsize, p, TKey).KeyPage?
    ensures GetCreate(pages, bsize, p, TKey).ents == Ents(pages, p)
  {
  }

  /** Following the links from page i meets the rows from i on. */
  lemma {:induction false} FindsRows(pages: PageMap, bsize: nat, c: seq<Pgno>, i: nat, k: Bytes, fuel: nat)
    requires Linked(pages, bsize, c) && i < |c| && fuel >= |c| - i
    ensures Finds(pages, bsize, c[i], k, fuel) <==> InRows(Rows(pages, c)[i..], k)
    decreases |c| - i
  {
    hide Among, InRows, LayoutOk, GetCreate, Linked;
    assert LinkedAt(pages, bsize, c, i) by { LinkAt(pages, bsize, c, i); }
    EntsOf(pages, bsize, c[i]);
    var rows := Rows(pages, c);
    assert rows[i..] == [rows[i]] + rows[i + 1..];
    InRowsHead(rows[i], rows[i + 1..], k);
    if i + 1 < |c| {
      LinkAt(pages, bsize, c, i + 1);
      FindsRows(pages, bsize, c, i + 1, k, fuel - 1);
    } else {
      assert rows[i + 1..] == [];
      NoRows(k);
    }
  }

  lemma LinkAt(pages: PageMap, bsize: nat, c: seq<Pgno>, i: nat)
    requires Linked(pages, bsize, c) && i < |c|
    ensures LinkedAt(pages, bsize, c, i)
  {
  }

  /** The search over pages is the search over the rows of the chain. */
  lemma SearchIsRows(pages: PageMap, bsize: nat, c: seq<Pgno>, k: Bytes, fuel: nat)
    requires Linked(pages, bsize, c) && fuel >= |c|
    ensures Search(pages, bsize, c[0], k, fuel) <==> SearchRows(Rows(pages, c), k)
  {
    hide Finds, InRows, LinkedAt;
    FindsRows(pages, bsize, c, 0, k, fuel);
    assert Rows(pages, c)[0..] == Rows(pages, c);
  }

  /** In a sound store the search finds exactly the stored keys. */
  lemma SearchFindsKeys(s: State, hash: Bytes -> nat, k: Bytes, fuel: nat)
    requires StateOk(s, hash)
    requires var b := CallHash(s.hdr, hash(k)); b < |s.chains| && |s.chains[b]| >= 1 && fuel >= |s.chains[b]|
    ensures var b := CallHash(s.hdr, hash(k)); Search(s.pages, s.hdr.bsize, s.chains[b][0], k, fuel) <==> k in s.keys
  {
    hide StateOk, CallHash, Search, Linked;
    var b := CallHash(s.hdr, hash(k));
    var c := s.chains[b];
    var rows := Rows(s.pages, c);
    StoreLinked(s, hash, b);
    SearchIsRows(s.pages, s.hdr.bsize, c, k, fuel);
    BaseEmpty(s, hash, b);
    if k in s.keys {
      Keyed(s, hash, k);
      var i :| 0 <= i < |rows| && Among(rows[i], k);
      assert rows[0] != [];
    }
    if InRows(rows, k) {
      var i :| 0 <= i < |rows| && Among(rows[i], k);
      var e :| 0 <= e < |rows[i]| && rows[i][e].key == k;
      EntryOf(s, hash, b, i, e);
    }
  }

  lemma Keyed(s: State, hash: Bytes -> nat, k: Bytes)
    requires StateOk(s, hash) && k in s.keys
    ensures var b := CallHash(s.hdr, hash(k)); b < |s.chains| && InRows(Rows(s.pages, s.chains[b]), k)
  {
    hide BaseInv, CurrOk, DataInv, LinksOk, KeyState, CallHash, InRows;
    KeyOnChain(s.hdr, hash, s.pages, s.roles, s.chains, s.data, s.keys, k);
    var b := CallHash(s.hdr, hash(k));
    var i :| 0 <= i < |s.chains[b]| && s.chains[b][i] == s.keys[k].page
      && s.keys[k].idx < |Ents(s.pages, s.chains[b][i])| && Ents(s.pages, s.chains[b][i])[s.keys[k].idx].key == k;
    InRow(Rows(s.pages, s.chains[b]), i, s.keys[k].idx, k);
  }

  lemma InRow(rows: seq<Row>, i: nat, e: nat, k: Bytes)
    requires i < |rows| && e < |rows[i]| && rows[i][e].key == k
    ensures InRows(rows, k)
  {
    assert Among(rows[i], k);
  }

  lemma EntryOf(s: State, hash: Bytes -> nat, b: nat, j: nat, e: nat)
    requires StateOk(s, hash) && b < |s.chains| && j < |s.chains[b]| && e < |Ents(s.pages, s.chains[b][j])|
    ensures Ents(s.pages, s.chains[b][j])[e].key in s.keys
  {
  }

  /** A base page without entries has no chain. */
  lemma BaseEmpty(s: State, hash: Bytes -> nat, b: nat)
    requires StateOk(s, hash) && b < |s.chains| && |s.chains[b]| >= 1
    ensures Ents(s.pages, s.chains[b][0]) == [] ==> |s.chains[b]| == 1
  {
    ChainPageAt(s.hdr, s.pages, s.roles, s.chains, b, 0);
  }

  // ---------------------------------------------------------------- a put of a key of any size

  /** The pages after a new pair went to the end of a chain whose last page is p: on p if it
      fits, else on page n behind it. */
  function PutLast(pages: PageMap, bsize: nat, p: Pgno, n: Pgno, e: Entry): PageMap
    requires GetCreate(pages, bsize, p, TKey).KeyPage?
  {
    var pg := GetCreate(pages, bsize, p, TKey);
    if PairFits(pg, |e.key|) then EntryOn(pages, bsize, p, e) else EntryBehind(pages[p := pg], bsize, p, n, e)
  }

  /** The pages and the chain after a put of a key that was not found: a search that meets an
      empty base page initialises it, and what was linked behind it is no longer reached. */
  function PutNew(pages: PageMap, bsize: nat, c: seq<Pgno>, n: Pgno, e: Entry): PageMap
    requires c != [] && GetCreate(pages, bsize, c[|c| - 1], TKey).KeyPage?
  {
    if Ents(pages, c[0]) == []
    then PutLast(pages[c[0] := InitPage(bsize, c[0], TKey)], bsize, c[0], n, e)
    else PutLast(pages, bsize, c[|c| - 1], n, e)
  }

  function ChainAfter(pages: PageMap, bsize: nat, c: seq<Pgno>, n: Pgno, e: Entry): seq<Pgno>
    requires c != [] && GetCreate(pages, bsize, c[|c| - 1], TKey).KeyPage?
  {
    var c' := if Ents(pages, c[0]) == [] then [c[0]] else c;
    if RowFits(bsize, Ents(pages, c'[|c'| - 1]), |e.key|) then c' else c' + [n]
  }

  /** Writing a pair on the last page of a chain. */
  lemma WriteLast(pages: PageMap, bsize: nat, c: seq<Pgno>, e: Entry)
    requires Linked(pages, bsize, c)
    requires var pg := GetCreate(pages, bsize, c[|c| - 1], TKey); pg.KeyPage? && PairFits(pg, |e.key|)
    ensures var pages' := EntryOn(pages, bsize, c[|c| - 1], e);
      Linked(pages', bsize, c) && Rows(pages', c) == WithEntry(Rows(pages, c), |c| - 1, e)
  {
    hide LayoutOk, AddEntry, PairFits, Linked, GetCreate;
    LinkDistinct(pages, bsize, c);
    var last := c[|c| - 1];
    var pg := GetCreate(pages, bsize, last, TKey);
    LinkAt(pages, bsize, c, |c| - 1);
    EntsOf(pages, bsize, last);
    AddEntryFields(pg, e);
    AddEntryLayout(bsize, pg, e);
    var pages' := EntryOn(pages, bsize, last, e);
    PageThere(pages', bsize, last);
    forall i | 0 <= i < |c|
      ensures LinkedAt(pages', bsize, c, i)
      ensures Ents(pages', c[i]) == WithEntry(Rows(pages, c), |c| - 1, e)[i]
    {
      LinkAt(pages, bsize, c, i);
      if i < |c| - 1 {
        SameThere(pages, pages', bsize, c[i]);
      }
    }
    LinkedIs(pages', bsize, c);
  }

  /** Linking a new page with a pair behind a chain. */
  lemma WriteBehind(pages: PageMap, bsize: nat, c: seq<Pgno>, n: Pgno, e: Entry)
    requires Linked(pages, bsize, c) && n !in c && n != INVALID_PGNO && 512 <= bsize && |e.key| <= MaxKeySize(bsize)
    ensures var last := c[|c| - 1]; var pg := GetCreate(pages, bsize, last, TKey);
      var pages' := EntryBehind(pages[last := pg], bsize, last, n, e);
      Linked(pages', bsize, c + [n]) && Rows(pages', c + [n]) == Rows(pages, c) + [[e]]
  {
    hide LayoutOk, AddEntry, Linked, GetCreate, InitPage;
    LinkDistinct(pages, bsize, c);
    var last := c[|c| - 1];
    var pg := GetCreate(pages, bsize, last, TKey);
    LinkAt(pages, bsize, c, |c| - 1);
    EntsOf(pages, bsize, last);
    SetNextLayout(bsize, pg, n);
    LargeOnEmpty(bsize, n, last, e);
    AddEntryFields(SetPrev(InitPage(bsize, n, TKey), last), e);
    var pages' := EntryBehind(pages[last := pg], bsize, last, n, e);
    PageThere(pages', bsize, last);
    PageThere(pages', bsize, n);
    forall i | 0 <= i < |c + [n]|
      ensures LinkedAt(pages', bsize, c + [n], i)
      ensures Ents(pages', (c + [n])[i]) == (Rows(pages, c) + [[e]])[i]
    {
      if i < |c| {
        LinkAt(pages, bsize, c, i);
        if i < |c| - 1 {
          SameThere(pages, pages', bsize, c[i]);
        }
      }
    }
    LinkedIs(pages', bsize, c + [n]);
  }

  lemma PageThere(pages: PageMap, bsize: nat, p: Pgno)
    requires p in pages
    ensures GetCreate(pages, bsize, p, TKey) == pages[p]
  {
  }

  lemma SameThere(pages: PageMap, pages': PageMap, bsize: nat, p: Pgno)
    requires SamePage(pages, pages', p)
    ensures GetCreate(pages', bsize, p, TKey) == GetCreate(pages, bsize, p, TKey) && Ents(pages', p) == Ents(pages, p)
  {
  }

  /** Placing a pair behind a chain keeps the chain linked and places it as the rows say. */
  lemma PutLastRows(pages: PageMap, bsize: nat, c: seq<Pgno>, n: Pgno, e: Entry)
    requires Linked(pages, bsize, c) && n !in c && n != INVALID_PGNO
    requires 512 <= bsize && |e.key| <= MaxKeySize(bsize)
    ensures var last := c[|c| - 1];
      && GetCreate(pages, bsize, last, TKey).KeyPage?
      && var pages' := PutLast(pages, bsize, last, n, e);
         var c' := if RowFits(bsize, Ents(pages, last), |e.key|) then c else c + [n];
         Linked(pages', bsize, c') && Rows(pages', c') == AppendLast(bsize, Rows(pages, c), e)
  {
    hide LayoutOk, RowFits, AddEntry, PairFits, Linked, GetCreate, EntryOn, EntryBehind;
    LinkDistinct(pages, bsize, c);
    var last := c[|c| - 1];
    var pg := GetCreate(pages, bsize, last, TKey);
    LinkAt(pages, bsize, c, |c| - 1);
    EntsOf(pages, bsize, last);
    RowFitsPage(bsize, pg, |e.key|);
    if PairFits(pg, |e.key|) {
      WriteLast(pages, bsize, c, e);
    } else {
      WriteBehind(pages, bsize, c, n, e);
    }
  }

  lemma LinkDistinct(pages: PageMap, bsize: nat, c: seq<Pgno>)
    requires Linked(pages, bsize, c)
    ensures c != [] && forall i, j :: 0 <= i < j < |c| ==> c[i] != c[j]
  {
  }

  lemma LinkedIs(pages: PageMap, bsize: nat, c: seq<Pgno>)
    requires c != [] && (forall i :: 0 <= i < |c| ==> LinkedAt(pages, bsize, c, i))
    requires forall i, j :: 0 <= i < j < |c| ==> c[i] != c[j]
    ensures Linked(pages, bsize, c)
  {
  }

  /** A key of any size that a put accepts goes on an empty page without overlap. */
  lemma LargeOnEmpty(bsize: nat, n: Pgno, last: Pgno, e: Entry)
    requires 512 <= bsize && |e.key| <= MaxKeySize(bsize)
    ensures var pg := SetPrev(InitPage(bsize, n, TKey), last);
      pg.KeyPage? && pg.next == INVALID_PGNO && LayoutOk(bsize, AddEntry(pg, e)) && pg.ents == []
  {
  }

  /** The same for a put with its search in front. */
  lemma PutIsRows(pages: PageMap, bsize: nat, c: seq<Pgno>, n: Pgno, e: Entry)
    requires Linked(pages, bsize, c) && n !in c && n != INVALID_PGNO
    requires 512 <= bsize && |e.key| <= MaxKeySize(bsize)
    ensures GetCreate(pages, bsize, c[|c| - 1], TKey).KeyPage?
    ensures var pages', c' := PutNew(pages, bsize, c, n, e), ChainAfter(pages, bsize, c, n, e);
      && Linked(pages', bsize, c') && c'[0] == c[0] && |c'| <= |c| + 1
      && Rows(pages', c') == PutRows(bsize, Rows(pages, c), e)
  {
    hide LayoutOk, RowFits, PutLast, AppendLast, Linked;
    LinkDistinct(pages, bsize, c);
    LinkAt(pages, bsize, c, |c| - 1);
    LinkAt(pages, bsize, c, 0);
    if Ents(pages, c[0]) == [] {
      var pages1 := pages[c[0] := InitPage(bsize, c[0], TKey)];
      InitLayout(bsize, c[0]);
      assert LinkedAt(pages1, bsize, [c[0]], 0);
      LinkedIs(pages1, bsize, [c[0]]);
      PutLastRows(pages1, bsize, [c[0]], n, e);
      assert Rows(pages1, [c[0]]) == [[]] == Cut(Rows(pages, c));
    } else {
      PutLastRows(pages, bsize, c, n, e);
    }
  }

  lemma InitLayout(bsize: nat, p: Pgno)
    requires 512 <= bsize
    ensures KeyLayoutOk(bsize, InitPage(bsize, p, TKey)) && InitPage(bsize, p, TKey).next == INVALID_PGNO
  {
  }

  /** What a put of a new key of any accepted size does to every search of its bucket: it adds its
      own key exactly if that fits on an empty page or the base page has an entry. */
  lemma PutSearch(pages: PageMap, bsize: nat, c: seq<Pgno>, n: Pgno, e: Entry, k: Bytes, fuel: nat)
    requires Linked(pages, bsize, c) && n !in c && n != INVALID_PGNO && fuel > |c|
    requires 512 <= bsize && |e.key| <= MaxKeySize(bsize)
    ensures GetCreate(pages, bsize, c[|c| - 1], TKey).KeyPage?
    ensures Search(PutNew(pages, bsize, c, n, e), bsize, c[0], k, fuel) <==>
      Search(pages, bsize, c[0], k, fuel) || (k == e.key && (KeySizeOk(bsize, e.key) || Ents(pages, c[0]) != []))
  {
    hide Search, SearchRows, Linked, KeySizeOk, PutRows, PutNew, ChainAfter;
    LinkDistinct(pages, bsize, c);
    PutIsRows(pages, bsize, c, n, e);
    SearchIsRows(pages, bsize, c, k, fuel);
    SearchIsRows(PutNew(pages, bsize, c, n, e), bsize, ChainAfter(pages, bsize, c, n, e), k, fuel);
    PutFinds(bsize, Rows(pages, c), e, k);
  }

  /** In any sound store: a new key that a put accepts is found afterwards if and only if it fits
      on an empty page or the base page of its bucket has an entry. */
  lemma NewKeyFound(s: State, hash: Bytes -> nat, b: nat, n: Pgno, e: Entry, fuel: nat)
    requires StateOk(s, hash) && e.key !in s.keys && |e.key| <= MaxKeySize(s.hdr.bsize)
    requires b == CallHash(s.hdr, hash(e.key)) && b < |s.chains| && |s.chains[b]| >= 1
    requires n !in s.chains[b] && n != INVALID_PGNO && fuel > |s.chains[b]|
    ensures GetCreate(s.pages, s.hdr.bsize, s.chains[b][|s.chains[b]| - 1], TKey).KeyPage?
    ensures Search(PutNew(s.pages, s.hdr.bsize, s.chains[b], n, e), s.hdr.bsize, s.chains[b][0], e.key, fuel) <==>
      KeySizeOk(s.hdr.bsize, e.key) || Ents(s.pages, s.chains[b][0]) != []
  {
    hide StateOk, Search, Linked, KeySizeOk, PutNew, CallHash;
    StoreBsize(s, hash);
    StoreLinked(s, hash, b);
    SearchFindsKeys(s, hash, e.key, fuel);
    PutSearch(s.pages, s.hdr.bsize, s.chains[b], n, e, e.key, fuel);
  }

  lemma StoreBsize(s: State, hash: Bytes -> nat)
    requires StateOk(s, hash)
    ensures 512 <= s.hdr.bsize
  {
  }

  /** A put into a bucket with an empty base page accepts and loses exactly the keys of bsize-58 to
      bsize-56 bytes. */
  lemma AcceptedAndLost(s: State, hash: Bytes -> nat, b: nat, n: Pgno, e: Entry, fuel: nat)
    requires StateOk(s, hash) && e.key !in s.keys
    requires b == CallHash(s.hdr, hash(e.key)) && b < |s.chains| && |s.chains[b]| >= 1 && Ents(s.pages, s.chains[b][0]) == []
    requires n !in s.chains[b] && n != INVALID_PGNO && fuel > |s.chains[b]|
    ensures GetCreate(s.pages, s.hdr.bsize, s.chains[b][|s.chains[b]| - 1], TKey).KeyPage?
    ensures |e.key| <= MaxKeySize(s.hdr.bsize)
        && !Search(PutNew(s.pages, s.hdr.bsize, s.chains[b], n, e), s.hdr.bsize, s.chains[b][0], e.key, fuel)
      <==> s.hdr.bsize - 58 <= |e.key| <= s.hdr.bsize - 56
  {
    hide StateOk, Search, Linked, PutNew, CallHash;
    StoreBsize(s, hash);
    StoreLinked(s, hash, b);
    LinkAt(s.pages, s.hdr.bsize, s.chains[b], |s.chains[b]| - 1);
    if |e.key| <= MaxKeySize(s.hdr.bsize) {
      NewKeyFound(s, hash, b, n, e, fuel);
    }
  }
}
