/** What can be read from a file, and which keys are lost when free lists remember harmful pages
    while the file is closed with pages moved. */
module Losses {
  import opened Pages
  import opened Levels
  import opened Lengths
  import opened Crc32
  import opened StoreInv
  import opened Rewrite
  import opened KeyLemmas
  import opened Split
  import opened Reopen
  import R = Relocate
  import H = StaleHeads
  import L = SpoiledLinks

  // ---------------------------------------------------------------- reading a file

  datatype Sought = Absent | At(datap: DataPtr)

  datatype Fetched = Lost | Got(val: Bytes)

  function EntryFor(ents: seq<Entry>, k: Bytes): Sought {
    if ents == [] then Absent
    else if ents[0].key == k then At(ents[0].datap)
    else EntryFor(ents[1..], k)
  }

  /** The entry of a key on page p or on one of the `fuel` pages that follow it. */
  function Seek(pages: PageMap, bsize: nat, p: Pgno, k: Bytes, fuel: nat): Sought
    decreases fuel
  {
    var pg := GetCreate(pages, bsize, p, TKey);
    if !pg.KeyPage? then Absent
    else if EntryFor(pg.ents, k).At? then EntryFor(pg.ents, k)
    else if fuel > 0 && pg.next != INVALID_PGNO then Seek(pages, bsize, pg.next, k, fuel - 1)
    else Absent
  }

  /** The next n bytes of a datum, from `start` of page p on and along the links. */
  function ReadFrom(pages: PageMap, bsize: nat, p: Pgno, start: nat, n: nat): Fetched
    decreases n, start
  {
    if n == 0 then Got([])
    else if p !in pages || !pages[p].DataPage? || |pages[p].mem| != bsize || start > bsize || bsize <= BIG_PAGE_OVERHEAD then Lost
    else if start + n <= bsize then Got(pages[p].mem[start..start + n])
    else match ReadFrom(pages, bsize, pages[p].next, BIG_PAGE_OVERHEAD, n - (bsize - start))
      case Lost => Lost
      case Got(rest) => Got(pages[p].mem[start..] + rest)
  }

  /** The value of a key whose chain starts at page `base`. */
  function Fetch(pages: PageMap, bsize: nat, base: Pgno, k: Bytes, fuel: nat): Fetched {
    if Ents(pages, base) == [] then Lost
    else match Seek(pages, bsize, base, k, fuel)
      case Absent => Lost
      case At(dp) => ReadFrom(pages, bsize, dp.first, LowBits(dp.offset) + BIG_DATA_OVERHEAD, RealLen(dp.len, dp.offset))
  }

  // ---------------------------------------------------------------- a file with some links to free-list pages

  /** The live pages of the store, but those of g lead to free-list pages. */
  ghost predicate LeadsAway(s: State, g: L.Nexts, pages: PageMap) {
    && (forall p :: p in s.roles && (s.roles[p].Data? || s.roles[p].Chain?) ==>
          && (p in pages <==> p in s.pages)
          && (p in pages ==> pages[p] == if p in g then SetNext(s.pages[p], g[p]) else s.pages[p]))
    && (forall q :: q in g ==> g[q] != INVALID_PGNO && g[q] in pages && pages[g[q]].FreePage?)
  }

  /** None of the pages of a datum, from page j on, but the last is one of g. */
  predicate DataClear(d: Datum, g: L.Nexts, j: nat) {
    forall i :: j <= i && i + 1 < |d.span| ==> d.span[i] !in g
  }

  /** None of pages i to j-1 of a chain is one of g. */
  predicate ChainClear(c: seq<Pgno>, g: L.Nexts, i: nat, j: nat) {
    forall x :: i <= x < j && x < |c| ==> c[x] !in g
  }

  /** No page on the way to the key and to the end of its value is one of g. */
  predicate InReach(s: State, g: L.Nexts, k: Bytes)
    requires k in s.keys && k in s.data
  {
    var p := s.keys[k].page;
    && p in s.roles && s.roles[p].Chain? && s.roles[p].b < |s.chains|
    && ChainClear(s.chains[s.roles[p].b], g, 0, s.roles[p].i)
    && DataClear(s.data[k], g, 0)
  }

  // ---------------------------------------------------------------- reading a datum

  lemma FreeIsLost(pages: PageMap, bsize: nat, p: Pgno, start: nat, n: nat)
    requires p in pages && pages[p].FreePage? && n > 0
    ensures ReadFrom(pages, bsize, p, start, n) == Lost
  {
  }

  /** What part j has, on a page of the other file. */
  lemma PartThere(s: State, g: L.Nexts, pages: PageMap, k: Bytes, d: Datum, j: nat)
    requires j < |d.span| == |d.parts| && PartOk(s.hdr.bsize, s.pages, s.roles, k, d, j) && LeadsAway(s, g, pages)
    ensures var p := d.span[j];
      && p in pages && pages[p].DataPage? && |pages[p].mem| == s.hdr.bsize && Start(d, j) + |d.parts[j]| <= s.hdr.bsize
      && pages[p].mem[Start(d, j)..Start(d, j) + |d.parts[j]|] == d.parts[j]
      && (j + 1 < |d.span| ==> Start(d, j) + |d.parts[j]| == s.hdr.bsize)
      && (j + 1 < |d.span| ==> pages[p].next == if p in g then g[p] else d.span[j + 1])
  {
  }

  lemma {:induction false} ReadParts(s: State, g: L.Nexts, pages: PageMap, k: Bytes, d: Datum, j: nat)
    requires BsizeOk(s.hdr.bsize) && DatumOk(s.hdr.bsize, s.pages, s.roles, k, d) && LeadsAway(s, g, pages)
    requires j < |d.span| && |Flat(d.parts[..j])| <= |Flat(d.parts)|
    ensures var done := |Flat(d.parts[..j])|;
      ReadFrom(pages, s.hdr.bsize, d.span[j], Start(d, j), |Flat(d.parts)| - done)
        == if DataClear(d, g, j) then Got(Flat(d.parts)[done..]) else Lost
    decreases |d.span| - j
  {
    hide PartOk, Flat, LeadsAway, ReadFrom;
    var bsize, done, all := s.hdr.bsize, Flat(d.parts[..j]), Flat(d.parts);
    PartThere(s, g, pages, k, d, j);
    FlatStep(d.parts, j);
    FlatPrefix(d.parts, j);
    FlatPrefix(d.parts, j + 1);
    var p, start, n, len := d.span[j], Start(d, j), |all| - |done|, |d.parts[j]|;
    assert all[|done|..][..len] == d.parts[j];
    if j + 1 == |d.span| {
      assert d.parts[..j + 1] == d.parts;
      assert n == len && all[|done|..] == d.parts[j];
      OnOnePage(pages, bsize, p, start, n);
    } else {
      LastLength(d.parts, j);
      assert pages[p].mem[start..] == d.parts[j];
      OverPages(pages, bsize, p, start, n);
      if p in g {
        Away(s, g, pages, p);
        FreeIsLost(pages, bsize, g[p], BIG_PAGE_OVERHEAD, n - len);
      } else {
        ReadParts(s, g, pages, k, d, j + 1);
        assert all[|done|..] == d.parts[j] + all[|done| + len..];
      }
    }
  }

  lemma Away(s: State, g: L.Nexts, pages: PageMap, p: Pgno)
    requires LeadsAway(s, g, pages) && p in g
    ensures g[p] != INVALID_PGNO && g[p] in pages && pages[g[p]].FreePage?
  {
  }

  lemma OnOnePage(pages: PageMap, bsize: nat, p: Pgno, start: nat, n: nat)
    requires p in pages && pages[p].DataPage? && |pages[p].mem| == bsize && start + n <= bsize && bsize > BIG_PAGE_OVERHEAD
    ensures ReadFrom(pages, bsize, p, start, n) == Got(pages[p].mem[start..start + n])
  {
  }

  lemma OverPages(pages: PageMap, bsize: nat, p: Pgno, start: nat, n: nat)
    requires p in pages && pages[p].DataPage? && |pages[p].mem| == bsize && start <= bsize < start + n && bsize > BIG_PAGE_OVERHEAD
    ensures var rest := ReadFrom(pages, bsize, pages[p].next, BIG_PAGE_OVERHEAD, n - (bsize - start));
      ReadFrom(pages, bsize, p, start, n) == if rest.Lost? then Lost else Got(pages[p].mem[start..] + rest.val)
  {
  }

  // ---------------------------------------------------------------- finding a key

  lemma {:induction false} EntryForIs(ents: seq<Entry>, k: Bytes, e: nat)
    requires e < |ents| && ents[e].key == k && forall i :: 0 <= i < e ==> ents[i].key != k
    ensures EntryFor(ents, k) == At(ents[e].datap)
  {
    if e > 0 {
      EntryForIs(ents[1..], k, e - 1);
    }
  }

  lemma {:induction false} EntryForNone(ents: seq<Entry>, k: Bytes)
    requires forall i :: 0 <= i < |ents| ==> ents[i].key != k
    ensures EntryFor(ents, k) == Absent
  {
    if ents != [] {
      EntryForNone(ents[1..], k);
    }
  }

  /** The key is on page i of the chain of bucket b. */
  predicate On(s: State, b: nat, i: nat, k: Bytes)
    requires b < |s.chains| && i < |s.chains[b]|
  {
    k in s.keys && s.keys[k].page == s.chains[b][i]
  }

  /** What a page of a sound store has for a key. */
  lemma EntryHere(s: State, hash: Bytes -> nat, b: nat, i: nat, k: Bytes)
    requires StateOk(s, hash) && b < |s.chains| && i < |s.chains[b]|
    ensures var ents := Ents(s.pages, s.chains[b][i]);
      && (On(s, b, i, k) ==> s.keys[k].idx < |ents| && EntryFor(ents, k) == At(ents[s.keys[k].idx].datap))
      && (!On(s, b, i, k) ==> EntryFor(ents, k) == Absent)
  {
    hide BaseInv, CurrOk, DataInv, LinksOk, CallHash;
    var p := s.chains[b][i];
    var ents := Ents(s.pages, p);
    forall e | 0 <= e < |ents|
      ensures ents[e].key in s.keys && s.keys[ents[e].key] == Loc(p, e)
    {
      EntryIsKey(s.hdr, hash, s.pages, s.roles, s.chains, s.data, s.keys, b, i, e);
    }
    if On(s, b, i, k) {
      assert KeyAt(s.hdr, hash, s.pages, s.roles, s.data, k, s.keys[k]);
      EntryForIs(ents, k, s.keys[k].idx);
    } else {
      EntryForNone(ents, k);
    }
  }

  /** A page of a chain in the other file. */
  lemma ChainThere(s: State, hash: Bytes -> nat, g: L.Nexts, pages: PageMap, b: nat, i: nat)
    requires StateOk(s, hash) && LeadsAway(s, g, pages) && b < |s.chains| && i < |s.chains[b]|
    ensures var p := s.chains[b][i]; var pg := GetCreate(pages, s.hdr.bsize, p, TKey);
      && pg.KeyPage? && pg.ents == Ents(s.pages, p) == Ents(pages, p)
      && (p in g && p in pages ==> pg.next == g[p]) && (p !in g || p !in pages ==> pg.next == Follows(s.chains[b], i))
      && (i + 1 < |s.chains[b]| ==> Follows(s.chains[b], i) != INVALID_PGNO && p in pages)
  {
    hide StateOk;
    PageOfChain(s, hash, b, i);
    if i + 1 < |s.chains[b]| {
      PageOfChain(s, hash, b, i + 1);
      ChainWritten(s, hash, b, i);
    }
  }

  lemma ChainWritten(s: State, hash: Bytes -> nat, b: nat, i: nat)
    requires StateOk(s, hash) && b < |s.chains| && i + 1 < |s.chains[b]|
    ensures s.chains[b][i] in s.pages
  {
    assert ChainOk(s.hdr, s.pages, s.roles, b, s.chains[b]);
    assert ChainPageOk(s.hdr.bsize, s.pages, s.chains[b], i);
  }

  lemma FreeIsAbsent(pages: PageMap, bsize: nat, p: Pgno, k: Bytes, fuel: nat)
    requires p in pages && pages[p].FreePage?
    ensures Seek(pages, bsize, p, k, fuel) == Absent
  {
  }

  /** Seeking from page i on meets the key if it is there or later with no page of g before it. */
  lemma {:induction false} SeekChain(s: State, hash: Bytes -> nat, g: L.Nexts, pages: PageMap, b: nat, i: nat, k: Bytes, fuel: nat)
    requires StateOk(s, hash) && LeadsAway(s, g, pages) && b < |s.chains| && i < |s.chains[b]| && fuel >= |s.chains[b]| - i
    ensures var c, sought := s.chains[b], Seek(pages, s.hdr.bsize, s.chains[b][i], k, fuel);
      && (forall j :: i <= j < |c| && On(s, b, j, k) && ChainClear(c, g, i, j) ==>
            s.keys[k].idx < |Ents(s.pages, c[j])| && sought == At(Ents(s.pages, c[j])[s.keys[k].idx].datap))
      && ((forall j :: i <= j < |c| && On(s, b, j, k) ==> !ChainClear(c, g, i, j)) ==> sought == Absent)
    decreases |s.chains[b]| - i
  {
    hide StateOk, LeadsAway, Seek, EntryFor, GetCreate;
    var c, bsize := s.chains[b], s.hdr.bsize;
    ChainThere(s, hash, g, pages, b, i);
    EntryHere(s, hash, b, i, k);
    SeekStep(pages, bsize, c[i], k, fuel);
    forall j | i <= j < |c| && On(s, b, i, k) && On(s, b, j, k)
      ensures j == i
    {
      OnePlace(s, hash, b, i, j);
    }
    if c[i] in g && c[i] in pages {
      Away(s, g, pages, c[i]);
      FreeIsAbsent(pages, bsize, g[c[i]], k, fuel - 1);
    } else if i + 1 < |c| {
      SeekChain(s, hash, g, pages, b, i + 1, k, fuel - 1);
    }
    assert On(s, b, i, k) ==> ChainClear(c, g, i, i);
    assert forall j :: i < j < |c| ==> (ChainClear(c, g, i, j) <==> c[i] !in g && ChainClear(c, g, i + 1, j));
  }

  lemma OnePlace(s: State, hash: Bytes -> nat, b: nat, i: nat, j: nat)
    requires StateOk(s, hash) && b < |s.chains| && i < |s.chains[b]| && j < |s.chains[b]| && s.chains[b][i] == s.chains[b][j]
    ensures i == j
  {
    hide StateOk;
    PageOfChain(s, hash, b, i);
    PageOfChain(s, hash, b, j);
  }

  lemma SeekStep(pages: PageMap, bsize: nat, p: Pgno, k: Bytes, fuel: nat)
    requires fuel > 0 && GetCreate(pages, bsize, p, TKey).KeyPage?
    ensures var pg := GetCreate(pages, bsize, p, TKey);
      Seek(pages, bsize, p, k, fuel) ==
        if EntryFor(pg.ents, k).At? then EntryFor(pg.ents, k)
        else if pg.next != INVALID_PGNO then Seek(pages, bsize, pg.next, k, fuel - 1) else Absent
  {
  }

  // ---------------------------------------------------------------- what is lost

  /** Every stored key is where its role says, on the chain that its hash selects. */
  lemma PlaceOfKey(s: State, hash: Bytes -> nat, k: Bytes)
    requires StateOk(s, hash) && k in s.keys
    ensures var p, b := s.keys[k].page, CallHash(s.hdr, hash(k));
      && p in s.roles && s.roles[p].Chain? && s.roles[p].b == b && b < |s.chains| && s.roles[p].i < |s.chains[b]|
      && s.chains[b][s.roles[p].i] == p
      && s.keys[k].idx < |Ents(s.pages, p)| && k in s.data && PtrOk(Ents(s.pages, p)[s.keys[k].idx].datap, s.data[k])
  {
    hide BaseInv, CurrOk, DataInv, LinksOk, CallHash, PtrOk;
    assert KeyAt(s.hdr, hash, s.pages, s.roles, s.data, k, s.keys[k]);
  }

  lemma StoredDatum(s: State, hash: Bytes -> nat, k: Bytes)
    requires StateOk(s, hash) && k in s.data
    ensures BsizeOk(s.hdr.bsize) && DatumOk(s.hdr.bsize, s.pages, s.roles, k, s.data[k])
  {
    hide LevelsOk, AllocOk, FreeInv, KeyState, PartOk;
  }

  /** What seeking from the base page meets. */
  lemma SoughtIs(s: State, hash: Bytes -> nat, g: L.Nexts, pages: PageMap, k: Bytes, fuel: nat)
    requires StateOk(s, hash) && LeadsAway(s, g, pages)
    requires var b := CallHash(s.hdr, hash(k)); b < |s.chains| && |s.chains[b]| >= 1 && fuel >= |s.chains[b]|
    ensures var b := CallHash(s.hdr, hash(k)); var sought := Seek(pages, s.hdr.bsize, s.chains[b][0], k, fuel);
      if k in s.keys && s.keys[k].page in s.roles && s.roles[s.keys[k].page].Chain? && ChainClear(s.chains[b], g, 0, s.roles[s.keys[k].page].i)
      then s.keys[k].idx < |Ents(s.pages, s.keys[k].page)| && sought == At(Ents(s.pages, s.keys[k].page)[s.keys[k].idx].datap)
      else sought == Absent
  {
    hide StateOk, LeadsAway, Seek, CallHash, ChainClear, Ents, PtrOk;
    var b := CallHash(s.hdr, hash(k));
    var c := s.chains[b];
    SeekChain(s, hash, g, pages, b, 0, k, fuel);
    if k in s.keys {
      PlaceOfKey(s, hash, k);
      var j := s.roles[s.keys[k].page].i;
      assert On(s, b, j, k);
      forall x | 0 <= x < |c| && On(s, b, x, k)
        ensures x == j
      {
        OnePlace(s, hash, b, x, j);
      }
    } else {
      assert forall x :: 0 <= x < |c| ==> !On(s, b, x, k);
    }
  }

  /** What is read through the pointer of a stored key. */
  lemma PointerReads(s: State, hash: Bytes -> nat, g: L.Nexts, pages: PageMap, k: Bytes, dp: DataPtr)
    requires StateOk(s, hash) && LeadsAway(s, g, pages) && k in s.data && PtrOk(dp, s.data[k])
    ensures ReadFrom(pages, s.hdr.bsize, dp.first, LowBits(dp.offset) + BIG_DATA_OVERHEAD, RealLen(dp.len, dp.offset))
         == if DataClear(s.data[k], g, 0) then Got(Flat(s.data[k].parts)) else Lost
  {
    hide StateOk, LeadsAway, ReadFrom, DatumOk, DataClear, Flat, RealLen, LowBits, Crc;
    var d := s.data[k];
    StoredDatum(s, hash, k);
    FlatEmpty(d.parts);
    FirstPart(s, d, k);
    ReadParts(s, g, pages, k, d, 0);
    assert Flat(d.parts)[0..] == Flat(d.parts);
  }

  /** What is read for a key of a sound store, from a file in which the links of the pages of g lead
      to free-list pages: its value if it is in reach, else nothing. */
  lemma FetchIs(s: State, hash: Bytes -> nat, g: L.Nexts, pages: PageMap, k: Bytes, fuel: nat)
    requires StateOk(s, hash) && LeadsAway(s, g, pages)
    requires var b := CallHash(s.hdr, hash(k)); b < |s.chains| && |s.chains[b]| >= 1 && fuel >= |s.chains[b]|
    ensures k in s.keys ==> k in s.data
    ensures Fetch(pages, s.hdr.bsize, s.chains[CallHash(s.hdr, hash(k))][0], k, fuel)
         == if k in s.keys && InReach(s, g, k) then Got(Flat(s.data[k].parts)) else Lost
  {
    hide StateOk, LeadsAway, Seek, GetCreate, CallHash, ReadFrom, ChainClear, DataClear, Flat, RealLen, LowBits, Ents, PtrOk;
    var b := CallHash(s.hdr, hash(k));
    SoughtIs(s, hash, g, pages, k, fuel);
    if k in s.keys {
      PlaceOfKey(s, hash, k);
      var p := s.keys[k].page;
      ChainThere(s, hash, g, pages, b, 0);
      BaseHas(s, hash, b, s.roles[p].i);
      PointerReads(s, hash, g, pages, k, Ents(s.pages, p)[s.keys[k].idx].datap);
    }
  }

  lemma FirstPart(s: State, d: Datum, k: Bytes)
    requires DatumOk(s.hdr.bsize, s.pages, s.roles, k, d)
    ensures |d.span| >= 1 && Start(d, 0) == d.off + BIG_DATA_OVERHEAD
  {
    hide PartOk, Flat;
  }

  /** The base page of a chain with an entry has one. */
  lemma BaseHas(s: State, hash: Bytes -> nat, b: nat, j: nat)
    requires StateOk(s, hash) && b < |s.chains| && j < |s.chains[b]| && Ents(s.pages, s.chains[b][j]) != []
    ensures Ents(s.pages, s.chains[b][0]) != []
  {
    ChainPageAt(s.hdr, s.pages, s.roles, s.chains, b, 0);
  }

  /** The file of a sound store serves exactly its keys. */
  lemma StoreServes(s: State, hash: Bytes -> nat, k: Bytes, fuel: nat)
    requires StateOk(s, hash)
    requires var b := CallHash(s.hdr, hash(k)); b < |s.chains| && |s.chains[b]| >= 1 && fuel >= |s.chains[b]|
    ensures k in s.keys ==> k in s.data
    ensures Fetch(s.pages, s.hdr.bsize, s.chains[CallHash(s.hdr, hash(k))][0], k, fuel)
         == if k in s.keys then Got(Flat(s.data[k].parts)) else Lost
  {
    hide StateOk, CallHash, Fetch, Flat;
    FetchIs(s, hash, map[], s.pages, k, fuel);
    if k in s.keys {
      PlaceOfKey(s, hash, k);
    }
  }

  /** A file closed with pages moved and opened again leads away from the spoiled pages only. */
  lemma ReopenedLeads(s: State, hash: Bytes -> nat)
    requires Settled(s, hash) && s.hdr.maxBucket < s.hdr.highMask && s.curr != INVALID_PGNO
    ensures s.hdr.ovflPoint + 1 < |s.hdr.spares|
    ensures LeadsAway(s, SpoiledPages(s.hdr, s.pages), Reopened(s.hdr, s.pages))
  {
    hide Settled, R.CloseMove, FirstPrevs, Freshened, L.Culprit, H.DirtOk, H.Dirty, LevelsOk;
    SettledDirt(s, hash);
    var m, pages0, h := R.CloseMove(s.hdr), Freshened(s.hdr, s.pages), FirstPrevs(s.hdr, s.pages);
    var g, back := SpoiledPages(s.hdr, s.pages), Reopened(s.hdr, s.pages);
    forall p | p in s.roles && (s.roles[p].Data? || s.roles[p].Chain?)
      ensures p in back <==> p in s.pages
      ensures p in back ==> back[p] == if p in g then SetNext(s.pages[p], g[p]) else s.pages[p]
    {
      if p in s.pages {
        KindIsRole(s, hash, p);
      }
    }
    forall q | q in g
      ensures g[q] != INVALID_PGNO && g[q] in back && back[g[q]].FreePage?
    {
      H.DirtGraph(m, pages0, h);
      MoveStarts(m, pages0);
      L.CulpritRange(m, pages0, h, q);
      HeadFacts(s, hash, g[q]);
      FreeThere(s, hash, g[q]);
    }
  }

  lemma MoveStarts(m: R.Move, pages: PageMap)
    requires R.MoveOk(m, pages)
    ensures 0 < m.oldFirst
  {
  }

  /** What closing a sound store with pages moved loses, once it is opened again: exactly the keys
      behind a spoiled page of their chain, and those whose value goes on behind a spoiled page.
      All other keys have their values. */
  lemma WhatIsLost(s: State, hash: Bytes -> nat, k: Bytes, fuel: nat)
    requires Settled(s, hash) && s.hdr.maxBucket < s.hdr.highMask && s.curr != INVALID_PGNO
    requires var b := CallHash(s.hdr, hash(k)); b < |s.chains| && |s.chains[b]| >= 1 && fuel >= |s.chains[b]|
    ensures s.hdr.ovflPoint + 1 < |s.hdr.spares| && (k in s.keys ==> k in s.data)
    ensures Fetch(Reopened(s.hdr, s.pages), s.hdr.bsize, s.chains[CallHash(s.hdr, hash(k))][0], k, fuel)
         == if k in s.keys && InReach(s, SpoiledPages(s.hdr, s.pages), k) then Got(Flat(s.data[k].parts)) else Lost
  {
    hide StateOk, CallHash, Fetch, Flat, SpoiledPages, Reopened, InReach, LeadsAway;
    ReopenedLeads(s, hash);
    FetchIs(s, hash, SpoiledPages(s.hdr, s.pages), Reopened(s.hdr, s.pages), k, fuel);
  }
}
