/** Moving a range of pages: every link to a moved page is renamed. */
module Relocate {
  import opened Bits
  import opened Pages
  import opened Levels
  import opened Lengths

  /** Pages oldFirst to oldLast go to newFirst and up. */
  datatype Move = Move(oldFirst: Pgno, oldLast: Pgno, newFirst: Pgno)

  predicate InOld(m: Move, p: Pgno) {
    m.oldFirst <= p <= m.oldLast
  }

  predicate InNew(m: Move, p: Pgno) {
    m.newFirst <= p <= m.newFirst + (m.oldLast - m.oldFirst)
  }

  function Shift(m: Move, p: Pgno): Pgno {
    m.newFirst + (p - m.oldFirst)
  }

  /** The number that a link to p shall hold. */
  function Ren(m: Move, p: Pgno): Pgno {
    if InOld(m, p) then Shift(m, p) else p
  }

  /** Data, bucket and free-list pages move; deleted pages do not. */
  function Rank(pg: Page): nat {
    match pg
    case DataPage(_, _, _, _, _, _, _, _) => 0
    case KeyPage(_, _, _, _, _) => 1
    case FreePage(_, _, _, _) => 2
    case DeletedPage(_, _, _) => 3
  }

  const LIVE: nat := 3

  // ---------------------------------------------------------------- the page graph

  /** The headers met by following `next` from `off`, at most n of them. */
  function Walk(hd: map<nat, DataHeader>, off: nat, n: nat): seq<nat>
    decreases n
  {
    if n == 0 || off !in hd then [] else [off] + Walk(hd, hd[off].next, n - 1)
  }

  function Heads(pg: Page): seq<nat>
    requires pg.DataPage?
  {
    Walk(pg.hd, pg.first, pg.num)
  }

  /** The header leads to a key entry that leads back. */
  ghost predicate HeaderBack(pages: PageMap, p: Pgno, o: nat)
    requires p in pages && pages[p].DataPage? && o in pages[p].hd
  {
    var h := pages[p].hd[o];
    && h.keyPage in pages && pages[h.keyPage].KeyPage? && h.keyIdx < |pages[h.keyPage].ents|
    && pages[h.keyPage].ents[h.keyIdx].datap.first == p && LowBits(pages[h.keyPage].ents[h.keyIdx].datap.offset) == o
  }

  /** The entry leads to a data header that leads back. */
  ghost predicate EntryBack(pages: PageMap, p: Pgno, i: nat)
    requires p in pages && pages[p].KeyPage? && i < |pages[p].ents|
  {
    var d := pages[p].ents[i].datap;
    && d.first in pages && pages[d.first].DataPage? && LowBits(d.offset) in Heads(pages[d.first])
    && LowBits(d.offset) in pages[d.first].hd
    && pages[d.first].hd[LowBits(d.offset)].keyPage == p && pages[d.first].hd[LowBits(d.offset)].keyIdx == i
  }

  /** The neighbours of a page are pages of its kind that link back. */
  ghost predicate LinksBack(pages: PageMap, p: Pgno)
    requires p in pages
  {
    var pg := pages[p];
    && (pg.next != INVALID_PGNO ==>
          pg.next in pages && Rank(pages[pg.next]) == Rank(pg) < LIVE && pages[pg.next].prev == p)
    && (pg.prev != INVALID_PGNO ==>
          pg.prev in pages && Rank(pages[pg.prev]) == Rank(pg) < LIVE && pages[pg.prev].next == p)
  }

  ghost predicate HeadsOk(pages: PageMap, p: Pgno)
    requires p in pages && pages[p].DataPage?
  {
    && |Heads(pages[p])| == pages[p].num
    && (forall i :: 0 <= i < |Heads(pages[p])| ==>
          Heads(pages[p])[i] in pages[p].hd && HeaderBack(pages, p, Heads(pages[p])[i]))
    && (forall i, j :: 0 <= i < j < |Heads(pages[p])| ==> Heads(pages[p])[i] != Heads(pages[p])[j])
  }

  ghost predicate EntriesOk(pages: PageMap, p: Pgno)
    requires p in pages && pages[p].KeyPage?
  {
    forall i :: 0 <= i < |pages[p].ents| ==> EntryBack(pages, p, i)
  }

  /** Every reference leads somewhere and back. */
  ghost predicate Graph(pages: PageMap) {
    && (forall p :: p in pages ==> p > 0 && pages[p].curr == p)
    && (forall p :: p in pages ==> LinksBack(pages, p))
    && (forall p :: p in pages && pages[p].DataPage? ==> HeadsOk(pages, p))
    && (forall p :: p in pages && pages[p].KeyPage? ==> EntriesOk(pages, p))
  }

  ghost predicate MoveOk(m: Move, pages: PageMap) {
    && 0 < m.oldFirst <= m.oldLast + 1 && 0 < m.newFirst
    && (m.oldLast < m.newFirst || m.newFirst + (m.oldLast - m.oldFirst) < m.oldFirst)
    && (forall p :: p in pages ==> !InNew(m, p))
  }

  // ---------------------------------------------------------------- what a move shall do

  /** Where a page ends up. */
  function Place(m: Move, p: Pgno, pg: Page): Pgno {
    if InOld(m, p) && Rank(pg) < LIVE then Shift(m, p) else p
  }

  function RenEntry(m: Move, e: Entry): Entry {
    e.(datap := e.datap.(first := Ren(m, e.datap.first)))
  }

  function RenHeads(m: Move, pg: Page): map<nat, DataHeader>
    requires pg.DataPage?
  {
    map o | o in pg.hd :: if o in Heads(pg) then pg.hd[o].(keyPage := Ren(m, pg.hd[o].keyPage)) else pg.hd[o]
  }

  /** The page with every reference renamed. */
  function RenPage(m: Move, pg: Page): Page {
    match pg
    case KeyPage(c, b, n, e, o) =>
      KeyPage(Ren(m, c), Ren(m, b), Ren(m, n), seq(|e|, i requires 0 <= i < |e| => RenEntry(m, e[i])), o)
    case DataPage(c, b, n, k, f, g, mem, h) =>
      DataPage(Ren(m, c), Ren(m, b), Ren(m, n), k, f, g, mem, RenHeads(m, pg))
    case FreePage(c, b, n, f) => FreePage(Ren(m, c), Ren(m, b), Ren(m, n), f)
    case DeletedPage(c, b, n) => pg
  }

  /** `pages'` is `pages` with the range moved and every reference renamed. */
  ghost predicate IsRenamed(m: Move, pages: PageMap, pages': PageMap) {
    && (forall p :: p in pages ==> Place(m, p, pages[p]) in pages' && pages'[Place(m, p, pages[p])] == RenPage(m, pages[p]))
    && (forall q :: q in pages' ==>
          || (q in pages && Place(m, q, pages[q]) == q)
          || (InNew(m, q) && Back(m, q) in pages && Place(m, Back(m, q), pages[Back(m, q)]) == q))
  }

  function Back(m: Move, q: Pgno): Pgno {
    m.oldFirst + (q - m.newFirst)
  }

  // ---------------------------------------------------------------- one page, as functions

  /** What the page itself becomes: links into the range and its own number change. */
  function OwnLinks(m: Move, pg: Page, p: Pgno): Page {
    SetCurr(SetPrev(SetNext(pg, Ren(m, pg.next)), Ren(m, pg.prev)), Shift(m, p))
  }

  /** Neighbours outside the range are told. */
  function TellNext(m: Move, pages: PageMap, n: Pgno, p: Pgno): PageMap {
    if n != INVALID_PGNO && !InOld(m, n) && n in pages then pages[n := SetPrev(pages[n], Shift(m, p))] else pages
  }

  function TellPrev(m: Move, pages: PageMap, n: Pgno, p: Pgno): PageMap {
    if n != INVALID_PGNO && !InOld(m, n) && n in pages then pages[n := SetNext(pages[n], Shift(m, p))] else pages
  }

  function PointEntry(e: Entry, p: Pgno, q: Pgno, offs: set<nat>): Entry {
    if e.datap.first == p && LowBits(e.datap.offset) in offs then e.(datap := e.datap.(first := q)) else e
  }

  /** Entries that point to p, at one of the offsets, point to q. */
  function PointPage(pg: Page, p: Pgno, q: Pgno, offs: set<nat>): Page {
    if pg.KeyPage?
    then pg.(ents := seq(|pg.ents|, i requires 0 <= i < |pg.ents| => PointEntry(pg.ents[i], p, q, offs)))
    else pg
  }

  function PointAll(pages: PageMap, p: Pgno, q: Pgno, offs: set<nat>): PageMap {
    map x | x in pages :: PointPage(pages[x], p, q, offs)
  }

  function HeadHd(pg: Page, p: Pgno, q: Pgno, upto: nat): map<nat, DataHeader>
    requires pg.DataPage?
  {
    map o | o in pg.hd ::
      if o in Heads(pg) && pg.hd[o].keyPage == p && pg.hd[o].keyIdx < upto then pg.hd[o].(keyPage := q) else pg.hd[o]
  }

  /** Headers that lead to an entry of p below `upto` lead to q. */
  function HeadPage(pg: Page, p: Pgno, q: Pgno, upto: nat): Page {
    if pg.DataPage? then pg.(hd := HeadHd(pg, p, q, upto)) else pg
  }

  function HeadAll(m: Move, pages: PageMap, p: Pgno, q: Pgno, upto: nat): PageMap {
    map x | x in pages :: if InNew(m, x) then pages[x] else HeadPage(pages[x], p, q, upto)
  }

  function RenSome(m: Move, pg: Page, offs: set<nat>): Page {
    if pg.DataPage?
    then pg.(hd := map o | o in pg.hd :: if o in offs then pg.hd[o].(keyPage := Ren(m, pg.hd[o].keyPage)) else pg.hd[o])
    else pg
  }

  function SetOf(s: seq<nat>): set<nat> {
    set o | o in s
  }

  /** The pages after page p of the range was moved. */
  function MoveOne(m: Move, pages: PageMap, p: Pgno): PageMap
    requires p in pages
  {
    var q := Shift(m, p);
    var told := TellPrev(m, TellNext(m, pages, pages[p].next, p), pages[p].prev, p);
    match pages[p]
    case DataPage(_, _, _, _, _, _, _, _) =>
      var offs := SetOf(Heads(pages[p]));
      (PointAll(told, p, q, offs) - {p})[q := RenSome(m, OwnLinks(m, pages[p], p), offs)]
    case KeyPage(_, _, _, e, _) =>
      (HeadAll(m, told, p, q, |e|) - {p})[q := OwnLinks(m, pages[p], p)]
    case _ => (told - {p})[q := OwnLinks(m, pages[p], p)]
  }

  // ---------------------------------------------------------------- while pages move

  /** Where page p is while the pages of S have moved. */
  function At(m: Move, s: set<Pgno>, p: Pgno): Pgno {
    if p in s then Shift(m, p) else p
  }

  /** A link of page p to page n while the pages of S have moved: a moved page knows the
      final number, a page of the range that has not moved knows none. */
  function LinkNow(m: Move, s: set<Pgno>, p: Pgno, n: Pgno): Pgno {
    if p in s then Ren(m, n) else if InOld(m, p) then n else At(m, s, n)
  }

  function KeyNow(m: Move, s: set<Pgno>, p: Pgno, n: Pgno): Pgno {
    if p in s then Ren(m, n) else At(m, s, n)
  }

  function EntryNow(m: Move, s: set<Pgno>, e: Entry): Entry {
    e.(datap := e.datap.(first := At(m, s, e.datap.first)))
  }

  function HdNow(m: Move, s: set<Pgno>, p: Pgno, pg: Page): map<nat, DataHeader>
    requires pg.DataPage?
  {
    map o | o in pg.hd :: if o in Heads(pg) then pg.hd[o].(keyPage := KeyNow(m, s, p, pg.hd[o].keyPage)) else pg.hd[o]
  }

  function PageNow(m: Move, s: set<Pgno>, p: Pgno, pg: Page): Page {
    match pg
    case KeyPage(c, b, n, e, o) =>
      KeyPage(At(m, s, p), LinkNow(m, s, p, b), LinkNow(m, s, p, n), seq(|e|, i requires 0 <= i < |e| => EntryNow(m, s, e[i])), o)
    case DataPage(c, b, n, k, f, g, mem, h) =>
      DataPage(At(m, s, p), LinkNow(m, s, p, b), LinkNow(m, s, p, n), k, f, g, mem, HdNow(m, s, p, pg))
    case FreePage(c, b, n, f) => FreePage(At(m, s, p), LinkNow(m, s, p, b), LinkNow(m, s, p, n), f)
    case DeletedPage(c, b, n) => pg
  }

  /** `now` is `pages` while the pages of S have moved. */
  ghost predicate Moving(m: Move, pages: PageMap, s: set<Pgno>, now: PageMap) {
    && (forall p :: p in s ==> p in pages && InOld(m, p) && Rank(pages[p]) < LIVE)
    && (forall p :: p in pages ==> At(m, s, p) in now && now[At(m, s, p)] == PageNow(m, s, p, pages[p]))
    && (forall q :: q in now ==> (q in pages && q !in s) || (InNew(m, q) && Back(m, q) in s))
  }

  // ---------------------------------------------------------------- moving one page keeps the picture

  lemma {:induction false} WalkSame(hd: map<nat, DataHeader>, hd': map<nat, DataHeader>, off: nat, n: nat)
    requires hd.Keys == hd'.Keys && forall o :: o in hd ==> hd'[o].next == hd[o].next
    ensures Walk(hd', off, n) == Walk(hd, off, n)
    decreases n
  {
    if n > 0 && off in hd {
      WalkSame(hd, hd', hd[off].next, n - 1);
    }
  }

  lemma HeadsNow(m: Move, s: set<Pgno>, p: Pgno, pg: Page)
    requires pg.DataPage?
    ensures PageNow(m, s, p, pg).DataPage? && Heads(PageNow(m, s, p, pg)) == Heads(pg)
  {
    WalkSame(pg.hd, HdNow(m, s, p, pg), pg.first, pg.num);
  }

  /** A page other than p after its neighbours were told. */
  lemma ToldPage(m: Move, pages: PageMap, p: Pgno, l: Pgno)
    requires p in pages && l in pages && l != p && l != INVALID_PGNO
    ensures var told := TellPrev(m, TellNext(m, pages, pages[p].next, p), pages[p].prev, p);
      && told.Keys == pages.Keys
      && told[l] == SetPrev(SetNext(pages[l], if pages[p].prev == l && !InOld(m, l) then Shift(m, p) else pages[l].next),
                            if pages[p].next == l && !InOld(m, l) then Shift(m, p) else pages[l].prev)
  {
  }

  /** The page with its links as they are when p has moved too, the rest as before. */
  function MidPage(m: Move, s: set<Pgno>, s': set<Pgno>, q: Pgno, pg: Page): Page {
    SetPrev(SetNext(PageNow(m, s, q, pg), LinkNow(m, s', q, pg.next)), LinkNow(m, s', q, pg.prev))
  }

  /** Telling the neighbours sets the links of every other page as they shall be. */
  lemma ToldIsMid(m: Move, pages: PageMap, s: set<Pgno>, now: PageMap, p: Pgno, q: Pgno)
    requires Graph(pages) && MoveOk(m, pages) && Moving(m, pages, s, now)
    requires p in pages && InOld(m, p) && p !in s && Rank(pages[p]) < LIVE && q in pages && q != p
    ensures p in now
    ensures var told := TellPrev(m, TellNext(m, now, now[p].next, p), now[p].prev, p);
      var l := At(m, s, q);
      && told.Keys == now.Keys && l in told && l != p && l != Shift(m, p)
      && (pages[q].DeletedPage? || told[l] == MidPage(m, s, s + {p}, q, pages[q]))
      && (pages[q].DeletedPage? ==> told[l] == pages[q])
  {
    hide HeadsOk, EntriesOk, HdNow;
    assert At(m, s, p) == p && now[p] == PageNow(m, s, p, pages[p]);
    var l := At(m, s, q);
    assert l in now && now[l] == PageNow(m, s, q, pages[q]);
    assert LinksBack(pages, p) && LinksBack(pages, q);
    NowLinks(m, s, p, pages[p]);
    NowLinks(m, s, q, pages[q]);
    ToldPage(m, now, p, l);
    assert now[p].next == pages[p].next && now[p].prev == pages[p].prev;
  }

  lemma NowLinks(m: Move, s: set<Pgno>, p: Pgno, pg: Page)
    ensures !pg.DeletedPage? ==> PageNow(m, s, p, pg).next == LinkNow(m, s, p, pg.next)
    ensures !pg.DeletedPage? ==> PageNow(m, s, p, pg).prev == LinkNow(m, s, p, pg.prev)
    ensures pg.DeletedPage? ==> PageNow(m, s, p, pg) == pg
    ensures Rank(PageNow(m, s, p, pg)) == Rank(pg)
  {
  }

  /** Pointing the entries of p's data elsewhere finishes every other page when p is a data page. */
  lemma PointFinishes(m: Move, pages: PageMap, s: set<Pgno>, p: Pgno, q: Pgno)
    requires Graph(pages) && MoveOk(m, pages) && p in pages && pages[p].DataPage? && InOld(m, p)
    requires q in pages && q != p && p !in s && (forall x :: x in s ==> x in pages && InOld(m, x))
    ensures var mid := if pages[q].DeletedPage? then pages[q] else MidPage(m, s, s + {p}, q, pages[q]);
      PointPage(mid, p, Shift(m, p), SetOf(Heads(pages[p]))) == PageNow(m, s + {p}, q, pages[q])
  {
    hide HeadsOk, LinksBack;
    var s' := s + {p};
    match pages[q]
    case KeyPage(c, b, n, e, o) =>
      assert EntriesOk(pages, q);
      forall i | 0 <= i < |e|
        ensures PointEntry(EntryNow(m, s, e[i]), p, Shift(m, p), SetOf(Heads(pages[p]))) == EntryNow(m, s', e[i])
      {
        assert EntryBack(pages, q, i);
      }
      var mid := MidPage(m, s, s', q, pages[q]);
      assert mid.KeyPage? && |mid.ents| == |e|;
      assert PointPage(mid, p, Shift(m, p), SetOf(Heads(pages[p]))).ents == PageNow(m, s', q, pages[q]).ents;
    case DataPage(c, b, n, k, f, g, mem, h) =>
      assert HeadsOk(pages, q);
      SameHdNow(m, pages, s, p, q);
    case _ =>
  }

  /** Moving a page that is no key page changes no header. */
  lemma SameHdNow(m: Move, pages: PageMap, s: set<Pgno>, p: Pgno, q: Pgno)
    requires q in pages && pages[q].DataPage? && HeadsOk(pages, q) && p in pages && !pages[p].KeyPage? && q != p
    ensures HdNow(m, s + {p}, q, pages[q]) == HdNow(m, s, q, pages[q])
  {
  }

  /** Moving a page that is no data page changes no entry. */
  lemma SameEntriesNow(m: Move, pages: PageMap, s: set<Pgno>, p: Pgno, q: Pgno)
    requires q in pages && pages[q].KeyPage? && EntriesOk(pages, q) && p in pages && !pages[p].DataPage?
    ensures forall i :: 0 <= i < |pages[q].ents| ==> EntryNow(m, s + {p}, pages[q].ents[i]) == EntryNow(m, s, pages[q].ents[i])
  {
    forall i | 0 <= i < |pages[q].ents|
      ensures pages[q].ents[i].datap.first != p
    {
      assert EntryBack(pages, q, i);
    }
  }

  /** The headers of an unmoved data page once p, a key page, has moved. */
  lemma HeadMid(m: Move, pages: PageMap, s: set<Pgno>, p: Pgno, q: Pgno)
    requires q in pages && pages[q].DataPage? && HeadsOk(pages, q) && q !in s && q != p
    requires p in pages && pages[p].KeyPage? && InOld(m, p) && p !in s && MoveOk(m, pages)
    requires forall x :: x in s ==> x in pages && InOld(m, x)
    ensures var mid := MidPage(m, s, s + {p}, q, pages[q]);
      HeadPage(mid, p, Shift(m, p), |pages[p].ents|) == PageNow(m, s + {p}, q, pages[q])
  {
    var s' := s + {p};
    var mid := MidPage(m, s, s', q, pages[q]);
    HeadsNow(m, s, q, pages[q]);
    assert mid.hd == HdNow(m, s, q, pages[q]) && Heads(mid) == Heads(pages[q]);
    forall o | o in pages[q].hd
      ensures HeadHd(mid, p, Shift(m, p), |pages[p].ents|)[o] == HdNow(m, s', q, pages[q])[o]
    {
      if o in Heads(pages[q]) {
        var i :| 0 <= i < |Heads(pages[q])| && Heads(pages[q])[i] == o;
        assert HeaderBack(pages, q, o);
      }
    }
    assert HeadHd(mid, p, Shift(m, p), |pages[p].ents|) == HdNow(m, s', q, pages[q]);
  }

  /** Leading the headers of p's entries elsewhere finishes every other page when p is a key page. */
  lemma HeadFinishes(m: Move, pages: PageMap, s: set<Pgno>, p: Pgno, q: Pgno)
    requires Graph(pages) && MoveOk(m, pages) && p in pages && pages[p].KeyPage? && InOld(m, p)
    requires q in pages && q != p && p !in s && (forall x :: x in s ==> x in pages && InOld(m, x))
    ensures var mid := if pages[q].DeletedPage? then pages[q] else MidPage(m, s, s + {p}, q, pages[q]);
      (if InNew(m, At(m, s, q)) then mid else HeadPage(mid, p, Shift(m, p), |pages[p].ents|))
      == PageNow(m, s + {p}, q, pages[q])
  {
    hide HeadsOk, LinksBack, EntriesOk;
    match pages[q]
    case KeyPage(c, b, n, e, o) =>
      SameEntriesNow(m, pages, s, p, q);
      assert MidPage(m, s, s + {p}, q, pages[q]).ents == PageNow(m, s + {p}, q, pages[q]).ents;
    case DataPage(c, b, n, k, f, g, mem, h) =>
      if q !in s {
        HeadMid(m, pages, s, p, q);
      } else {
        assert HdNow(m, s + {p}, q, pages[q]) == HdNow(m, s, q, pages[q]);
      }
    case _ =>
  }

  /** Nothing but links refers to a free-list page. */
  lemma FreeFinishes(m: Move, pages: PageMap, s: set<Pgno>, p: Pgno, q: Pgno)
    requires Graph(pages) && p in pages && pages[p].FreePage? && q in pages && q != p
    ensures var mid := if pages[q].DeletedPage? then pages[q] else MidPage(m, s, s + {p}, q, pages[q]);
      mid == PageNow(m, s + {p}, q, pages[q])
  {
    hide HeadsOk, LinksBack, EntriesOk;
    match pages[q]
    case KeyPage(c, b, n, e, o) =>
      SameEntriesNow(m, pages, s, p, q);
      assert MidPage(m, s, s + {p}, q, pages[q]).ents == PageNow(m, s + {p}, q, pages[q]).ents;
    case DataPage(c, b, n, k, f, g, mem, h) =>
      SameHdNow(m, pages, s, p, q);
    case _ =>
  }

  /** The moved page itself. */
  lemma OwnFinishes(m: Move, pages: PageMap, s: set<Pgno>, p: Pgno)
    requires Graph(pages) && MoveOk(m, pages) && p in pages && InOld(m, p) && p !in s && Rank(pages[p]) < LIVE
    requires forall x :: x in s ==> x in pages && InOld(m, x)
    ensures var own := OwnLinks(m, PageNow(m, s, p, pages[p]), p);
      && PageNow(m, s, p, pages[p]).DataPage? == pages[p].DataPage?
      && (if pages[p].DataPage? then RenSome(m, own, SetOf(Heads(pages[p]))) else own) == PageNow(m, s + {p}, p, pages[p])
  {
    hide HeadsOk, LinksBack, EntriesOk;
    var own := OwnLinks(m, PageNow(m, s, p, pages[p]), p);
    match pages[p]
    case KeyPage(c, b, n, e, o) =>
      SameEntriesNow(m, pages, s, p, p);
      assert own.ents == PageNow(m, s + {p}, p, pages[p]).ents;
    case DataPage(c, b, n, k, f, g, mem, h) =>
      var r := RenSome(m, own, SetOf(Heads(pages[p])));
      assert own.hd == HdNow(m, s, p, pages[p]);
      forall o | o in h
        ensures r.hd[o] == HdNow(m, s + {p}, p, pages[p])[o]
      {
        assert Ren(m, At(m, s, h[o].keyPage)) == Ren(m, h[o].keyPage);
      }
      assert r.hd == HdNow(m, s + {p}, p, pages[p]);
    case _ =>
  }

  /** Moving one more page of the range keeps the picture. */
  lemma MoveOneKeeps(m: Move, pages: PageMap, s: set<Pgno>, now: PageMap, p: Pgno)
    requires Graph(pages) && MoveOk(m, pages) && Moving(m, pages, s, now)
    requires p in pages && InOld(m, p) && p !in s && Rank(pages[p]) < LIVE
    ensures p in now && Moving(m, pages, s + {p}, MoveOne(m, now, p))
  {
    hide Graph, PageNow, MidPage, OwnLinks, TellNext, TellPrev, PointPage, HeadPage, RenSome, Heads;
    assert At(m, s, p) == p && now[p] == PageNow(m, s, p, pages[p]);
    var s' := s + {p};
    var now' := MoveOne(m, now, p);
    OwnFinishes(m, pages, s, p);
    HeadsAtMove(m, s, p, pages[p]);
    forall q | q in pages
      ensures At(m, s', q) in now' && now'[At(m, s', q)] == PageNow(m, s', q, pages[q])
    {
      if q != p {
        ToldIsMid(m, pages, s, now, p, q);
        match pages[p]
        case DataPage(_, _, _, _, _, _, _, _) => PointFinishes(m, pages, s, p, q);
        case KeyPage(_, _, _, e, _) => HeadFinishes(m, pages, s, p, q);
        case FreePage(_, _, _, _) => FreeFinishes(m, pages, s, p, q);
        case DeletedPage(_, _, _) =>
      }
    }
    MoveOneKeys(m, now, p);
  }

  lemma HeadsAtMove(m: Move, s: set<Pgno>, p: Pgno, pg: Page)
    ensures var now := PageNow(m, s, p, pg);
      && Rank(now) == Rank(pg)
      && (pg.DataPage? ==> Heads(now) == Heads(pg))
      && (pg.KeyPage? ==> |now.ents| == |pg.ents|)
  {
    if pg.DataPage? {
      HeadsNow(m, s, p, pg);
    }
  }

  lemma MoveOneKeys(m: Move, now: PageMap, p: Pgno)
    requires p in now
    ensures MoveOne(m, now, p).Keys == now.Keys - {p} + {Shift(m, p)}
  {
  }

  // ---------------------------------------------------------------- the whole range

  /** Once every live page of the range has moved, every reference is renamed. */
  lemma AllMoved(m: Move, pages: PageMap, s: set<Pgno>, now: PageMap)
    requires Graph(pages) && MoveOk(m, pages) && Moving(m, pages, s, now)
    requires forall p :: p in pages && InOld(m, p) && Rank(pages[p]) < LIVE ==> p in s
    ensures IsRenamed(m, pages, now)
  {
    hide Graph, PageNow, RenPage, Heads;
    forall p | p in pages
      ensures Place(m, p, pages[p]) in now && now[Place(m, p, pages[p])] == RenPage(m, pages[p])
    {
      FinalPage(m, pages, s, p);
    }
  }

  lemma FinalPage(m: Move, pages: PageMap, s: set<Pgno>, p: Pgno)
    requires Graph(pages) && p in pages
    requires forall x :: x in s ==> x in pages && InOld(m, x)
    requires forall x :: x in pages && InOld(m, x) && Rank(pages[x]) < LIVE ==> x in s
    requires MoveOk(m, pages) && (pages[p].DeletedPage? ==> p !in s)
    ensures PageNow(m, s, p, pages[p]) == RenPage(m, pages[p])
  {
    hide HeadsOk, EntriesOk;
    assert LinksBack(pages, p);
    assert pages[p].curr == p;
    match pages[p]
    case KeyPage(c, b, n, e, o) =>
      FinalEntries(m, pages, s, p);
      assert PageNow(m, s, p, pages[p]).ents == RenPage(m, pages[p]).ents;
    case DataPage(c, b, n, k, f, g, mem, h) =>
      FinalHeads(m, pages, s, p);
    case _ =>
  }

  lemma FinalEntries(m: Move, pages: PageMap, s: set<Pgno>, p: Pgno)
    requires p in pages && pages[p].KeyPage? && EntriesOk(pages, p)
    requires forall x :: x in s ==> x in pages && InOld(m, x)
    requires forall x :: x in pages && InOld(m, x) && Rank(pages[x]) < LIVE ==> x in s
    ensures forall i :: 0 <= i < |pages[p].ents| ==> EntryNow(m, s, pages[p].ents[i]) == RenEntry(m, pages[p].ents[i])
  {
    forall i | 0 <= i < |pages[p].ents|
      ensures At(m, s, pages[p].ents[i].datap.first) == Ren(m, pages[p].ents[i].datap.first)
    {
      assert EntryBack(pages, p, i);
    }
  }

  lemma FinalHeads(m: Move, pages: PageMap, s: set<Pgno>, p: Pgno)
    requires p in pages && pages[p].DataPage? && HeadsOk(pages, p)
    requires forall x :: x in s ==> x in pages && InOld(m, x)
    requires forall x :: x in pages && InOld(m, x) && Rank(pages[x]) < LIVE ==> x in s
    ensures HdNow(m, s, p, pages[p]) == RenHeads(m, pages[p])
  {
  }

  // ---------------------------------------------------------------- there and back

  /** The move that undoes m. */
  function Undo(m: Move): Move {
    Move(m.newFirst, m.newFirst + (m.oldLast - m.oldFirst), m.oldFirst)
  }

  /** The pages below the range, as the file is cut after the move. */
  function CutRange(m: Move, pages: PageMap): PageMap {
    map p | p in pages && !InOld(m, p) :: pages[p]
  }

  /** What survives a move and a cut: all but the deleted pages of the range. */
  function Survivors(m: Move, pages: PageMap): PageMap {
    map p | p in pages && !(InOld(m, p) && Rank(pages[p]) == LIVE) :: pages[p]
  }

  lemma HeadsRen(m: Move, pg: Page)
    requires pg.DataPage?
    ensures RenPage(m, pg).DataPage? && Heads(RenPage(m, pg)) == Heads(pg)
  {
    WalkSame(pg.hd, RenHeads(m, pg), pg.first, pg.num);
  }

  /** A live page after the move. */
  lemma MovedPage(m: Move, pages: PageMap, now: PageMap, p: Pgno)
    requires Graph(pages) && MoveOk(m, pages) && IsRenamed(m, pages, now) && p in pages && Rank(pages[p]) < LIVE
    ensures var cut := CutRange(m, now);
      && Ren(m, p) in cut && cut[Ren(m, p)] == RenPage(m, pages[p]) && Rank(cut[Ren(m, p)]) == Rank(pages[p])
  {
  }

  lemma RankRen(m: Move, pg: Page)
    ensures Rank(RenPage(m, pg)) == Rank(pg)
  {
  }

  /** A page of the cut file comes from a survivor. */
  lemma CutSource(m: Move, pages: PageMap, now: PageMap, q: Pgno) returns (p: Pgno)
    requires MoveOk(m, pages) && IsRenamed(m, pages, now) && q in CutRange(m, now)
    ensures p in Survivors(m, pages) && q == Place(m, p, pages[p]) && CutRange(m, now)[q] == RenPage(m, pages[p])
    ensures Rank(pages[p]) < LIVE ==> q == Ren(m, p)
  {
    p := if q in pages && Place(m, q, pages[q]) == q then q else Back(m, q);
  }

  lemma RenKeepsGraph(m: Move, pages: PageMap, now: PageMap)
    requires Graph(pages) && MoveOk(m, pages) && IsRenamed(m, pages, now)
    ensures Graph(CutRange(m, now)) && MoveOk(Undo(m), CutRange(m, now))
  {
    hide IsRenamed, CutRange, LinksBack, HeadsOk, EntriesOk, RenPage, Survivors;
    var cut := CutRange(m, now);
    forall q | q in cut
      ensures q > 0 && cut[q].curr == q && LinksBack(cut, q)
      ensures cut[q].DataPage? ==> HeadsOk(cut, q)
      ensures cut[q].KeyPage? ==> EntriesOk(cut, q)
    {
      var p := CutSource(m, pages, now, q);
      SurvivorIn(m, pages, p);
      RankRen(m, pages[p]);
      RenLinks(m, pages, now, p, q);
      if pages[p].DataPage? {
        RenHeadsOk(m, pages, now, p);
      } else if pages[p].KeyPage? {
        RenEntriesOk(m, pages, now, p);
      }
    }
    CutFree(m, pages, now);
  }

  lemma SurvivorIn(m: Move, pages: PageMap, p: Pgno)
    requires p in Survivors(m, pages)
    ensures p in pages && !(InOld(m, p) && Rank(pages[p]) == LIVE)
  {
  }

  lemma CutFree(m: Move, pages: PageMap, now: PageMap)
    requires MoveOk(m, pages) && IsRenamed(m, pages, now)
    ensures MoveOk(Undo(m), CutRange(m, now))
  {
  }

  lemma RenLinks(m: Move, pages: PageMap, now: PageMap, p: Pgno, q: Pgno)
    requires Graph(pages) && MoveOk(m, pages) && IsRenamed(m, pages, now) && p in pages && q in CutRange(m, now)
    requires q == Place(m, p, pages[p]) && CutRange(m, now)[q] == RenPage(m, pages[p])
    ensures q > 0 && CutRange(m, now)[q].curr == q && LinksBack(CutRange(m, now), q)
  {
    hide IsRenamed, CutRange, HeadsOk, EntriesOk, RenHeads, RenEntry;
    assert LinksBack(pages, p) && pages[p].curr == p;
    var n, b := pages[p].next, pages[p].prev;
    if n != INVALID_PGNO {
      MovedPage(m, pages, now, n);
    }
    if b != INVALID_PGNO {
      MovedPage(m, pages, now, b);
    }
  }

  lemma RenHeadsOk(m: Move, pages: PageMap, now: PageMap, p: Pgno)
    requires Graph(pages) && MoveOk(m, pages) && IsRenamed(m, pages, now) && p in pages && pages[p].DataPage?
    ensures Ren(m, p) in CutRange(m, now) && CutRange(m, now)[Ren(m, p)].DataPage? && HeadsOk(CutRange(m, now), Ren(m, p))
  {
    hide IsRenamed, CutRange, LinksBack, EntriesOk, Heads;
    var cut, q := CutRange(m, now), Ren(m, p);
    MovedPage(m, pages, now, p);
    HeadsRen(m, pages[p]);
    assert HeadsOk(pages, p);
    forall i | 0 <= i < |Heads(cut[q])|
      ensures Heads(cut[q])[i] in cut[q].hd && HeaderBack(cut, q, Heads(cut[q])[i])
    {
      var o := Heads(pages[p])[i];
      assert HeaderBack(pages, p, o);
      MovedPage(m, pages, now, pages[p].hd[o].keyPage);
    }
  }

  lemma RenEntriesOk(m: Move, pages: PageMap, now: PageMap, p: Pgno)
    requires Graph(pages) && MoveOk(m, pages) && IsRenamed(m, pages, now) && p in pages && pages[p].KeyPage?
    ensures Ren(m, p) in CutRange(m, now) && CutRange(m, now)[Ren(m, p)].KeyPage? && EntriesOk(CutRange(m, now), Ren(m, p))
  {
    hide IsRenamed, CutRange, LinksBack, HeadsOk, Heads;
    var cut, q := CutRange(m, now), Ren(m, p);
    MovedPage(m, pages, now, p);
    assert EntriesOk(pages, p);
    forall i | 0 <= i < |cut[q].ents|
      ensures EntryBack(cut, q, i)
    {
      assert EntryBack(pages, p, i);
      var f := pages[p].ents[i].datap.first;
      MovedPage(m, pages, now, f);
      HeadsRen(m, pages[f]);
    }
  }

  /** Renaming back gives every surviving page its content again. */
  lemma RenamedBack(m: Move, pages: PageMap, now: PageMap, back: PageMap)
    requires Graph(pages) && MoveOk(m, pages) && IsRenamed(m, pages, now)
    requires IsRenamed(Undo(m), CutRange(m, now), back)
    ensures back == Survivors(m, pages)
  {
    hide Graph, RenPage, CutRange, IsRenamed;
    forall p | p in Survivors(m, pages)
      ensures p in back && back[p] == pages[p]
    {
      SurvivorBack(m, pages, now, back, p);
    }
    forall q | q in back
      ensures q in Survivors(m, pages)
    {
      BackSource(m, pages, now, back, q);
    }
  }

  lemma SurvivorBack(m: Move, pages: PageMap, now: PageMap, back: PageMap, p: Pgno)
    requires Graph(pages) && MoveOk(m, pages) && IsRenamed(m, pages, now)
    requires IsRenamed(Undo(m), CutRange(m, now), back) && p in Survivors(m, pages)
    ensures p in back && back[p] == pages[p]
  {
    hide Graph, RenPage;
    var q := Place(m, p, pages[p]);
    var cut := CutRange(m, now);
    assert q in cut && cut[q] == RenPage(m, pages[p]);
    RankRen(m, pages[p]);
    assert Place(Undo(m), q, cut[q]) == p;
    RenTwice(m, pages, p);
  }

  lemma BackSource(m: Move, pages: PageMap, now: PageMap, back: PageMap, q: Pgno)
    requires Graph(pages) && MoveOk(m, pages) && IsRenamed(m, pages, now)
    requires IsRenamed(Undo(m), CutRange(m, now), back) && q in back
    ensures q in Survivors(m, pages)
  {
    hide Graph, RenPage;
    var cut := CutRange(m, now);
    var x := if q in cut && Place(Undo(m), q, cut[q]) == q then q else Back(Undo(m), q);
    assert x in cut && Place(Undo(m), x, cut[x]) == q;
    var p := CutSource(m, pages, now, x);
    RankRen(m, pages[p]);
  }

  /** Renaming there and back is the identity on references that lead to pages. */
  lemma RenTwice(m: Move, pages: PageMap, p: Pgno)
    requires Graph(pages) && MoveOk(m, pages) && p in pages
    ensures RenPage(Undo(m), RenPage(m, pages[p])) == pages[p]
  {
    hide HeadsOk, EntriesOk, Heads;
    var r := RenPage(Undo(m), RenPage(m, pages[p]));
    assert LinksBack(pages, p) && pages[p].curr == p;
    match pages[p]
    case KeyPage(c, b, n, e, o) =>
      assert EntriesOk(pages, p);
      forall i | 0 <= i < |e|
        ensures r.ents[i] == e[i]
      {
        RenEntryTwice(m, pages, p, i);
      }
      assert r.ents == e;
    case DataPage(c, b, n, k, f, g, mem, h) =>
      HeadsRen(m, pages[p]);
      assert HeadsOk(pages, p);
      forall o | o in h
        ensures r.hd[o] == h[o]
      {
        if o in Heads(pages[p]) {
          RenHeadTwice(m, pages, p, o);
        }
      }
      assert r.hd == h;
    case _ =>
  }

  lemma RenEntryTwice(m: Move, pages: PageMap, p: Pgno, i: nat)
    requires MoveOk(m, pages) && p in pages && pages[p].KeyPage? && EntriesOk(pages, p) && i < |pages[p].ents|
    ensures RenEntry(Undo(m), RenEntry(m, pages[p].ents[i])) == pages[p].ents[i]
  {
    assert EntryBack(pages, p, i);
  }

  lemma RenHeadTwice(m: Move, pages: PageMap, p: Pgno, o: nat)
    requires MoveOk(m, pages) && p in pages && pages[p].DataPage? && HeadsOk(pages, p) && o in pages[p].hd && o in Heads(pages[p])
    ensures Ren(Undo(m), Ren(m, pages[p].hd[o].keyPage)) == pages[p].hd[o].keyPage
  {
  }

  // ---------------------------------------------------------------- following references while pages move

  /** The headers of pg, the content of data page p, lead to the entries that point to p. */
  ghost predicate LeadsOut(pages: PageMap, p: Pgno, pg: Page) {
    && pg.DataPage? && |Heads(pg)| == pg.num
    && (forall i :: 0 <= i < |Heads(pg)| ==> LeadsTo(pages, p, pg, Heads(pg)[i]))
    && (forall i, j :: 0 <= i < j < |Heads(pg)| ==> Heads(pg)[i] != Heads(pg)[j])
    && (forall x, e :: x in pages && pages[x].KeyPage? && 0 <= e < |pages[x].ents| && pages[x].ents[e].datap.first == p ==>
          LedBy(pg, x, e, LowBits(pages[x].ents[e].datap.offset)))
  }

  ghost predicate LeadsTo(pages: PageMap, p: Pgno, pg: Page, o: nat) {
    && pg.DataPage? && o in pg.hd
    && pg.hd[o].keyPage in pages && pages[pg.hd[o].keyPage].KeyPage? && pg.hd[o].keyIdx < |pages[pg.hd[o].keyPage].ents|
    && pages[pg.hd[o].keyPage].ents[pg.hd[o].keyIdx].datap.first == p
    && LowBits(pages[pg.hd[o].keyPage].ents[pg.hd[o].keyIdx].datap.offset) == o
  }

  ghost predicate LedBy(pg: Page, x: Pgno, e: nat, o: nat) {
    pg.DataPage? && o in Heads(pg) && o in pg.hd && pg.hd[o].keyPage == x && pg.hd[o].keyIdx == e
  }

  /** The entries of pg, the content of key page p, lead to the headers that lead to p. */
  ghost predicate LeadsBack(m: Move, pages: PageMap, p: Pgno, pg: Page) {
    && pg.KeyPage?
    && (forall i :: 0 <= i < |pg.ents| && !InNew(m, pg.ents[i].datap.first) ==>
          && pg.ents[i].datap.first in pages
          && LedBy(pages[pg.ents[i].datap.first], p, i, LowBits(pg.ents[i].datap.offset)))
    && (forall x, o ::
          (x in pages && !InNew(m, x) && pages[x].DataPage? && o in Heads(pages[x]) && o in pages[x].hd
           && pages[x].hd[o].keyPage == p) ==>
          && pages[x].hd[o].keyIdx < |pg.ents| && pg.ents[pages[x].hd[o].keyIdx].datap.first == x
          && LowBits(pg.ents[pages[x].hd[o].keyIdx].datap.offset) == o)
  }

  /** The pages and the content of page p once the neighbours were told. */
  lemma ToldLeadsOut(m: Move, pages: PageMap, s: set<Pgno>, now: PageMap, p: Pgno)
    requires Graph(pages) && MoveOk(m, pages) && Moving(m, pages, s, now)
    requires p in pages && InOld(m, p) && p !in s && pages[p].DataPage?
    ensures p in now
    ensures LeadsOut(TellPrev(m, TellNext(m, now, now[p].next, p), now[p].prev, p), p, OwnLinks(m, now[p], p))
  {
    hide LinksBack, Heads, TellPrev, TellNext, MidPage;
    assert At(m, s, p) == p && now[p] == PageNow(m, s, p, pages[p]);
    var told := TellPrev(m, TellNext(m, now, now[p].next, p), now[p].prev, p);
    var own := OwnLinks(m, now[p], p);
    HeadsNow(m, s, p, pages[p]);
    OwnSame(m, now[p], p);
    assert HeadsOk(pages, p);
    forall i | 0 <= i < |Heads(own)|
      ensures LeadsTo(told, p, own, Heads(own)[i])
    {
      var o := Heads(pages[p])[i];
      assert HeaderBack(pages, p, o);
      var kp := pages[p].hd[o].keyPage;
      ToldIsMid(m, pages, s, now, p, kp);
      MidEnts(m, s, s + {p}, kp, pages[kp]);
    }
    forall x, e | x in told && told[x].KeyPage? && 0 <= e < |told[x].ents| && told[x].ents[e].datap.first == p
      ensures LedBy(own, x, e, LowBits(told[x].ents[e].datap.offset))
    {
      ToldEntryLed(m, pages, s, now, p, x, e);
    }
  }

  lemma OwnSame(m: Move, pg: Page, p: Pgno)
    ensures pg.DataPage? ==> OwnLinks(m, pg, p).DataPage? && OwnLinks(m, pg, p).hd == pg.hd && OwnLinks(m, pg, p).num == pg.num
                             && Heads(OwnLinks(m, pg, p)) == Heads(pg)
    ensures pg.KeyPage? ==> OwnLinks(m, pg, p).KeyPage? && OwnLinks(m, pg, p).ents == pg.ents
  {
  }

  lemma MidEnts(m: Move, s: set<Pgno>, s': set<Pgno>, q: Pgno, pg: Page)
    ensures pg.KeyPage? ==> MidPage(m, s, s', q, pg).KeyPage? && MidPage(m, s, s', q, pg).ents == PageNow(m, s, q, pg).ents
    ensures pg.DataPage? ==> MidPage(m, s, s', q, pg).DataPage? && MidPage(m, s, s', q, pg).hd == HdNow(m, s, q, pg)
                             && Heads(MidPage(m, s, s', q, pg)) == Heads(pg)
    ensures Rank(MidPage(m, s, s', q, pg)) == Rank(pg)
  {
    if pg.DataPage? {
      HeadsNow(m, s, q, pg);
    }
  }

  /** The page that stands at x, other than p. */
  lemma NowSource(m: Move, pages: PageMap, s: set<Pgno>, now: PageMap, x: Pgno) returns (q: Pgno)
    requires MoveOk(m, pages) && Moving(m, pages, s, now) && x in now
    ensures q in pages && At(m, s, q) == x && now[x] == PageNow(m, s, q, pages[q])
  {
    q := if x in pages && x !in s then x else Back(m, x);
  }

  lemma ToldEntryLed(m: Move, pages: PageMap, s: set<Pgno>, now: PageMap, p: Pgno, x: Pgno, e: nat)
    requires Graph(pages) && MoveOk(m, pages) && Moving(m, pages, s, now)
    requires p in pages && InOld(m, p) && p !in s && pages[p].DataPage? && p in now
    requires var told := TellPrev(m, TellNext(m, now, now[p].next, p), now[p].prev, p);
      x in told && told[x].KeyPage? && e < |told[x].ents| && told[x].ents[e].datap.first == p
    ensures var told := TellPrev(m, TellNext(m, now, now[p].next, p), now[p].prev, p);
      LedBy(OwnLinks(m, now[p], p), x, e, LowBits(told[x].ents[e].datap.offset))
  {
    hide LinksBack, HeadsOk, Heads, TellPrev, TellNext, MidPage, Moving, OwnLinks;
    ToldKeys(m, now, p);
    NowAt(m, pages, s, now, p);
    var q := NowSource(m, pages, s, now, x);
    PageKind(m, s, p, pages[p]);
    if q == p {
      ToldSelf(m, now, p);
      assert false;
    } else {
      ToldIsMid(m, pages, s, now, p, q);
      MidEnts(m, s, s + {p}, q, pages[q]);
      assert pages[q].KeyPage? && EntriesOk(pages, q) && EntryBack(pages, q, e);
      OwnSame(m, now[p], p);
      HeadsNow(m, s, p, pages[p]);
    }
  }

  lemma PageKind(m: Move, s: set<Pgno>, p: Pgno, pg: Page)
    ensures Rank(PageNow(m, s, p, pg)) == Rank(pg)
  {
  }

  lemma NowAt(m: Move, pages: PageMap, s: set<Pgno>, now: PageMap, p: Pgno)
    requires Moving(m, pages, s, now) && p in pages && p !in s
    ensures p in now && now[p] == PageNow(m, s, p, pages[p])
    ensures forall x :: x in s ==> x in pages && InOld(m, x)
  {
  }

  lemma ToldKeys(m: Move, now: PageMap, p: Pgno)
    requires p in now
    ensures TellPrev(m, TellNext(m, now, now[p].next, p), now[p].prev, p).Keys == now.Keys
  {
  }

  /** A page of the range is not told about itself. */
  lemma ToldSelf(m: Move, now: PageMap, p: Pgno)
    requires p in now && InOld(m, p)
    ensures var told := TellPrev(m, TellNext(m, now, now[p].next, p), now[p].prev, p); p in told && told[p] == now[p]
  {
  }

  lemma ToldLeadsBack(m: Move, pages: PageMap, s: set<Pgno>, now: PageMap, p: Pgno)
    requires Graph(pages) && MoveOk(m, pages) && Moving(m, pages, s, now)
    requires p in pages && InOld(m, p) && p !in s && pages[p].KeyPage?
    ensures p in now
    ensures LeadsBack(m, TellPrev(m, TellNext(m, now, now[p].next, p), now[p].prev, p), p, OwnLinks(m, now[p], p))
  {
    hide LinksBack, Heads, TellPrev, TellNext, MidPage, OwnLinks, HeadsOk;
    NowAt(m, pages, s, now, p);
    var told := TellPrev(m, TellNext(m, now, now[p].next, p), now[p].prev, p);
    var own := OwnLinks(m, now[p], p);
    OwnSame(m, now[p], p);
    assert EntriesOk(pages, p);
    forall i | 0 <= i < |own.ents| && !InNew(m, own.ents[i].datap.first)
      ensures own.ents[i].datap.first in told
      ensures LedBy(told[own.ents[i].datap.first], p, i, LowBits(own.ents[i].datap.offset))
    {
      assert EntryBack(pages, p, i);
      var f := pages[p].ents[i].datap.first;
      ToldIsMid(m, pages, s, now, p, f);
      MidEnts(m, s, s + {p}, f, pages[f]);
    }
    forall x, o | x in told && !InNew(m, x) && told[x].DataPage? && o in Heads(told[x]) && o in told[x].hd && told[x].hd[o].keyPage == p
      ensures told[x].hd[o].keyIdx < |own.ents| && own.ents[told[x].hd[o].keyIdx].datap.first == x
      ensures LowBits(own.ents[told[x].hd[o].keyIdx].datap.offset) == o
    {
      ToldHeadLed(m, pages, s, now, p, x, o);
    }
  }

  lemma ToldHeadLed(m: Move, pages: PageMap, s: set<Pgno>, now: PageMap, p: Pgno, x: Pgno, o: nat)
    requires Graph(pages) && MoveOk(m, pages) && Moving(m, pages, s, now)
    requires p in pages && InOld(m, p) && p !in s && pages[p].KeyPage? && p in now
    requires var told := TellPrev(m, TellNext(m, now, now[p].next, p), now[p].prev, p);
      && x in told && !InNew(m, x) && told[x].DataPage? && o in Heads(told[x]) && o in told[x].hd
      && told[x].hd[o].keyPage == p
    ensures var told := TellPrev(m, TellNext(m, now, now[p].next, p), now[p].prev, p);
      var own := OwnLinks(m, now[p], p);
      && own.KeyPage? && told[x].hd[o].keyIdx < |own.ents| && own.ents[told[x].hd[o].keyIdx].datap.first == x
      && LowBits(own.ents[told[x].hd[o].keyIdx].datap.offset) == o
  {
    hide LinksBack, EntriesOk, Heads, TellPrev, TellNext, MidPage, Moving, OwnLinks;
    ToldKeys(m, now, p);
    NowAt(m, pages, s, now, p);
    var q := NowSource(m, pages, s, now, x);
    PageKind(m, s, p, pages[p]);
    if q == p {
      ToldSelf(m, now, p);
      assert false;
    } else {
      ToldIsMid(m, pages, s, now, p, q);
      MidEnts(m, s, s + {p}, q, pages[q]);
      assert q == x && pages[q].DataPage? && HeadsOk(pages, q);
      var i :| 0 <= i < |Heads(pages[q])| && Heads(pages[q])[i] == o;
      assert HeaderBack(pages, q, o);
      OwnSame(m, now[p], p);
    }
  }

  // ---------------------------------------------------------------- the moves, in place

  /** Pointing the entry of one more header. */
  lemma PointStep(pages: PageMap, p: Pgno, q: Pgno, pg: Page, i: nat)
    requires LeadsOut(pages, p, pg) && i < |Heads(pg)| && p != q
    ensures var o := Heads(pg)[i]; var now := PointAll(pages, p, q, SetOf(Heads(pg)[..i]));
      && o in pg.hd && pg.hd[o].keyPage in now && now[pg.hd[o].keyPage].KeyPage?
      && pg.hd[o].keyIdx < |now[pg.hd[o].keyPage].ents|
      && now[pg.hd[o].keyPage].ents[pg.hd[o].keyIdx].datap.first == p
      && now[pg.hd[o].keyPage := PointOne(now[pg.hd[o].keyPage], pg.hd[o].keyIdx, q)]
         == PointAll(pages, p, q, SetOf(Heads(pg)[..i + 1]))
  {
    hide Heads;
    var o := Heads(pg)[i];
    var offs, offs' := SetOf(Heads(pg)[..i]), SetOf(Heads(pg)[..i + 1]);
    assert offs' == offs + {o} by { assert Heads(pg)[..i + 1] == Heads(pg)[..i] + [o]; }
    assert o !in offs;
    assert LeadsTo(pages, p, pg, o);
    var kp, x := pg.hd[o].keyPage, pg.hd[o].keyIdx;
    var now := PointAll(pages, p, q, offs);
    var now' := now[kp := PointOne(now[kp], x, q)];
    var want := PointAll(pages, p, q, offs');
    forall y | y in pages
      ensures now'[y] == want[y]
    {
      if pages[y].KeyPage? {
        forall e | 0 <= e < |pages[y].ents|
          ensures now'[y].ents[e] == want[y].ents[e]
        {
          if pages[y].ents[e].datap.first == p {
            assert LedBy(pg, y, e, LowBits(pages[y].ents[e].datap.offset));
          }
        }
        assert now'[y].ents == want[y].ents;
      }
    }
    assert now'.Keys == want.Keys;
  }

  function PointOne(pg: Page, x: nat, q: Pgno): Page
    requires pg.KeyPage? && x < |pg.ents|
  {
    pg.(ents := pg.ents[x := pg.ents[x].(datap := pg.ents[x].datap.(first := q))])
  }

  lemma PointNone(pages: PageMap, p: Pgno, q: Pgno)
    ensures PointAll(pages, p, q, SetOf([])) == pages
  {
    var r := PointAll(pages, p, q, SetOf([]));
    forall x | x in pages
      ensures r[x] == pages[x]
    {
      if pages[x].KeyPage? {
        assert r[x].ents == pages[x].ents;
      }
    }
  }

  /** Renaming the key page of one more header. */
  lemma RenStep(m: Move, pg: Page, i: nat)
    requires pg.DataPage? && i < |Heads(pg)| && Heads(pg)[i] in pg.hd
    requires forall a, b :: 0 <= a < b < |Heads(pg)| ==> Heads(pg)[a] != Heads(pg)[b]
    ensures var o := Heads(pg)[i]; var now := RenSome(m, pg, SetOf(Heads(pg)[..i]));
      && now.DataPage? && o in now.hd && now.hd[o] == pg.hd[o]
      && now.(hd := now.hd[o := pg.hd[o].(keyPage := Ren(m, pg.hd[o].keyPage))]) == RenSome(m, pg, SetOf(Heads(pg)[..i + 1]))
  {
  }

  lemma RenNone(m: Move, pg: Page)
    ensures RenSome(m, pg, SetOf([])) == pg
  {
  }

  /** The i-th header is found by following `next` i times. */
  lemma {:induction false} WalkNext(hd: map<nat, DataHeader>, off: nat, n: nat, i: nat)
    requires i < |Walk(hd, off, n)|
    ensures i == 0 ==> Walk(hd, off, n)[0] == off
    ensures Walk(hd, off, n)[i] in hd
    ensures i + 1 < |Walk(hd, off, n)| ==> hd[Walk(hd, off, n)[i]].next == Walk(hd, off, n)[i + 1]
    decreases n
  {
    if i > 0 {
      WalkNext(hd, hd[off].next, n - 1, i - 1);
    } else if 1 < |Walk(hd, off, n)| {
      WalkNext(hd, hd[off].next, n - 1, 0);
    }
  }

  /** Leading the header of one more entry to q. */
  lemma HeadStep(m: Move, pages: PageMap, p: Pgno, q: Pgno, pg: Page, i: nat)
    requires LeadsBack(m, pages, p, pg) && i < |pg.ents| && p != q
    ensures var f := pg.ents[i].datap.first; var o := LowBits(pg.ents[i].datap.offset); var now := HeadAll(m, pages, p, q, i);
      if InNew(m, f) then now == HeadAll(m, pages, p, q, i + 1)
      else
        && f in now && now[f].DataPage? && o in now[f].hd && now[f].hd[o].keyPage == p
        && now[f := HeadOne(now[f], o, q)] == HeadAll(m, pages, p, q, i + 1)
  {
    hide Heads;
    var f, o := pg.ents[i].datap.first, LowBits(pg.ents[i].datap.offset);
    var now, want := HeadAll(m, pages, p, q, i), HeadAll(m, pages, p, q, i + 1);
    if !InNew(m, f) {
      assert LedBy(pages[f], p, i, o);
    }
    forall x | x in pages && (InNew(m, f) || x != f)
      ensures now[x] == want[x]
    {
      if !InNew(m, x) && pages[x].DataPage? {
        forall a | a in pages[x].hd
          ensures now[x].hd[a] == want[x].hd[a]
        {
        }
        assert now[x].hd == want[x].hd;
      }
    }
    if InNew(m, f) {
      assert now == want;
    } else {
      HeadStepAt(m, pages, p, q, pg, i);
      assert now[f := HeadOne(now[f], o, q)] == want;
    }
  }

  lemma HeadStepAt(m: Move, pages: PageMap, p: Pgno, q: Pgno, pg: Page, i: nat)
    requires LeadsBack(m, pages, p, pg) && i < |pg.ents| && p != q && !InNew(m, pg.ents[i].datap.first)
    ensures var f := pg.ents[i].datap.first; var o := LowBits(pg.ents[i].datap.offset);
      var now, want := HeadAll(m, pages, p, q, i), HeadAll(m, pages, p, q, i + 1);
      && f in now && now[f].DataPage? && o in now[f].hd && now[f].hd[o].keyPage == p
      && f in want && HeadOne(now[f], o, q) == want[f]
  {
    hide Heads;
    var f, o := pg.ents[i].datap.first, LowBits(pg.ents[i].datap.offset);
    var now, want := HeadAll(m, pages, p, q, i), HeadAll(m, pages, p, q, i + 1);
    assert LedBy(pages[f], p, i, o);
    assert HeadOne(now[f], o, q).hd == want[f].hd;
  }

  function HeadOne(pg: Page, o: nat, q: Pgno): Page
    requires pg.DataPage? && o in pg.hd
  {
    pg.(hd := pg.hd[o := pg.hd[o].(keyPage := q)])
  }

  lemma HeadNone(m: Move, pages: PageMap, p: Pgno, q: Pgno)
    ensures HeadAll(m, pages, p, q, 0) == pages
  {
    var r := HeadAll(m, pages, p, q, 0);
    forall x | x in pages
      ensures r[x] == pages[x]
    {
      if pages[x].DataPage? {
        assert HeadHd(pages[x], p, q, 0) == pages[x].hd;
      }
    }
  }

  // ---------------------------------------------------------------- the ranges

  /** The move on close: the last pages in use go to the bucket pages that the level has not
      reached, as many as there are or as fit. */
  function CloseMove(h: Header): Move
    requires h.ovflPoint + 1 < |h.spares|
  {
    var unused := h.highMask - h.maxBucket;
    var first, last := BucketPage(h, h.maxBucket + 1), BucketPage(h, h.highMask);
    var dlast := h.spares[h.ovflPoint + 1] as int - 1;
    var n := if dlast - last < unused then dlast - last else unused;
    Move(dlast - n + 1, dlast, first)
  }

  function Count(m: Move): int {
    m.oldLast - m.oldFirst + 1
  }

  /** As many pages move as there are unused bucket pages, or all that are behind the bucket pages. */
  predicate MovesAllItCan(h: Header, n: int)
    requires 1 <= h.ovflPoint && h.ovflPoint + 1 < |h.spares|
  {
    && 1 <= n <= h.highMask - h.maxBucket && n <= Top(h) - RegionEnd(h)
    && (n == h.highMask - h.maxBucket || Top(h) - n == RegionEnd(h))
  }

  /** The ranges are in the file, do not meet, and are as long as they can be. */
  lemma CloseMoveOk(h: Header)
    requires LevelsOk(h) && h.spares[h.ovflPoint + 1] != 0 && h.maxBucket < h.highMask
    ensures var m := CloseMove(h);
      && MovesAllItCan(h, Count(m))
      && 0 < m.newFirst && m.newFirst + (m.oldLast - m.oldFirst) < RegionEnd(h) <= m.oldFirst
      && m.oldLast == Top(h) - 1
    ensures BucketPage(h, h.highMask) == BucketPage(h, h.maxBucket + 1) + (h.highMask - h.maxBucket - 1)
    ensures forall p :: InNew(CloseMove(h), p) ==> exists b: nat :: h.maxBucket < b <= h.highMask && BucketPage(h, b) == p
  {
    hide Pow2, Log2, BucketPage;
    HighMaskPage(h);
    PowHalf(h);
    LastLevel(h, h.maxBucket + 1);
    LastLevel(h, h.highMask);
    BucketPageRange(h, h.maxBucket + 1);
    var m := CloseMove(h);
    forall p | InNew(m, p)
      ensures exists b: nat :: h.maxBucket < b <= h.highMask && BucketPage(h, b) == p
    {
      var b := h.maxBucket + 1 + (p - m.newFirst);
      LastLevel(h, b);
    }
  }

  lemma PowHalf(h: Header)
    requires MasksOk(h)
    ensures h.highMask == 2 * h.lowMask + 1
  {
  }

  /** The buckets above the low mask are in order on the last level. */
  lemma LastLevel(h: Header, b: nat)
    requires LevelsOk(h) && h.lowMask < b <= h.highMask
    ensures BucketPage(h, b) == h.spares[h.ovflPoint] + (b - (h.lowMask + 1))
  {
    hide Log2;
    Log2Unique(b + 1, h.ovflPoint);
  }

  lemma LevelBounds(h: Header)
    requires LevelsOk(h)
    ensures 1 <= h.ovflPoint && h.ovflPoint + 1 < |h.spares| && h.maxBucket <= h.highMask
  {
  }

  lemma NoneMoving(m: Move, pages: PageMap)
    requires Graph(pages)
    ensures Moving(m, pages, {}, pages)
  {
    hide HeadsOk, EntriesOk, LinksBack;
    forall p | p in pages
      ensures PageNow(m, {}, p, pages[p]) == pages[p]
    {
      PageSame(m, p, pages[p]);
    }
  }

  lemma PageSame(m: Move, p: Pgno, pg: Page)
    requires pg.curr == p
    ensures PageNow(m, {}, p, pg) == pg
  {
  }

  function FileUpTo(pages: PageMap, last: int): PageMap {
    map p | p in pages && p <= last :: pages[p]
  }

  /** The move on open: the pages that the last close had moved go back. */
  function OpenMove(h: Header): Move
    requires h.ovflPoint + 1 < |h.spares|
  {
    var first := BucketPage(h, h.maxBucket + 1);
    Move(first, first + h.numMoved - 1, h.spares[h.ovflPoint + 1] - 1 - h.numMoved + 1)
  }

  /** The move on open undoes the move on close. */
  lemma OpenUndoesClose(h: Header)
    requires LevelsOk(h) && h.spares[h.ovflPoint + 1] != 0 && h.maxBucket < h.highMask
    ensures h.ovflPoint + 1 < |h.spares| && Count(CloseMove(h)) >= 1
    ensures OpenMove(h.(numMoved := Count(CloseMove(h)))) == Undo(CloseMove(h))
  {
    hide BucketPage;
    CloseMoveOk(h);
    SameBucketPage(h, Count(CloseMove(h)), h.maxBucket + 1);
  }

  lemma SameBucketPage(h: Header, n: nat, b: nat)
    ensures BucketPage(h.(numMoved := n), b) == BucketPage(h, b)
  {
  }

  // ---------------------------------------------------------------- a pass, as a function

  function Told(m: Move, now: PageMap, p: Pgno): PageMap
    requires p in now
  {
    TellPrev(m, TellNext(m, now, now[p].next, p), now[p].prev, p)
  }

  /** What moving page p relies on: its next page is there, and its references lead somewhere
      and back. */
  ghost predicate Ready(m: Move, now: PageMap, p: Pgno) {
    && p in now && 0 < m.oldFirst && Shift(m, p) != p
    && (now[p].next != INVALID_PGNO && !InOld(m, now[p].next) ==> now[p].next in now)
    && (now[p].DataPage? ==> LeadsOut(Told(m, now, p), p, OwnLinks(m, now[p], p)))
    && (now[p].KeyPage? ==> LeadsBack(m, Told(m, now, p), p, OwnLinks(m, now[p], p)))
  }

  predicate Turn(now: PageMap, p: Pgno, rank: nat) {
    p in now && Rank(now[p]) == rank
  }

  /** The pages after those of one kind below `lim` were moved, in order. */
  function MoveKind(m: Move, pages: PageMap, rank: nat, lim: Pgno): PageMap
    decreases lim - m.oldFirst
  {
    if lim <= m.oldFirst then pages else
      var now := MoveKind(m, pages, rank, lim - 1);
      if Turn(now, lim - 1, rank) then MoveOne(m, now, lim - 1) else now
  }

  ghost predicate KindReady(m: Move, pages: PageMap, rank: nat) {
    forall p :: InOld(m, p) && Turn(MoveKind(m, pages, rank, p), p, rank) ==> Ready(m, MoveKind(m, pages, rank, p), p)
  }

  /** A data page without a next was among those moved. */
  predicate LastMoved(m: Move, pages: PageMap, lim: Pgno)
    decreases lim - m.oldFirst
  {
    lim > m.oldFirst && (LastMoved(m, pages, lim - 1) ||
      var now := MoveKind(m, pages, 0, lim - 1); Turn(now, lim - 1, 0) && now[lim - 1].next == INVALID_PGNO)
  }

  function DataMoved(m: Move, pages: PageMap): PageMap {
    MoveKind(m, pages, 0, m.oldLast + 1)
  }

  function KeysMoved(m: Move, pages: PageMap): PageMap {
    MoveKind(m, DataMoved(m, pages), 1, m.oldLast + 1)
  }

  /** Data pages, then bucket pages, then free-list pages are moved. */
  function MovedAll(m: Move, pages: PageMap): PageMap {
    MoveKind(m, KeysMoved(m, pages), 2, m.oldLast + 1)
  }

  ghost predicate Movable(m: Move, pages: PageMap) {
    KindReady(m, pages, 0) && KindReady(m, DataMoved(m, pages), 1) && KindReady(m, KeysMoved(m, pages), 2)
  }

  lemma ReadyInGraph(m: Move, pages: PageMap, s: set<Pgno>, now: PageMap, p: Pgno)
    requires Graph(pages) && MoveOk(m, pages) && Moving(m, pages, s, now)
    requires InOld(m, p) && p in pages && p !in s && Rank(pages[p]) < LIVE
    ensures Ready(m, now, p) && now[p].next == pages[p].next
  {
    hide Graph, Moving, LeadsOut, LeadsBack, Heads, PageNow;
    NowAt(m, pages, s, now, p);
    PageKind(m, s, p, pages[p]);
    NowOwnLinks(m, s, p, pages[p]);
    NeighboursThere(m, pages, s, now, p);
    if pages[p].DataPage? {
      ToldLeadsOut(m, pages, s, now, p);
    } else if pages[p].KeyPage? {
      ToldLeadsBack(m, pages, s, now, p);
    }
  }

  /** A pass over a graph keeps the picture, and every page is ready in its turn. */
  lemma {:induction false} KindMoves(m: Move, pages: PageMap, s: set<Pgno>, now: PageMap, rank: nat, lim: Pgno)
    requires rank < LIVE && Graph(pages) && MoveOk(m, pages) && Moving(m, pages, s, now)
    requires forall p :: p in s ==> p in pages && Rank(pages[p]) != rank
    requires m.oldFirst <= lim <= m.oldLast + 1
    ensures Moving(m, pages, s + KindBelow(m, pages, rank, lim), MoveKind(m, now, rank, lim))
    ensures forall p :: m.oldFirst <= p < lim && Turn(MoveKind(m, now, rank, p), p, rank) ==> Ready(m, MoveKind(m, now, rank, p), p)
    ensures rank == 0 ==> (LastMoved(m, now, lim) <==> exists p :: p in KindBelow(m, pages, 0, lim) && pages[p].next == INVALID_PGNO)
    decreases lim - m.oldFirst
  {
    hide Graph, Moving, MoveOne, Ready;
    if lim == m.oldFirst {
      KindNone(m, pages, rank, s);
    } else {
      var p := lim - 1;
      KindMoves(m, pages, s, now, rank, p);
      KindNext(m, pages, rank, p);
      var t, mid := s + KindBelow(m, pages, rank, p), MoveKind(m, now, rank, p);
      NowHere(m, pages, t, mid, p);
      if p in pages && Rank(pages[p]) == rank {
        ReadyInGraph(m, pages, t, mid, p);
        MoveOneKeeps(m, pages, t, mid, p);
        assert t + {p} == s + KindBelow(m, pages, rank, lim);
      } else {
        assert t == s + KindBelow(m, pages, rank, lim);
      }
    }
  }

  /** The three passes rename a graph. */
  lemma GraphMoves(m: Move, pages: PageMap)
    requires Graph(pages) && MoveOk(m, pages)
    ensures Movable(m, pages) && IsRenamed(m, pages, MovedAll(m, pages))
    ensures LastMoved(m, pages, m.oldLast + 1) <==>
      exists p :: p in KindBelow(m, pages, 0, m.oldLast + 1) && pages[p].next == INVALID_PGNO
    ensures Moving(m, pages, KindBelow(m, pages, 0, m.oldLast + 1) + KindBelow(m, pages, 1, m.oldLast + 1), KeysMoved(m, pages))
    ensures Moving(m, pages, KindBelow(m, pages, 0, m.oldLast + 1), DataMoved(m, pages))
  {
    hide Graph, Moving, IsRenamed, KindBelow, MoveOk, Ready, MoveKind, Turn;
    var end := m.oldLast + 1;
    EndBound(m, pages);
    var d, k, f := KindBelow(m, pages, 0, end), KindBelow(m, pages, 1, end), KindBelow(m, pages, 2, end);
    NoneMoving(m, pages);
    KindsAre(m, pages, 0);
    KindsAre(m, pages, 1);
    KindsAre(m, pages, 2);
    KindMoves(m, pages, {}, pages, 0, end);
    assert {} + d == d;
    KindMoves(m, pages, d, DataMoved(m, pages), 1, end);
    KindMoves(m, pages, d + k, KeysMoved(m, pages), 2, end);
    AllMoved(m, pages, d + k + f, MovedAll(m, pages));
  }

  lemma EndBound(m: Move, pages: PageMap)
    requires MoveOk(m, pages)
    ensures m.oldFirst <= m.oldLast + 1
  {
  }

  lemma NowOwnLinks(m: Move, s: set<Pgno>, p: Pgno, pg: Page)
    requires p !in s && InOld(m, p)
    ensures PageNow(m, s, p, pg).next == pg.next && PageNow(m, s, p, pg).prev == pg.prev
  {
  }

  lemma NeighboursThere(m: Move, pages0: PageMap, s: set<Pgno>, now: PageMap, p: Pgno)
    requires Graph(pages0) && MoveOk(m, pages0) && Moving(m, pages0, s, now) && p in pages0
    ensures pages0[p].next != INVALID_PGNO && !InOld(m, pages0[p].next) ==> pages0[p].next in now
    ensures 0 < m.oldFirst && (InOld(m, p) ==> Shift(m, p) != p)
  {
  }

  lemma OwnByParts(m: Move, pg: Page, p: Pgno)
    requires 0 < m.oldFirst
    ensures OwnLinks(m, pg, p) ==
      SetCurr(SetPrev(if InOld(m, pg.next) then SetNext(pg, Ren(m, pg.next)) else pg,
                      if InOld(m, pg.prev) then Ren(m, pg.prev) else pg.prev), Shift(m, p))
    ensures forall n, b :: SetPrev(SetNext(pg, n), b).next == n && SetPrev(pg, pg.prev) == pg && SetNext(pg, n).prev == pg.prev
  {
  }

  lemma KindsAre(m: Move, pages0: PageMap, r: nat)
    ensures forall p :: p in KindBelow(m, pages0, r, m.oldLast + 1) <==> p in pages0 && InOld(m, p) && Rank(pages0[p]) == r
  {
  }

  ghost predicate LastData(pages: PageMap, p: Pgno) {
    p in pages && pages[p].DataPage? && pages[p].next == INVALID_PGNO
  }

  /** A store file: header and pages. */
  class PageFile {
    var hdr: Header
    var currDpage: Pgno
    var pages: PageMap

    constructor (hdr: Header, pages: PageMap)
      ensures this.hdr == hdr && this.pages == pages && currDpage == INVALID_PGNO
    {
      this.hdr, this.pages, currDpage := hdr, pages, INVALID_PGNO;
    }

    /** Points the key entries of the data on a moved data page to its new place, and renames
        the key pages in its headers. */
    method UpdateKeyPagesContent(pagep: Page, oldpage: Pgno, newpage: Pgno, m: Move) returns (r: Page)
      requires LeadsOut(pages, oldpage, pagep) && oldpage != newpage
      modifies `pages
      ensures pages == PointAll(old(pages), oldpage, newpage, SetOf(Heads(pagep)))
      ensures r == RenSome(m, pagep, SetOf(Heads(pagep)))
    {
      hide PointAll, RenSome, Heads;
      ghost var heads := Heads(pagep);
      r := pagep;
      var next := pagep.first;
      var i := 0;
      PointNone(pages, oldpage, newpage);
      RenNone(m, pagep);
      HeadsFollow(pagep, 0);
      assert heads[..0] == [];
      while i < pagep.num
        invariant 0 <= i <= pagep.num == |heads|
        invariant pages == PointAll(old(pages), oldpage, newpage, SetOf(heads[..i]))
        invariant r == RenSome(m, pagep, SetOf(heads[..i]))
        invariant i < pagep.num ==> next == heads[i]
      {
        PointStep(old(pages), oldpage, newpage, pagep, i);
        RenStep(m, pagep, i);
        HeadsFollow(pagep, i);
        var header := r.hd[next];
        assert pages[header.keyPage].ents[header.keyIdx].datap.first == oldpage;
        pages := pages[header.keyPage := PointOne(pages[header.keyPage], header.keyIdx, newpage)];
        r := r.(hd := r.hd[next := header.(keyPage := Ren(m, header.keyPage))]);
        next := header.next;
        i := i + 1;
      }
      assert heads[..i] == heads;
    }

    lemma HeadsFollow(pg: Page, i: nat)
      requires pg.DataPage? && i <= |Heads(pg)|
      ensures i == 0 < |Heads(pg)| ==> Heads(pg)[0] == pg.first
      ensures i < |Heads(pg)| ==> Heads(pg)[i] in pg.hd
      ensures i + 1 < |Heads(pg)| ==> pg.hd[Heads(pg)[i]].next == Heads(pg)[i + 1]
    {
      if i < |Heads(pg)| {
        WalkNext(pg.hd, pg.first, pg.num, i);
      }
    }

    /** Leads the headers of the data of a moved key page to its new place, unless their page
        was moved before. */
    method UpdateDataPagesContent(pagep: Page, oldpage: Pgno, newpage: Pgno, m: Move)
      requires LeadsBack(m, pages, oldpage, pagep) && oldpage != newpage
      modifies `pages
      ensures pages == HeadAll(m, old(pages), oldpage, newpage, |pagep.ents|)
    {
      hide HeadAll;
      var i := 0;
      HeadNone(m, pages, oldpage, newpage);
      while i < |pagep.ents|
        invariant 0 <= i <= |pagep.ents|
        invariant pages == HeadAll(m, old(pages), oldpage, newpage, i)
      {
        HeadStep(m, old(pages), oldpage, newpage, pagep, i);
        var datap := pagep.ents[i].datap;
        if !InNew(m, datap.first) {
          var o := LowBits(datap.offset);
          assert pages[datap.first].hd[o].keyPage == oldpage;
          pages := pages[datap.first := HeadOne(pages[datap.first], o, newpage)];
        }
        i := i + 1;
      }
    }

    /** Moves one page of the range and tells every page that refers to it. A page in front of it
        that is not in the file counts for nothing. */
    method MovePage(m: Move, page: Pgno) returns (last: bool)
      requires Ready(m, pages, page) && InOld(m, page)
      modifies `pages
      ensures pages == MoveOne(m, old(pages), page)
      ensures last <==> old(pages)[page].next == INVALID_PGNO
    {
      hide PointAll, HeadAll, RenSome, LeadsOut, LeadsBack, Heads;
      var rpage := Shift(m, page);
      var pagep := pages[page];
      ghost var own, told := OwnLinks(m, pagep, page), Told(m, pages, page);
      var nextp, prevp := pagep.next, pagep.prev;
      last := nextp == INVALID_PGNO;
      if nextp != INVALID_PGNO {
        if !InOld(m, nextp) {
          pages := pages[nextp := SetPrev(pages[nextp], rpage)];
        } else {
          pagep := SetNext(pagep, Ren(m, nextp));
        }
      }
      if prevp != INVALID_PGNO {
        if !InOld(m, prevp) {
          if prevp in pages {
            pages := pages[prevp := SetNext(pages[prevp], rpage)];
          }
        } else {
          pagep := SetPrev(pagep, Ren(m, prevp));
        }
      }
      pagep := SetCurr(pagep, rpage);
      OwnByParts(m, old(pages)[page], page);
      assert pagep == own && pages == told;
      if pagep.DataPage? {
        pagep := UpdateKeyPagesContent(pagep, page, rpage, m);
        OwnSame(m, old(pages)[page], page);
      } else if pagep.KeyPage? {
        UpdateDataPagesContent(pagep, page, rpage, m);
        OwnSame(m, old(pages)[page], page);
      }
      pages := (pages - {page})[rpage := pagep];
      assert pages == MoveOne(m, old(pages), page);
    }

    /** Moves the pages of one kind; `dlast` is the new place of a data page without a next. */
    method MovePages(rank: nat, m: Move) returns (dlast: Pgno)
      requires KindReady(m, pages, rank) && 0 < m.newFirst && m.oldFirst <= m.oldLast + 1
      modifies `pages
      ensures pages == MoveKind(m, old(pages), rank, m.oldLast + 1)
      ensures dlast == INVALID_PGNO <==> !(rank == 0 && LastMoved(m, old(pages), m.oldLast + 1))
    {
      hide MoveOne, Ready;
      dlast := INVALID_PGNO;
      var page, rpage := m.oldFirst, m.newFirst;
      while page <= m.oldLast
        invariant m.oldFirst <= page <= m.oldLast + 1 && rpage == Shift(m, page)
        invariant pages == MoveKind(m, old(pages), rank, page)
        invariant dlast == INVALID_PGNO <==> !(rank == 0 && LastMoved(m, old(pages), page))
      {
        if page in pages && Rank(pages[page]) == rank {
          assert Turn(MoveKind(m, old(pages), rank, page), page, rank);
          var last := MovePage(m, page);
          if last && rank == 0 {
            dlast := rpage;
          }
        }
        rpage := rpage + 1;
        page := page + 1;
      }
    }

    /** Moves data pages, then bucket pages, then free-list pages. */
    method MoveAll(m: Move) returns (lastdpage: Pgno)
      requires Movable(m, pages) && 0 < m.newFirst && m.oldFirst <= m.oldLast + 1
      modifies `pages
      ensures pages == MovedAll(m, old(pages))
      ensures lastdpage == INVALID_PGNO <==> !LastMoved(m, old(pages), m.oldLast + 1)
    {
      hide KindReady, MoveKind;
      lastdpage := MovePages(0, m);
      var l1 := MovePages(1, m);
      var l2 := MovePages(2, m);
    }

    /** Fills the unused bucket pages of the level from the end of the file. */
    method RearrangeOnClose()
      requires LevelsOk(hdr) && hdr.numMoved == 0
      requires hdr.maxBucket < hdr.highMask ==> hdr.ovflPoint + 1 < |hdr.spares| && hdr.spares[hdr.ovflPoint + 1] != 0 && Movable(CloseMove(hdr), pages)
      modifies this
      ensures old(hdr).maxBucket == old(hdr).highMask ==> hdr == old(hdr) && pages == old(pages)
      ensures old(hdr).maxBucket < old(hdr).highMask ==>
        && old(hdr).ovflPoint + 1 < |old(hdr).spares| && Count(CloseMove(old(hdr))) >= 1
        && hdr == old(hdr).(numMoved := Count(CloseMove(old(hdr))))
        && pages == MovedAll(CloseMove(old(hdr)), old(pages))
        && 1 <= old(hdr).ovflPoint && MovesAllItCan(old(hdr), hdr.numMoved)
    {
      hide Movable, MovedAll, LevelsOk, BucketPage;
      LevelBounds(hdr);
      var numUnused := hdr.highMask - hdr.maxBucket;
      if numUnused == 0 {
        return;
      }
      CloseMoveOk(hdr);
      var funused := BucketPage(hdr, hdr.maxBucket + 1);
      var lunused := BucketPage(hdr, hdr.highMask);
      var dlast := hdr.spares[hdr.ovflPoint + 1] - 1;
      assert dlast > lunused by { HighMaskPage(hdr); }
      var numPages := dlast - lunused;
      var numPageMoved := if numPages < numUnused then numPages else numUnused;
      var dfirst := dlast - numPageMoved + 1;
      var lastdpage := MoveAll(Move(dfirst, dlast, funused));
      hdr := hdr.(numMoved := numPageMoved);
    }

    /** Cuts the file after the last page that was not moved. */
    method ReduceFilesize()
      requires hdr.ovflPoint + 1 < |hdr.spares|
      modifies `pages
      ensures pages == if hdr.numMoved > 0 then FileUpTo(old(pages), hdr.spares[hdr.ovflPoint + 1] - 1 - hdr.numMoved) else old(pages)
    {
      var last := hdr.spares[hdr.ovflPoint + 1] as int - 1;
      last := last - hdr.numMoved;
      if hdr.numMoved > 0 {
        pages := FileUpTo(pages, last);
      }
    }

    /** The last data page of a list, searched downwards. */
    method LastDataPage(start: Pgno) returns (ret: Pgno)
      requires exists p :: 0 <= p <= start && LastData(pages, p)
      ensures LastData(pages, ret) && 0 <= ret <= start && forall p :: ret < p <= start ==> !LastData(pages, p)
    {
      var page := start;
      ret := INVALID_PGNO;
      while ret == INVALID_PGNO
        invariant ret == INVALID_PGNO ==> exists p :: 0 <= p <= page && LastData(pages, p)
        invariant page <= start && forall p :: (if ret == INVALID_PGNO then page else ret) < p <= start ==> !LastData(pages, p)
        invariant ret != INVALID_PGNO ==> LastData(pages, ret) && 0 <= ret <= start
        decreases ret == INVALID_PGNO, page
      {
        if page in pages && pages[page].DataPage? && pages[page].next == INVALID_PGNO {
          ret := page;
        }
        page := page - 1;
      }
    }

    /** Moves the pages back that the last close had moved. The last of the data pages becomes
        current here only if none of them was moved. */
    method RearrangeOnOpen()
      requires LevelsOk(hdr) && hdr.ovflPoint + 1 < |hdr.spares|
      requires hdr.numMoved > 0 && hdr.maxBucket < hdr.highMask ==>
        var m := OpenMove(hdr);
        && Movable(m, pages) && 0 < m.newFirst
        && (!LastMoved(m, pages, m.oldLast + 1) ==> exists p :: 0 <= p <= m.newFirst - 1 && LastData(MovedAll(m, pages), p))
      modifies this
      ensures old(hdr).numMoved == 0 || old(hdr).maxBucket == old(hdr).highMask ==>
        hdr == old(hdr) && pages == old(pages) && currDpage == old(currDpage)
      ensures old(hdr).numMoved > 0 && old(hdr).maxBucket < old(hdr).highMask ==>
        var m := OpenMove(old(hdr)); var now := MovedAll(m, old(pages));
        && hdr == old(hdr).(numMoved := 0) && pages == CutRange(m, now)
        && if LastMoved(m, old(pages), m.oldLast + 1) then currDpage == old(currDpage)
           else LastData(now, currDpage) && currDpage < m.newFirst && forall p :: currDpage < p < m.newFirst ==> !LastData(now, p)
    {
      hide Movable, MovedAll, LastMoved, LevelsOk, BucketPage;
      LevelBounds(hdr);
      if hdr.numMoved == 0 {
        return;
      }
      if hdr.maxBucket == hdr.highMask {
        return;
      }
      var oldfirst := BucketPage(hdr, hdr.maxBucket + 1);
      var numPageMoved := hdr.numMoved;
      var oldlast := oldfirst + numPageMoved - 1;
      var newlast := hdr.spares[hdr.ovflPoint + 1] as int - 1;
      var newfirst := newlast - numPageMoved + 1;
      var m := Move(oldfirst, oldlast, newfirst);
      var lastdpage := MoveAll(m);
      if lastdpage == INVALID_PGNO {
        currDpage := LastDataPage(newfirst - 1);
      }
      hdr := hdr.(numMoved := 0);
      pages := CutRange(m, pages);
    }
  }

  /** The pages of one kind in the range, below `lim`. */
  function KindBelow(m: Move, pages: PageMap, rank: nat, lim: Pgno): set<Pgno> {
    set p | p in pages && InOld(m, p) && Rank(pages[p]) == rank && p < lim
  }

  lemma KindNone(m: Move, pages: PageMap, rank: nat, s: set<Pgno>)
    ensures s + KindBelow(m, pages, rank, m.oldFirst) == s
    ensures KindBelow(m, pages, rank, m.oldFirst) == {}
  {
  }

  lemma KindNext(m: Move, pages: PageMap, rank: nat, p: Pgno)
    requires InOld(m, p)
    ensures KindBelow(m, pages, rank, p + 1) ==
      KindBelow(m, pages, rank, p) + (if p in pages && Rank(pages[p]) == rank then {p} else {})
  {
  }

  /** A page of the range that has not moved. */
  lemma NowHere(m: Move, pages: PageMap, s: set<Pgno>, now: PageMap, p: Pgno)
    requires MoveOk(m, pages) && Moving(m, pages, s, now) && InOld(m, p)
    ensures p in now <==> p in pages && p !in s
    ensures p in now ==> Rank(now[p]) == Rank(pages[p])
  {
  }
}
