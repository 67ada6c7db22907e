/** What moving pages does when the first pages of free lists remember harmful pages: which links
    are overwritten, with what, and that opening the file again does not mend them. */
module SpoiledLinks {
  import opened Pages
  import opened Lengths
  import opened Relocate
  import opened StaleHeads

  /** The next links that some pages hold instead of their own. */
  type Nexts = map<Pgno, Pgno>

  /** The pages with these links. */
  function Bent(g: Nexts, pages: PageMap): PageMap {
    map p | p in pages :: if p in g then SetNext(pages[p], g[p]) else pages[p]
  }

  /** The last page of the range, below `lim`, that remembers q. */
  function LastHead(m: Move, h: Prevs, q: Pgno, lim: Pgno): Pgno
    decreases lim - m.oldFirst
  {
    if lim <= m.oldFirst then INVALID_PGNO
    else if lim - 1 in h && h[lim - 1] == q then lim - 1
    else LastHead(m, h, q, lim - 1)
  }

  lemma {:induction false} LastHeadIs(m: Move, h: Prevs, q: Pgno, lim: Pgno)
    requires 0 < m.oldFirst
    ensures var w := LastHead(m, h, q, lim);
      && (w != INVALID_PGNO ==> m.oldFirst <= w < lim && w in h && h[w] == q)
      && (forall p :: m.oldFirst <= p < lim && p in h && h[p] == q ==> w != INVALID_PGNO && p <= w)
    decreases lim - m.oldFirst
  {
    if lim > m.oldFirst {
      LastHeadIs(m, h, q, lim - 1);
    }
  }

  /** The page whose number overwrites the next link of q, if one does. */
  function Culprit(m: Move, pages: PageMap, h: Prevs, q: Pgno): Pgno {
    var w := LastHead(m, h, q, m.oldLast + 1);
    if q in pages && !InOld(m, q) && w != INVALID_PGNO && !HarmlessAt(m, pages, w, q) then w else INVALID_PGNO
  }

  /** The pages whose next link is overwritten, each with the page that its link leads to then. */
  function Spoiled(m: Move, pages: PageMap, h: Prevs): Nexts {
    map q | q in pages && Culprit(m, pages, h, q) != INVALID_PGNO :: Culprit(m, pages, h, q)
  }

  /** The same links after the move. */
  function Renamed(m: Move, g: Nexts): Nexts {
    map q | q in g :: Ren(m, g[q])
  }

  // ---------------------------------------------------------------- one move

  /** If any link that names q is harmful, the last one is. */
  lemma LastHarms(m: Move, pages: PageMap, h: Prevs, q: Pgno)
    requires 0 < m.oldFirst && q in pages && !InOld(m, q)
    ensures Culprit(m, pages, h, q) == INVALID_PGNO <==> Spared(m, pages, h, q)
  {
    LastHeadIs(m, h, q, m.oldLast + 1);
  }

  /** The next page of a page that stays: that of a faultless move, or the culprit. */
  lemma NextIs(m: Move, pages: PageMap, h: Prevs, s: set<Pgno>, now: PageMap, q: Pgno)
    requires Half(m, pages, h, s, now) && q in pages && !InOld(m, q)
    ensures q in now && q in Dirty(h, now)
    ensures var end, w := m.oldLast + 1, Culprit(m, pages, h, q);
      ToldPage2(m, Dirty(h, now), q, end).next == if w == INVALID_PGNO then ToldPage2(m, now, q, end).next else Shift(m, w)
  {
    hide HeadsOk, EntriesOk, Moving, PageNow, Half;
    var end, d := m.oldLast + 1, Dirty(h, now);
    HalfStays(m, pages, h, s, now, q);
    HalfRange(m, pages, h, s, now, q);
    LastHarms(m, pages, h, q);
    LastHeadIs(m, h, q, end);
    var w := Culprit(m, pages, h, q);
    if w == INVALID_PGNO {
      NextCompared(m, pages, h, s, now, q);
    } else {
      NamedIs(m, d, q, end);
      var n := NamedBy(m, d, q, end);
      NamesAre(m, pages, h, s, now, w, q);
      NamesAre(m, pages, h, s, now, n, q);
      assert n == w;
      ToldNext(m, d, q, end);
    }
  }

  lemma ToldNext(m: Move, now: PageMap, q: Pgno, lim: Pgno)
    requires q in now
    ensures var n := NamedBy(m, now, q, lim);
      ToldPage2(m, now, q, lim).next == if n == INVALID_PGNO then now[q].next else Shift(m, n)
  {
    PrevTwice();
  }

  /** The move of a file whose free lists remember pages is the faultless move but for these links
      and for the overwritten ones. */
  lemma MoveSpoils(m: Move, pages: PageMap, h: Prevs)
    requires DirtOk(m, pages, h)
    ensures MovedAll(m, Dirty(h, pages)) == Bent(Renamed(m, Spoiled(m, pages, h)), Dirty(NewPrevs(m, h), MovedAll(m, pages)))
    ensures Harmless(m, pages, h) <==> Spoiled(m, pages, h) == map[]
  {
    hide DirtOk, Half, Movable, MovedAll, FreePassed, Dirty, IsRenamed, RenPage, Spared, Harmless, NewPrevs, KeysMoved, Culprit, SetNext, SetPrev;
    var s := DirtMovable(m, pages, h);
    DirtGraph(m, pages, h);
    GraphMoves(m, pages);
    var f0, f := MovedAll(m, pages), MovedAll(m, Dirty(h, pages));
    var g, d := Renamed(m, Spoiled(m, pages, h)), Dirty(NewPrevs(m, h), f0);
    SameKeys(m, h, KeysMoved(m, pages), f0, f);
    DirtyKeys(NewPrevs(m, h), f0);
    forall x | x in f0
      ensures f[x] == Bent(g, d)[x]
    {
      var q := PlaceSource(m, pages, f0, x);
      PageCompared(m, pages, h, s, KeysMoved(m, pages), f0, f, q);
      DirtyAt(m, pages, h, f0, q);
      PageSpoils(m, pages, h, s, KeysMoved(m, pages), f0, f, q);
      PrevTwice();
    }
    NoneSpoiled(m, pages, h);
  }

  lemma NoneSpoiled(m: Move, pages: PageMap, h: Prevs)
    requires Graph(pages) && MoveOk(m, pages)
    ensures Harmless(m, pages, h) <==> Spoiled(m, pages, h) == map[]
  {
    hide Spared, Harmless, Culprit, LinksBack, HeadsOk, EntriesOk;
    HarmlessSpares(m, pages, h);
    forall q | q in pages && !InOld(m, q)
      ensures Culprit(m, pages, h, q) == INVALID_PGNO <==> Spared(m, pages, h, q)
    {
      LastHarms(m, pages, h, q);
    }
    forall q | q in pages && InOld(m, q)
      ensures Culprit(m, pages, h, q) == INVALID_PGNO
    {
      StaysOnly(m, pages, h, q);
    }
    if Spoiled(m, pages, h) == map[] {
      forall q | q in pages
        ensures Culprit(m, pages, h, q) == INVALID_PGNO
      {
        assert q !in Spoiled(m, pages, h);
      }
    }
  }

  lemma StaysOnly(m: Move, pages: PageMap, h: Prevs, q: Pgno)
    ensures Culprit(m, pages, h, q) != INVALID_PGNO ==> q in pages && !InOld(m, q)
  {
  }

  /** The next link of a page where it ends up. */
  lemma PageSpoils(m: Move, pages: PageMap, h: Prevs, s: set<Pgno>, now: PageMap, f0: PageMap, f: PageMap, q: Pgno)
    requires Half(m, pages, h, s, now) && q in pages
    requires FreePassed(m, now, m.oldLast + 1, f0) && FreePassed(m, Dirty(h, now), m.oldLast + 1, f)
    ensures var l, g := Place(m, q, pages[q]), Renamed(m, Spoiled(m, pages, h));
      l in f && l in f0 && f[l].next == if l in g then g[l] else f0[l].next
  {
    hide Half, FreePassed, Dirty, Culprit, ToldPage2, Spared;
    PageCompared(m, pages, h, s, now, f0, f, q);
    HalfRange(m, pages, h, s, now, q);
    if InOld(m, q) {
      NotSpoiled(m, pages, h, s, now, q);
    } else {
      NextIs(m, pages, h, s, now, q);
      StaysTold(m, now, q, f0);
      StaysTold(m, Dirty(h, now), q, f);
      CulpritRange(m, pages, h, q);
    }
  }

  lemma CulpritRange(m: Move, pages: PageMap, h: Prevs, q: Pgno)
    requires 0 < m.oldFirst
    ensures var w := Culprit(m, pages, h, q);
      w != INVALID_PGNO ==> q in pages && !InOld(m, q) && InOld(m, w) && w in h && h[w] == q && !HarmlessAt(m, pages, w, q)
  {
    LastHeadIs(m, h, q, m.oldLast + 1);
  }

  /** A page of the range is not spoiled, before or after it moves. */
  lemma NotSpoiled(m: Move, pages: PageMap, h: Prevs, s: set<Pgno>, now: PageMap, q: Pgno)
    requires Half(m, pages, h, s, now) && q in pages && InOld(m, q)
    ensures Place(m, q, pages[q]) !in Spoiled(m, pages, h)
  {
    hide HeadsOk, EntriesOk, LinksBack, Moving, Culprit;
    StaysOnly(m, pages, h, q);
    StaysOnly(m, pages, h, Shift(m, q));
  }

  // ---------------------------------------------------------------- moving pages with wrong next links

  /** The same pages, but for the next links of those of g. */
  ghost predicate SameBut(g: set<Pgno>, a: PageMap, b: PageMap) {
    && a.Keys == b.Keys
    && forall p :: p in b ==> a[p] == SetNext(b[p], a[p].next) && (p !in g ==> a[p] == b[p])
  }

  lemma BentIsSame(g: Nexts, pages: PageMap)
    ensures SameBut(g.Keys, Bent(g, pages), pages)
  {
    PrevTwice();
  }

  lemma SameKinds(g: set<Pgno>, a: PageMap, b: PageMap)
    requires SameBut(g, a, b)
    ensures forall p :: p in b ==> Rank(a[p]) == Rank(b[p])
    ensures forall p, r :: Turn(a, p, r) <==> Turn(b, p, r)
  {
  }

  lemma SameTold(m: Move, g: set<Pgno>, a: PageMap, b: PageMap, p: Pgno)
    requires SameBut(g, a, b) && p in b && p !in g
    ensures p in a && a[p] == b[p] && SameBut(g, Told(m, a, p), Told(m, b, p))
  {
    LinksCommute();
    PrevTwice();
    var n, q := b[p].next, b[p].prev;
    assert SameBut(g, TellNext(m, a, n, p), TellNext(m, b, n, p));
    var a', b' := TellNext(m, a, n, p), TellNext(m, b, n, p);
    assert SameBut(g, TellPrev(m, a', q, p), TellPrev(m, b', q, p));
  }

  lemma NextKeepsPoint(pg: Page, n: Pgno, p: Pgno, q: Pgno, offs: set<nat>)
    ensures PointPage(SetNext(pg, n), p, q, offs) == SetNext(PointPage(pg, p, q, offs), n)
  {
  }

  lemma NextKeepsHead(pg: Page, n: Pgno, p: Pgno, q: Pgno, upto: nat)
    ensures HeadPage(SetNext(pg, n), p, q, upto) == SetNext(HeadPage(pg, p, q, upto), n)
  {
  }

  lemma SamePoint(g: set<Pgno>, a: PageMap, b: PageMap, p: Pgno, q: Pgno, offs: set<nat>)
    requires SameBut(g, a, b)
    ensures SameBut(g, PointAll(a, p, q, offs), PointAll(b, p, q, offs))
  {
    hide PointPage;
    forall x | x in b
      ensures PointPage(a[x], p, q, offs) == SetNext(PointPage(b[x], p, q, offs), PointPage(a[x], p, q, offs).next)
    {
      NextKeepsPoint(b[x], a[x].next, p, q, offs);
      PrevTwice();
    }
  }

  lemma SameHead(m: Move, g: set<Pgno>, a: PageMap, b: PageMap, p: Pgno, q: Pgno, upto: nat)
    requires SameBut(g, a, b)
    ensures SameBut(g, HeadAll(m, a, p, q, upto), HeadAll(m, b, p, q, upto))
  {
    hide HeadPage;
    forall x | x in b
      ensures HeadPage(a[x], p, q, upto) == SetNext(HeadPage(b[x], p, q, upto), HeadPage(a[x], p, q, upto).next)
    {
      NextKeepsHead(b[x], a[x].next, p, q, upto);
      PrevTwice();
    }
  }

  lemma SameReplace(g: set<Pgno>, a: PageMap, b: PageMap, p: Pgno, q: Pgno, pg: Page)
    requires SameBut(g, a, b)
    ensures SameBut(g, (a - {p})[q := pg], (b - {p})[q := pg])
  {
    PrevTwice();
  }

  /** Moving a page that is none of g changes nothing else about it. */
  lemma SameOne(m: Move, g: set<Pgno>, a: PageMap, b: PageMap, p: Pgno)
    requires SameBut(g, a, b) && p in b && p !in g
    ensures p in a && SameBut(g, MoveOne(m, a, p), MoveOne(m, b, p))
  {
    hide SameBut, PointAll, HeadAll, RenSome, OwnLinks, Heads, Told;
    SameTold(m, g, a, b, p);
    var ta, tb, q, pg := Told(m, a, p), Told(m, b, p), Shift(m, p), b[p];
    match pg
    case DataPage(_, _, _, _, _, _, _, _) =>
      var offs := SetOf(Heads(pg));
      OneIsTold(m, a, p);
      OneIsTold(m, b, p);
      SamePoint(g, ta, tb, p, q, offs);
      SameReplace(g, PointAll(ta, p, q, offs), PointAll(tb, p, q, offs), p, q, RenSome(m, OwnLinks(m, pg, p), offs));
    case KeyPage(_, _, _, ents, _) =>
      OneIsTold(m, a, p);
      OneIsTold(m, b, p);
      SameHead(m, g, ta, tb, p, q, |ents|);
      SameReplace(g, HeadAll(m, ta, p, q, |ents|), HeadAll(m, tb, p, q, |ents|), p, q, OwnLinks(m, pg, p));
    case _ =>
      OneOther(m, a, p);
      OneOther(m, b, p);
      SameReplace(g, ta, tb, p, q, OwnLinks(m, pg, p));
  }

  lemma OneOther(m: Move, now: PageMap, p: Pgno)
    requires p in now && Rank(now[p]) >= 2
    ensures MoveOne(m, now, p) == (Told(m, now, p) - {p})[Shift(m, p) := OwnLinks(m, now[p], p)]
  {
  }

  lemma SameReady(m: Move, g: set<Pgno>, a: PageMap, b: PageMap, p: Pgno)
    requires SameBut(g, a, b) && p in b && p !in g && Ready(m, b, p)
    ensures Ready(m, a, p)
  {
    hide Heads, LowBits, Told, OwnLinks;
    SameTold(m, g, a, b, p);
    var ta, tb := Told(m, a, p), Told(m, b, p);
    SameKinds(g, ta, tb);
    assert forall x :: x in tb && tb[x].KeyPage? ==> ta[x].KeyPage? && ta[x].ents == tb[x].ents;
    SameHeads(g, ta, tb);
  }

  lemma SameHeads(g: set<Pgno>, a: PageMap, b: PageMap)
    requires SameBut(g, a, b)
    ensures forall x :: x in b && b[x].DataPage? ==> a[x].DataPage? && a[x].hd == b[x].hd && Heads(a[x]) == Heads(b[x])
  {
  }

  /** A pass does not mind the wrong links of pages that stay. */
  lemma {:induction false} SameKind(m: Move, g: set<Pgno>, a: PageMap, b: PageMap, rank: nat, lim: Pgno)
    requires SameBut(g, a, b) && forall p :: p in g ==> !InOld(m, p)
    requires forall p :: InOld(m, p) && p < lim && Turn(MoveKind(m, b, rank, p), p, rank) ==> Ready(m, MoveKind(m, b, rank, p), p)
    requires m.oldFirst <= lim <= m.oldLast + 1
    ensures SameBut(g, MoveKind(m, a, rank, lim), MoveKind(m, b, rank, lim))
    ensures forall p :: InOld(m, p) && p < lim && Turn(MoveKind(m, a, rank, p), p, rank) ==> Ready(m, MoveKind(m, a, rank, p), p)
    ensures rank == 0 ==> (LastMoved(m, a, lim) <==> LastMoved(m, b, lim))
    decreases lim - m.oldFirst
  {
    hide SameBut, MoveOne, Ready;
    if lim > m.oldFirst {
      var p := lim - 1;
      SameKind(m, g, a, b, rank, p);
      var a', b' := MoveKind(m, a, rank, p), MoveKind(m, b, rank, p);
      SameKinds(g, a', b');
      if Turn(b', p, rank) {
        SameOne(m, g, a', b', p);
        SameReady(m, g, a', b', p);
        SameTold(m, g, a', b', p);
      }
    }
  }

  lemma SameFreeOk(m: Move, g: set<Pgno>, a: PageMap, b: PageMap)
    requires SameBut(g, a, b) && FreeOk(m, b) && forall p :: p in g ==> !InOld(m, p)
    ensures FreeOk(m, a)
  {
    SameKinds(g, a, b);
  }

  lemma {:induction false} SameNamed(m: Move, g: set<Pgno>, a: PageMap, b: PageMap, q: Pgno, lim: Pgno)
    requires SameBut(g, a, b) && (forall p :: p in g ==> !InOld(m, p)) && lim <= m.oldLast + 1
    ensures NamedBy(m, a, q, lim) == NamedBy(m, b, q, lim)
    decreases lim - m.oldFirst
  {
    hide SameBut;
    if lim > m.oldFirst {
      SameNamed(m, g, a, b, q, lim - 1);
      SameKinds(g, a, b);
      SameOutside(g, a, b, lim - 1);
    }
  }

  lemma SameOutside(g: set<Pgno>, a: PageMap, b: PageMap, p: Pgno)
    requires SameBut(g, a, b)
    ensures p in a <==> p in b
    ensures p in b && p !in g ==> a[p] == b[p]
    ensures p in b && a[p].next == b[p].next ==> a[p] == b[p]
  {
    PrevTwice();
  }

  /** Each page of g is remembered by a page of the range. */
  predicate Remembered(m: Move, pages: PageMap, h: Prevs, g: Nexts) {
    forall q :: q in g ==> q in pages && !InOld(m, q) && LastHead(m, h, q, m.oldLast + 1) != INVALID_PGNO
  }

  /** Wrong links of pages that are remembered do not matter: they are overwritten in any case. */
  lemma MoveBent(m: Move, pages: PageMap, h: Prevs, g: Nexts)
    requires DirtOk(m, pages, h) && Remembered(m, pages, h, g)
    ensures Movable(m, Bent(g, Dirty(h, pages)))
    ensures MovedAll(m, Bent(g, Dirty(h, pages))) == MovedAll(m, Dirty(h, pages))
    ensures LastMoved(m, Bent(g, Dirty(h, pages)), m.oldLast + 1) <==> LastMoved(m, Dirty(h, pages), m.oldLast + 1)
  {
    hide DirtOk, Half, Moving, Ready, MoveKind, Turn, LastMoved, FreePassed, Dirty, FreeOk, Bent, SameBut, ToldPage2;
    var s := DirtMovable(m, pages, h);
    var end, b, a := m.oldLast + 1, Dirty(h, pages), Bent(g, Dirty(h, pages));
    EndDirt(m, pages, h);
    BentIsSame(g, b);
    SameKind(m, g.Keys, a, b, 0, end);
    SameKind(m, g.Keys, DataMoved(m, a), DataMoved(m, b), 1, end);
    SameKind(m, g.Keys, KeysMoved(m, a), KeysMoved(m, b), 2, end);
    PassesReady(m, a, end);
    HalfOk(m, pages, h, s, KeysMoved(m, pages));
    SameFreeOk(m, g.Keys, KeysMoved(m, a), KeysMoved(m, b));
    FreePass(m, KeysMoved(m, a), end);
    var fa, fb := MovedAll(m, a), MovedAll(m, b);
    forall q | q in fb
      ensures q in fa && fa[q] == fb[q]
    {
      SameOutside(g.Keys, fa, fb, q);
      if q in g {
        HalfStays(m, pages, h, s, KeysMoved(m, pages), q);
        SameOutside(g.Keys, KeysMoved(m, a), KeysMoved(m, b), q);
        StaysTold(m, KeysMoved(m, a), q, fa);
        StaysTold(m, KeysMoved(m, b), q, fb);
        SameNamed(m, g.Keys, KeysMoved(m, a), KeysMoved(m, b), q, end);
        NamedThere(m, pages, h, s, KeysMoved(m, pages), q);
        ToldNext(m, KeysMoved(m, a), q, end);
        ToldNext(m, KeysMoved(m, b), q, end);
      }
    }
    SameDomain(g.Keys, fa, fb);
  }

  lemma SameDomain(g: set<Pgno>, a: PageMap, b: PageMap)
    requires SameBut(g, a, b)
    ensures a.Keys == b.Keys
  {
  }

  lemma EndDirt(m: Move, pages: PageMap, h: Prevs)
    requires DirtOk(m, pages, h)
    ensures 0 < m.oldFirst <= m.oldLast + 1
  {
    hide Graph;
  }

  lemma NamedThere(m: Move, pages: PageMap, h: Prevs, s: set<Pgno>, now: PageMap, q: Pgno)
    requires Half(m, pages, h, s, now) && q in pages && LastHead(m, h, q, m.oldLast + 1) != INVALID_PGNO
    ensures NamedBy(m, Dirty(h, now), q, m.oldLast + 1) != INVALID_PGNO
  {
    hide Half, Dirty;
    HalfRange(m, pages, h, s, now, q);
    LastHeadIs(m, h, q, m.oldLast + 1);
    NamesAre(m, pages, h, s, now, LastHead(m, h, q, m.oldLast + 1), q);
    NamedIs(m, Dirty(h, now), q, m.oldLast + 1);
  }

  // ---------------------------------------------------------------- closing and opening

  /** The last head that remembers a page, in the cut file. */
  lemma LastHeadCut(m: Move, pages: PageMap, h: Prevs, f0: PageMap, q: Pgno)
    requires DirtOk(m, pages, h) && IsRenamed(m, pages, f0) && !InOld(m, q) && !InNew(m, q) && q != INVALID_PGNO
    ensures LastHead(Undo(m), NewPrevs(m, h), q, Undo(m).oldLast + 1) == Ren(m, LastHead(m, h, q, m.oldLast + 1))
  {
    hide Graph, IsRenamed, LastHead, NewPrevs;
    var u, h' := Undo(m), NewPrevs(m, h);
    var w, x := LastHead(m, h, q, m.oldLast + 1), LastHead(u, h', q, u.oldLast + 1);
    LastHeadIs(m, h, q, m.oldLast + 1);
    LastHeadIs(u, h', q, u.oldLast + 1);
    NewPrevsAt(m, pages, h);
    if w != INVALID_PGNO {
      assert h'[Ren(m, w)] == q;
      assert InOld(u, Ren(m, w));
    }
    if x != INVALID_PGNO {
      var v :| v in h && Ren(m, v) == x;
      assert InOld(m, v) && h[v] == q;
    }
  }

  /** The same pages are spoiled in the cut file, by the same pages. */
  lemma CulpritCut(m: Move, pages: PageMap, h: Prevs, f0: PageMap, q: Pgno)
    requires DirtOk(m, pages, h) && IsRenamed(m, pages, f0) && (q in pages || q in CutRange(m, f0))
    ensures Culprit(Undo(m), CutRange(m, f0), NewPrevs(m, h), q) == Ren(m, Culprit(m, pages, h, q))
  {
    hide IsRenamed, LastHead, NewPrevs, HarmlessAt, LinksBack, HeadsOk, EntriesOk;
    DirtGraph(m, pages, h);
    var w := LastHead(m, h, q, m.oldLast + 1);
    LastHeadIs(m, h, q, m.oldLast + 1);
    NewPrevsAt(m, pages, h);
    if InOld(m, q) {
      NotInCut(m, f0, q);
    } else if InNew(m, q) {
    } else {
      PositiveCut(m, pages, f0, q);
      LastHeadCut(m, pages, h, f0, q);
      StaysCut(m, pages, f0, q);
      if w != INVALID_PGNO {
        HeadCut(m, pages, h, f0, w);
      }
    }
  }

  lemma NotInCut(m: Move, f0: PageMap, q: Pgno)
    requires InOld(m, q)
    ensures q !in CutRange(m, f0)
  {
  }

  lemma PositiveCut(m: Move, pages: PageMap, f0: PageMap, q: Pgno)
    requires Graph(pages) && MoveOk(m, pages) && IsRenamed(m, pages, f0) && (q in pages || q in CutRange(m, f0))
    ensures q != INVALID_PGNO
  {
    hide LinksBack, HeadsOk, EntriesOk;
  }

  lemma SpoiledCut(m: Move, pages: PageMap, h: Prevs, f0: PageMap)
    requires DirtOk(m, pages, h) && IsRenamed(m, pages, f0)
    ensures Spoiled(Undo(m), CutRange(m, f0), NewPrevs(m, h)) == Renamed(m, Spoiled(m, pages, h))
    ensures Renamed(Undo(m), Renamed(m, Spoiled(m, pages, h))) == Spoiled(m, pages, h)
    ensures Remembered(Undo(m), CutRange(m, f0), NewPrevs(m, h), Renamed(m, Spoiled(m, pages, h)))
  {
    hide IsRenamed, NewPrevs, Culprit, HarmlessAt, LinksBack, HeadsOk, EntriesOk, CutRange, LastHead;
    var cut0, h', u := CutRange(m, f0), NewPrevs(m, h), Undo(m);
    DirtGraph(m, pages, h);
    forall q | q in pages || q in cut0
      ensures Culprit(u, cut0, h', q) == Ren(m, Culprit(m, pages, h, q))
      ensures Ren(m, Culprit(m, pages, h, q)) == INVALID_PGNO <==> Culprit(m, pages, h, q) == INVALID_PGNO
      ensures Ren(u, Ren(m, Culprit(m, pages, h, q))) == Culprit(m, pages, h, q)
      ensures Culprit(m, pages, h, q) != INVALID_PGNO ==> q in pages
      ensures Culprit(u, cut0, h', q) != INVALID_PGNO ==>
        q in cut0 && !InOld(u, q) && LastHead(u, h', q, u.oldLast + 1) != INVALID_PGNO
    {
      CulpritCut(m, pages, h, f0, q);
      CulpritRange(m, pages, h, q);
      CulpritHead(u, cut0, h', q);
    }
  }

  lemma CulpritHead(m: Move, pages: PageMap, h: Prevs, q: Pgno)
    ensures Culprit(m, pages, h, q) != INVALID_PGNO ==>
      q in pages && !InOld(m, q) && LastHead(m, h, q, m.oldLast + 1) != INVALID_PGNO
  {
  }

  /** Only deleted pages are left in the range. */
  lemma RangeLeft(m: Move, pages: PageMap, h: Prevs)
    requires DirtOk(m, pages, h)
    ensures forall x :: x in MovedAll(m, Dirty(h, pages)) && InOld(m, x) ==> MovedAll(m, Dirty(h, pages))[x].DeletedPage?
  {
    hide DirtOk, MovedAll, IsRenamed, NewPrevs, Spoiled, Graph, Bent, Dirty, MoveOk, Movable, LastMoved, KindBelow, Moving, KeysMoved, DataMoved;
    DirtGraph(m, pages, h);
    GraphMoves(m, pages);
    MoveSpoils(m, pages, h);
    var f0 := MovedAll(m, pages);
    var g, h' := Renamed(m, Spoiled(m, pages, h)), NewPrevs(m, h);
    forall x | x in MovedAll(m, Dirty(h, pages)) && InOld(m, x)
      ensures MovedAll(m, Dirty(h, pages))[x].DeletedPage?
    {
      SameKindAt(g, h', f0, x);
      var q := PlaceSource(m, pages, f0, x);
      RenamedAt(m, pages, f0, q);
      RankRen(m, pages[q]);
      PlaceInRange(m, pages, q);
    }
  }

  lemma SameKindAt(g: Nexts, h: Prevs, pages: PageMap, x: Pgno)
    requires x in Bent(g, Dirty(h, pages))
    ensures x in pages && Rank(Bent(g, Dirty(h, pages))[x]) == Rank(pages[x])
  {
  }

  lemma PlaceInRange(m: Move, pages: PageMap, q: Pgno)
    requires MoveOk(m, pages) && q in pages && InOld(m, Place(m, q, pages[q]))
    ensures Rank(pages[q]) == LIVE
  {
  }

  lemma BentCut(m: Move, g: Nexts, pages: PageMap)
    ensures CutRange(m, Bent(g, pages)) == Bent(g, CutRange(m, pages))
  {
  }

  /** Closing and opening gives back the pages that survive, but each spoiled page leads to the page
      that spoiled it. */
  lemma OpenSpoils(m: Move, pages: PageMap, h: Prevs)
    requires DirtOk(m, pages, h)
    ensures var cut := CutRange(m, MovedAll(m, Dirty(h, pages)));
      && Movable(Undo(m), cut)
      && CutRange(Undo(m), MovedAll(Undo(m), cut)) == Bent(Spoiled(m, pages, h), Survivors(m, Dirty(h, pages)))
      && (LastMoved(Undo(m), cut, Undo(m).oldLast + 1) <==>
            exists p :: p in KindBelow(Undo(m), CutRange(m, MovedAll(m, pages)), 0, Undo(m).oldLast + 1)
                        && CutRange(m, MovedAll(m, pages))[p].next == INVALID_PGNO)
      && (forall p :: p in MovedAll(Undo(m), cut) && InOld(Undo(m), p) ==> MovedAll(Undo(m), cut)[p].DeletedPage?)
  {
    hide DirtOk, Movable, MovedAll, Dirty, IsRenamed, RenPage, NewPrevs, CutRange, Survivors, KindBelow, LastMoved, FreePassed, Half, KeysMoved,
      Bent, Spoiled, Renamed, Remembered;
    DirtGraph(m, pages, h);
    GraphMoves(m, pages);
    MoveSpoils(m, pages, h);
    var f0, h', g' := MovedAll(m, pages), NewPrevs(m, h), Renamed(m, Spoiled(m, pages, h));
    CutIsDirty(m, pages, h, f0);
    SpoiledCut(m, pages, h, f0);
    BentCut(m, g', Dirty(h', f0));
    var cut0, u := CutRange(m, f0), Undo(m);
    MoveBent(u, cut0, h', g');
    MoveSpoils(u, cut0, h');
    RangeLeft(u, cut0, h');
    DirtGraph(u, cut0, h');
    GraphMoves(u, cut0);
    var s := DirtMovable(u, cut0, h');
    var back0 := MovedAll(u, cut0);
    RenamedBack(m, pages, f0, back0);
    assert back0 == Survivors(m, pages);
    PrevsBack(m, pages, h, cut0);
    BentCut(u, Spoiled(m, pages, h), Dirty(h, back0));
    DirtySurvivors(m, pages, h);
  }

  lemma BentNone(pages: PageMap)
    ensures Bent(map[], pages) == pages
  {
  }

  /** Where no link does harm, opening gives back the pages, links and all. */
  lemma OpenUndoes(m: Move, pages: PageMap, h: Prevs)
    requires DirtOk(m, pages, h) && Harmless(m, pages, h)
    ensures var cut := CutRange(m, MovedAll(m, Dirty(h, pages)));
      CutRange(Undo(m), MovedAll(Undo(m), cut)) == Survivors(m, Dirty(h, pages))
  {
    hide DirtOk, Harmless, Movable, MovedAll, Dirty, CutRange, Survivors, LastMoved, KindBelow, Bent, Spoiled;
    OpenSpoils(m, pages, h);
    MoveSpoils(m, pages, h);
    BentNone(Survivors(m, Dirty(h, pages)));
  }
}
