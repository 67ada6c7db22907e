/** Moving pages while the first page of a free list still names a page that was once in front of
    it: exactly when that goes wrong. */
module StaleHeads {
  import opened Pages
  import opened Lengths
  import opened Relocate

  /** The previous links that some pages hold although no page leads to them. */
  type Prevs = map<Pgno, Pgno>

  /** The pages with these links. */
  function Dirty(h: Prevs, pages: PageMap): PageMap {
    map p | p in pages :: if p in h then SetPrev(pages[p], h[p]) else pages[p]
  }

  /** Free pages without a previous page got such a link; those that move do not name a place
      that pages move to. */
  ghost predicate DirtOk(m: Move, pages: PageMap, h: Prevs) {
    && Graph(pages) && MoveOk(m, pages)
    && forall p :: p in h ==>
         && p in pages && pages[p].FreePage? && pages[p].prev == INVALID_PGNO
         && (InOld(m, p) ==> !InNew(m, h[p]))
  }

  /** The link of page w to page b does no harm: there is no such page, it moves too, or it is a
      free page whose own next page moves later. */
  predicate HarmlessAt(m: Move, pages: PageMap, w: Pgno, b: Pgno) {
    || b == INVALID_PGNO || b !in pages || InOld(m, b)
    || (pages[b].FreePage? && InOld(m, pages[b].next) && w < pages[b].next)
  }

  predicate Harmless(m: Move, pages: PageMap, h: Prevs) {
    forall w :: w in h && InOld(m, w) ==> HarmlessAt(m, pages, w, h[w])
  }

  // ---------------------------------------------------------------- data and key pages do not mind

  lemma DirtyTold(m: Move, h: Prevs, now: PageMap, p: Pgno)
    requires p in now && p !in h
    requires now[p].next in h && now[p].next in now ==> InOld(m, now[p].next)
    ensures p in Dirty(h, now) && Dirty(h, now)[p] == now[p]
    ensures Told(m, Dirty(h, now), p) == Dirty(h, Told(m, now, p))
  {
    var d := Dirty(h, now);
    var n, b := now[p].next, now[p].prev;
    assert TellNext(m, d, n, p) == Dirty(h, TellNext(m, now, n, p));
    var t := TellNext(m, now, n, p);
    LinksCommute();
    assert TellPrev(m, Dirty(h, t), b, p) == Dirty(h, TellPrev(m, t, b, p));
  }

  lemma LinksCommute()
    ensures forall pg: Page, n, b :: SetPrev(SetNext(pg, n), b) == SetNext(SetPrev(pg, b), n)
  {
  }

  lemma PrevTwice()
    ensures forall pg: Page, a, b :: SetPrev(SetPrev(pg, a), b) == SetPrev(pg, b) && SetNext(SetNext(pg, a), b) == SetNext(pg, b)
    ensures forall pg: Page :: SetNext(pg, pg.next) == pg && SetPrev(pg, pg.prev) == pg
    ensures forall pg: Page, a :: SetNext(pg, a).next == a && SetPrev(pg, a).prev == a && SetNext(pg, a).prev == pg.prev && SetPrev(pg, a).next == pg.next
  {
  }

  /** Moving a page that is not free is the same with and without the links. */
  lemma DirtyOne(m: Move, h: Prevs, now: PageMap, p: Pgno)
    requires p in now && p !in h && !now[p].FreePage? && Shift(m, p) !in h && Rank(now[p]) < LIVE
    requires forall q :: q in h && q in now ==> now[q].FreePage?
    requires now[p].next in h && now[p].next in now ==> InOld(m, now[p].next)
    ensures p in Dirty(h, now) && MoveOne(m, Dirty(h, now), p) == Dirty(h, MoveOne(m, now, p))
  {
    hide Heads, LowBits, HeadHd, PointAll, HeadAll, OwnLinks, RenSome, Told;
    DirtyTold(m, h, now, p);
    var told := Told(m, now, p);
    ToldKinds(m, now, p);
    var q := Shift(m, p);
    if now[p].DataPage? {
      var offs := SetOf(Heads(now[p]));
      DirtyPoint(h, told, p, q, offs);
      DirtyReplace(h, PointAll(told, p, q, offs), p, q, RenSome(m, OwnLinks(m, now[p], p), offs));
    } else {
      DirtyHead(m, h, told, p, q, |now[p].ents|);
      DirtyReplace(h, HeadAll(m, told, p, q, |now[p].ents|), p, q, OwnLinks(m, now[p], p));
    }
    OneIsTold(m, now, p);
    OneIsTold(m, Dirty(h, now), p);
  }

  /** The last steps of a move, as one. */
  lemma OneIsTold(m: Move, now: PageMap, p: Pgno)
    requires p in now && Rank(now[p]) < 2
    ensures var told, q := Told(m, now, p), Shift(m, p);
      && (now[p].DataPage? ==> var offs := SetOf(Heads(now[p]));
            MoveOne(m, now, p) == (PointAll(told, p, q, offs) - {p})[q := RenSome(m, OwnLinks(m, now[p], p), offs)])
      && (now[p].KeyPage? ==>
            MoveOne(m, now, p) == (HeadAll(m, told, p, q, |now[p].ents|) - {p})[q := OwnLinks(m, now[p], p)])
  {
    hide PointAll, HeadAll, OwnLinks, RenSome, Heads;
  }

  lemma DirtyReplace(h: Prevs, pages: PageMap, p: Pgno, q: Pgno, pg: Page)
    requires p !in h && q !in h
    ensures (Dirty(h, pages) - {p})[q := pg] == Dirty(h, (pages - {p})[q := pg])
  {
  }

  lemma DirtyPoint(h: Prevs, told: PageMap, p: Pgno, q: Pgno, offs: set<nat>)
    requires forall x :: x in h && x in told ==> told[x].FreePage?
    ensures PointAll(Dirty(h, told), p, q, offs) == Dirty(h, PointAll(told, p, q, offs))
  {
    hide PointPage;
    forall x | x in told
      ensures PointPage(Dirty(h, told)[x], p, q, offs) == Dirty(h, PointAll(told, p, q, offs))[x]
    {
      PointFree(told[x], p, q, offs);
      PointFree(Dirty(h, told)[x], p, q, offs);
    }
  }

  lemma PointFree(pg: Page, p: Pgno, q: Pgno, offs: set<nat>)
    ensures pg.FreePage? ==> PointPage(pg, p, q, offs) == pg
  {
  }

  lemma DirtyHead(m: Move, h: Prevs, told: PageMap, p: Pgno, q: Pgno, upto: nat)
    requires forall x :: x in h && x in told ==> told[x].FreePage?
    ensures HeadAll(m, Dirty(h, told), p, q, upto) == Dirty(h, HeadAll(m, told, p, q, upto))
  {
    hide HeadHd;
  }

  lemma ToldKinds(m: Move, now: PageMap, p: Pgno)
    requires p in now
    ensures Told(m, now, p).Keys == now.Keys
    ensures forall x :: x in now ==> Rank(Told(m, now, p)[x]) == Rank(now[x])
  {
  }

  lemma DirtyReady(m: Move, h: Prevs, now: PageMap, p: Pgno)
    requires Ready(m, now, p) && p !in h && !now[p].FreePage?
    requires forall q :: q in h && q in now ==> now[q].FreePage?
    requires now[p].next in h && now[p].next in now ==> InOld(m, now[p].next)
    ensures Ready(m, Dirty(h, now), p)
  {
    hide Heads, LowBits;
    DirtyTold(m, h, now, p);
    ToldKinds(m, now, p);
    var told, dirty := Told(m, now, p), Told(m, Dirty(h, now), p);
    assert forall x :: x in told && !told[x].FreePage? ==> x in dirty && dirty[x] == told[x];
    assert forall x :: x in told ==> Rank(dirty[x]) == Rank(told[x]);
  }

  /** What a pass over data or key pages meets. */
  lemma TurnFacts(m: Move, pages: PageMap, h: Prevs, t: set<Pgno>, now: PageMap, p: Pgno)
    requires DirtOk(m, pages, h) && Moving(m, pages, t, now)
    requires forall x :: x in t ==> Rank(pages[x]) < 2
    requires InOld(m, p) && p in pages && p !in t && Rank(pages[p]) < 2
    ensures p in now && Rank(now[p]) == Rank(pages[p]) && p !in h && Shift(m, p) !in h
    ensures forall q :: q in h && q in now ==> now[q].FreePage?
    ensures now[p].next in h && now[p].next in now ==> InOld(m, now[p].next)
  {
    hide Moving, HeadsOk, EntriesOk, PageNow;
    NowAt(m, pages, t, now, p);
    PageKind(m, t, p, pages[p]);
    NowOwnLinks(m, t, p, pages[p]);
    assert LinksBack(pages, p);
    forall q | q in h && q in now
      ensures now[q].FreePage?
    {
      NowAt(m, pages, t, now, q);
      PageKind(m, t, q, pages[q]);
    }
  }

  lemma {:induction false} DirtyKind(m: Move, pages: PageMap, h: Prevs, s: set<Pgno>, now: PageMap, rank: nat, lim: Pgno)
    requires DirtOk(m, pages, h) && Moving(m, pages, s, now) && rank < 2
    requires forall x :: x in s ==> x in pages && Rank(pages[x]) < 2 && Rank(pages[x]) != rank
    requires m.oldFirst <= lim <= m.oldLast + 1
    ensures MoveKind(m, Dirty(h, now), rank, lim) == Dirty(h, MoveKind(m, now, rank, lim))
    ensures forall p :: m.oldFirst <= p < lim && Turn(MoveKind(m, Dirty(h, now), rank, p), p, rank) ==>
              Ready(m, MoveKind(m, Dirty(h, now), rank, p), p)
    ensures rank == 0 ==> (LastMoved(m, Dirty(h, now), lim) <==> LastMoved(m, now, lim))
    decreases lim - m.oldFirst
  {
    hide Graph, Moving, MoveOne, Ready, MoveOk;
    if lim > m.oldFirst {
      var p := lim - 1;
      DirtyKind(m, pages, h, s, now, rank, p);
      KindMoves(m, pages, s, now, rank, p);
      var t, mid := s + KindBelow(m, pages, rank, p), MoveKind(m, now, rank, p);
      NowHere(m, pages, t, mid, p);
      DirtyTurn(h, mid, p, rank);
      if p in pages && Rank(pages[p]) == rank {
        ReadyInGraph(m, pages, t, mid, p);
        TurnFacts(m, pages, h, t, mid, p);
        DirtyOne(m, h, mid, p);
        DirtyReady(m, h, mid, p);
      }
    }
  }

  lemma DirtyTurn(h: Prevs, now: PageMap, p: Pgno, rank: nat)
    ensures Turn(Dirty(h, now), p, rank) <==> Turn(now, p, rank)
    ensures p in now ==> Dirty(h, now)[p].next == now[p].next
  {
  }

  // ---------------------------------------------------------------- the pass over free pages

  /** The last free page of the range below `lim` that names q as the page in front of it. */
  function NamedBy(m: Move, now: PageMap, q: Pgno, lim: Pgno): Pgno
    decreases lim - m.oldFirst
  {
    if lim <= m.oldFirst then INVALID_PGNO
    else if Turn(now, lim - 1, 2) && now[lim - 1].prev == q then lim - 1
    else NamedBy(m, now, q, lim - 1)
  }

  /** The last that names q as the page after it. */
  function FollowedBy(m: Move, now: PageMap, q: Pgno, lim: Pgno): Pgno
    decreases lim - m.oldFirst
  {
    if lim <= m.oldFirst then INVALID_PGNO
    else if Turn(now, lim - 1, 2) && now[lim - 1].next == q then lim - 1
    else FollowedBy(m, now, q, lim - 1)
  }

  /** A page that stays is told by the last of them, either way. */
  function ToldPage2(m: Move, now: PageMap, q: Pgno, lim: Pgno): Page
    requires q in now
  {
    var f, n := FollowedBy(m, now, q, lim), NamedBy(m, now, q, lim);
    SetNext(SetPrev(now[q], if f == INVALID_PGNO then now[q].prev else Shift(m, f)), if n == INVALID_PGNO then now[q].next else Shift(m, n))
  }

  predicate Gone(m: Move, now: PageMap, q: Pgno, lim: Pgno) {
    InOld(m, q) && q < lim && Turn(now, q, 2)
  }

  /** The pages after the free pages below `lim` were moved. */
  ghost predicate FreePassed(m: Move, now: PageMap, lim: Pgno, after: PageMap) {
    && (forall q :: q in now && Gone(m, now, q, lim) ==>
          q !in after && Shift(m, q) in after && after[Shift(m, q)] == OwnLinks(m, now[q], q))
    && (forall q :: q in now && !Gone(m, now, q, lim) ==>
          q in after && after[q] == if InOld(m, q) then now[q] else ToldPage2(m, now, q, lim))
    && (forall x :: x in after ==> (x in now && !Gone(m, now, x, lim)) || (InNew(m, x) && Gone(m, now, Back(m, x), lim)))
  }

  /** Free pages of the range have room to go to, and their links do not lead there. */
  ghost predicate FreeOk(m: Move, now: PageMap) {
    && 0 < m.oldFirst && 0 < m.newFirst && INVALID_PGNO !in now
    && (m.oldLast < m.newFirst || m.newFirst + (m.oldLast - m.oldFirst) < m.oldFirst)
    && forall p :: InOld(m, p) && Turn(now, p, 2) ==>
         && Shift(m, p) !in now && !InNew(m, now[p].prev) && !InNew(m, now[p].next)
         && (now[p].next != INVALID_PGNO && !InOld(m, now[p].next) ==> now[p].next in now)
  }

  lemma {:induction false} FreePass(m: Move, now: PageMap, lim: Pgno)
    requires FreeOk(m, now) && m.oldFirst <= lim <= m.oldLast + 1
    ensures FreePassed(m, now, lim, MoveKind(m, now, 2, lim))
    ensures forall p :: m.oldFirst <= p < lim && Turn(MoveKind(m, now, 2, p), p, 2) ==> Ready(m, MoveKind(m, now, 2, p), p)
    decreases lim - m.oldFirst
  {
    hide MoveOne, Ready, Turn, FreePassed, FreeOk;
    if lim == m.oldFirst {
      NonePassed(m, now);
    } else {
      var p := lim - 1;
      FreePass(m, now, p);
      FreeStep(m, now, p, MoveKind(m, now, 2, p));
    }
  }

  lemma NonePassed(m: Move, now: PageMap)
    ensures FreePassed(m, now, m.oldFirst, now)
  {
    LinksSame();
  }

  lemma LinksSame()
    ensures forall pg: Page :: SetNext(SetPrev(pg, pg.prev), pg.next) == pg
  {
  }

  lemma FreeStep(m: Move, now: PageMap, p: Pgno, mid: PageMap)
    requires FreeOk(m, now) && InOld(m, p) && FreePassed(m, now, p, mid)
    ensures Turn(mid, p, 2) <==> Turn(now, p, 2)
    ensures Turn(mid, p, 2) ==> Ready(m, mid, p) && FreePassed(m, now, p + 1, MoveOne(m, mid, p))
    ensures !Turn(mid, p, 2) ==> FreePassed(m, now, p + 1, mid)
  {
    hide FreePassed, FreeOk, MoveOne, Ready;
    FreeTurn(m, now, p, mid);
    if Turn(now, p, 2) {
      FreeStepMove(m, now, p, mid);
    } else {
      FreeSkip(m, now, p, mid);
    }
  }

  lemma FreeTurn(m: Move, now: PageMap, p: Pgno, mid: PageMap)
    requires FreeOk(m, now) && InOld(m, p) && FreePassed(m, now, p, mid)
    ensures Turn(mid, p, 2) <==> Turn(now, p, 2)
    ensures Turn(now, p, 2) ==> p in mid && mid[p] == now[p]
  {
    hide ToldPage2, OwnLinks;
    assert p in now ==> !Gone(m, now, p, p);
  }

  lemma FreeSkip(m: Move, now: PageMap, p: Pgno, mid: PageMap)
    requires InOld(m, p) && FreePassed(m, now, p, mid) && !Turn(now, p, 2)
    ensures FreePassed(m, now, p + 1, mid)
  {
    hide ToldPage2, OwnLinks, Turn;
    forall q
      ensures Gone(m, now, q, p + 1) <==> Gone(m, now, q, p)
      ensures q in now ==> ToldPage2(m, now, q, p + 1) == ToldPage2(m, now, q, p)
    {
      ToldSkip(m, now, p, q);
    }
  }

  lemma ToldSkip(m: Move, now: PageMap, p: Pgno, q: Pgno)
    requires InOld(m, p) && !Turn(now, p, 2)
    ensures Gone(m, now, q, p + 1) <==> Gone(m, now, q, p)
    ensures q in now ==> ToldPage2(m, now, q, p + 1) == ToldPage2(m, now, q, p)
  {
  }

  lemma FreeStepMove(m: Move, now: PageMap, p: Pgno, mid: PageMap)
    requires FreeOk(m, now) && InOld(m, p) && FreePassed(m, now, p, mid) && Turn(now, p, 2)
    requires p in mid && mid[p] == now[p]
    ensures Ready(m, mid, p) && FreePassed(m, now, p + 1, MoveOne(m, mid, p))
  {
    hide MoveOne, ToldPage2, OwnLinks, Told, FreeOk, Ready, Gone, Turn, InOld;
    FreeReady(m, now, p, mid);
    var after := MoveOne(m, mid, p);
    forall q | q in now && !Gone(m, now, q, p + 1)
      ensures q in after && after[q] == if InOld(m, q) then now[q] else ToldPage2(m, now, q, p + 1)
    {
      ToldOne(m, now, p, mid, q);
    }
    forall q | q in now && Gone(m, now, q, p + 1)
      ensures q !in after && Shift(m, q) in after && after[Shift(m, q)] == OwnLinks(m, now[q], q)
    {
      GoneOne(m, now, p, mid, q);
    }
    forall x | x in after
      ensures (x in now && !Gone(m, now, x, p + 1)) || (InNew(m, x) && Gone(m, now, Back(m, x), p + 1))
    {
      SourceOne(m, now, p, mid, x);
    }
  }

  lemma FreeReady(m: Move, now: PageMap, p: Pgno, mid: PageMap)
    requires FreeOk(m, now) && InOld(m, p) && FreePassed(m, now, p, mid) && Turn(now, p, 2)
    requires p in mid && mid[p] == now[p]
    ensures Ready(m, mid, p)
  {
    hide Told, ToldPage2, OwnLinks;
    var n := now[p].next;
    if n != INVALID_PGNO && !InOld(m, n) {
      assert n in now && !Gone(m, now, n, p);
    }
  }

  lemma GoneOne(m: Move, now: PageMap, p: Pgno, mid: PageMap, q: Pgno)
    requires FreeOk(m, now) && InOld(m, p) && FreePassed(m, now, p, mid) && Turn(now, p, 2)
    requires p in mid && mid[p] == now[p] && q in now && Gone(m, now, q, p + 1)
    ensures var after := MoveOne(m, mid, p); q !in after && Shift(m, q) in after && after[Shift(m, q)] == OwnLinks(m, now[q], q)
  {
    hide ToldPage2, OwnLinks;
    if q != p {
      assert Gone(m, now, q, p);
      assert Shift(m, q) in mid && InNew(m, Shift(m, q));
      assert Told(m, mid, p)[Shift(m, q)] == mid[Shift(m, q)];
    }
  }

  lemma SourceOne(m: Move, now: PageMap, p: Pgno, mid: PageMap, x: Pgno)
    requires FreeOk(m, now) && InOld(m, p) && FreePassed(m, now, p, mid) && Turn(now, p, 2)
    requires p in mid && mid[p] == now[p] && x in MoveOne(m, mid, p)
    ensures (x in now && !Gone(m, now, x, p + 1)) || (InNew(m, x) && Gone(m, now, Back(m, x), p + 1))
  {
    hide ToldPage2, OwnLinks;
    MoveOneKeys(m, mid, p);
    if x == Shift(m, p) {
      assert Back(m, x) == p;
    } else {
      assert x in mid && x != p;
    }
  }

  function Relink(pg: Page, byNext: bool, byPrev: bool, l: Pgno): Page {
    SetNext(SetPrev(pg, if byNext then l else pg.prev), if byPrev then l else pg.next)
  }

  /** One page that stays is told by the page that moves, or not. */
  lemma ToldExact(m: Move, now: PageMap, p: Pgno, q: Pgno)
    requires p in now && q in now && q != INVALID_PGNO
    ensures q in Told(m, now, p)
    ensures Told(m, now, p)[q] == if InOld(m, q) then now[q] else Relink(now[q], now[p].next == q, now[p].prev == q, Shift(m, p))
  {
    LinksCommute();
    PrevTwice();
  }

  lemma ToldMore(m: Move, now: PageMap, p: Pgno, q: Pgno)
    requires InOld(m, p) && Turn(now, p, 2) && q in now && 0 < m.oldFirst
    ensures ToldPage2(m, now, q, p + 1) == Relink(ToldPage2(m, now, q, p), now[p].next == q, now[p].prev == q, Shift(m, p))
  {
    LinksCommute();
    PrevTwice();
  }

  lemma ToldOne(m: Move, now: PageMap, p: Pgno, mid: PageMap, q: Pgno)
    requires FreeOk(m, now) && InOld(m, p) && FreePassed(m, now, p, mid) && Turn(now, p, 2)
    requires p in mid && mid[p] == now[p] && q in now && !Gone(m, now, q, p + 1)
    ensures q in MoveOne(m, mid, p) && MoveOne(m, mid, p)[q] == if InOld(m, q) then now[q] else ToldPage2(m, now, q, p + 1)
  {
    hide ToldPage2, Told, Relink, OwnLinks;
    assert q != Shift(m, p) && q != p && !Gone(m, now, q, p);
    ToldExact(m, mid, p, q);
    ToldMore(m, now, p, q);
    OneFree(m, mid, p);
  }

  lemma OneFree(m: Move, now: PageMap, p: Pgno)
    requires p in now && now[p].FreePage?
    ensures MoveOne(m, now, p) == (Told(m, now, p) - {p})[Shift(m, p) := OwnLinks(m, now[p], p)]
  {
  }

  // ---------------------------------------------------------------- both stores compared

  /** Which pages name q, and the last of them. */
  lemma {:induction false} NamedIs(m: Move, now: PageMap, q: Pgno, lim: Pgno)
    requires 0 < m.oldFirst
    ensures var n := NamedBy(m, now, q, lim);
      && (n != INVALID_PGNO ==> m.oldFirst <= n < lim && Turn(now, n, 2) && now[n].prev == q)
      && (forall p :: m.oldFirst <= p < lim && Turn(now, p, 2) && now[p].prev == q ==> n != INVALID_PGNO && p <= n)
    decreases lim - m.oldFirst
  {
    if lim > m.oldFirst {
      NamedIs(m, now, q, lim - 1);
    }
  }

  lemma {:induction false} FollowedIs(m: Move, now: PageMap, q: Pgno, lim: Pgno)
    requires 0 < m.oldFirst
    ensures var n := FollowedBy(m, now, q, lim);
      n != INVALID_PGNO ==> m.oldFirst <= n < lim && Turn(now, n, 2) && now[n].next == q
    decreases lim - m.oldFirst
  {
    if lim > m.oldFirst {
      FollowedIs(m, now, q, lim - 1);
    }
  }

  lemma {:induction false} FollowedSame(m: Move, h: Prevs, now: PageMap, q: Pgno, lim: Pgno)
    ensures FollowedBy(m, Dirty(h, now), q, lim) == FollowedBy(m, now, q, lim)
    decreases lim - m.oldFirst
  {
    if lim > m.oldFirst {
      FollowedSame(m, h, now, q, lim - 1);
    }
  }

  /** The pages once data and key pages have moved. */
  ghost predicate Half(m: Move, pages: PageMap, h: Prevs, s: set<Pgno>, now: PageMap) {
    && DirtOk(m, pages, h) && Moving(m, pages, s, now)
    && forall p :: p in pages && InOld(m, p) && Rank(pages[p]) < 2 <==> p in s
  }

  /** A free page of the range at that time, with and without the links. */
  lemma HalfFree(m: Move, pages: PageMap, h: Prevs, s: set<Pgno>, now: PageMap, p: Pgno)
    requires Half(m, pages, h, s, now) && InOld(m, p)
    ensures Turn(Dirty(h, now), p, 2) <==> Turn(now, p, 2)
    ensures Turn(now, p, 2) <==> p in pages && pages[p].FreePage?
    ensures Turn(now, p, 2) ==>
      && p !in s && now[p] == pages[p] && Dirty(h, now)[p] == if p in h then SetPrev(pages[p], h[p]) else pages[p]
  {
    hide LinksBack, HeadsOk, EntriesOk;
    NowHere(m, pages, s, now, p);
    if p in pages && p !in s {
      NowAt(m, pages, s, now, p);
      PageKind(m, s, p, pages[p]);
    }
  }

  lemma HalfOk(m: Move, pages: PageMap, h: Prevs, s: set<Pgno>, now: PageMap)
    requires Half(m, pages, h, s, now)
    ensures FreeOk(m, Dirty(h, now)) && FreeOk(m, now)
  {
    hide HeadsOk, EntriesOk, PageNow, Moving;
    HalfKeys(m, pages, h, s, now);
    forall p | InOld(m, p) && Turn(now, p, 2)
      ensures Shift(m, p) !in now && !InNew(m, now[p].prev) && !InNew(m, Dirty(h, now)[p].prev) && !InNew(m, now[p].next)
      ensures now[p].next != INVALID_PGNO && !InOld(m, now[p].next) ==> now[p].next in now
      ensures Dirty(h, now)[p].next == now[p].next
    {
      HalfFree(m, pages, h, s, now, p);
      assert LinksBack(pages, p);
      NeighboursThere(m, pages, s, now, p);
    }
    forall p | InOld(m, p) && Turn(Dirty(h, now), p, 2)
      ensures Turn(now, p, 2)
    {
      HalfFree(m, pages, h, s, now, p);
    }
  }

  lemma HalfKeys(m: Move, pages: PageMap, h: Prevs, s: set<Pgno>, now: PageMap)
    requires Half(m, pages, h, s, now)
    ensures INVALID_PGNO !in now && forall p :: InOld(m, p) && p in now ==> Shift(m, p) !in now
  {
    hide HeadsOk, EntriesOk, LinksBack, PageNow;
  }

  /** Every named page, with the links: by a link, or by the page it leads to. */
  lemma NamesAre(m: Move, pages: PageMap, h: Prevs, s: set<Pgno>, now: PageMap, w: Pgno, q: Pgno)
    requires Half(m, pages, h, s, now) && InOld(m, w) && q in pages
    ensures Turn(Dirty(h, now), w, 2) && Dirty(h, now)[w].prev == q <==>
      (w in h && h[w] == q) || (pages[q].next == w && pages[q].FreePage?)
    ensures Turn(now, w, 2) && now[w].prev == q <==> pages[q].next == w && pages[q].FreePage?
    ensures w in h ==> pages[q].next != w
  {
    hide HeadsOk, EntriesOk, PageNow, Moving;
    HalfFree(m, pages, h, s, now, w);
    assert LinksBack(pages, q);
    if w in pages {
      assert LinksBack(pages, w);
    }
  }

  /** No link of the kind that does harm names q. */
  ghost predicate Spared(m: Move, pages: PageMap, h: Prevs, q: Pgno) {
    forall w :: w in h && InOld(m, w) && h[w] == q ==> HarmlessAt(m, pages, w, q)
  }

  /** The page that stays gets the right next page exactly if no harmful link names it. */
  lemma NextCompared(m: Move, pages: PageMap, h: Prevs, s: set<Pgno>, now: PageMap, q: Pgno)
    requires Half(m, pages, h, s, now) && q in pages && !InOld(m, q)
    ensures q in now && q in Dirty(h, now)
    ensures var end := m.oldLast + 1;
      ToldPage2(m, Dirty(h, now), q, end).next == ToldPage2(m, now, q, end).next <==> Spared(m, pages, h, q)
  {
    hide HeadsOk, EntriesOk, Moving, PageNow, Half;
    var end, d := m.oldLast + 1, Dirty(h, now);
    HalfStays(m, pages, h, s, now, q);
    HalfRange(m, pages, h, s, now, q);
    NamedIs(m, d, q, end);
    NamedIs(m, now, q, end);
    var n, n0, x := NamedBy(m, d, q, end), NamedBy(m, now, q, end), pages[q].next;
    if n != INVALID_PGNO {
      NamesAre(m, pages, h, s, now, n, q);
    }
    if n0 != INVALID_PGNO {
      NamesAre(m, pages, h, s, now, n0, q);
    }
    if InOld(m, x) {
      NamesAre(m, pages, h, s, now, x, q);
    }
    if Spared(m, pages, h, q) {
      assert n == n0;
    } else {
      var w :| w in h && InOld(m, w) && h[w] == q && !HarmlessAt(m, pages, w, q);
      NamesAre(m, pages, h, s, now, w, q);
      assert n != INVALID_PGNO && w <= n;
      assert n in h;
      assert n0 != n;
      FreshNext(m, pages, h, s, now, q, n);
    }
  }

  lemma HalfRange(m: Move, pages: PageMap, h: Prevs, s: set<Pgno>, now: PageMap, q: Pgno)
    requires Half(m, pages, h, s, now) && q in pages
    ensures 0 < m.oldFirst && 0 < m.newFirst && q > 0
  {
    hide HeadsOk, EntriesOk, LinksBack;
  }

  lemma HalfStays(m: Move, pages: PageMap, h: Prevs, s: set<Pgno>, now: PageMap, q: Pgno)
    requires Half(m, pages, h, s, now) && q in pages && !InOld(m, q)
    ensures q in now && now[q] == PageNow(m, s, q, pages[q]) && q !in s
    ensures q in Dirty(h, now) && Dirty(h, now)[q] == (if q in h then SetPrev(now[q], h[q]) else now[q])
    ensures Dirty(h, now)[q].next == now[q].next
  {
    hide HeadsOk, EntriesOk, LinksBack, PageNow;
    assert At(m, s, q) == q;
  }

  /** The place that a free page goes to is not where q leads anyway. */
  lemma FreshNext(m: Move, pages: PageMap, h: Prevs, s: set<Pgno>, now: PageMap, q: Pgno, n: Pgno)
    requires Half(m, pages, h, s, now) && q in pages && !InOld(m, q) && InOld(m, n) && n in h
    ensures q in now && now[q].next != Shift(m, n)
  {
    hide HeadsOk, EntriesOk, Moving, PageNow;
    HalfStays(m, pages, h, s, now, q);
    NowLinks(m, s, q, pages[q]);
    assert LinksBack(pages, q);
    var x := pages[q].next;
    assert n !in s && pages[n].FreePage?;
  }

  /** Nobody names a place that pages have moved to. */
  lemma MovedUntold(m: Move, now: PageMap, q: Pgno)
    requires FreeOk(m, now) && InNew(m, q) && q in now
    ensures ToldPage2(m, now, q, m.oldLast + 1) == now[q]
  {
    NamedIs(m, now, q, m.oldLast + 1);
    FollowedIs(m, now, q, m.oldLast + 1);
    LinksSame();
  }

  /** What a page with such a link holds after the move. */
  function NewPrev(m: Move, q: Pgno, b: Pgno): Pgno {
    if InOld(m, q) then Ren(m, b) else b
  }

  /** Page by page: all but the links themselves and the next links is the same. */
  lemma PageCompared(m: Move, pages: PageMap, h: Prevs, s: set<Pgno>, now: PageMap, f0: PageMap, f: PageMap, q: Pgno)
    requires Half(m, pages, h, s, now) && q in pages
    requires FreePassed(m, now, m.oldLast + 1, f0) && FreePassed(m, Dirty(h, now), m.oldLast + 1, f)
    ensures var l := Place(m, q, pages[q]);
      && l in f && l in f0
      && f[l] == SetNext(if q in h then SetPrev(f0[l], NewPrev(m, q, h[q])) else f0[l], f[l].next)
      && (InOld(m, q) ==> f[l].next == f0[l].next)
      && (!InOld(m, q) ==> (f[l].next == f0[l].next <==> Spared(m, pages, h, q)))
  {
    hide DirtOk, Half, FreePassed, Dirty, Spared;
    PrevTwice();
    if !InOld(m, q) {
      StaysCompared(m, pages, h, s, now, f0, f, q);
    } else if Rank(pages[q]) < 2 {
      MovedCompared(m, pages, h, s, now, f0, f, q);
    } else {
      RangeCompared(m, pages, h, s, now, f0, f, q);
    }
  }

  lemma StaysCompared(m: Move, pages: PageMap, h: Prevs, s: set<Pgno>, now: PageMap, f0: PageMap, f: PageMap, q: Pgno)
    requires Half(m, pages, h, s, now) && q in pages && !InOld(m, q)
    requires FreePassed(m, now, m.oldLast + 1, f0) && FreePassed(m, Dirty(h, now), m.oldLast + 1, f)
    ensures q in f && q in f0 && (f[q].next == f0[q].next <==> Spared(m, pages, h, q))
    ensures f[q] == SetNext(if q in h then SetPrev(f0[q], h[q]) else f0[q], f[q].next)
  {
    hide Half, Spared, ToldPage2, FreePassed;
    var end, d := m.oldLast + 1, Dirty(h, now);
    HalfStays(m, pages, h, s, now, q);
    NextCompared(m, pages, h, s, now, q);
    StaysTold(m, now, q, f0);
    StaysTold(m, d, q, f);
    PrevCompared(m, pages, h, s, now, q);
  }

  lemma StaysTold(m: Move, now: PageMap, q: Pgno, f: PageMap)
    requires FreePassed(m, now, m.oldLast + 1, f) && q in now && !InOld(m, q)
    ensures q in f && f[q] == ToldPage2(m, now, q, m.oldLast + 1)
  {
    hide ToldPage2;
    assert !Gone(m, now, q, m.oldLast + 1);
  }

  lemma PrevCompared(m: Move, pages: PageMap, h: Prevs, s: set<Pgno>, now: PageMap, q: Pgno)
    requires Half(m, pages, h, s, now) && q in pages && !InOld(m, q) && q in now && q in Dirty(h, now)
    ensures var t0, t := ToldPage2(m, now, q, m.oldLast + 1), ToldPage2(m, Dirty(h, now), q, m.oldLast + 1);
      t == SetNext(if q in h then SetPrev(t0, h[q]) else t0, t.next)
  {
    hide Half, NamedBy, FollowedBy;
    HalfStays(m, pages, h, s, now, q);
    FollowedSame(m, h, now, q, m.oldLast + 1);
    if q in h {
      HeadFirst(m, pages, h, s, now, q);
    }
    LinksCommute();
    LinksSame();
    PrevTwice();
  }

  /** No page leads to a page with such a link. */
  lemma HeadFirst(m: Move, pages: PageMap, h: Prevs, s: set<Pgno>, now: PageMap, q: Pgno)
    requires Half(m, pages, h, s, now) && q in h
    ensures FollowedBy(m, now, q, m.oldLast + 1) == INVALID_PGNO
  {
    hide HeadsOk, EntriesOk, Moving, PageNow;
    HalfRange(m, pages, h, s, now, q);
    FollowedIs(m, now, q, m.oldLast + 1);
    var n := FollowedBy(m, now, q, m.oldLast + 1);
    if n != INVALID_PGNO {
      HalfFree(m, pages, h, s, now, n);
    }
  }

  lemma MovedCompared(m: Move, pages: PageMap, h: Prevs, s: set<Pgno>, now: PageMap, f0: PageMap, f: PageMap, q: Pgno)
    requires Half(m, pages, h, s, now) && q in pages && InOld(m, q) && Rank(pages[q]) < 2
    requires FreePassed(m, now, m.oldLast + 1, f0) && FreePassed(m, Dirty(h, now), m.oldLast + 1, f)
    ensures var l := Shift(m, q); q !in h && l in f && l in f0 && f[l] == f0[l]
  {
    hide HeadsOk, EntriesOk, PageNow, LinksBack, ToldPage2;
    HalfOk(m, pages, h, s, now);
    var l := Shift(m, q);
    assert At(m, s, q) == l && l in now && l !in h && !InOld(m, l) && InNew(m, l);
    MovedUntold(m, now, l);
    MovedUntold(m, Dirty(h, now), l);
    assert !Gone(m, now, l, m.oldLast + 1) && !Gone(m, Dirty(h, now), l, m.oldLast + 1);
  }

  lemma RangeCompared(m: Move, pages: PageMap, h: Prevs, s: set<Pgno>, now: PageMap, f0: PageMap, f: PageMap, q: Pgno)
    requires Half(m, pages, h, s, now) && q in pages && InOld(m, q) && Rank(pages[q]) >= 2
    requires FreePassed(m, now, m.oldLast + 1, f0) && FreePassed(m, Dirty(h, now), m.oldLast + 1, f)
    ensures var l := Place(m, q, pages[q]);
      l in f && l in f0 && f[l].next == f0[l].next && f[l] == if q in h then SetPrev(f0[l], Ren(m, h[q])) else f0[l]
  {
    hide HeadsOk, EntriesOk, PageNow, LinksBack, ToldPage2;
    HalfFree(m, pages, h, s, now, q);
    assert q !in s;
    NowAt(m, pages, s, now, q);
    PageKind(m, s, q, pages[q]);
    var end := m.oldLast + 1;
    if pages[q].FreePage? {
      assert Gone(m, now, q, end) && Gone(m, Dirty(h, now), q, end);
      OwnDirty(m, pages[q], q, if q in h then h[q] else pages[q].prev);
    } else {
      assert !Gone(m, now, q, end) && !Gone(m, Dirty(h, now), q, end);
    }
  }

  lemma OwnDirty(m: Move, pg: Page, p: Pgno, b: Pgno)
    ensures OwnLinks(m, SetPrev(pg, b), p) == SetPrev(OwnLinks(m, pg, p), Ren(m, b))
    ensures OwnLinks(m, SetPrev(pg, b), p).next == OwnLinks(m, pg, p).next && SetPrev(pg, pg.prev) == pg
  {
  }

  // ---------------------------------------------------------------- the move on close

  /** Where such links are after the move. */
  function NewPrevs(m: Move, h: Prevs): Prevs {
    map x | x in (set q | q in h :: Ren(m, q)) ::
      var q := if InNew(m, x) then Back(m, x) else x; if q in h then NewPrev(m, q, h[q]) else INVALID_PGNO
  }

  lemma NewPrevsAt(m: Move, pages: PageMap, h: Prevs)
    requires DirtOk(m, pages, h)
    ensures forall q :: q in h ==> Ren(m, q) in NewPrevs(m, h) && NewPrevs(m, h)[Ren(m, q)] == NewPrev(m, q, h[q])
    ensures forall x :: x in NewPrevs(m, h) ==> exists q :: q in h && Ren(m, q) == x
  {
    hide Graph;
  }

  lemma DirtMovable(m: Move, pages: PageMap, h: Prevs) returns (s: set<Pgno>)
    requires DirtOk(m, pages, h)
    ensures Movable(m, Dirty(h, pages)) && KeysMoved(m, Dirty(h, pages)) == Dirty(h, KeysMoved(m, pages))
    ensures Half(m, pages, h, s, KeysMoved(m, pages))
    ensures FreePassed(m, KeysMoved(m, pages), m.oldLast + 1, MovedAll(m, pages))
    ensures FreePassed(m, Dirty(h, KeysMoved(m, pages)), m.oldLast + 1, MovedAll(m, Dirty(h, pages)))
    ensures LastMoved(m, Dirty(h, pages), m.oldLast + 1) <==> LastMoved(m, pages, m.oldLast + 1)
  {
    hide Graph, Moving, IsRenamed, KindBelow, MoveOk, Ready, MoveKind, Turn, Movable, LastMoved, FreePassed, Dirty, FreeOk;
    var end := m.oldLast + 1;
    EndBound(m, pages);
    var d, k := KindBelow(m, pages, 0, end), KindBelow(m, pages, 1, end);
    NoneMoving(m, pages);
    KindsAre(m, pages, 0);
    KindsAre(m, pages, 1);
    GraphMoves(m, pages);
    DirtyKind(m, pages, h, {}, pages, 0, end);
    DirtyKind(m, pages, h, d, DataMoved(m, pages), 1, end);
    s := d + k;
    HalfOk(m, pages, h, s, KeysMoved(m, pages));
    FreePass(m, Dirty(h, KeysMoved(m, pages)), end);
    FreePass(m, KeysMoved(m, pages), end);
    PassesReady(m, Dirty(h, pages), end);
  }

  lemma PassesReady(m: Move, d: PageMap, end: Pgno)
    requires end == m.oldLast + 1
    requires forall p :: m.oldFirst <= p < end && Turn(MoveKind(m, d, 0, p), p, 0) ==> Ready(m, MoveKind(m, d, 0, p), p)
    requires forall p :: m.oldFirst <= p < end && Turn(MoveKind(m, DataMoved(m, d), 1, p), p, 1) ==> Ready(m, MoveKind(m, DataMoved(m, d), 1, p), p)
    requires forall p :: m.oldFirst <= p < end && Turn(MoveKind(m, KeysMoved(m, d), 2, p), p, 2) ==> Ready(m, MoveKind(m, KeysMoved(m, d), 2, p), p)
    ensures Movable(m, d)
  {
    hide Ready, MoveKind, Turn;
  }

  /** The page has the next page that a faultless move gives it. */
  predicate NextRight(m: Move, pages: PageMap, now: PageMap, q: Pgno)
    requires q in pages
  {
    Place(m, q, pages[q]) in now && now[Place(m, q, pages[q])].next == RenPage(m, pages[q]).next
  }

  /** The move of a file with such links gives every page the right next page if and only if the
      links are harmless; and then it is the faultless move but for these links. */
  lemma CloseExact(m: Move, pages: PageMap, h: Prevs)
    requires DirtOk(m, pages, h)
    ensures Movable(m, Dirty(h, pages)) && IsRenamed(m, pages, MovedAll(m, pages))
    ensures MovedAll(m, Dirty(h, pages)).Keys == MovedAll(m, pages).Keys
    ensures (forall q :: q in pages ==> NextRight(m, pages, MovedAll(m, Dirty(h, pages)), q)) <==> Harmless(m, pages, h)
    ensures Harmless(m, pages, h) ==> MovedAll(m, Dirty(h, pages)) == Dirty(NewPrevs(m, h), MovedAll(m, pages))
  {
    hide DirtOk, Half, Movable, MovedAll, FreePassed, Dirty, IsRenamed, RenPage, Spared, Harmless, NewPrevs, KeysMoved;
    var s := DirtMovable(m, pages, h);
    DirtGraph(m, pages, h);
    GraphMoves(m, pages);
    var f0, f := MovedAll(m, pages), MovedAll(m, Dirty(h, pages));
    forall q | q in pages
      ensures var l := Place(m, q, pages[q]);
        && l in f && l in f0 && f0[l] == RenPage(m, pages[q])
        && f[l] == SetNext(if q in h then SetPrev(f0[l], NewPrev(m, q, h[q])) else f0[l], f[l].next)
        && (NextRight(m, pages, f, q) <==> InOld(m, q) || Spared(m, pages, h, q))
    {
      PageCompared(m, pages, h, s, KeysMoved(m, pages), f0, f, q);
      RenamedAt(m, pages, f0, q);
    }
    SameKeys(m, h, KeysMoved(m, pages), f0, f);
    HarmlessSpares(m, pages, h);
    DirtyKeys(NewPrevs(m, h), f0);
    if Harmless(m, pages, h) {
      forall x | x in f0
        ensures f[x] == Dirty(NewPrevs(m, h), f0)[x]
      {
        var q := PlaceSource(m, pages, f0, x);
        assert NextRight(m, pages, f, q);
        PrevTwice();
        DirtyAt(m, pages, h, f0, q);
      }
    }
  }

  lemma DirtGraph(m: Move, pages: PageMap, h: Prevs)
    requires DirtOk(m, pages, h)
    ensures Graph(pages) && MoveOk(m, pages)
  {
  }

  lemma RenamedAt(m: Move, pages: PageMap, now: PageMap, q: Pgno)
    requires IsRenamed(m, pages, now) && q in pages
    ensures Place(m, q, pages[q]) in now && now[Place(m, q, pages[q])] == RenPage(m, pages[q])
  {
  }

  lemma DirtyKeys(h: Prevs, pages: PageMap)
    ensures Dirty(h, pages).Keys == pages.Keys
  {
  }

  lemma PlaceSource(m: Move, pages: PageMap, now: PageMap, x: Pgno) returns (q: Pgno)
    requires MoveOk(m, pages) && IsRenamed(m, pages, now) && x in now
    ensures q in pages && Place(m, q, pages[q]) == x
  {
    q := if x in pages && Place(m, x, pages[x]) == x then x else Back(m, x);
  }

  /** The links of the new file are where their pages went. */
  lemma DirtyAt(m: Move, pages: PageMap, h: Prevs, now: PageMap, q: Pgno)
    requires DirtOk(m, pages, h) && q in pages && Place(m, q, pages[q]) in now
    ensures var x := Place(m, q, pages[q]);
      Dirty(NewPrevs(m, h), now)[x] == if q in h then SetPrev(now[x], NewPrev(m, q, h[q])) else now[x]
  {
    hide Graph, RenPage;
    NewPrevsAt(m, pages, h);
    var x := Place(m, q, pages[q]);
    if x in NewPrevs(m, h) {
      var r :| r in h && Ren(m, r) == x;
      assert Place(m, r, pages[r]) == x;
      assert r == q;
    }
  }

  lemma SameKeys(m: Move, h: Prevs, now: PageMap, f0: PageMap, f: PageMap)
    requires FreePassed(m, now, m.oldLast + 1, f0) && FreePassed(m, Dirty(h, now), m.oldLast + 1, f)
    ensures f.Keys == f0.Keys
  {
    hide ToldPage2, OwnLinks;
    forall q
      ensures Turn(Dirty(h, now), q, 2) <==> Turn(now, q, 2)
    {
      DirtyTurn(h, now, q, 2);
    }
    BackShift(m);
    forall x
      ensures x in f <==> x in f0
    {
      assert Gone(m, Dirty(h, now), x, m.oldLast + 1) <==> Gone(m, now, x, m.oldLast + 1);
      assert Gone(m, Dirty(h, now), Back(m, x), m.oldLast + 1) <==> Gone(m, now, Back(m, x), m.oldLast + 1);
    }
  }

  lemma BackShift(m: Move)
    ensures forall x :: InNew(m, x) ==> Shift(m, Back(m, x)) == x
    ensures forall x :: InNew(m, x) ==> InOld(m, Back(m, x))
  {
  }

  lemma HarmlessSpares(m: Move, pages: PageMap, h: Prevs)
    ensures Harmless(m, pages, h) <==> forall q :: q in pages && !InOld(m, q) ==> Spared(m, pages, h, q)
  {
    if forall q :: q in pages && !InOld(m, q) ==> Spared(m, pages, h, q) {
      forall w | w in h && InOld(m, w)
        ensures HarmlessAt(m, pages, w, h[w])
      {
        if h[w] in pages && !InOld(m, h[w]) {
          assert Spared(m, pages, h, h[w]);
        }
      }
    }
  }

  // ---------------------------------------------------------------- and back on open

  /** The cut file has such links too, and each is harmless again if it was. */
  lemma CutIsDirty(m: Move, pages: PageMap, h: Prevs, f0: PageMap)
    requires DirtOk(m, pages, h) && IsRenamed(m, pages, f0)
    ensures var cut0, h' := CutRange(m, f0), NewPrevs(m, h);
      && CutRange(m, Dirty(h', f0)) == Dirty(h', cut0)
      && DirtOk(Undo(m), cut0, h')
      && (Harmless(m, pages, h) ==> Harmless(Undo(m), cut0, h'))
  {
    hide IsRenamed, LinksBack, HeadsOk, EntriesOk, NewPrevs, HarmlessAt;
    DirtGraph(m, pages, h);
    RenKeepsGraph(m, pages, f0);
    NewPrevsAt(m, pages, h);
    var cut0, h' := CutRange(m, f0), NewPrevs(m, h);
    assert CutRange(m, Dirty(h', f0)) == Dirty(h', cut0);
    forall x | x in h'
      ensures x in cut0 && cut0[x].FreePage? && cut0[x].prev == INVALID_PGNO
      ensures InOld(Undo(m), x) ==> !InNew(Undo(m), h'[x])
      ensures Harmless(m, pages, h) && InOld(Undo(m), x) ==> HarmlessAt(Undo(m), cut0, x, h'[x])
    {
      var q :| q in h && Ren(m, q) == x;
      HeadCut(m, pages, h, f0, q);
    }
  }

  /** A link of the cut file, and whether it is harmless there. */
  lemma HeadCut(m: Move, pages: PageMap, h: Prevs, f0: PageMap, q: Pgno)
    requires DirtOk(m, pages, h) && IsRenamed(m, pages, f0) && q in h
    ensures var cut0, x := CutRange(m, f0), Ren(m, q);
      && x in cut0 && cut0[x].FreePage? && cut0[x].prev == INVALID_PGNO
      && (InOld(Undo(m), x) <==> InOld(m, q))
      && (InOld(m, q) ==> !InNew(Undo(m), NewPrev(m, q, h[q])))
      && (InOld(m, q) ==> (HarmlessAt(Undo(m), cut0, x, NewPrev(m, q, h[q])) <==> HarmlessAt(m, pages, q, h[q])))
  {
    hide HeadsOk, EntriesOk, IsRenamed, LinksBack;
    DirtGraph(m, pages, h);
    MovedPage(m, pages, f0, q);
    if InOld(m, q) && !InOld(m, h[q]) {
      StaysCut(m, pages, f0, h[q]);
    }
  }

  /** A page that stays is in the cut file, of the same kind and with its next renamed. */
  lemma StaysCut(m: Move, pages: PageMap, f0: PageMap, b: Pgno)
    requires Graph(pages) && MoveOk(m, pages) && IsRenamed(m, pages, f0) && !InOld(m, b) && !InNew(m, b)
    ensures b in CutRange(m, f0) <==> b in pages
    ensures b in pages ==> var cut0, n := CutRange(m, f0), pages[b].next;
      && (cut0[b].FreePage? <==> pages[b].FreePage?) && cut0[b].next == Ren(m, n)
      && (InOld(Undo(m), Ren(m, n)) <==> InOld(m, n))
  {
    hide HeadsOk, EntriesOk, IsRenamed;
    if b in CutRange(m, f0) {
      var r := CutSource(m, pages, f0, b);
    }
    if b in pages {
      RenamedAt(m, pages, f0, b);
      RankRen(m, pages[b]);
      assert LinksBack(pages, b);
      assert pages[b].DeletedPage? ==> pages[b].next == INVALID_PGNO;
    }
  }

  lemma RenBack(m: Move, pages: PageMap, h: Prevs, q: Pgno)
    requires DirtOk(m, pages, h) && q in h
    ensures Ren(Undo(m), Ren(m, q)) == q && NewPrev(Undo(m), Ren(m, q), NewPrev(m, q, h[q])) == h[q]
  {
    hide Graph;
  }

  lemma PrevsBack(m: Move, pages: PageMap, h: Prevs, cut: PageMap)
    requires DirtOk(m, pages, h) && DirtOk(Undo(m), cut, NewPrevs(m, h))
    ensures NewPrevs(Undo(m), NewPrevs(m, h)) == h
  {
    hide DirtOk, NewPrevs, Ren, NewPrev, Undo;
    var h' := NewPrevs(m, h);
    var back := NewPrevs(Undo(m), h');
    NewPrevsAt(m, pages, h);
    NewPrevsAt(Undo(m), cut, h');
    forall q | q in h
      ensures q in back && back[q] == h[q]
    {
      RenBack(m, pages, h, q);
      assert Ren(m, q) in h';
    }
    forall x | x in back
      ensures x in h
    {
      var r :| r in h' && Ren(Undo(m), r) == x;
      var q :| q in h && Ren(m, q) == r;
      RenBack(m, pages, h, q);
    }
    SamePrevs(back, h);
  }

  lemma SamePrevs(a: Prevs, b: Prevs)
    requires forall q :: q in b ==> q in a && a[q] == b[q]
    requires forall q :: q in a ==> q in b
    ensures a == b
  {
    assert forall q :: q in a <==> q in b;
    assert forall q :: q in a ==> a[q] == b[q];
  }

  /** Free pages survive, so the links are on the survivors. */
  lemma DirtySurvivors(m: Move, pages: PageMap, h: Prevs)
    requires DirtOk(m, pages, h)
    ensures CutRange(Undo(m), Dirty(h, Survivors(m, pages))) == Survivors(m, Dirty(h, pages))
  {
    hide Graph;
    var a, b := CutRange(Undo(m), Dirty(h, Survivors(m, pages))), Survivors(m, Dirty(h, pages));
    assert forall p :: p in a <==> p in b;
    assert forall p :: p in a ==> a[p] == b[p];
  }
}
