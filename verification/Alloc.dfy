/** How each allocator step changes the free lists. */
module Alloc {
  import opened Pages
  import opened Levels
  import opened StoreInv

  /** The pages on a free list, as pages of the list or as entries. */
  ghost function FreeSet(roles: Roles): set<Pgno> {
    set p | p in roles && IsFree(roles[p])
  }

  /** A free-list page has content. */
  lemma MapPageThere(heads: seq<Pgno>, fchain: seq<seq<Pgno>>, pages: PageMap, roles: Roles, m: Pgno)
    requires FreeChains(heads, fchain, pages, roles)
    requires m in roles && roles[m].FreeMap?
    ensures m in pages && pages[m].FreePage? && pages[m].curr == m
  {
  }

  // ---------------------------------------------------------------- entries

  ghost predicate SameFrees(pages: PageMap, pages': PageMap, roles: Roles) {
    forall m :: m in roles && roles[m].FreeMap? ==> Frees(pages', m) == Frees(pages, m)
  }

  ghost predicate SameFreeRoles(roles: Roles, roles': Roles) {
    && roles.Keys <= roles'.Keys
    && (forall p :: p in roles && IsFree(roles[p]) ==> p in roles' && roles'[p] == roles[p])
    && (forall p :: p in roles' && IsFree(roles'[p]) ==> p in roles && roles'[p] == roles[p])
  }

  lemma EntriesFrame(pages: PageMap, roles: Roles, pages': PageMap, roles': Roles)
    requires FreeEntries(pages, roles)
    requires SameFreeRoles(roles, roles') && SameFrees(pages, pages', roles)
    ensures FreeEntries(pages', roles')
  {
    forall m, j | m in roles' && roles'[m].FreeMap? && 0 <= j < |Frees(pages', m)|
      ensures Frees(pages', m)[j] in roles' && roles'[Frees(pages', m)[j]] == Listed(m, j)
    {
      assert Frees(pages, m)[j] == Frees(pages', m)[j];
    }
  }

  lemma EntriesPop(pages: PageMap, roles: Roles, m: Pgno, pages': PageMap)
    requires FreeEntries(pages, roles)
    requires m in roles && roles[m].FreeMap? && Frees(pages, m) != []
    requires forall x :: x != m ==> Frees(pages', x) == Frees(pages, x)
    requires Frees(pages', m) == Frees(pages, m)[..|Frees(pages, m)| - 1]
    ensures var n := |Frees(pages, m)|; var num := Frees(pages, m)[n - 1];
      num in roles && roles[num] == Listed(m, n - 1) && FreeEntries(pages', roles[num := Held])
  {
    var n := |Frees(pages, m)|;
    var num := Frees(pages, m)[n - 1];
    var roles' := roles[num := Held];
    forall x, j | x in roles' && roles'[x].FreeMap? && 0 <= j < |Frees(pages', x)|
      ensures Frees(pages', x)[j] in roles' && roles'[Frees(pages', x)[j]] == Listed(x, j)
    {
      assert Frees(pages, x)[j] == Frees(pages', x)[j];
    }
    forall p | p in roles' && roles'[p].Listed?
      ensures roles'[p].m in roles' && roles'[roles'[p].m].FreeMap?
      ensures roles'[p].j < |Frees(pages', roles'[p].m)| && Frees(pages', roles'[p].m)[roles'[p].j] == p
    {
      assert roles[p] == roles'[p];
    }
  }

  lemma EntriesPush(pages: PageMap, roles: Roles, m: Pgno, p: Pgno, pages': PageMap)
    requires FreeEntries(pages, roles)
    requires m in roles && roles[m].FreeMap? && p in roles && roles[p].Held?
    requires forall x :: x != m && x != p ==> Frees(pages', x) == Frees(pages, x)
    requires Frees(pages', m) == Frees(pages, m) + [p]
    ensures FreeEntries(pages', roles[p := Listed(m, |Frees(pages, m)|)])
  {
    var roles' := roles[p := Listed(m, |Frees(pages, m)|)];
    forall x, j | x in roles' && roles'[x].FreeMap? && 0 <= j < |Frees(pages', x)|
      ensures Frees(pages', x)[j] in roles' && roles'[Frees(pages', x)[j]] == Listed(x, j)
    {
      if x != m || j < |Frees(pages, m)| {
        assert Frees(pages, x)[j] == Frees(pages', x)[j];
      }
    }
    forall q | q in roles' && roles'[q].Listed?
      ensures roles'[q].m in roles' && roles'[roles'[q].m].FreeMap?
      ensures roles'[q].j < |Frees(pages', roles'[q].m)| && Frees(pages', roles'[q].m)[roles'[q].j] == q
    {
      if q != p {
        assert roles[q] == roles'[q];
      }
    }
  }

  /** An empty list page joins or leaves without moving an entry. */
  lemma EntriesSwap(pages: PageMap, roles: Roles, p: Pgno, pages': PageMap, r: Role)
    requires FreeEntries(pages, roles)
    requires p in roles
    requires (roles[p].Held? && r.FreeMap? && Frees(pages', p) == [])
             || (roles[p].FreeMap? && r.Held? && Frees(pages, p) == [])
    requires forall q :: q != p ==> Frees(pages', q) == Frees(pages, q)
    ensures FreeEntries(pages', roles[p := r])
  {
    var roles' := roles[p := r];
    forall m, j | m in roles' && roles'[m].FreeMap? && 0 <= j < |Frees(pages', m)|
      ensures Frees(pages', m)[j] in roles' && roles'[Frees(pages', m)[j]] == Listed(m, j)
    {
      assert Frees(pages, m)[j] == Frees(pages', m)[j];
    }
    forall q | q in roles' && roles'[q].Listed?
      ensures roles'[q].m in roles' && roles'[roles'[q].m].FreeMap?
      ensures roles'[q].j < |Frees(pages', roles'[q].m)| && Frees(pages', roles'[q].m)[roles'[q].j] == q
    {
      assert roles[q] == roles'[q];
    }
  }

  // ---------------------------------------------------------------- chains of list pages

  /** Reading a chain of list pages needs their roles and links only. */
  lemma FreeChainFrame(lv: nat, head: Pgno, c: seq<Pgno>, pages: PageMap, roles: Roles,
                       pages': PageMap, roles': Roles)
    requires FreeChainOk(lv, head, c, pages, roles) && roles.Keys <= roles'.Keys
    requires forall i :: 0 <= i < |c| ==> c[i] in roles' && roles'[c[i]] == FreeMap(lv)
    requires forall i :: 0 <= i < |c| ==>
               c[i] in pages' && pages'[c[i]].FreePage?
               && pages'[c[i]].curr == pages[c[i]].curr && pages'[c[i]].next == pages[c[i]].next
               && pages'[c[i]].prev == pages[c[i]].prev
    ensures FreeChainOk(lv, head, c, pages', roles')
  {
  }

  ghost predicate SameMapPages(pages: PageMap, pages': PageMap, roles: Roles) {
    forall m :: m in roles && roles[m].FreeMap? && m in pages && pages[m].FreePage? ==>
      && m in pages' && pages'[m].FreePage? && pages'[m].curr == pages[m].curr && pages'[m].next == pages[m].next
      && pages'[m].prev == pages[m].prev
  }

  ghost predicate SameMapRoles(roles: Roles, roles': Roles) {
    && roles.Keys <= roles'.Keys
    && (forall p :: p in roles && roles[p].FreeMap? ==> p in roles' && roles'[p] == roles[p])
    && (forall p :: p in roles' && roles'[p].FreeMap? ==> p in roles && roles'[p] == roles[p])
  }

  lemma ChainsFrame(heads: seq<Pgno>, fchain: seq<seq<Pgno>>, pages: PageMap, roles: Roles,
                    pages': PageMap, roles': Roles)
    requires FreeChains(heads, fchain, pages, roles)
    requires SameMapRoles(roles, roles') && SameMapPages(pages, pages', roles)
    ensures FreeChains(heads, fchain, pages', roles')
  {
  }

  /** Replacing the chain of one level. */
  lemma ChainsReplace(heads: seq<Pgno>, fchain: seq<seq<Pgno>>, pages: PageMap, roles: Roles,
                      lv: nat, head: Pgno, c: seq<Pgno>, pages': PageMap, roles': Roles)
    requires FreeChains(heads, fchain, pages, roles) && lv < NCACHED
    requires FreeChainOk(lv, head, c, pages', roles') && roles.Keys <= roles'.Keys
    requires forall m :: m in roles && roles[m].FreeMap? && roles[m].lv != lv ==>
               m in roles' && roles'[m] == roles[m] && (m in pages ==> m in pages' && pages'[m] == pages[m])
    requires forall m :: m in roles' && roles'[m].FreeMap? && roles'[m].lv != lv ==> m in roles && roles[m] == roles'[m]
    requires forall m :: m in roles' && roles'[m] == FreeMap(lv) ==> m in c
    ensures FreeChains(heads[lv := head], fchain[lv := c], pages', roles')
  {
    var heads', fchain' := heads[lv := head], fchain[lv := c];
    forall l | 0 <= l < NCACHED
      ensures FreeChainOk(l, heads'[l], fchain'[l], pages', roles')
    {
      if l != lv {
        assert FreeChainOk(l, heads[l], fchain[l], pages, roles);
        FreeChainFrame(l, heads[l], fchain[l], pages, roles, pages', roles');
      }
    }
  }

  // ---------------------------------------------------------------- allocator steps

  /** Free pages have the same content. */
  ghost predicate SameFreePages(pages: PageMap, pages': PageMap, roles: Roles) {
    forall p :: p in roles && IsFree(roles[p]) ==> SamePage(pages, pages', p)
  }

  /** The free lists read only pages and roles of free pages. */
  lemma FreeInvFrame(heads: seq<Pgno>, fchain: seq<seq<Pgno>>, pages: PageMap, roles: Roles,
                     pages': PageMap, roles': Roles)
    requires FreeInv(heads, fchain, pages, roles)
    requires SameFreeRoles(roles, roles')
    requires SameFreePages(pages, pages', roles)
    ensures FreeInv(heads, fchain, pages', roles')
  {
    forall p | p in roles && IsFree(roles[p])
      ensures SamePage(pages, pages', p)
    {
    }
    ChainsFrame(heads, fchain, pages, roles, pages', roles');
    forall m | m in roles && roles[m].FreeMap?
      ensures Frees(pages', m) == Frees(pages, m)
    {
      MapPageThere(heads, fchain, pages, roles, m);
    }
    EntriesFrame(pages, roles, pages', roles');
  }

  /** Taking the last entry of the first list page of a level. */
  lemma PopEntry(heads: seq<Pgno>, fchain: seq<seq<Pgno>>, pages: PageMap, roles: Roles, lv: nat)
    requires FreeInv(heads, fchain, pages, roles)
    requires lv < NCACHED && heads[lv] != INVALID_PGNO && Frees(pages, heads[lv]) != []
    ensures var m := heads[lv]; var n := |Frees(pages, m)|; var num := Frees(pages, m)[n - 1];
      && num in roles && roles[num] == Listed(m, n - 1)
      && FreeInv(heads, fchain, pages[m := pages[m].(frees := pages[m].frees[..n - 1])], roles[num := Held])
  {
    hide FreeEntries, FreeChainOk;
    var m := heads[lv];
    assert FreeChainOk(lv, heads[lv], fchain[lv], pages, roles);
    ChainHead(lv, m, fchain[lv], pages, roles);
    var n := |pages[m].frees|;
    var num := Frees(pages, m)[n - 1];
    var pages' := pages[m := pages[m].(frees := pages[m].frees[..n - 1])];
    EntriesPop(pages, roles, m, pages');
    ChainsFrame(heads, fchain, pages, roles, pages', roles[num := Held]);
  }

  /** Taking an empty first list page itself. */
  lemma PopMap(heads: seq<Pgno>, fchain: seq<seq<Pgno>>, pages: PageMap, roles: Roles, lv: nat)
    requires FreeInv(heads, fchain, pages, roles)
    requires lv < NCACHED && heads[lv] != INVALID_PGNO && Frees(pages, heads[lv]) == []
    ensures fchain[lv] != []
    ensures var m := heads[lv];
      && m in roles && roles[m] == FreeMap(lv) && m in pages
      && FreeInv(heads[lv := pages[m].next], fchain[lv := fchain[lv][1..]], pages, roles[m := Held])
  {
    var m := heads[lv];
    var c := fchain[lv];
    assert FreeChainOk(lv, heads[lv], c, pages, roles);
    EntriesSwap(pages, roles, m, pages, Held);
    var roles' := roles[m := Held];
    ShorterChain(lv, c, pages, roles);
    forall x | x in roles' && roles'[x] == FreeMap(lv)
      ensures x in c[1..]
    {
      assert x in c;
    }
    ChainsReplace(heads, fchain, pages, roles, lv, pages[m].next, c[1..], pages, roles');
  }

  lemma ShorterChain(lv: nat, c: seq<Pgno>, pages: PageMap, roles: Roles)
    requires c != [] && FreeChainOk(lv, c[0], c, pages, roles)
    ensures FreeChainOk(lv, pages[c[0]].next, c[1..], pages, roles[c[0] := Held])
  {
  }

  /** Writing a page number into a list page. */
  lemma PushEntry(heads: seq<Pgno>, fchain: seq<seq<Pgno>>, pages: PageMap, roles: Roles, m: Pgno, p: Pgno,
                  pg: Page)
    requires FreeInv(heads, fchain, pages, roles)
    requires m in roles && roles[m].FreeMap? && m in pages && pages[m].FreePage?
    requires p in roles && roles[p].Held? && pg == DeletedPage(p, INVALID_PGNO, INVALID_PGNO)
    ensures FreeInv(heads, fchain, pages[m := pages[m].(frees := pages[m].frees + [p])][p := pg],
                    roles[p := Listed(m, |pages[m].frees|)])
  {
    hide FreeChains;
    hide FreeEntries;
    var pages' := pages[m := pages[m].(frees := pages[m].frees + [p])][p := pg];
    EntriesPush(pages, roles, m, p, pages');
    ChainsFrame(heads, fchain, pages, roles, pages', roles[p := Listed(m, |pages[m].frees|)]);
  }

  /** Making a page the first list page of a level. */
  lemma PushFirstMap(heads: seq<Pgno>, fchain: seq<seq<Pgno>>, pages: PageMap, roles: Roles, lv: nat, p: Pgno)
    requires FreeInv(heads, fchain, pages, roles)
    requires lv < NCACHED && heads[lv] == INVALID_PGNO && INVALID_PGNO !in roles
    requires p in roles && roles[p].Held?
    ensures FreeInv(heads[lv := p], fchain[lv := [p]], pages[p := FreePage(p, INVALID_PGNO, INVALID_PGNO, [])],
                    roles[p := FreeMap(lv)])
  {
    var pages', roles' := pages[p := FreePage(p, INVALID_PGNO, INVALID_PGNO, [])], roles[p := FreeMap(lv)];
    assert FreeChainOk(lv, heads[lv], fchain[lv], pages, roles);
    assert fchain[lv] == [];
    EntriesSwap(pages, roles, p, pages', FreeMap(lv));
    assert FreeChainOk(lv, p, [p], pages', roles');
    ChainsReplace(heads, fchain, pages, roles, lv, p, [p], pages', roles');
  }

  /** Chaining a page after the last list page of a level. */
  lemma PushLastMap(heads: seq<Pgno>, fchain: seq<seq<Pgno>>, pages: PageMap, roles: Roles, lv: nat, p: Pgno)
    requires FreeInv(heads, fchain, pages, roles)
    requires lv < NCACHED && fchain[lv] != []
    requires p in roles && roles[p].Held? && p != INVALID_PGNO
    ensures var m := fchain[lv][|fchain[lv]| - 1];
      && m in pages && m in roles && roles[m] == FreeMap(lv)
      && FreeInv(heads, fchain[lv := fchain[lv] + [p]],
                 pages[m := SetNext(pages[m], p)][p := FreePage(p, m, INVALID_PGNO, [])], roles[p := FreeMap(lv)])
  {
    hide FreeChainOk, FreeEntries;
    var c := fchain[lv];
    var m := c[|c| - 1];
    assert FreeChainOk(lv, heads[lv], c, pages, roles);
    ChainMember(lv, heads[lv], c, pages, roles, |c| - 1);
    var pages', roles' := pages[m := SetNext(pages[m], p)][p := FreePage(p, m, INVALID_PGNO, [])],
                          roles[p := FreeMap(lv)];
    EntriesSwap(pages, roles, p, pages', FreeMap(lv));
    LongerChain(lv, heads[lv], c, pages, roles, p);
    assert heads[lv := heads[lv]] == heads;
    ChainsReplace(heads, fchain, pages, roles, lv, heads[lv], c + [p], pages', roles');
  }

  lemma ChainHead(lv: nat, head: Pgno, c: seq<Pgno>, pages: PageMap, roles: Roles)
    requires FreeChainOk(lv, head, c, pages, roles) && head != INVALID_PGNO
    ensures c != [] && c[0] == head
    ensures head in pages && pages[head].FreePage? && head in roles && roles[head] == FreeMap(lv)
  {
  }

  lemma ChainMember(lv: nat, head: Pgno, c: seq<Pgno>, pages: PageMap, roles: Roles, i: nat)
    requires FreeChainOk(lv, head, c, pages, roles) && i < |c|
    ensures c[i] in pages && pages[c[i]].FreePage? && c[i] in roles && roles[c[i]] == FreeMap(lv)
    ensures pages[c[i]].next == Follows(c, i) && pages[c[i]].curr == c[i]
    ensures i > 0 ==> pages[c[i]].prev == c[i - 1]
  {
  }

  lemma LongerChain(lv: nat, head: Pgno, c: seq<Pgno>, pages: PageMap, roles: Roles, p: Pgno)
    requires c != [] && FreeChainOk(lv, head, c, pages, roles)
    requires p in roles && roles[p].Held?
    ensures var m := c[|c| - 1];
      FreeChainOk(lv, head, c + [p], pages[m := SetNext(pages[m], p)][p := FreePage(p, m, INVALID_PGNO, [])],
                  roles[p := FreeMap(lv)])
  {
    var m := c[|c| - 1];
    var pages', roles' := pages[m := SetNext(pages[m], p)][p := FreePage(p, m, INVALID_PGNO, [])], roles[p := FreeMap(lv)];
    var c' := c + [p];
    assert p !in c;
    forall i | 0 <= i < |c'|
      ensures c'[i] in roles' && roles'[c'[i]] == FreeMap(lv)
      ensures c'[i] in pages' && pages'[c'[i]].FreePage? && pages'[c'[i]].curr == c'[i]
      ensures pages'[c'[i]].next == Follows(c', i) && (i > 0 ==> pages'[c'[i]].prev == Before(c', i))
    {
      if i < |c| {
        ChainMember(lv, head, c, pages, roles, i);
        assert i < |c| - 1 ==> c[i] != m;
      }
    }
  }
}
