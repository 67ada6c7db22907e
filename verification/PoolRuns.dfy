/** Runs of the page pool: what one step of a thread may change and shows, a lock with a queue
    for each page, and an uncached page map. */
module PoolRuns {
  import opened Pages
  import opened PoolInv

  // ---------------------------------------------------------------- steps

  datatype Limits = Limits(pagesize: nat, maxcache: nat, readonly: bool)

  /** The pool between two steps. */
  datatype Snap = Snap(bkts: Bkts, lqh: seq<Id>, curcache: nat, maxpgno: int, view: Disk, used: map<Id, int>, clock: int)

  /** A step that a thread may ask for. */
  datatype Action =
    | AGet(p: int, flags: Flags)
    | AWake(id: Id, flags: Flags)
    | ANew(p: int, request: bool, flags: Flags)
    | APut(id: Id, mem: Bytes, dirty: bool)
    | AChange(id: Id, newnum: int, mem: Bytes)
    | ADelete(id: Id, mem: Bytes)
    | ASync

  /** What a step shows from outside. A page given back, deleted or kept counts its content when
      it is `dirty`; a page that is to be deleted is kept when it is waited for. */
  datatype Event =
    | Skipped
    | Refused(who: Thread, p: int)
    | Queued(who: Thread, id: Id, p: int)
    | Read(who: Thread, id: Id, p: int, content: Bytes)
    | Woken(who: Thread, id: Id, p: int, content: Bytes)
    | Created(who: Thread, id: Id, p: int, content: Bytes)
    | GaveBack(who: Thread, id: Id, p: int, content: Bytes, dirty: bool)
    | Moved(who: Thread, id: Id, p: int, q: int, content: Bytes)
    | Deleted(who: Thread, id: Id, p: int, content: Bytes, dirty: bool)
    | Kept(who: Thread, id: Id, p: int, content: Bytes, dirty: bool)
    | Synced

  /** The thread holds the bucket. */
  predicate Holds(bkts: Bkts, id: Id, me: Thread) {
    id in bkts && bkts[id].pinned && bkts[id].owner == me
  }

  /** The thread neither holds the page nor waits for it. */
  predicate Away(b: Bkt, me: Thread) {
    !(b.pinned && b.owner == me) && forall w :: w in b.wqh ==> w.who != me
  }

  /** A thread holds the page or waits for it. */
  predicate Busy(bkts: Bkts, p: int) {
    exists id :: id in bkts && bkts[id].num == p && (bkts[id].pinned || bkts[id].waiters > 0)
  }

  /** Content that differs is put dirty. */
  predicate EditOk(pagesize: nat, b: Bkt, mem: Bytes, dirty: bool) {
    |mem| == pagesize && (mem == b.page || dirty || b.dirty)
  }

  function NewNumber(s: Snap, p: int, request: bool): int {
    if request then p else s.maxpgno + 1
  }

  /** A thread does not get a page that it holds or waits for, puts, renumbers and deletes only
      what it holds, edits only what it puts dirty, and creates or renumbers to a page that is
      not in memory. */
  ghost predicate Allowed(c: Limits, s: Snap, me: Thread, a: Action) {
    && me != NOBODY && s.maxpgno < 0xffff_ffff
    && match a
       case AGet(p, flags) => 0 <= p < TWO31 && forall id :: id in s.bkts && s.bkts[id].num == p ==> Away(s.bkts[id], me)
       case AWake(id, flags) => id in s.bkts && Waiter(me, true) in s.bkts[id].wqh
       case ANew(p, request, flags) => 0 <= NewNumber(s, p, request) < TWO31 && !Resident(s.bkts, NewNumber(s, p, request))
       case APut(id, mem, dirty) => Holds(s.bkts, id, me) && EditOk(c.pagesize, s.bkts[id], mem, dirty)
       case AChange(id, newnum, mem) =>
         Holds(s.bkts, id, me) && |mem| == c.pagesize && (s.bkts[id].waiters == 0 || EditOk(c.pagesize, s.bkts[id], mem, false))
         && 0 <= newnum < TWO31 && (newnum == s.bkts[id].num || !Resident(s.bkts, newnum))
       case ADelete(id, mem) => Holds(s.bkts, id, me) && EditOk(c.pagesize, s.bkts[id], mem, false)
       case ASync => true
  }

  /** The bucket goes to the end of the LRU queue, and is the one used last. */
  ghost predicate Used(s: Snap, s': Snap, id: Id) {
    s'.lqh == Without(s.lqh, id) + [id] && s'.used == s.used[id := s.clock] && s'.clock == s.clock + 1
  }

  /** A page came into memory as b: in new memory, for which there was room or no page could be
      had, or in the bucket of the oldest page that could be; other pages may be flushed then. */
  ghost predicate Brought(c: Limits, s: Snap, s': Snap, id: Id, b: Bkt) {
    && id in s'.bkts && s'.bkts[id] == b && Used(s, s', id)
    && if s'.curcache > s.curcache then
         && s'.curcache == s.curcache + 1 && (s.curcache <= c.maxcache || NoneEvictable(s.bkts))
         && id !in s.bkts && s'.bkts - {id} == s.bkts
       else
         && s'.curcache == s.curcache > c.maxcache
         && id in s.bkts && Evicted(s.lqh, s.bkts, id) && Flushed(s.bkts - {id}, s'.bkts - {id})
  }

  /** The step a does from s to s', and shows as e. */
  ghost predicate Step(c: Limits, s: Snap, me: Thread, a: Action, e: Event, s': Snap) {
    if !Allowed(c, s, me, a) then e == Skipped && s' == s
    else
      && s'.view == After(s.view, e)
      && match a
         case AGet(p, flags) => StepGet(c, s, me, p, flags, e, s')
         case AWake(id, flags) =>
           && e == Woken(me, id, s.bkts[id].num, s.bkts[id].page) && Agrees(s.view, e)
           && s' == s.(bkts := s.bkts[id := WithFlags(TakenBy(s.bkts[id], me), flags)], lqh := s'.lqh, used := s'.used, clock := s'.clock)
           && Used(s, s', id)
         case ANew(p, request, flags) =>
           && e.Created? && e == Created(me, e.id, NewNumber(s, p, request), e.content)
           && |e.content| == c.pagesize >= CLEANHDR_SIZE && e.content[..CLEANHDR_SIZE] == Zeros(CLEANHDR_SIZE)
           && Brought(c, s, s', e.id, Loaded(e.content, e.p, flags, me))
           && s'.maxpgno == (if e.p > s.maxpgno then e.p else s.maxpgno)
         case APut(id, mem, dirty) =>
           && e == GaveBack(me, id, s.bkts[id].num, mem, dirty || s.bkts[id].dirty)
           && s' == s.(bkts := s.bkts[id := Released(s.bkts[id], mem, dirty)], view := s'.view)
         case AChange(id, newnum, mem) =>
           if s.bkts[id].waiters > 0 then
             && e == GaveBack(me, id, s.bkts[id].num, mem, s.bkts[id].dirty)
             && s' == s.(bkts := s.bkts[id := Released(s.bkts[id], mem, false)], view := s'.view)
           else
             && e == Moved(me, id, s.bkts[id].num, newnum, mem) && Used(s, s', id)
             && s' == s.(bkts := s.bkts[id := Released(s.bkts[id], mem, true).(num := newnum)], view := s'.view,
                         lqh := s'.lqh, used := s'.used, clock := s'.clock)
         case ADelete(id, mem) =>
           if s.bkts[id].waiters > 0 then
             && e == Kept(me, id, s.bkts[id].num, mem, s.bkts[id].dirty)
             && s' == s.(bkts := s.bkts[id := s.bkts[id].(page := mem)], view := s'.view)
           else
             && e == Deleted(me, id, s.bkts[id].num, mem, s.bkts[id].dirty)
             && s.curcache > 0
             && s' == s.(bkts := s.bkts - {id}, lqh := Without(s.lqh, id), curcache := s.curcache - 1, view := s'.view)
         case ASync =>
           && e == Synced && s' == s.(bkts := s'.bkts) && Flushed(s.bkts, s'.bkts)
           && forall id :: id in s'.bkts && !s'.bkts[id].pinned && s'.bkts[id].waiters == 0 ==> !s'.bkts[id].dirty
  }

  ghost predicate StepGet(c: Limits, s: Snap, me: Thread, p: int, flags: Flags, e: Event, s': Snap) {
    if flags.dirty && c.readonly then e == Refused(me, p) && s' == s
    else if Busy(s.bkts, p) then
      && e.Queued? && e == Queued(me, e.id, p) && e.id in s.bkts && s.bkts[e.id].num == p
      && s' == s.(bkts := s.bkts[e.id := Joined(s.bkts[e.id], me)])
    else
      && e.Read? && e == Read(me, e.id, p, e.content) && Agrees(s.view, e)
      && if Resident(s.bkts, p) then
           && e.id in s.bkts && s.bkts[e.id].num == p && e.content == s.bkts[e.id].page && Used(s, s', e.id)
           && s' == s.(bkts := s.bkts[e.id := WithFlags(Grabbed(s.bkts[e.id], me), flags)], lqh := s'.lqh, used := s'.used, clock := s'.clock)
         else
           && Brought(c, s, s', e.id, Loaded(e.content, p, flags, me))
           && (s'.maxpgno == s.maxpgno || (flags.create && s'.maxpgno == p > s.maxpgno))
  }

  // ---------------------------------------------------------------- an uncached page map

  /** Storing keeps the content, moving takes it to the other number, creating forgets it. */
  function After(view: Disk, e: Event): Disk {
    match e
    case GaveBack(who, id, p, content, dirty) => if dirty then view[p := content] else view
    case Deleted(who, id, p, content, dirty) => if dirty then view[p := content] else view
    case Kept(who, id, p, content, dirty) => if dirty then view[p := content] else view
    case Moved(who, id, p, q, content) => (view - {p})[q := content]
    case Created(who, id, p, content) => view - {p}
    case _ => view
  }

  function ViewAfter(view: Disk, es: seq<Event>): Disk {
    if es == [] then view else After(ViewAfter(view, es[..|es| - 1]), es[|es| - 1])
  }

  /** A thread that gets a page sees what the page map holds for it. */
  predicate Agrees(view: Disk, e: Event) {
    (e.Read? || e.Woken?) && e.p in view ==> e.content == view[e.p]
  }

  ghost predicate ReadsAgree(view: Disk, es: seq<Event>) {
    forall i :: 0 <= i < |es| ==> Agrees(ViewAfter(view, es[..i]), es[i])
  }

  predicate Stores(e: Event, p: int) {
    ((e.GaveBack? || e.Deleted? || e.Kept?) && e.dirty && e.p == p) || (e.Moved? && e.q == p)
  }

  predicate TakesAway(e: Event, p: int) {
    (e.Moved? && e.p == p && e.q != p) || (e.Created? && e.p == p)
  }

  predicate Leaves(es: seq<Event>, i: nat, p: int) {
    forall j :: i <= j < |es| ==> !Stores(es[j], p) && !TakesAway(es[j], p)
  }

  /** The page map holds for each page what was stored last, if the page was not moved away or
      created anew since. */
  lemma {:induction false} LastStoreCounts(view: Disk, es: seq<Event>, i: nat, p: int)
    requires i < |es| && Stores(es[i], p) && Leaves(es, i + 1, p)
    ensures p in ViewAfter(view, es) && ViewAfter(view, es)[p] == es[i].content
  {
    var n := |es| - 1;
    if i < n {
      assert es[..n][i] == es[i] && Leaves(es[..n], i + 1, p);
      LastStoreCounts(view, es[..n], i, p);
      assert !Stores(es[n], p) && !TakesAway(es[n], p);
    }
  }

  /** A page that was neither stored nor taken away is as it was. */
  lemma {:induction false} NeverStored(view: Disk, es: seq<Event>, p: int)
    requires Leaves(es, 0, p)
    ensures p in ViewAfter(view, es) <==> p in view
    ensures p in view ==> ViewAfter(view, es)[p] == view[p]
  {
    if es != [] {
      var n := |es| - 1;
      assert Leaves(es[..n], 0, p) && !Stores(es[n], p) && !TakesAway(es[n], p);
      NeverStored(view, es[..n], p);
    }
  }

  // ---------------------------------------------------------------- a lock with a queue

  /** Who holds a page, and who waits for it, oldest first. */
  datatype Lock = Lock(holder: Thread, queue: seq<Thread>)

  ghost function LockOf(bkts: Bkts, p: int): Lock {
    if Resident(bkts, p) then
      var id :| id in bkts && bkts[id].num == p;
      Lock(bkts[id].owner, Waiting(bkts[id].wqh))
    else Lock(NOBODY, [])
  }

  /** A page goes to one thread while nobody holds it: to the oldest waiter if there is one, and
      only that one. It is given up by its holder, and leaves memory or its number only while
      nobody waits. */
  predicate Legal(l: Lock, p: int, e: Event) {
    match e
    case Queued(who, id, q) => q == p ==> l != Lock(NOBODY, []) && who != l.holder && who !in l.queue
    case Read(who, id, q, content) => q == p ==> l == Lock(NOBODY, []) && who != NOBODY
    case Created(who, id, q, content) => q == p ==> l == Lock(NOBODY, []) && who != NOBODY
    case Woken(who, id, q, content) => q == p ==> l.holder == NOBODY && l.queue != [] && l.queue[0] == who != NOBODY
    case GaveBack(who, id, q, content, dirty) => q == p ==> l.holder == who != NOBODY
    case Kept(who, id, q, content, dirty) => q == p ==> l.holder == who != NOBODY && l.queue != []
    case Deleted(who, id, q, content, dirty) => q == p ==> l == Lock(who, []) && who != NOBODY
    case Moved(who, id, q, r, content) => (q == p ==> l == Lock(who, []) && who != NOBODY) && (r == p && q != p ==> l == Lock(NOBODY, []))
    case _ => true
  }

  function Next(l: Lock, p: int, e: Event): Lock {
    match e
    case Queued(who, id, q) => if q == p then Lock(l.holder, l.queue + [who]) else l
    case Read(who, id, q, content) => if q == p then Lock(who, []) else l
    case Created(who, id, q, content) => if q == p then Lock(who, []) else l
    case Woken(who, id, q, content) => if q == p then Lock(who, if l.queue == [] then [] else l.queue[1..]) else l
    case GaveBack(who, id, q, content, dirty) => if q == p then Lock(NOBODY, l.queue) else l
    case Deleted(who, id, q, content, dirty) => if q == p then Lock(NOBODY, []) else l
    case Moved(who, id, q, r, content) => if q == p || r == p then Lock(NOBODY, []) else l
    case _ => l
  }

  function LockAfter(l: Lock, p: int, es: seq<Event>): Lock {
    if es == [] then l else Next(LockAfter(l, p, es[..|es| - 1]), p, es[|es| - 1])
  }

  ghost predicate LegalRun(l: Lock, p: int, es: seq<Event>) {
    forall i :: 0 <= i < |es| ==> Legal(LockAfter(l, p, es[..i]), p, es[i])
  }

  /** The thread comes to hold the page. */
  predicate Obtains(e: Event, p: int, t: Thread) {
    (e.Read? || e.Created? || e.Woken?) && e.p == p && e.who == t
  }

  /** The thread ceases to hold the page. */
  predicate GivesUp(e: Event, p: int, t: Thread) {
    (e.GaveBack? || e.Deleted? || e.Moved?) && e.p == p && e.who == t
  }

  /** While nobody gives the page up, its holder keeps it. */
  lemma {:induction false} HolderKeeps(l: Lock, p: int, es: seq<Event>, i: nat, j: nat, t: Thread)
    requires LegalRun(l, p, es) && i < j <= |es| && Obtains(es[i], p, t)
    requires forall k :: i < k < j ==> !GivesUp(es[k], p, t)
    ensures LockAfter(l, p, es[..j]).holder == t != NOBODY
    decreases j
  {
    var pre := es[..j - 1];
    assert es[..j][..j - 1] == pre && Legal(LockAfter(l, p, pre), p, es[j - 1]);
    if i < j - 1 {
      HolderKeeps(l, p, es, i, j - 1, t);
    }
  }

  /** Between two times that threads come to hold a page, the first gives it up: no two threads
      hold a page at once. */
  lemma MutualExclusion(l: Lock, p: int, es: seq<Event>, i: nat, j: nat, t: Thread, u: Thread)
    requires LegalRun(l, p, es) && i < j < |es| && Obtains(es[i], p, t) && Obtains(es[j], p, u)
    ensures exists k :: i < k < j && GivesUp(es[k], p, t)
  {
    assert Legal(LockAfter(l, p, es[..j]), p, es[j]);
    if forall k :: i < k < j ==> !GivesUp(es[k], p, t) {
      HolderKeeps(l, p, es, i, j, t);
    }
  }

  function QueuedBy(e: Event, p: int): seq<Thread> {
    if e.Queued? && e.p == p then [e.who] else []
  }

  function WokenBy(e: Event, p: int): seq<Thread> {
    if e.Woken? && e.p == p then [e.who] else []
  }

  /** Those who queued for the page, in order. */
  function Came(es: seq<Event>, p: int): seq<Thread> {
    if es == [] then [] else Came(es[..|es| - 1], p) + QueuedBy(es[|es| - 1], p)
  }

  /** Those who were woken for the page, in order. */
  function Served(es: seq<Event>, p: int): seq<Thread> {
    if es == [] then [] else Served(es[..|es| - 1], p) + WokenBy(es[|es| - 1], p)
  }

  /** Waiters get the page in the order in which they came: those served, then those who wait
      still, are those who came. */
  lemma {:induction false} ArrivalOrder(l: Lock, p: int, es: seq<Event>)
    requires LegalRun(l, p, es)
    ensures l.queue + Came(es, p) == Served(es, p) + LockAfter(l, p, es).queue
  {
    hide Legal, Next, QueuedBy, WokenBy;
    if es != [] {
      var n := |es| - 1;
      var pre, e := es[..n], es[n];
      assert forall i :: 0 <= i < n ==> pre[..i] == es[..i];
      ArrivalOrder(l, p, pre);
      ArrivalStep(l.queue, Came(pre, p), Served(pre, p), LockAfter(l, p, pre), p, e);
      assert l.queue + (Came(pre, p) + QueuedBy(e, p)) == (l.queue + Came(pre, p)) + QueuedBy(e, p);
    } else {
      assert Came(es, p) == [] && Served(es, p) == [];
    }
  }

  lemma ArrivalStep(q: seq<Thread>, came: seq<Thread>, served: seq<Thread>, m: Lock, p: int, e: Event)
    requires Legal(m, p, e) && q + came == served + m.queue
    ensures (q + came) + QueuedBy(e, p) == (served + WokenBy(e, p)) + Next(m, p, e).queue
  {
    if e.Woken? && e.p == p {
      assert m.queue == [e.who] + m.queue[1..];
    }
  }

  // ---------------------------------------------------------------- the pool is such a lock

  ghost predicate SnapOk(s: Snap) {
    NumsUnique(s.bkts) && HandOffs(s.bkts) && LruOk(s.lqh, s.bkts) && Recency(s.lqh, s.used, s.clock)
  }

  lemma LockAt(bkts: Bkts, id: Id)
    requires NumsUnique(bkts) && id in bkts
    ensures LockOf(bkts, bkts[id].num) == Lock(bkts[id].owner, Waiting(bkts[id].wqh))
  {
    assert Resident(bkts, bkts[id].num);
  }

  /** A page whose bucket has the same holder and waiters has the same lock. */
  lemma LockSame(bkts: Bkts, bkts': Bkts, p: int)
    requires NumsUnique(bkts) && NumsUnique(bkts')
    requires forall x :: x in bkts && bkts[x].num == p ==>
      x in bkts' && bkts'[x].num == p && bkts'[x].owner == bkts[x].owner && Waiting(bkts'[x].wqh) == Waiting(bkts[x].wqh)
    requires forall x :: x in bkts' && bkts'[x].num == p ==> x in bkts && bkts[x].num == p
    ensures LockOf(bkts', p) == LockOf(bkts, p)
  {
    if Resident(bkts, p) {
      var x :| x in bkts && bkts[x].num == p;
      LockAt(bkts, x);
      LockAt(bkts', x);
    } else {
      assert !Resident(bkts', p);
    }
  }

  /** One bucket changes hands; the locks of all other pages stay. */
  lemma LockUpdate(bkts: Bkts, id: Id, b: Bkt, p: int)
    requires NumsUnique(bkts) && id in bkts && b.num == bkts[id].num
    ensures LockOf(bkts[id := b], p) == if p == b.num then Lock(b.owner, Waiting(b.wqh)) else LockOf(bkts, p)
  {
    var bkts' := bkts[id := b];
    assert NumsUnique(bkts');
    if p == b.num {
      LockAt(bkts', id);
    } else {
      LockSame(bkts, bkts', p);
    }
  }

  /** A bucket that is not held and not waited for leaves; no lock changes. */
  lemma LockRemove(bkts: Bkts, id: Id, p: int)
    requires NumsUnique(bkts) && HandOffs(bkts) && id in bkts && !bkts[id].pinned && bkts[id].waiters == 0
    ensures LockOf(bkts - {id}, p) == LockOf(bkts, p)
  {
    if p == bkts[id].num {
      LockAt(bkts, id);
      assert HandOff(bkts[id]);
      assert !Resident(bkts - {id}, p);
    } else {
      LockSame(bkts, bkts - {id}, p);
    }
  }

  lemma LockInsert(bkts: Bkts, id: Id, b: Bkt, p: int)
    requires NumsUnique(bkts) && id !in bkts && !Resident(bkts, b.num)
    ensures LockOf(bkts, b.num) == Lock(NOBODY, [])
    ensures LockOf(bkts[id := b], p) == if p == b.num then Lock(b.owner, Waiting(b.wqh)) else LockOf(bkts, p)
  {
    var bkts' := bkts[id := b];
    forall x | x in bkts
      ensures bkts[x].num != b.num
    {
    }
    assert NumsUnique(bkts');
    if p == b.num {
      LockAt(bkts', id);
    } else {
      LockSame(bkts, bkts', p);
    }
  }

  lemma LockFlushed(bkts: Bkts, bkts': Bkts, p: int)
    requires NumsUnique(bkts) && Flushed(bkts, bkts')
    ensures LockOf(bkts', p) == LockOf(bkts, p) && NumsUnique(bkts')
  {
    LockSame(bkts, bkts', p);
  }

  /** A page comes into memory in a thread's hands. */
  lemma LockBrought(c: Limits, s: Snap, s': Snap, id: Id, b: Bkt, p: int)
    requires SnapOk(s) && Brought(c, s, s', id, b) && !Resident(s.bkts, b.num)
    ensures LockOf(s.bkts, b.num) == Lock(NOBODY, [])
    ensures LockOf(s'.bkts, p) == if p == b.num then Lock(b.owner, Waiting(b.wqh)) else LockOf(s.bkts, p)
  {
    hide Without, Recency, HandOff;
    var rest := s'.bkts - {id};
    assert s'.bkts == rest[id := b];
    if s'.curcache > s.curcache {
      LockInsert(s.bkts, id, b, p);
    } else {
      var k: nat :| OldestEvictable(s.lqh, s.bkts, k) && id == s.lqh[k];
      LockRemove(s.bkts, id, p);
      LockRemove(s.bkts, id, b.num);
      LockFlushed(s.bkts - {id}, rest, p);
      LockFlushed(s.bkts - {id}, rest, b.num);
      assert !Resident(rest, b.num);
      LockInsert(rest, id, b, p);
    }
  }

  lemma {:induction false} WaitingIn(q: seq<Waiter>, t: Thread)
    ensures t in Waiting(q) <==> exists w :: w in q && w.who == t
  {
    if q != [] {
      WaitingIn(q[1..], t);
      assert q == [q[0]] + q[1..];
      if q[0].who == t {
        assert q[0] in q;
      }
    }
  }

  /** A held page has a lock with a holder, a page with waiters one with a queue. */
  lemma LockHeld(bkts: Bkts, id: Id)
    requires NumsUnique(bkts) && HandOffs(bkts) && id in bkts
    ensures var b, l := bkts[id], LockOf(bkts, bkts[id].num);
      && l == Lock(b.owner, Waiting(b.wqh)) && (l.holder != NOBODY <==> b.pinned)
      && |l.queue| == b.waiters == |b.wqh|
  {
    LockAt(bkts, id);
    assert HandOff(bkts[id]);
    WaitingSize(bkts[id].wqh);
  }

  lemma {:induction false} WaitingSize(q: seq<Waiter>)
    ensures |Waiting(q)| == |q|
  {
    if q != [] {
      WaitingSize(q[1..]);
    }
  }

  /** One step is legal for the lock of every page, and changes it as it should. */
  lemma StepLocks(c: Limits, s: Snap, me: Thread, a: Action, e: Event, s': Snap, p: int)
    requires SnapOk(s) && Step(c, s, me, a, e, s')
    ensures Legal(LockOf(s.bkts, p), p, e) && LockOf(s'.bkts, p) == Next(LockOf(s.bkts, p), p, e)
  {
    hide LockOf, LruOk, Recency, Without, Brought, Resident, HandOff, Flushed;
    if Allowed(c, s, me, a) {
      match a
      case AGet(p0, flags) => GetLocks(c, s, me, p0, flags, e, s', p);
      case AWake(id, flags) => WakeLocks(s, me, id, flags, p);
      case ANew(p0, request, flags) => LockBrought(c, s, s', e.id, Loaded(e.content, e.p, flags, me), p);
      case APut(id, mem, dirty) => PutLocks(s, me, id, mem, dirty, p);
      case AChange(id, newnum, mem) =>
        PutLocks(s, me, id, mem, false, p);
        if s.bkts[id].waiters == 0 {
          MoveLocks(s, me, id, newnum, mem, p);
        }
      case ADelete(id, mem) => DeleteLocks(s, me, id, mem, p);
      case ASync => LockFlushed(s.bkts, s'.bkts, p);
    }
  }

  lemma GetLocks(c: Limits, s: Snap, me: Thread, p0: int, flags: Flags, e: Event, s': Snap, p: int)
    requires SnapOk(s) && Allowed(c, s, me, AGet(p0, flags)) && StepGet(c, s, me, p0, flags, e, s')
    ensures Legal(LockOf(s.bkts, p), p, e) && LockOf(s'.bkts, p) == Next(LockOf(s.bkts, p), p, e)
  {
    hide LockOf, LruOk, Recency, Without, Brought, HandOff, Flushed;
    if e.Refused? {
    } else if Resident(s.bkts, p0) {
      var b := s.bkts[e.id];
      LockHeld(s.bkts, e.id);
      assert HandOff(b) && Away(b, me);
      if e.Queued? {
        OwnerOf(b, me);
        JoinQueue(b, me);
        WaitingIn(b.wqh, me);
        LockUpdate(s.bkts, e.id, Joined(b, me), p);
      } else {
        assert !b.pinned && b.waiters == 0;
        LockUpdate(s.bkts, e.id, WithFlags(Grabbed(b, me), flags), p);
      }
    } else {
      LockBrought(c, s, s', e.id, Loaded(e.content, p0, flags, me), p);
    }
  }

  /** A bucket that is not pinned has no owner. */
  lemma OwnerOf(b: Bkt, me: Thread)
    requires HandOff(b) && me != NOBODY && !(b.pinned && b.owner == me)
    ensures b.owner != me
  {
  }

  lemma WakeLocks(s: Snap, me: Thread, id: Id, flags: Flags, p: int)
    requires SnapOk(s) && id in s.bkts && Waiter(me, true) in s.bkts[id].wqh && me != NOBODY
    ensures var b := s.bkts[id]; var e := Woken(me, id, b.num, b.page);
      && Legal(LockOf(s.bkts, p), p, e)
      && LockOf(s.bkts[id := WithFlags(TakenBy(b, me), flags)], p) == Next(LockOf(s.bkts, p), p, e)
  {
    hide LockOf, LruOk, Recency, HandOff;
    var b := s.bkts[id];
    var i :| 0 <= i < |b.wqh| && b.wqh[i] == Waiter(me, true);
    assert HandOff(b);
    WakeHands(b, i);
    LockHeld(s.bkts, id);
    LockUpdate(s.bkts, id, WithFlags(TakenBy(b, me), flags), p);
  }

  lemma PutLocks(s: Snap, me: Thread, id: Id, mem: Bytes, dirty: bool, p: int)
    requires SnapOk(s) && Holds(s.bkts, id, me) && me != NOBODY
    ensures var b := s.bkts[id]; var e := GaveBack(me, id, b.num, mem, dirty || b.dirty);
      && Legal(LockOf(s.bkts, p), p, e) && LockOf(s.bkts[id := Released(b, mem, dirty)], p) == Next(LockOf(s.bkts, p), p, e)
  {
    hide LockOf, LruOk, Recency, HandOff;
    var b := s.bkts[id];
    assert HandOff(b);
    ReleaseHands(b, mem, dirty);
    LockHeld(s.bkts, id);
    LockUpdate(s.bkts, id, Released(b, mem, dirty), p);
  }

  lemma MoveLocks(s: Snap, me: Thread, id: Id, newnum: int, mem: Bytes, p: int)
    requires SnapOk(s) && Holds(s.bkts, id, me) && me != NOBODY && s.bkts[id].waiters == 0
    requires newnum == s.bkts[id].num || !Resident(s.bkts, newnum)
    ensures var b := s.bkts[id]; var e := Moved(me, id, b.num, newnum, mem);
      && Legal(LockOf(s.bkts, p), p, e)
      && LockOf(s.bkts[id := Released(b, mem, true).(num := newnum)], p) == Next(LockOf(s.bkts, p), p, e)
  {
    hide LruOk, Recency, HandOff;
    var b := s.bkts[id];
    var b1 := Released(b, mem, true);
    var mid := s.bkts[id := b1];
    assert HandOff(b);
    ReleaseHands(b, mem, true);
    LockHeld(s.bkts, id);
    LockUpdate(s.bkts, id, b1, p);
    NumsUpdate(s.bkts, id, b1);
    HandsOfUpdate(s.bkts, id, b1);
    assert b1.waiters == 0 && !b1.pinned;
    LockRemove(mid, id, p);
    var rest := mid - {id};
    forall x | x in rest
      ensures rest[x].num != newnum
    {
      assert s.bkts[x] == rest[x];
    }
    LockInsert(rest, id, b1.(num := newnum), p);
    assert rest[id := b1.(num := newnum)] == s.bkts[id := b1.(num := newnum)];
    if newnum != b.num {
      assert LockOf(s.bkts, newnum) == Lock(NOBODY, []);
    }
  }

  lemma NumsUpdate(bkts: Bkts, id: Id, b: Bkt)
    requires NumsUnique(bkts) && id in bkts && b.num == bkts[id].num
    ensures NumsUnique(bkts[id := b]) && NumsUnique(bkts[id := b] - {id})
  {
  }

  lemma HandsOfUpdate(bkts: Bkts, id: Id, b: Bkt)
    requires HandOffs(bkts) && HandOff(b)
    ensures HandOffs(bkts[id := b])
  {
  }

  lemma DeleteLocks(s: Snap, me: Thread, id: Id, mem: Bytes, p: int)
    requires SnapOk(s) && Holds(s.bkts, id, me) && me != NOBODY
    ensures var b := s.bkts[id]; var kept, gone := Kept(me, id, b.num, mem, b.dirty), Deleted(me, id, b.num, mem, b.dirty);
      if b.waiters > 0 then
        Legal(LockOf(s.bkts, p), p, kept) && LockOf(s.bkts[id := b.(page := mem)], p) == Next(LockOf(s.bkts, p), p, kept)
      else
        Legal(LockOf(s.bkts, p), p, gone) && LockOf(s.bkts - {id}, p) == Next(LockOf(s.bkts, p), p, gone)
  {
    hide LruOk, Recency;
    var b := s.bkts[id];
    LockHeld(s.bkts, id);
    if b.waiters > 0 {
      LockUpdate(s.bkts, id, b.(page := mem), p);
    } else if p == b.num {
      assert !Resident(s.bkts - {id}, p);
    } else {
      LockSame(s.bkts, s.bkts - {id}, p);
    }
  }

  // ---------------------------------------------------------------- nobody else is disturbed

  /** Whatever a thread does, the pages that others hold stay in memory, theirs; pages waited for
      stay under their numbers. Of the waiters only the oldest may leave, if it takes the step. */
  lemma OthersStay(c: Limits, s: Snap, me: Thread, a: Action, e: Event, s': Snap, id: Id)
    requires SnapOk(s) && Step(c, s, me, a, e, s') && id in s.bkts
    ensures s.bkts[id].pinned && s.bkts[id].owner != me ==>
      && id in s'.bkts && s'.bkts[id].num == s.bkts[id].num && s'.bkts[id].pinned && s'.bkts[id].owner == s.bkts[id].owner
      && s'.bkts[id].page == s.bkts[id].page
    ensures s.bkts[id].waiters > 0 ==>
      && id in s'.bkts && s'.bkts[id].num == s.bkts[id].num
      && var q, q' := Waiting(s.bkts[id].wqh), Waiting(s'.bkts[id].wqh);
         q <= q' || (q != [] && q[0] == me && q' == q[1..])
  {
    hide LruOk, Recency, Without, Waiting;
    assert HandOff(s.bkts[id]);
    if s.bkts[id].waiters > 0 {
      WaitersStay(c, s, me, a, e, s', id);
    }
    if Allowed(c, s, me, a) && s.bkts[id].pinned && s.bkts[id].owner != me {
      match a
      case AGet(p, flags) =>
        if e.Read? && !Resident(s.bkts, p) {
          BroughtOthers(c, s, s', e.id, Loaded(e.content, p, flags, me), id);
        }
      case ANew(p, request, flags) => BroughtOthers(c, s, s', e.id, Loaded(e.content, e.p, flags, me), id);
      case AWake(x, flags) =>
      case APut(x, mem, dirty) =>
      case AChange(x, newnum, mem) =>
      case ADelete(x, mem) =>
      case ASync =>
    }
  }

  lemma WaitersStay(c: Limits, s: Snap, me: Thread, a: Action, e: Event, s': Snap, id: Id)
    requires SnapOk(s) && Step(c, s, me, a, e, s') && id in s.bkts && s.bkts[id].waiters > 0
    ensures id in s'.bkts && s'.bkts[id].num == s.bkts[id].num
    ensures var q, q' := Waiting(s.bkts[id].wqh), Waiting(s'.bkts[id].wqh);
      q <= q' || (q != [] && q[0] == me && q' == q[1..])
  {
    hide LruOk, Recency, Without, Waiting;
    var b := s.bkts[id];
    assert HandOff(b);
    if Allowed(c, s, me, a) {
      match a
      case AGet(p, flags) =>
        if e.Queued? && e.id == id {
          JoinQueue(b, me);
        } else if e.Read? && !Resident(s.bkts, p) {
          BroughtOthers(c, s, s', e.id, Loaded(e.content, p, flags, me), id);
        }
      case ANew(p, request, flags) => BroughtOthers(c, s, s', e.id, Loaded(e.content, e.p, flags, me), id);
      case AWake(x, flags) =>
        if x == id {
          var i :| 0 <= i < |b.wqh| && b.wqh[i] == Waiter(me, true);
          WakeHands(b, i);
        }
      case APut(x, mem, dirty) =>
        if x == id {
          ReleaseHands(b, mem, dirty);
        }
      case AChange(x, newnum, mem) =>
        if x == id {
          ReleaseHands(b, mem, false);
        }
      case ADelete(x, mem) =>
      case ASync =>
    }
  }

  lemma BroughtOthers(c: Limits, s: Snap, s': Snap, fresh0: Id, b: Bkt, id: Id)
    requires Brought(c, s, s', fresh0, b) && id in s.bkts && (s.bkts[id].pinned || s.bkts[id].waiters > 0)
    ensures id in s'.bkts && s'.bkts[id] == s.bkts[id]
  {
    hide Without;
    if s'.curcache > s.curcache {
      assert id in s'.bkts - {fresh0};
    } else {
      var k: nat :| OldestEvictable(s.lqh, s.bkts, k) && fresh0 == s.lqh[k];
      assert id in s.bkts - {fresh0} && id in s'.bkts - {fresh0};
    }
  }

  /** What a thread asks for when it gets a page: marks once set stay set, and a page got to be
      locked or dirty is. */
  lemma MarksCount(c: Limits, s: Snap, me: Thread, a: Action, e: Event, s': Snap)
    requires SnapOk(s) && Step(c, s, me, a, e, s') && (e.Read? || e.Created? || e.Woken?)
    ensures (a.AGet? || a.ANew? || a.AWake?) && e.id in s'.bkts
    ensures a.flags.locked ==> s'.bkts[e.id].locked
    ensures a.flags.dirty ==> s'.bkts[e.id].dirty
    ensures s'.bkts[e.id].pinned && s'.bkts[e.id].owner == me && s'.bkts[e.id].num == e.p && s'.bkts[e.id].page == e.content
  {
    hide LruOk, Recency, Without, HandOffs;
  }

  /** A locked page stays in memory, locked, through every step but its deletion. */
  lemma LockedStays(c: Limits, s: Snap, me: Thread, a: Action, e: Event, s': Snap, id: Id)
    requires SnapOk(s) && Step(c, s, me, a, e, s') && id in s.bkts && s.bkts[id].locked
    ensures (e.Deleted? && e.id == id) || (id in s'.bkts && s'.bkts[id].locked)
  {
    hide LruOk, Recency, Without, HandOffs, LockOf;
    if Allowed(c, s, me, a) {
      match a
      case AGet(p, flags) =>
        if e.Read? && !Resident(s.bkts, p) {
          BroughtLocked(c, s, s', e.id, Loaded(e.content, p, flags, me), id);
        }
      case ANew(p, request, flags) => BroughtLocked(c, s, s', e.id, Loaded(e.content, e.p, flags, me), id);
      case AWake(x, flags) =>
      case APut(x, mem, dirty) =>
      case AChange(x, newnum, mem) =>
      case ADelete(x, mem) =>
      case ASync =>
    }
  }

  lemma BroughtLocked(c: Limits, s: Snap, s': Snap, fresh0: Id, b: Bkt, id: Id)
    requires Brought(c, s, s', fresh0, b) && id in s.bkts && s.bkts[id].locked
    ensures id in s'.bkts && s'.bkts[id].locked
  {
    hide Without;
    if s'.curcache > s.curcache {
      assert id in s'.bkts - {fresh0};
    } else {
      var k: nat :| OldestEvictable(s.lqh, s.bkts, k) && fresh0 == s.lqh[k];
      assert id in s.bkts - {fresh0} && id in s'.bkts - {fresh0};
    }
  }

  /** What is evicted when a page comes in: nothing while there is room; else the oldest page that is
      not held, waited for or locked, and nothing if there is none. */
  lemma EvictsOldest(c: Limits, s: Snap, s': Snap, id: Id, b: Bkt, x: Id)
    requires Brought(c, s, s', id, b)
    ensures x in s.bkts && x != id ==> x in s'.bkts
    ensures id in s.bkts ==> s.curcache > c.maxcache && !s.bkts[id].pinned && s.bkts[id].waiters == 0 && !s.bkts[id].locked
    ensures id in s.bkts ==> exists k :: 0 <= k < |s.lqh| && s.lqh[k] == id && forall j :: 0 <= j < k && s.lqh[j] in s.bkts ==>
      s.bkts[s.lqh[j]].pinned || s.bkts[s.lqh[j]].waiters > 0 || s.bkts[s.lqh[j]].locked
    ensures id !in s.bkts && s.curcache > c.maxcache ==>
      (x in s.bkts ==> s.bkts[x].pinned || s.bkts[x].waiters > 0 || s.bkts[x].locked)
  {
    hide Without;
    if s'.curcache > s.curcache {
      assert x in s.bkts ==> x in s'.bkts - {id};
    } else {
      var k: nat :| OldestEvictable(s.lqh, s.bkts, k) && id == s.lqh[k];
      assert x in s.bkts && x != id ==> x in s.bkts - {id} && x in s'.bkts - {id};
    }
  }

  /** No wake-up is lost: while nobody holds a page that is waited for, its oldest waiter may take
      it, and no other waiter may. */
  lemma OldestMayWake(c: Limits, s: Snap, id: Id, t: Thread, flags: Flags)
    requires SnapOk(s) && s.maxpgno < 0xffff_ffff && id in s.bkts
    requires LockOf(s.bkts, s.bkts[id].num).holder == NOBODY && t in LockOf(s.bkts, s.bkts[id].num).queue
    ensures Allowed(c, s, t, AWake(id, flags)) <==> t == LockOf(s.bkts, s.bkts[id].num).queue[0]
  {
    hide LruOk, Recency, LockOf;
    var b := s.bkts[id];
    LockHeld(s.bkts, id);
    WaitingIn(b.wqh, t);
    WaitingLast(b.wqh);
    assert HandOff(b);
    var last := |b.wqh| - 1;
    assert b.wqh[last].wakeup && b.wqh[last] == Waiter(b.wqh[last].who, true);
  }

  // ---------------------------------------------------------------- runs

  /** The states of a run and what each of its steps shows. */
  ghost predicate Trace(c: Limits, ss: seq<Snap>, run: seq<(Thread, Action)>, es: seq<Event>) {
    && |ss| == |run| + 1 && |es| == |run|
    && (forall i :: 0 <= i < |ss| ==> SnapOk(ss[i]))
    && (forall i :: 0 <= i < |run| ==> Step(c, ss[i], run[i].0, run[i].1, es[i], ss[i + 1]))
  }

  lemma TraceStep(c: Limits, ss: seq<Snap>, run: seq<(Thread, Action)>, es: seq<Event>, r: (Thread, Action), e: Event, s: Snap)
    requires Trace(c, ss, run, es) && Step(c, ss[|run|], r.0, r.1, e, s) && SnapOk(s)
    ensures Trace(c, ss + [s], run + [r], es + [e])
  {
    hide Step, SnapOk;
  }

  lemma TracePrefix(c: Limits, ss: seq<Snap>, run: seq<(Thread, Action)>, es: seq<Event>, n: nat)
    requires Trace(c, ss, run, es) && n <= |run|
    ensures Trace(c, ss[..n + 1], run[..n], es[..n])
  {
    hide Step, SnapOk;
  }

  /** Every run is legal for the lock of every page, which ends as the events say. */
  lemma {:induction false} TraceLocks(c: Limits, ss: seq<Snap>, run: seq<(Thread, Action)>, es: seq<Event>, p: int)
    requires Trace(c, ss, run, es)
    ensures LegalRun(LockOf(ss[0].bkts, p), p, es)
    ensures LockOf(ss[|run|].bkts, p) == LockAfter(LockOf(ss[0].bkts, p), p, es)
    decreases |run|
  {
    hide Step, SnapOk, LockOf, Legal, Next;
    if |run| > 0 {
      var n := |run| - 1;
      TracePrefix(c, ss, run, es, n);
      TraceLocks(c, ss[..n + 1], run[..n], es[..n], p);
      StepLocks(c, ss[n], run[n].0, run[n].1, es[n], ss[n + 1], p);
      forall i | 0 <= i < |es|
        ensures Legal(LockAfter(LockOf(ss[0].bkts, p), p, es[..i]), p, es[i])
      {
        if i < n {
          assert es[..n][..i] == es[..i] && es[..n][i] == es[i];
        }
      }
    }
  }

  /** In every run a locked page stays in memory until it is deleted. */
  lemma {:induction false} TraceLocked(c: Limits, ss: seq<Snap>, run: seq<(Thread, Action)>, es: seq<Event>, i: nat, j: nat, id: Id)
    requires Trace(c, ss, run, es) && i <= j <= |run| && id in ss[i].bkts && ss[i].bkts[id].locked
    requires forall k :: i <= k < j ==> !(es[k].Deleted? && es[k].id == id)
    ensures id in ss[j].bkts && ss[j].bkts[id].locked
    decreases j
  {
    hide Step, SnapOk;
    if i < j {
      TraceLocked(c, ss, run, es, i, j - 1, id);
      LockedStays(c, ss[j - 1], run[j - 1].0, run[j - 1].1, es[j - 1], ss[j], id);
    }
  }

  /** Every run does to the pages what it does to an uncached page map, and shows its content. */
  lemma {:induction false} TraceView(c: Limits, ss: seq<Snap>, run: seq<(Thread, Action)>, es: seq<Event>)
    requires Trace(c, ss, run, es)
    ensures ss[|run|].view == ViewAfter(ss[0].view, es) && ReadsAgree(ss[0].view, es)
    decreases |run|
  {
    hide SnapOk, Agrees, After;
    if |run| > 0 {
      var n := |run| - 1;
      TracePrefix(c, ss, run, es, n);
      TraceView(c, ss[..n + 1], run[..n], es[..n]);
      StepView(c, ss[n], run[n].0, run[n].1, es[n], ss[n + 1]);
      forall i | 0 <= i < |es|
        ensures Agrees(ViewAfter(ss[0].view, es[..i]), es[i])
      {
        if i < n {
          assert es[..n][..i] == es[..i] && es[..n][i] == es[i];
        }
      }
    }
  }

  lemma StepView(c: Limits, s: Snap, me: Thread, a: Action, e: Event, s': Snap)
    requires Step(c, s, me, a, e, s')
    ensures s'.view == After(s.view, e) && Agrees(s.view, e)
  {
  }
}
