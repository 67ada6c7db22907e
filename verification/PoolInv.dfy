/** What holds of the page pool between two steps taken under its lock. */
module PoolInv {
  import opened Pages

  const HASHSIZE: nat := 16384
  const CLEANHDR_SIZE: nat := 32
  const WRITE_FRAC: nat := 5
  const NOBODY: Thread := 0
  const TWO31: nat := 0x8000_0000

  /** The address of a bucket. */
  type Id = int
  type Thread = int

  datatype Waiter = Waiter(who: Thread, wakeup: bool)

  /** A page in memory. The newest waiter is the first of the queue. */
  datatype Bkt = Bkt(page: Bytes, num: int, ref: int, waiters: nat, pinned: bool, dirty: bool, locked: bool,
                     owner: Thread, wqh: seq<Waiter>)

  type Bkts = map<Id, Bkt>
  type Disk = map<int, Bytes>

  function HashKey(p: int): (h: nat)
    ensures h < HASHSIZE
  {
    (p - 1 + HASHSIZE) % HASHSIZE
  }

  function Zeros(n: nat): Bytes {
    seq(n, _ => 0 as Byte)
  }

  /** What reading a page of the file gives: pages never written read as zeros. */
  function FileAt(file: Disk, pagesize: nat, p: int): Bytes {
    if p in file then file[p] else Zeros(pagesize)
  }

  // ---------------------------------------------------------------- queues

  predicate Distinct(s: seq<Id>) {
    forall i, j :: 0 <= i < j < |s| ==> s[i] != s[j]
  }

  /** The sequence without the first occurrence of an element. */
  function Without(s: seq<Id>, x: Id): seq<Id> {
    if s == [] then [] else if s[0] == x then s[1..] else [s[0]] + Without(s[1..], x)
  }

  lemma {:induction false} WithoutHas(s: seq<Id>, x: Id)
    requires Distinct(s)
    ensures Distinct(Without(s, x)) && forall y :: y in Without(s, x) <==> y in s && y != x
    ensures x in s ==> |Without(s, x)| == |s| - 1
    ensures x !in s ==> Without(s, x) == s
  {
    if s != [] {
      assert s == [s[0]] + s[1..];
      if s[0] != x {
        WithoutHas(s[1..], x);
        var r := Without(s[1..], x);
        assert s[0] !in r;
        assert Distinct([s[0]] + r);
      } else {
        assert x !in s[1..];
      }
    }
  }

  /** The bucket is on the hash chain of its page number and on no other. */
  ghost predicate HashOk(hqh: seq<seq<Id>>, bkts: Bkts) {
    && |hqh| == HASHSIZE
    && (forall h :: 0 <= h < HASHSIZE ==> Distinct(hqh[h]))
    && (forall h, i :: 0 <= h < HASHSIZE && 0 <= i < |hqh[h]| ==> hqh[h][i] in bkts && HashKey(bkts[hqh[h][i]].num) == h)
    && (forall id :: id in bkts ==> id in hqh[HashKey(bkts[id].num)])
  }

  ghost predicate LruOk(lqh: seq<Id>, bkts: Bkts) {
    && Distinct(lqh)
    && (forall i :: 0 <= i < |lqh| ==> lqh[i] in bkts)
    && (forall id :: id in bkts ==> id in lqh)
  }

  /** No two buckets hold the same page. */
  ghost predicate NumsUnique(bkts: Bkts) {
    forall a, b :: a in bkts && b in bkts && bkts[a].num == bkts[b].num ==> a == b
  }

  ghost predicate Resident(bkts: Bkts, p: int) {
    exists id :: id in bkts && bkts[id].num == p
  }

  /** The order of the LRU queue is the order of last use. */
  ghost predicate Recency(lqh: seq<Id>, used: map<Id, int>, clock: int) {
    && (forall i :: 0 <= i < |lqh| ==> lqh[i] in used && used[lqh[i]] < clock)
    && (forall i, j :: 0 <= i < j < |lqh| && lqh[i] in used && lqh[j] in used ==> used[lqh[i]] < used[lqh[j]])
  }

  lemma HashRemove(hqh: seq<seq<Id>>, bkts: Bkts, id: Id)
    requires HashOk(hqh, bkts) && id in bkts
    ensures var h := HashKey(bkts[id].num); HashOk(hqh[h := Without(hqh[h], id)], bkts - {id})
  {
    var h := HashKey(bkts[id].num);
    WithoutHas(hqh[h], id);
    WithoutAt(hqh[h], id);
    var hqh' := hqh[h := Without(hqh[h], id)];
    forall g, i | 0 <= g < HASHSIZE && 0 <= i < |hqh'[g]|
      ensures hqh'[g][i] in bkts - {id} && HashKey(bkts[hqh'[g][i]].num) == g
    {
      var y := hqh'[g][i];
      if g == h {
        assert y in hqh[h];
        var j :| 0 <= j < |hqh[h]| && hqh[h][j] == y;
      }
    }
  }

  lemma WithoutAt(s: seq<Id>, x: Id)
    requires Distinct(s)
    ensures forall i :: 0 <= i < |Without(s, x)| ==> Without(s, x)[i] in s && Without(s, x)[i] != x
  {
  }

  lemma LruRemove(lqh: seq<Id>, bkts: Bkts, id: Id)
    requires LruOk(lqh, bkts) && id in bkts
    ensures LruOk(Without(lqh, id), bkts - {id}) && |Without(lqh, id)| == |lqh| - 1
  {
    WithoutHas(lqh, id);
    WithoutAt(lqh, id);
    forall i | 0 <= i < |Without(lqh, id)|
      ensures Without(lqh, id)[i] in bkts
    {
      var y := Without(lqh, id)[i];
      var j :| 0 <= j < |lqh| && lqh[j] == y;
    }
  }

  lemma {:induction false} WithoutKeepsOrder(s: seq<Id>, x: Id, used: map<Id, int>, clock: int)
    requires Recency(s, used, clock)
    ensures Recency(Without(s, x), used, clock)
  {
    if s != [] {
      assert forall i :: 0 <= i < |s[1..]| ==> s[1..][i] == s[i + 1];
      if s[0] != x {
        WithoutKeepsOrder(s[1..], x, used, clock);
        WithoutSubset(s[1..], x);
        var r := Without(s[1..], x);
        forall i | 0 <= i < |r|
          ensures r[i] in used && used[s[0]] < used[r[i]]
        {
          var y := r[i];
          assert y in r && y in s[1..];
          var j :| 0 <= j < |s[1..]| && s[1..][j] == r[i];
        }
      }
    }
  }

  lemma {:induction false} WithoutSubset(s: seq<Id>, x: Id)
    ensures forall y :: y in Without(s, x) ==> y in s
  {
    if s != [] {
      WithoutSubset(s[1..], x);
    }
  }

  lemma RecencyTail(lqh: seq<Id>, used: map<Id, int>, clock: int, id: Id)
    requires Recency(lqh, used, clock) && id !in lqh
    ensures Recency(lqh + [id], used[id := clock], clock + 1)
  {
  }

  /** A use moves a bucket from wherever it is to the end. */
  lemma RecencyUse(lqh: seq<Id>, used: map<Id, int>, clock: int, id: Id)
    requires Recency(lqh, used, clock) && Distinct(lqh)
    ensures Recency(Without(lqh, id) + [id], used[id := clock], clock + 1)
  {
    WithoutKeepsOrder(lqh, id, used, clock);
    WithoutHas(lqh, id);
    RecencyTail(Without(lqh, id), used, clock, id);
  }

  // ---------------------------------------------------------------- content

  /** The last content put dirty for each page is in memory, or in the file while the page is
      not in memory or not dirty; the file is known to be long enough to hold it. */
  ghost predicate Coherent(bkts: Bkts, file: Disk, view: Disk, npages: int, pagesize: nat) {
    && (forall id :: id in bkts ==> |bkts[id].page| == pagesize)
    && (forall id :: id in bkts && bkts[id].num in view ==>
          && bkts[id].page == view[bkts[id].num]
          && (bkts[id].dirty || InFile(file, view, npages, bkts[id].num)))
    && (forall p :: p in view ==> Resident(bkts, p) || InFile(file, view, npages, p))
    && (forall p :: p in file ==> |file[p]| == pagesize)
  }

  ghost predicate InFile(file: Disk, view: Disk, npages: int, p: int) {
    p in view && p in file && file[p] == view[p] && p < npages
  }

  // ---------------------------------------------------------------- hand-off

  /** A page has one holder or none; the oldest waiter of a page without a holder has its
      wake-up, no other waiter has one. */
  ghost predicate HandOff(b: Bkt) {
    && b.waiters == |b.wqh|
    && (if b.pinned then b.owner != NOBODY && b.ref == 1 else b.owner == NOBODY && b.ref == 0)
    && (forall i :: 0 <= i < |b.wqh| ==>
          (b.wqh[i].wakeup <==> (!b.pinned && i == |b.wqh| - 1)) && b.wqh[i].who != NOBODY && b.wqh[i].who != b.owner)
    && (forall i, j :: 0 <= i < j < |b.wqh| ==> b.wqh[i].who != b.wqh[j].who)
  }

  ghost predicate HandOffs(bkts: Bkts) {
    forall id :: id in bkts ==> HandOff(bkts[id])
  }

  /** Waiters from the oldest to the newest. */
  function Waiting(q: seq<Waiter>): seq<Thread> {
    if q == [] then [] else Waiting(q[1..]) + [q[0].who]
  }

  lemma {:induction false} WaitingLast(q: seq<Waiter>)
    requires q != []
    ensures Waiting(q) == [q[|q| - 1].who] + Waiting(q[..|q| - 1])
  {
    if |q| > 1 {
      WaitingLast(q[1..]);
      assert q[1..][..|q| - 2] == q[..|q| - 1][1..];
      assert q[..|q| - 1][0] == q[0];
    } else {
      assert q[..0] == [] && q[1..] == [];
    }
  }

  lemma {:induction false} WaitingWake(q: seq<Waiter>, i: nat)
    requires i < |q|
    ensures Waiting(q[i := q[i].(wakeup := true)]) == Waiting(q)
  {
    var r := q[i := q[i].(wakeup := true)];
    if i > 0 {
      WaitingWake(q[1..], i - 1);
      assert r[1..] == q[1..][i - 1 := q[i].(wakeup := true)];
    } else {
      assert r[1..] == q[1..];
    }
  }

  /** A page may leave memory, or change its number, only while nobody waits for it. */
  predicate Evictable(b: Bkt) {
    !b.locked && !b.pinned && b.waiters == 0
  }

  predicate Flushable(b: Bkt) {
    !b.pinned && b.waiters == 0 && b.dirty
  }

  /** Bucket k is the oldest that may be evicted. */
  ghost predicate OldestEvictable(lqh: seq<Id>, bkts: Bkts, k: nat) {
    && k < |lqh| && lqh[k] in bkts && Evictable(bkts[lqh[k]])
    && forall j :: 0 <= j < k && lqh[j] in bkts ==> !Evictable(bkts[lqh[j]])
  }

  ghost predicate Evicted(lqh: seq<Id>, bkts: Bkts, id: Id) {
    exists k: nat :: OldestEvictable(lqh, bkts, k) && id == lqh[k]
  }

  ghost predicate NoneEvictable(bkts: Bkts) {
    forall id :: id in bkts ==> !Evictable(bkts[id])
  }

  /** The buckets differ only in that some that could be flushed are clean now. */
  ghost predicate Flushed(bkts: Bkts, bkts': Bkts) {
    && bkts'.Keys == bkts.Keys
    && forall id :: id in bkts ==> bkts'[id] == bkts[id] || (Flushable(bkts[id]) && bkts'[id] == bkts[id].(dirty := false))
  }

  // ---------------------------------------------------------------- one bucket changes hands

  datatype Flags = Flags(create: bool, dirty: bool, locked: bool)

  function WithFlags(b: Bkt, flags: Flags): Bkt {
    b.(dirty := b.dirty || flags.dirty, locked := b.locked || flags.locked)
  }

  /** A page that has just come into memory. */
  function Loaded(content: Bytes, p: int, flags: Flags, me: Thread): Bkt {
    Bkt(content, p, 1, 0, true, flags.dirty, flags.locked, me, [])
  }

  /** The thread joins the waiters. */
  function Joined(b: Bkt, me: Thread): Bkt {
    b.(waiters := b.waiters + 1, wqh := [Waiter(me, false)] + b.wqh)
  }

  /** A page that is free is taken. */
  function Grabbed(b: Bkt, me: Thread): Bkt {
    b.(ref := b.ref + 1, owner := me, pinned := true)
  }

  /** The holder gives the page up; the oldest waiter gets its wake-up. */
  function Released(b: Bkt, mem: Bytes, dirty: bool): Bkt {
    var w := if b.waiters > 0 && |b.wqh| > 0 then b.wqh[|b.wqh| - 1 := b.wqh[|b.wqh| - 1].(wakeup := true)] else b.wqh;
    b.(page := mem, dirty := b.dirty || dirty, ref := b.ref - 1, owner := NOBODY, pinned := false, wqh := w)
  }

  /** The waiter with the wake-up takes the page. */
  function TakenBy(b: Bkt, me: Thread): Bkt
    requires |b.wqh| > 0
  {
    b.(wqh := b.wqh[..|b.wqh| - 1], waiters := if b.waiters > 0 then b.waiters - 1 else 0, ref := b.ref + 1, owner := me, pinned := true)
  }

  /** A thread joins the waiters of a page it cannot have, and is the newest of them. */
  lemma JoinQueue(b: Bkt, me: Thread)
    requires HandOff(b) && (b.pinned || b.waiters > 0)
    requires me != NOBODY && me != b.owner && forall w :: w in b.wqh ==> w.who != me
    ensures HandOff(Joined(b, me)) && Waiting(Joined(b, me).wqh) == Waiting(b.wqh) + [me]
  {
    assert ([Waiter(me, false)] + b.wqh)[1..] == b.wqh;
  }

  /** The holder gives up the page: the order of the waiters stays. */
  lemma ReleaseHands(b: Bkt, mem: Bytes, dirty: bool)
    requires HandOff(b) && b.pinned
    ensures HandOff(Released(b, mem, dirty)) && Waiting(Released(b, mem, dirty).wqh) == Waiting(b.wqh)
  {
    if |b.wqh| > 0 {
      WaitingWake(b.wqh, |b.wqh| - 1);
    }
  }

  /** A woken waiter is the oldest, finds the page without a holder and becomes its only one. */
  lemma WakeHands(b: Bkt, i: nat)
    requires HandOff(b) && i < |b.wqh| && b.wqh[i].wakeup
    ensures i == |b.wqh| - 1 && !b.pinned
    ensures HandOff(TakenBy(b, b.wqh[i].who))
    ensures Waiting(b.wqh) == [b.wqh[i].who] + Waiting(TakenBy(b, b.wqh[i].who).wqh)
  {
    WaitingLast(b.wqh);
  }

  /** A page nobody has and nobody waits for is taken. */
  lemma GrabHands(b: Bkt, me: Thread)
    requires HandOff(b) && !b.pinned && b.waiters == 0 && me != NOBODY
    ensures HandOff(Grabbed(b, me))
  {
  }

  /** Content, number and marks do not matter to the hand-off. */
  lemma SameHands(b: Bkt, b': Bkt)
    requires HandOff(b) && b' == b.(page := b'.page, num := b'.num, dirty := b'.dirty, locked := b'.locked)
    ensures HandOff(b')
  {
  }

  // ---------------------------------------------------------------- the whole pool

  ghost predicate Queues(lqh: seq<Id>, hqh: seq<seq<Id>>, bkts: Bkts) {
    LruOk(lqh, bkts) && HashOk(hqh, bkts) && NumsUnique(bkts)
  }

  ghost predicate Bounds(bkts: Bkts, nextId: int) {
    forall id :: id in bkts ==> id < nextId && 0 <= bkts[id].num < TWO31
  }

  /** What is known of a pool but not stored: the content last put dirty for each page, and when
      each bucket was last used. */
  datatype Shadow = Shadow(view: Disk, used: map<Id, int>, clock: int)

  ghost predicate PoolOk(lqh: seq<Id>, hqh: seq<seq<Id>>, bkts: Bkts, file: Disk, view: Disk, npages: int, pagesize: nat,
                         used: map<Id, int>, clock: int, nextId: int)
  {
    && Queues(lqh, hqh, bkts) && Coherent(bkts, file, view, npages, pagesize)
    && Recency(lqh, used, clock) && HandOffs(bkts) && Bounds(bkts, nextId)
    && pagesize >= 512
  }
}
