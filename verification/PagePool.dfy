/** The page cache in front of the file. Each method is one step taken under the pool's lock;
    any order of steps by any threads is a run of the pool. */
module PagePool {
  import opened Pages
  import opened PoolInv
  import opened PoolRuns
  import M = MergeSort

  // ---------------------------------------------------------------- content lemmas

  function Longer(npages: int, p: int): int {
    if p >= npages then p + 1 else npages
  }

  lemma WriteKeeps(bkts: Bkts, file: Disk, view: Disk, npages: int, pagesize: nat, id: Id)
    requires Coherent(bkts, file, view, npages, pagesize) && id in bkts && NumsUnique(bkts)
    ensures var b := bkts[id];
      Coherent(bkts[id := b.(dirty := false)], file[b.num := b.page], view, Longer(npages, b.num), pagesize)
  {
    var b := bkts[id];
    var bkts', file', npages' := bkts[id := b.(dirty := false)], file[b.num := b.page], Longer(npages, b.num);
    forall p | p in view
      ensures Resident(bkts', p) || InFile(file', view, npages', p)
      ensures InFile(file, view, npages, p) ==> InFile(file', view, npages', p)
    {
      if Resident(bkts, p) {
        var x :| x in bkts && bkts[x].num == p;
        assert x in bkts' && bkts'[x].num == p;
      }
    }
  }

  /** A page that is in the file may leave memory. */
  lemma RemoveKeeps(bkts: Bkts, file: Disk, view: Disk, npages: int, pagesize: nat, id: Id)
    requires Coherent(bkts, file, view, npages, pagesize) && id in bkts && !bkts[id].dirty
    ensures Coherent(bkts - {id}, file, view, npages, pagesize)
  {
    forall p | p in view
      ensures Resident(bkts - {id}, p) || InFile(file, view, npages, p)
    {
      if Resident(bkts, p) && !InFile(file, view, npages, p) {
        var x :| x in bkts && bkts[x].num == p;
        assert x in bkts - {id};
      }
    }
  }

  lemma InsertKeeps(bkts: Bkts, file: Disk, view: Disk, npages: int, pagesize: nat, id: Id, b: Bkt, view': Disk)
    requires Coherent(bkts, file, view, npages, pagesize) && id !in bkts && !Resident(bkts, b.num)
    requires |b.page| == pagesize
    requires (view' == view && b.page == FileAt(file, pagesize, b.num)) || view' == view - {b.num}
    ensures Coherent(bkts[id := b], file, view', npages, pagesize) && (NumsUnique(bkts) ==> NumsUnique(bkts[id := b]))
  {
    var bkts' := bkts[id := b];
    forall p | p in view'
      ensures Resident(bkts', p) || InFile(file, view', npages, p)
    {
      if Resident(bkts, p) {
        var x :| x in bkts && bkts[x].num == p;
        assert x in bkts' && bkts'[x].num == p;
      } else {
        assert InFile(file, view, npages, p);
      }
    }
    forall x | x in bkts' && bkts'[x].num in view'
      ensures bkts'[x].page == view'[bkts'[x].num]
      ensures bkts'[x].dirty || InFile(file, view', npages, bkts'[x].num)
    {
      if x == id {
        assert InFile(file, view, npages, b.num);
      } else {
        assert bkts[x].dirty || InFile(file, view, npages, bkts[x].num);
      }
    }
  }

  /** Changing flags, holder and waiters of a bucket. */
  lemma TouchKeeps(bkts: Bkts, file: Disk, view: Disk, npages: int, pagesize: nat, id: Id, b: Bkt)
    requires Coherent(bkts, file, view, npages, pagesize) && id in bkts
    requires b.page == bkts[id].page && b.num == bkts[id].num && (bkts[id].dirty ==> b.dirty)
    ensures Coherent(bkts[id := b], file, view, npages, pagesize)
  {
    var bkts' := bkts[id := b];
    forall p | p in view && Resident(bkts, p)
      ensures Resident(bkts', p)
    {
      var x :| x in bkts && bkts[x].num == p;
      assert x in bkts' && bkts'[x].num == p;
    }
  }

  lemma TouchQueues(lqh: seq<Id>, hqh: seq<seq<Id>>, bkts: Bkts, id: Id, b: Bkt)
    requires Queues(lqh, hqh, bkts) && id in bkts && b.num == bkts[id].num
    ensures Queues(lqh, hqh, bkts[id := b])
  {
  }

  /** A page is put back dirty with new content. */
  lemma PutKeeps(bkts: Bkts, file: Disk, view: Disk, npages: int, pagesize: nat, id: Id, b: Bkt)
    requires Coherent(bkts, file, view, npages, pagesize) && id in bkts && NumsUnique(bkts)
    requires b.num == bkts[id].num && |b.page| == pagesize && b.dirty
    ensures Coherent(bkts[id := b], file, view[b.num := b.page], npages, pagesize)
  {
    var bkts', view' := bkts[id := b], view[b.num := b.page];
    assert id in bkts' && bkts'[id].num == b.num;
    forall x | x in bkts' && bkts'[x].num in view' && x != id
      ensures bkts'[x].page == view'[bkts'[x].num]
      ensures bkts'[x].dirty || InFile(file, view', npages, bkts'[x].num)
    {
      assert bkts[x].dirty || InFile(file, view, npages, bkts[x].num);
    }
    forall p | p in view'
      ensures Resident(bkts', p) || InFile(file, view', npages, p)
    {
      if p != b.num && Resident(bkts, p) {
        var x :| x in bkts && bkts[x].num == p;
        assert x in bkts' && bkts'[x].num == p;
      } else if p != b.num {
        assert InFile(file, view, npages, p);
      }
    }
  }

  /** The views after a page got another number: the old number names no page any more. */
  lemma ChangeKeeps(bkts: Bkts, file: Disk, view: Disk, npages: int, pagesize: nat, id: Id, b: Bkt)
    requires Coherent(bkts, file, view, npages, pagesize) && id in bkts && NumsUnique(bkts)
    requires |b.page| == pagesize && b.dirty && (b.num == bkts[id].num || !Resident(bkts, b.num))
    ensures Coherent(bkts[id := b], file[bkts[id].num := Zeros(pagesize)], (view - {bkts[id].num})[b.num := b.page],
                     Longer(npages, b.num), pagesize)
    ensures NumsUnique(bkts[id := b])
  {
    var o := bkts[id].num;
    var bkts', file', view' := bkts[id := b], file[o := Zeros(pagesize)], (view - {o})[b.num := b.page];
    var npages' := Longer(npages, b.num);
    assert id in bkts' && bkts'[id].num == b.num;
    forall x | x in bkts' && bkts'[x].num in view' && x != id
      ensures bkts'[x].page == view'[bkts'[x].num]
      ensures bkts'[x].dirty || InFile(file', view', npages', bkts'[x].num)
    {
      assert bkts[x].dirty || InFile(file, view, npages, bkts[x].num);
    }
    forall p | p in view'
      ensures Resident(bkts', p) || InFile(file', view', npages', p)
    {
      if p != b.num && Resident(bkts, p) {
        var x :| x in bkts && bkts[x].num == p;
        assert x in bkts' && bkts'[x].num == p;
      } else if p != b.num {
        assert InFile(file, view, npages, p);
      }
    }
  }

  // ---------------------------------------------------------------- eviction and flushing

  lemma FlushedOne(bkts: Bkts, bkts1: Bkts, id: Id)
    requires Flushed(bkts, bkts1) && id in bkts1 && (Flushable(bkts1[id]) || !bkts1[id].dirty)
    ensures Flushed(bkts, bkts1[id := bkts1[id].(dirty := false)])
  {
  }

  lemma FlushedQueues(lqh: seq<Id>, hqh: seq<seq<Id>>, bkts: Bkts, bkts': Bkts)
    requires Queues(lqh, hqh, bkts) && Flushed(bkts, bkts')
    ensures Queues(lqh, hqh, bkts')
  {
    assert forall id :: id in bkts ==> bkts'[id].num == bkts[id].num;
    assert forall id :: id in bkts' ==> id in bkts;
  }

  lemma FlushedHands(bkts: Bkts, bkts': Bkts)
    requires HandOffs(bkts) && Flushed(bkts, bkts')
    ensures HandOffs(bkts')
  {
  }

  lemma FlushedBounds(bkts: Bkts, bkts': Bkts, nextId: int)
    requires Bounds(bkts, nextId) && Flushed(bkts, bkts')
    ensures Bounds(bkts', nextId)
  {
  }

  // ---------------------------------------------------------------- the list to flush

  /** Nodes from i down to 0. */
  function Down(i: int): (s: seq<int>)
    requires -1 <= i
    ensures |s| == i + 1 && M.Nodes(i + 1, s)
    decreases i
  {
    if i < 0 then [] else [i] + Down(i - 1)
  }

  lemma {:induction false} DownHas(i: int)
    requires -1 <= i
    ensures M.Distinct(Down(i)) && forall x :: x in Down(i) <==> 0 <= x <= i
    decreases i + 1
  {
    if i >= 0 {
      DownHas(i - 1);
      var d := Down(i - 1);
      assert forall k :: 0 <= k < |d| ==> d[k] in d;
    }
  }

  /** Each node inserted at the head of the list links to the one before. */
  lemma {:induction false} DownSeg(next: seq<int>, i: int)
    requires -1 <= i < |next| && forall k :: 0 <= k <= i ==> next[k] == k - 1
    ensures M.Nodes(|next|, Down(i)) && M.Seg(next, i, Down(i), M.NIL)
    decreases i + 1
  {
    if i >= 0 {
      DownSeg(next, i - 1);
      assert Down(i)[1..] == Down(i - 1);
    }
  }

  /** What Collect found: pages to be flushed, the oldest of them if not all. */
  ghost predicate Collected(lqh: seq<Id>, bkts: Bkts, ids: seq<Id>, numpages: nat) {
    && Distinct(ids)
    && (forall i :: 0 <= i < |ids| ==> ids[i] in bkts && Flushable(bkts[ids[i]]))
    && (numpages > 0 ==> |ids| <= numpages)
    && (numpages == 0 || |ids| < numpages ==> forall id :: id in bkts && Flushable(bkts[id]) ==> id in ids)
    && (forall j, k :: 0 <= j < k < |lqh| && lqh[k] in ids && lqh[j] in bkts && Flushable(bkts[lqh[j]]) ==> lqh[j] in ids)
  }

  /** The bucket was written, and the file has its page. */
  ghost predicate WrittenBack(bkts0: Bkts, bkts: Bkts, file: Disk, id: Id) {
    && id in bkts0 && id in bkts && bkts[id] != bkts0[id]
    && bkts0[id].num in file && file[bkts0[id].num] == bkts0[id].page
  }

  /** The file is the old one but for the pages of the buckets that were written. */
  ghost predicate Filed(file0: Disk, bkts0: Bkts, bkts: Bkts, file: Disk) {
    && (forall id :: id in bkts0 && id in bkts && bkts[id] != bkts0[id] ==> WrittenBack(bkts0, bkts, file, id))
    && (forall p :: p in file0 || p in file ==>
          || (p in file0 && p in file && file[p] == file0[p])
          || exists id :: id in bkts0 && bkts0[id].num == p && WrittenBack(bkts0, bkts, file, id))
  }

  lemma FiledOne(file0: Disk, bkts0: Bkts, bkts: Bkts, file: Disk, id: Id)
    requires NumsUnique(bkts0) && bkts.Keys == bkts0.Keys && id in bkts0 && bkts[id] == bkts0[id] && bkts0[id].dirty
    requires Filed(file0, bkts0, bkts, file)
    ensures Filed(file0, bkts0, bkts[id := bkts[id].(dirty := false)], file[bkts0[id].num := bkts0[id].page])
  {
    var bkts', file' := bkts[id := bkts[id].(dirty := false)], file[bkts0[id].num := bkts0[id].page];
    assert WrittenBack(bkts0, bkts', file', id);
    forall x | x in bkts0 && WrittenBack(bkts0, bkts, file, x)
      ensures WrittenBack(bkts0, bkts', file', x)
    {
      assert x != id && bkts0[x].num != bkts0[id].num;
    }
    forall p | (p in file0 || p in file') && !(p in file0 && p in file' && file'[p] == file0[p])
      ensures exists x :: x in bkts0 && bkts0[x].num == p && WrittenBack(bkts0, bkts', file', x)
    {
      if p == bkts0[id].num {
      } else {
        var x :| x in bkts0 && bkts0[x].num == p && WrittenBack(bkts0, bkts, file, x);
        assert WrittenBack(bkts0, bkts', file', x);
      }
    }
  }

  /** No thread holds the page or waits for it. */
  ghost predicate NotInUse(bkts: Bkts, p: int) {
    forall id :: id in bkts && bkts[id].num == p ==> !bkts[id].pinned && bkts[id].waiters == 0
  }

  datatype PutStatus = Done | Again | InUse

  datatype GetStatus = Got | Blocked | WriteToReadonly

  lemma HandsUpdate(bkts: Bkts, id: Id, b: Bkt)
    requires HandOffs(bkts) && HandOff(b)
    ensures HandOffs(bkts[id := b])
  {
  }

  lemma HandsRemove(bkts: Bkts, id: Id)
    requires HandOffs(bkts)
    ensures HandOffs(bkts - {id})
  {
  }

  lemma QueuesRemove(lqh: seq<Id>, hqh: seq<seq<Id>>, bkts: Bkts, id: Id)
    requires Queues(lqh, hqh, bkts) && id in bkts
    ensures var h := HashKey(bkts[id].num); Queues(Without(lqh, id), hqh[h := Without(hqh[h], id)], bkts - {id})
    ensures |Without(lqh, id)| == |lqh| - 1
    ensures forall x :: x in bkts && x != id ==> bkts[x].num != bkts[id].num
  {
    hide HashOk, LruOk;
    HashRemove(hqh, bkts, id);
    LruRemove(lqh, bkts, id);
    HashSize(hqh, bkts);
  }

  lemma HashSize(hqh: seq<seq<Id>>, bkts: Bkts)
    requires HashOk(hqh, bkts)
    ensures |hqh| == HASHSIZE
  {
  }

  lemma QueuesInsert(lqh: seq<Id>, hqh: seq<seq<Id>>, bkts: Bkts, id: Id, b: Bkt)
    requires Queues(lqh, hqh, bkts) && id !in bkts && !Resident(bkts, b.num)
    ensures |hqh| == HASHSIZE
    ensures var h := HashKey(b.num); Queues(lqh + [id], hqh[h := [id] + hqh[h]], bkts[id := b])
  {
  }

  lemma BoundsOne(bkts: Bkts, nextId: int, id: Id, b: Bkt)
    requires Bounds(bkts, nextId) && id < nextId && 0 <= b.num < TWO31
    ensures Bounds(bkts[id := b], nextId)
  {
  }

  class Pool {
    const pagesize: nat
    const maxcache: nat
    const readonly: bool
    ghost const lim := Limits(pagesize, maxcache, readonly)

    var lqh: seq<Id>
    var hqh: seq<seq<Id>>
    var bkts: Bkts
    var curcache: nat
    var npages: int
    var maxpgno: int
    var nextId: Id
    var file: Disk

    ghost var g: Shadow

    /** What a step may change, as a value. */
    ghost function Now(): Snap
      reads this
    {
      Snap(bkts, lqh, curcache, maxpgno, g.view, g.used, g.clock)
    }

    ghost predicate Core()
      reads this
    {
      PoolOk(lqh, hqh, bkts, file, g.view, npages, pagesize, g.used, g.clock, nextId)
    }

    /** Between two steps: all queues agree, the counter counts the buckets, memory and file
        agree with the pages, and hand-over is in order. */
    ghost predicate Valid()
      reads this
    {
      Core() && curcache == |lqh|
    }

    /** A pool over a file of n pages. */
    constructor (file: Disk, n: nat, pagesize: nat, maxcache: nat, readonly: bool)
      requires pagesize >= 512 && forall p :: p in file ==> p < n && |file[p]| == pagesize
      ensures Valid() && g.view == file && bkts == map[] && maxpgno == n
      ensures this.pagesize == pagesize && this.maxcache == maxcache && this.readonly == readonly
    {
      this.pagesize, this.maxcache, this.readonly := pagesize, maxcache, readonly;
      lqh, hqh, bkts, curcache := [], seq(HASHSIZE, _ => []), map[], 0;
      npages, maxpgno, nextId, this.file := n, n, 0, file;
      g := Shadow(file, map[], 0);
    }

    /** Writes a page to the file. */
    method Write(id: Id)
      requires id in bkts && Coherent(bkts, file, g.view, npages, pagesize) && NumsUnique(bkts)
      modifies `bkts, `file, `npages
      ensures Coherent(bkts, file, g.view, npages, pagesize)
      ensures bkts == old(bkts)[id := old(bkts)[id].(dirty := false)]
      ensures file == old(file)[old(bkts)[id].num := old(bkts)[id].page] && npages >= old(npages)
    {
      WriteKeeps(bkts, file, g.view, npages, pagesize, id);
      var b := bkts[id];
      file := file[b.num := b.page];
      bkts := bkts[id := b.(dirty := false)];
      if b.num >= npages {
        npages := b.num + 1;
      }
    }

    /** The dirty pages nobody holds or waits for, oldest first; with `numpages` positive at
        most that many. */
    method Collect(numpages: nat) returns (ids: seq<Id>)
      requires LruOk(lqh, bkts)
      ensures Collected(lqh, bkts, ids, numpages)
    {
      ids := [];
      var i := 0;
      while i < |lqh|
        invariant 0 <= i <= |lqh| && Distinct(ids)
        invariant forall k :: 0 <= k < |ids| ==> ids[k] in bkts && Flushable(bkts[ids[k]]) && ids[k] in lqh[..i]
        invariant forall k :: 0 <= k < i && Flushable(bkts[lqh[k]]) ==> lqh[k] in ids
        invariant forall k :: i <= k < |lqh| ==> lqh[k] !in ids
        invariant numpages > 0 ==> |ids| < numpages
      {
        assert lqh[i] in lqh && lqh[i] !in lqh[..i];
        if Flushable(bkts[lqh[i]]) {
          ids := ids + [lqh[i]];
          if numpages > 0 && |ids| >= numpages {
            return;
          }
        }
        i := i + 1;
      }
    }

    /** The buckets after some of those on the list were written. */
    ghost predicate Walked(bkts0: Bkts, order: seq<int>)
      reads this
    {
      && bkts.Keys == bkts0.Keys
      && (forall id :: id in bkts ==>
            bkts[id] == bkts0[id] || (Flushable(bkts0[id]) && bkts0[id].num in order && bkts[id] == bkts0[id].(dirty := false)))
    }

    /** Writes the page of one list node. */
    method FlushNode(ids: seq<Id>, keys: seq<nat>, node: nat, ghost bkts0: Bkts, ghost file0: Disk, ghost order: seq<int>)
      requires NumsUnique(bkts0) && Walked(bkts0, order) && Coherent(bkts, file, g.view, npages, pagesize)
      requires Filed(file0, bkts0, bkts, file)
      requires node < |ids| == |keys| && ids[node] in bkts0 && Flushable(bkts0[ids[node]]) && keys[node] == bkts0[ids[node]].num
      modifies `bkts, `file, `npages
      ensures Walked(bkts0, order + [keys[node]]) && Coherent(bkts, file, g.view, npages, pagesize) && npages >= old(npages)
      ensures Filed(file0, bkts0, bkts, file)
      ensures bkts == old(bkts)[ids[node] := old(bkts)[ids[node]].(dirty := false)]
    {
      hide Coherent, Filed;
      var id := ids[node];
      if bkts[id].dirty {
        StillUnique(bkts0, bkts);
        FiledOne(file0, bkts0, bkts, file, id);
        Write(id);
      }
    }

    /** Writes the pages of the list in its order. */
    method FlushList(next: array<int>, ids: seq<Id>, keys: seq<nat>, first: int, ghost t: seq<int>) returns (order: seq<int>)
      requires NumsUnique(bkts) && Coherent(bkts, file, g.view, npages, pagesize)
      requires |keys| == |ids| == |t| == next.Length && M.Nodes(next.Length, t) && M.Seg(next[..], first, t, M.NIL)
      requires forall i :: 0 <= i < |ids| ==> ids[i] in bkts && Flushable(bkts[ids[i]]) && keys[i] == bkts[ids[i]].num
      modifies `bkts, `file, `npages
      ensures Walked(old(bkts), order) && Coherent(bkts, file, g.view, npages, pagesize) && npages >= old(npages)
      ensures Filed(old(file), old(bkts), bkts, file)
      ensures |order| == |t| && forall k :: 0 <= k < |t| ==> order[k] == keys[t[k]]
      ensures forall k :: 0 <= k < |t| ==> ids[t[k]] in bkts && !bkts[ids[t[k]]].dirty
    {
      hide Coherent, M.Seg, Walked, NumsUnique, Flushable, Filed;
      order := [];
      var node := first;
      ghost var j := 0;
      assert t[0..] == t;
      assert Walked(bkts, []) by { WalkedNone(); }
      assert Filed(file, bkts, bkts, file) by { FiledNone(file, bkts); }
      while node != M.NIL
        invariant 0 <= j <= |t| && M.Nodes(next.Length, t[j..]) && M.Seg(next[..], node, t[j..], M.NIL)
        invariant Coherent(bkts, file, g.view, npages, pagesize) && Walked(old(bkts), order) && npages >= old(npages)
        invariant Filed(old(file), old(bkts), bkts, file)
        invariant |order| == j && forall k :: 0 <= k < j ==> order[k] == keys[t[k]]
        invariant forall k :: 0 <= k < j ==> ids[t[k]] in bkts && !bkts[ids[t[k]]].dirty
        decreases |t| - j
      {
        M.SegHead(next[..], node, t[j..], M.NIL);
        assert node == t[j];
        assert t[j..][1..] == t[j + 1..];
        WalkedHas(old(bkts), order, ids[node]);
        FlushNode(ids, keys, node, old(bkts), old(file), order);
        order := order + [keys[node]];
        node := next[node];
        j := j + 1;
      }
      M.SegHead(next[..], node, t[j..], M.NIL);
    }

    lemma FiledNone(f: Disk, b: Bkts)
      ensures Filed(f, b, b, f)
    {
    }

    lemma WalkedNone()
      ensures Walked(bkts, [])
    {
    }

    lemma WalkedHas(bkts0: Bkts, order: seq<int>, id: Id)
      requires Walked(bkts0, order) && id in bkts0
      ensures id in bkts
    {
    }

    /** Writes dirty pages to the file in the order of their numbers, the least recently used if not
        all. */
    method SyncI(numpages: nat) returns (order: seq<int>)
      requires Queues(lqh, hqh, bkts) && Coherent(bkts, file, g.view, npages, pagesize) && Bounds(bkts, nextId)
      modifies `bkts, `file, `npages
      ensures Coherent(bkts, file, g.view, npages, pagesize) && Flushed(old(bkts), bkts)
      ensures forall i, j :: 0 <= i < j < |order| ==> order[i] <= order[j]
      ensures forall id :: id in bkts ==> bkts[id] == if Flushable(old(bkts)[id]) && old(bkts)[id].num in order
                                                      then old(bkts)[id].(dirty := false) else old(bkts)[id]
      ensures numpages > 0 ==> |order| <= numpages
      ensures npages >= old(npages) && Filed(old(file), old(bkts), bkts, file)
      ensures forall j, k :: 0 <= j < k < |lqh| && lqh[k] in bkts && bkts[lqh[k]] != old(bkts)[lqh[k]] && lqh[j] in bkts ==>
        !Flushable(bkts[lqh[j]])
      ensures numpages == 0 || |order| < numpages ==> forall id :: id in bkts ==> !Flushable(bkts[id])
    {
      hide HashOk, Coherent, M.Seg, M.Sorted, M.WithKey, M.Distinct, M.SameByKey, Walked, Filed;
      var ids := Collect(numpages);
      var n := |ids|;
      var next := new int[n]((i: nat) => i as int - 1);
      var found := bkts;
      var keys := seq(n, i requires 0 <= i < n => if ids[i] in found then found[ids[i]].num else 0);
      forall i | 0 <= i < n
        ensures ids[i] in bkts && keys[i] == bkts[ids[i]].num && 0 <= keys[i] < M.TWO31
      {
        var id := ids[i];
        assert id in bkts && Flushable(bkts[id]);
      }
      assert M.Nodes(n, Down(n - 1)) && M.Distinct(Down(n - 1)) by { DownHas(n - 1); }
      DownSeg(next[..], n - 1);
      var first;
      ghost var t;
      first, t := M.SlistMergeSort(next, keys, n - 1, Down(n - 1));
      AllNodes(keys, n, t);
      order := FlushList(next, ids, keys, first, t);
      OrderSorted(keys, t, order);
      CleanThose(old(bkts), ids, keys, t, order);
      OldestFirst(old(bkts), ids, numpages);
    }

    lemma OldestFirst(bkts0: Bkts, ids: seq<Id>, numpages: nat)
      requires Collected(lqh, bkts0, ids, numpages) && bkts.Keys == bkts0.Keys
      requires forall id :: id in ids && id in bkts ==> !bkts[id].dirty
      requires forall id :: id in bkts && bkts[id] != bkts0[id] ==> id in ids
      ensures forall j, k :: 0 <= j < k < |lqh| && lqh[k] in bkts && bkts[lqh[k]] != bkts0[lqh[k]] && lqh[j] in bkts ==>
        !Flushable(bkts[lqh[j]])
    {
      forall j, k | 0 <= j < k < |lqh| && lqh[k] in bkts && bkts[lqh[k]] != bkts0[lqh[k]] && lqh[j] in bkts
        ensures !Flushable(bkts[lqh[j]])
      {
        var a, b := lqh[j], lqh[k];
        assert b in ids;
        assert a in ids ==> !bkts[a].dirty;
      }
    }

    lemma StillUnique(bkts0: Bkts, bkts1: Bkts)
      requires NumsUnique(bkts0) && bkts1.Keys == bkts0.Keys
      requires forall id :: id in bkts1 ==> bkts1[id] == bkts0[id] || bkts1[id] == bkts0[id].(dirty := false)
      ensures NumsUnique(bkts1)
    {
    }

    lemma AllNodes(keys: seq<nat>, n: nat, t: seq<int>)
      requires |keys| == n && M.Nodes(n, t) && M.Nodes(n, Down(n - 1)) && M.SameByKey(keys, Down(n - 1), t)
      ensures |t| == n && forall x :: 0 <= x < n ==> x in t
    {
      hide M.SameByKey;
      M.SameByKeyPermutes(keys, Down(n - 1), t);
      DownHas(n - 1);
      assert |multiset(t)| == |multiset(Down(n - 1))|;
      forall x | 0 <= x < n
        ensures x in t
      {
        assert x in Down(n - 1);
        assert x in multiset(Down(n - 1));
      }
    }

    lemma OrderSorted(keys: seq<nat>, t: seq<int>, order: seq<int>)
      requires M.Nodes(|keys|, t) && M.Sorted(keys, t) && |order| == |t| && forall k :: 0 <= k < |t| ==> order[k] == keys[t[k]]
      ensures forall i, j :: 0 <= i < j < |order| ==> order[i] <= order[j]
    {
    }

    lemma CleanThose(bkts0: Bkts, ids: seq<Id>, keys: seq<nat>, t: seq<int>, order: seq<int>)
      requires NumsUnique(bkts0) && Walked(bkts0, order)
      requires |keys| == |ids| == |t| == |order| && M.Nodes(|keys|, t)
      requires forall i :: 0 <= i < |ids| ==> ids[i] in bkts0 && keys[i] == bkts0[ids[i]].num
      requires forall x :: 0 <= x < |t| ==> x in t
      requires forall k :: 0 <= k < |t| ==> order[k] == keys[t[k]] && ids[t[k]] in bkts && !bkts[ids[t[k]]].dirty
      ensures forall id :: id in bkts ==> bkts[id] == if Flushable(bkts0[id]) && bkts0[id].num in order
                                                      then bkts0[id].(dirty := false) else bkts0[id]
      ensures forall id :: id in ids && id in bkts ==> !bkts[id].dirty
      ensures forall id :: id in bkts && bkts[id] != bkts0[id] ==> id in ids
      ensures Flushed(bkts0, bkts)
    {
      forall id | id in bkts && Flushable(bkts0[id]) && bkts0[id].num in order
        ensures bkts[id] == bkts0[id].(dirty := false)
      {
        var k :| 0 <= k < |order| && order[k] == bkts0[id].num;
        assert ids[t[k]] == id;
      }
      forall id | id in bkts && bkts[id] != bkts0[id]
        ensures id in ids
      {
        var k :| 0 <= k < |order| && order[k] == bkts0[id].num;
        assert ids[t[k]] == id;
      }
      forall id | id in ids && id in bkts
        ensures !bkts[id].dirty
      {
        var i :| 0 <= i < |ids| && ids[i] == id;
        assert i in t;
        var k :| 0 <= k < |t| && t[k] == i;
      }
    }

    /** Takes the oldest page that nobody holds, waits for or has locked out of memory,
        writing it first when it is dirty; then some more pages are written. */
    method ReuseBkt() returns (found: bool, id: Id, mem: Bytes, order: seq<int>)
      requires Core()
      modifies `lqh, `hqh, `bkts, `file, `npages
      ensures Core()
      ensures !found ==> NoneEvictable(old(bkts)) && lqh == old(lqh) && hqh == old(hqh) && bkts == old(bkts)
      ensures !found <==> forall x :: x in old(bkts) ==> old(bkts)[x].pinned || old(bkts)[x].waiters > 0 || old(bkts)[x].locked
      ensures found ==> id in old(bkts) && !old(bkts)[id].pinned && old(bkts)[id].waiters == 0 && !old(bkts)[id].locked
      ensures found && !old(bkts)[id].dirty ==> bkts == old(bkts) - {id}
      ensures maxcache >= 5 ==> |order| <= maxcache / 5
      ensures forall x :: x in bkts && x in old(bkts) && bkts[x] != old(bkts)[x] ==> bkts[x].num in order
      ensures found ==> exists k: nat :: OldestEvictable(old(lqh), old(bkts), k) && id == old(lqh)[k]
      ensures found ==> id in old(bkts) && lqh == Without(old(lqh), id) && |lqh| == |old(lqh)| - 1 && |mem| == pagesize
      ensures found ==> Flushed(old(bkts) - {id}, bkts)
      ensures npages >= old(npages)
    {
      hide Queues, Coherent, Recency, HandOffs, NumsUnique, Bounds, HashKey, Without, Flushed;
      var i := 0;
      found, id, mem, order := false, 0, [], [];
      var needwrite := false;
      LruFacts();
      while i < |lqh|
        invariant 0 <= i <= |lqh|
        invariant forall j :: 0 <= j < i ==> !Evictable(bkts[lqh[j]])
        modifies {}
      {
        if Evictable(bkts[lqh[i]]) {
          break;
        }
        i := i + 1;
      }
      if i == |lqh| {
        return;
      }
      found, id := true, lqh[i];
      assert OldestEvictable(lqh, bkts, i);
      FlushedRefl(bkts);
      if bkts[id].dirty {
        UniqueNums();
        Write(id);
        needwrite := true;
        FlushedOne(old(bkts), old(bkts), id);
        CoreFlushed(old(bkts));
      }
      QueuesRemove(lqh, hqh, bkts, id);
      RemoveKeeps(bkts, file, g.view, npages, pagesize, id);
      HandsRemove(bkts, id);
      BoundsRemove(id);
      WithoutKeepsOrder(lqh, id, g.used, g.clock);
      PageSize(id);
      mem := bkts[id].page;
      var h := HashKey(bkts[id].num);
      ghost var bkts1 := bkts;
      hqh := hqh[h := Without(hqh[h], id)];
      lqh := Without(lqh, id);
      bkts := bkts - {id};
      FlushedRest(old(bkts), bkts1, id);
      if needwrite {
        ghost var bkts2 := bkts;
        order := SyncI(maxcache / WRITE_FRAC);
        CoreFlushed(bkts2);
        FlushedTrans(old(bkts) - {id}, bkts2, bkts);
      }
    }

    lemma LruFacts()
      requires Core()
      ensures |hqh| == HASHSIZE && Distinct(lqh)
      ensures forall i :: 0 <= i < |lqh| ==> lqh[i] in bkts
      ensures forall x :: x in bkts ==> x in lqh
    {
    }

    lemma UniqueNums()
      requires Core()
      ensures NumsUnique(bkts)
    {
    }

    lemma PageSize(id: Id)
      requires Core() && id in bkts
      ensures |bkts[id].page| == pagesize
    {
    }

    lemma BoundsRemove(id: Id)
      requires Bounds(bkts, nextId)
      ensures Bounds(bkts - {id}, nextId)
    {
    }

    lemma FlushedRefl(b: Bkts)
      ensures Flushed(b, b)
    {
    }

    lemma FlushedRest(bkts0: Bkts, bkts1: Bkts, id: Id)
      requires Flushed(bkts0, bkts1)
      ensures Flushed(bkts0 - {id}, bkts1 - {id})
    {
    }

    lemma FlushedTrans(bkts0: Bkts, bkts1: Bkts, bkts2: Bkts)
      requires Flushed(bkts0, bkts1) && Flushed(bkts1, bkts2)
      ensures Flushed(bkts0, bkts2)
    {
    }

    /** Flushing keeps the queues and the hand-over. */
    lemma CoreFlushed(bkts0: Bkts)
      requires Queues(lqh, hqh, bkts0) && Recency(lqh, g.used, g.clock) && HandOffs(bkts0) && Bounds(bkts0, nextId)
      requires Flushed(bkts0, bkts) && Coherent(bkts, file, g.view, npages, pagesize) && pagesize >= 512
      ensures Core()
    {
      hide Queues, Coherent, Recency, HandOffs, Flushed;
      FlushedQueues(lqh, hqh, bkts0, bkts);
      FlushedHands(bkts0, bkts);
      FlushedBounds(bkts0, bkts, nextId);
    }

    /** Memory for a new bucket; what it holds is whatever was there. */
    method NewBkt() returns (id: Id, mem: Bytes)
      modifies `curcache, `nextId
      ensures curcache == old(curcache) + 1 && nextId == old(nextId) + 1 && id == old(nextId) && |mem| == pagesize
    {
      curcache := curcache + 1;
      id := nextId;
      nextId := nextId + 1;
      mem :| |mem| == pagesize by { assert |Zeros(pagesize)| == pagesize; }
    }

    /** A bucket for a page that comes into memory: new memory while the cache has room,
        otherwise the oldest bucket that can be had, and new memory if there is none. */
    method TakeBkt() returns (id: Id, mem: Bytes)
      requires Valid()
      modifies `lqh, `hqh, `bkts, `file, `npages, `curcache, `nextId
      ensures Core() && curcache == |lqh| + 1 && id !in bkts && id < nextId && |mem| == pagesize
      ensures npages >= old(npages)
      ensures curcache > old(curcache) ==> old(curcache) <= maxcache || NoneEvictable(old(bkts))
      ensures curcache > old(curcache) ==> lqh == old(lqh) && bkts == old(bkts)
      ensures curcache <= old(curcache) ==> curcache == old(curcache) > maxcache && Evicted(old(lqh), old(bkts), id)
      ensures curcache <= old(curcache) ==> lqh == Without(old(lqh), id) && id in old(bkts) && Flushed(old(bkts) - {id}, bkts)
    {
      hide Queues, Coherent, Recency, HandOffs, Flushed;
      if curcache > maxcache {
        var found, order;
        found, id, mem, order := ReuseBkt();
        if found {
          TakenIds(old(bkts), id);
        } else {
          id, mem := NewBkt();
          FreshId();
        }
      } else {
        id, mem := NewBkt();
        FreshId();
      }
    }

    lemma FreshId()
      requires Bounds(bkts, nextId - 1)
      ensures nextId - 1 !in bkts && Bounds(bkts, nextId)
    {
    }

    lemma TakenIds(bkts0: Bkts, id: Id)
      requires Bounds(bkts0, nextId) && id in bkts0 && Flushed(bkts0 - {id}, bkts)
      ensures id < nextId && id !in bkts
    {
    }

    /** Puts a bucket at the head of its hash chain and the tail of the LRU queue. */
    method Insert(id: Id, b: Bkt, ghost forget: bool)
      requires Core() && id !in bkts && id < nextId && 0 <= b.num < TWO31 && !Resident(bkts, b.num) && |b.page| == pagesize
      requires HandOff(b)
      requires forget || b.page == FileAt(file, pagesize, b.num)
      modifies `lqh, `hqh, `bkts, `g
      ensures Core() && bkts == old(bkts)[id := b] && lqh == old(lqh) + [id]
      ensures g == Shadow(if forget then old(g).view - {b.num} else old(g).view, old(g).used[id := old(g).clock], old(g).clock + 1)
    {
      hide PoolOk, HashKey, Zeros, FileAt, Resident;
      InsertOk(id, b, forget);
      var h := HashKey(b.num);
      hqh := hqh[h := [id] + hqh[h]];
      lqh := lqh + [id];
      bkts := bkts[id := b];
      g := Shadow(if forget then g.view - {b.num} else g.view, g.used[id := g.clock], g.clock + 1);
    }

    lemma InsertOk(id: Id, b: Bkt, forget: bool)
      requires Core() && id !in bkts && id < nextId && 0 <= b.num < TWO31 && !Resident(bkts, b.num) && |b.page| == pagesize
      requires HandOff(b)
      requires forget || b.page == FileAt(file, pagesize, b.num)
      ensures |hqh| == HASHSIZE
      ensures var h := HashKey(b.num);
        PoolOk(lqh + [id], hqh[h := [id] + hqh[h]], bkts[id := b], file, if forget then g.view - {b.num} else g.view, npages, pagesize,
               g.used[id := g.clock], g.clock + 1, nextId)
    {
      hide Queues, Coherent, Recency, HandOff, Bounds, HashKey, Zeros, FileAt, Resident;
      QueuesInsert(lqh, hqh, bkts, id, b);
      InsertKeeps(bkts, file, g.view, npages, pagesize, id, b, if forget then g.view - {b.num} else g.view);
      NotQueued(id);
      RecencyTail(lqh, g.used, g.clock, id);
      BoundsOne(bkts, nextId, id, b);
    }

    lemma NotQueued(id: Id)
      requires Core() && id !in bkts
      ensures id !in lqh
    {
    }

    /** Brings a page of the file into memory. */
    method LoadNewPage(p: int, flags: Flags, me: Thread) returns (id: Id)
      requires Valid() && 0 <= p < TWO31 && !Resident(bkts, p) && me != NOBODY
      modifies this
      ensures Valid() && g.view == old(g).view && npages >= old(npages) && maxpgno == old(maxpgno)
      ensures Brought(lim, old(Now()), Now(), id, Loaded(FileAt(file, pagesize, p), p, flags, me))
      ensures |FileAt(file, pagesize, p)| == pagesize
    {
      hide Queues, Coherent, Recency, HandOffs, Flushed, Evictable, OldestEvictable, NoneEvictable, Evicted, Without;
      var mem;
      id, mem := TakeBkt();
      if curcache > old(curcache) {
        assert bkts == old(bkts);
        StillQueue(id);
      } else {
        StillNotResident(old(bkts), id, p);
      }
      ghost var rest := bkts;
      mem := FileAt(file, pagesize, p);
      FilePage(p);
      Insert(id, Bkt(mem, p, 1, 0, true, flags.dirty, flags.locked, me, []), false);
      assert bkts - {id} == rest;
    }

    /** A bucket not in the queue is not taken out of it. */
    lemma StillQueue(id: Id)
      requires Core() && id !in bkts
      ensures Without(lqh, id) == lqh
    {
      NotQueued(id);
      LruFacts();
      WithoutHas(lqh, id);
    }

    lemma StillNotResident(bkts0: Bkts, id: Id, p: int)
      requires Flushed(bkts0 - {id}, bkts) && !Resident(bkts0, p)
      ensures !Resident(bkts, p)
    {
    }

    lemma FilePage(p: int)
      requires Core()
      ensures |FileAt(file, pagesize, p)| == pagesize
    {
    }

    /** A bucket for a page that is not read from the file: only its first bytes are cleared.
        Without a requested number the page gets the next number above all in use. */
    method NewPage(p0: int, request: bool, flags: Flags, me: Thread) returns (p: int, id: Id)
      requires Valid() && me != NOBODY && maxpgno < 0xffff_ffff
      requires var q := if request then p0 else maxpgno + 1; 0 <= q < TWO31 && !Resident(bkts, q)
      modifies this
      ensures Valid() && p == (if request then p0 else old(maxpgno) + 1) && g.view == old(g).view - {p} && id in bkts
      ensures maxpgno == if p > old(maxpgno) then p else old(maxpgno)
      ensures |bkts[id].page| == pagesize >= CLEANHDR_SIZE && bkts[id].page[..CLEANHDR_SIZE] == Zeros(CLEANHDR_SIZE)
      ensures Brought(lim, old(Now()), Now(), id, Loaded(bkts[id].page, p, flags, me))
      ensures npages >= old(npages)
    {
      hide Queues, Coherent, Recency, HandOffs, Flushed, Evictable, OldestEvictable, NoneEvictable, Evicted, Without;
      var mem;
      id, mem := TakeBkt();
      p := p0;
      if request {
        if p > maxpgno {
          maxpgno := p;
        }
      } else {
        maxpgno := maxpgno + 1;
        p := maxpgno;
      }
      if curcache > old(curcache) {
        assert bkts == old(bkts);
        StillQueue(id);
      } else {
        StillNotResident(old(bkts), id, p);
      }
      ghost var rest := bkts;
      mem := Zeros(CLEANHDR_SIZE) + mem[CLEANHDR_SIZE..];
      Insert(id, Bkt(mem, p, 1, 0, true, flags.dirty, flags.locked, me, []), true);
      assert bkts - {id} == rest;
    }

    /** Looks a page up on its hash chain. */
    method Find(p: int) returns (found: bool, id: Id)
      requires HashOk(hqh, bkts)
      ensures found <==> Resident(bkts, p)
      ensures found ==> id in bkts && bkts[id].num == p
    {
      var h := HashKey(p);
      found, id := false, 0;
      var i := 0;
      while i < |hqh[h]|
        invariant 0 <= i <= |hqh[h]|
        invariant forall j :: 0 <= j < i ==> bkts[hqh[h][j]].num != p
      {
        assert hqh[h][i] in hqh[h];
        if bkts[hqh[h][i]].num == p {
          return true, hqh[h][i];
        }
        i := i + 1;
      }
      assert forall x :: x in hqh[h] ==> bkts[x].num != p;
    }

    /** Moves a bucket to the head of its hash chain and the tail of the LRU queue. */
    method MoveToTail(id: Id)
      requires Core() && id in bkts
      modifies `lqh, `hqh, `g
      ensures Core() && lqh == Without(old(lqh), id) + [id] && |lqh| == |old(lqh)|
      ensures g == old(g).(used := old(g).used[id := old(g).clock], clock := old(g).clock + 1)
    {
      hide Coherent, HandOffs, Recency, HashOk, LruOk;
      var b := bkts[id];
      QueuesRemove(lqh, hqh, bkts, id);
      ghost var rest := bkts - {id};
      assert !Resident(rest, b.num);
      LruFacts();
      RecencyUse(lqh, g.used, g.clock, id);
      HashSize(hqh, bkts);
      var h := HashKey(b.num);
      hqh := hqh[h := Without(hqh[h], id)];
      lqh := Without(lqh, id);
      QueuesInsert(lqh, hqh, rest, id, b);
      assert rest[id := b] == bkts;
      hqh := hqh[h := [id] + hqh[h]];
      lqh := lqh + [id];
      g := g.(used := g.used[id := g.clock], clock := g.clock + 1);
    }

    /** A bucket changes hands, flags or waiters; its page stays. */
    method Touch(id: Id, b: Bkt)
      requires Core() && id in bkts && b.page == bkts[id].page && b.num == bkts[id].num && (bkts[id].dirty ==> b.dirty)
      requires HandOff(b)
      modifies `bkts
      ensures Core() && bkts == old(bkts)[id := b]
    {
      hide Queues, Coherent, Recency, HandOff;
      TouchKeeps(bkts, file, g.view, npages, pagesize, id, b);
      TouchQueues(lqh, hqh, bkts, id, b);
      TouchBounds(id, b);
      bkts := bkts[id := b];
    }

    lemma TouchBounds(id: Id, b: Bkt)
      requires Bounds(bkts, nextId) && id in bkts && b.num == bkts[id].num
      ensures Bounds(bkts[id := b], nextId)
    {
    }

    lemma HandsOf(id: Id)
      requires Core() && id in bkts
      ensures HandOff(bkts[id]) && |bkts[id].page| == pagesize && 0 <= bkts[id].num < TWO31
    {
    }

    /** The thread does not hold the page and does not wait for it. */
    predicate Free(p: int, me: Thread)
      reads this
    {
      forall id :: id in bkts && bkts[id].num == p ==> Away(bkts[id], me)
    }

    /** A page is in memory once at most. */
    lemma OnlyOne(p: int, found: bool, id: Id)
      requires Core() && (found <==> Resident(bkts, p)) && (found ==> id in bkts && bkts[id].num == p)
      ensures forall x :: x in bkts && bkts[x].num == p ==> found && x == id
      ensures Busy(bkts, p) <==> found && (bkts[id].pinned || bkts[id].waiters > 0)
    {
    }

    /** Gets a page. If another thread holds it or waits for it, the thread joins the waiters. */
    method Get(p: int, flags: Flags, me: Thread) returns (st: GetStatus, id: Id)
      requires Valid() && 0 <= p < TWO31 && me != NOBODY && maxpgno < 0xffff_ffff && Free(p, me)
      modifies this
      ensures Valid() && g.view == old(g).view && npages >= old(npages)
      ensures st.WriteToReadonly? <==> flags.dirty && readonly
      ensures st.WriteToReadonly? ==> Now() == old(Now())
      ensures st.Blocked? <==> !st.WriteToReadonly? && old(Busy(bkts, p))
      ensures st.Blocked? ==> id in old(bkts) && old(bkts)[id].num == p && Now() == old(Now()).(bkts := old(bkts)[id := Joined(old(bkts)[id], me)])
      ensures st.Got? ==> id in bkts && (p in g.view ==> bkts[id].page == g.view[p])
      ensures st.Got? && old(Resident(bkts, p)) ==>
        && id in old(bkts) && old(bkts)[id].num == p && Used(old(Now()), Now(), id)
        && bkts == old(bkts)[id := WithFlags(Grabbed(old(bkts)[id], me), flags)]
        && curcache == old(curcache) && maxpgno == old(maxpgno)
      ensures st.Got? && !old(Resident(bkts, p)) ==>
        && Brought(lim, old(Now()), Now(), id, Loaded(bkts[id].page, p, flags, me))
        && (maxpgno == old(maxpgno) || (flags.create && maxpgno == p > old(maxpgno)))
    {
      hide Queues, Coherent, Recency, HandOffs, HandOff, NoneEvictable, Bounds, HashKey, Zeros, FileAt, Resident, Evictable, Evicted, Flushed,
        Without;
      id := 0;
      if flags.dirty && readonly {
        return WriteToReadonly, 0;
      }
      ChainsOk();
      var found;
      found, id := Find(p);
      OnlyOne(p, found, id);
      if found {
        var b := bkts[id];
        HandsOf(id);
        if b.waiters > 0 || b.pinned {
          JoinQueue(b, me);
          Touch(id, b.(waiters := b.waiters + 1, wqh := [Waiter(me, false)] + b.wqh));
          st := Blocked;
        } else {
          GrabHands(b, me);
          b := b.(ref := b.ref + 1, owner := me, pinned := true);
          SameHands(b, WithFlags(b, flags));
          b := b.(dirty := b.dirty || flags.dirty, locked := b.locked || flags.locked);
          Touch(id, b);
          MoveToTail(id);
          st := Got;
          ViewOf(id);
        }
      } else {
        if flags.create && p >= npages {
          BeyondFile(p);
          var q;
          q, id := NewPage(p, true, flags, me);
        } else {
          id := LoadNewPage(p, flags, me);
        }
        st := Got;
        ViewOf(id);
      }
    }

    lemma ChainsOk()
      requires Core()
      ensures HashOk(hqh, bkts)
    {
    }

    /** In memory is what was last put dirty. */
    lemma ViewOf(id: Id)
      requires Core() && id in bkts
      ensures bkts[id].num in g.view ==> bkts[id].page == g.view[bkts[id].num]
    {
    }

    /** A page number past the file that is not in memory was never written. */
    lemma BeyondFile(p: int)
      requires Core() && !Resident(bkts, p) && p >= npages
      ensures p !in g.view && g.view - {p} == g.view
    {
    }

    /** A waiter that finds its wake-up set takes the page. */
    method GetWoken(id: Id, ghost i: nat, flags: Flags, me: Thread)
      requires Valid() && id in bkts && i < |bkts[id].wqh| && bkts[id].wqh[i] == Waiter(me, true)
      modifies this
      ensures Valid() && g.view == old(g).view && i == |old(bkts)[id].wqh| - 1
      ensures bkts == old(bkts)[id := WithFlags(TakenBy(old(bkts)[id], me), flags)] && Used(old(Now()), Now(), id)
      ensures curcache == old(curcache) && maxpgno == old(maxpgno)
      ensures bkts[id].num in g.view ==> bkts[id].page == g.view[bkts[id].num]
    {
      hide Queues, Coherent, Recency, HandOffs, HandOff, Without;
      HandsOf(id);
      var b := bkts[id];
      WakeHands(b, i);
      assert b.wqh[|b.wqh| - 1].who == me;
      b := TakenBy(b, me);
      SameHands(b, WithFlags(b, flags));
      b := b.(dirty := b.dirty || flags.dirty, locked := b.locked || flags.locked);
      Touch(id, b);
      MoveToTail(id);
      ViewOf(id);
    }

    /** Gives a page back with the content `mem`. Content that differs needs the page to be
        dirty, now or before. */
    method Put(id: Id, mem: Bytes, dirty: bool, me: Thread)
      requires Valid() && Holds(bkts, id, me) && |mem| == pagesize
      requires mem == bkts[id].page || dirty || bkts[id].dirty
      modifies `bkts, `g
      ensures Valid() && bkts == old(bkts)[id := Released(old(bkts)[id], mem, dirty)]
      ensures g == old(g).(view := if dirty || old(bkts)[id].dirty then old(g).view[old(bkts)[id].num := mem] else old(g).view)
      ensures bkts[id].waiters > 0 ==> |bkts[id].wqh| > 0 && bkts[id].wqh[|bkts[id].wqh| - 1].wakeup
    {
      hide Queues, Coherent, Recency;
      HandsOf(id);
      ReleaseHands(bkts[id], mem, dirty);
      TouchQueues(lqh, hqh, bkts, id, Released(bkts[id], mem, dirty));
      TouchBounds(id, Released(bkts[id], mem, dirty));
      UniqueNums();
      if dirty || bkts[id].dirty {
        PutKeeps(bkts, file, g.view, npages, pagesize, id, Released(bkts[id], mem, dirty));
      } else {
        TouchKeeps(bkts, file, g.view, npages, pagesize, id, Released(bkts[id], mem, dirty));
      }
      ghost var num, wasDirty := bkts[id].num, bkts[id].dirty;
      var b := bkts[id];
      b := b.(page := mem);
      if dirty {
        b := b.(dirty := true);
      }
      b := b.(ref := b.ref - 1, owner := NOBODY, pinned := false);
      if b.waiters > 0 {
        var last := |b.wqh| - 1;
        b := b.(wqh := b.wqh[last := b.wqh[last].(wakeup := true)]);
      }
      assert b == Released(bkts[id], mem, dirty);
      bkts := bkts[id := b];
      g := g.(view := if dirty || wasDirty then g.view[num := mem] else g.view);
    }

    /** Gives a page back under another number, dirty; its old place in the file is cleared.
        With waiters the page only is given back. */
    method ChangePage(id: Id, newnum: int, mem: Bytes, me: Thread) returns (st: PutStatus)
      requires Valid() && Holds(bkts, id, me) && |mem| == pagesize && 0 <= newnum < TWO31
      requires newnum == bkts[id].num || !Resident(bkts, newnum)
      requires bkts[id].waiters > 0 ==> mem == bkts[id].page || bkts[id].dirty
      modifies this
      ensures Valid() && (st == Again <==> old(bkts)[id].waiters > 0) && (st == Done <==> old(bkts)[id].waiters == 0)
      ensures st == Again ==> bkts == old(bkts)[id := Released(old(bkts)[id], mem, false)] && lqh == old(lqh)
      ensures st == Again ==> g == old(g).(view := if old(bkts)[id].dirty then old(g).view[old(bkts)[id].num := mem] else old(g).view)
      ensures st == Done ==> bkts == old(bkts)[id := Released(old(bkts)[id], mem, true).(num := newnum)]
      ensures st == Done ==> g.view == (old(g).view - {old(bkts)[id].num})[newnum := mem]
      ensures st == Done ==> Used(old(Now()), Now(), id)
      ensures curcache == old(curcache) && maxpgno == old(maxpgno)
    {
      hide Queues, Coherent, Recency, HandOffs, HandOff, Released;
      if bkts[id].waiters > 0 {
        Put(id, mem, false, me);
        return Again;
      }
      HandsOf(id);
      LruFacts();
      QueuesRemove(lqh, hqh, bkts, id);
      Renumber(id, newnum, mem);
      st := Done;
    }

    /** The page changes its number, its hash chain and its place in the LRU queue. */
    method Renumber(id: Id, newnum: int, mem: Bytes)
      requires Core() && id in bkts && bkts[id].pinned && bkts[id].waiters == 0
      requires |mem| == pagesize && 0 <= newnum < TWO31 && (newnum == bkts[id].num || !Resident(bkts, newnum))
      modifies `lqh, `hqh, `bkts, `npages, `file, `g
      ensures Core() && bkts == old(bkts)[id := Released(old(bkts)[id], mem, true).(num := newnum)]
      ensures g == Shadow((old(g).view - {old(bkts)[id].num})[newnum := mem], old(g).used[id := old(g).clock], old(g).clock + 1)
      ensures lqh == Without(old(lqh), id) + [id]
    {
      hide PoolOk, Without, HashKey, Zeros, Resident;
      RenumberOk(id, newnum, mem);
      HandsOf(id);
      var b := bkts[id];
      b := b.(page := mem, dirty := true, ref := b.ref - 1);
      var h := HashKey(b.num);
      hqh := hqh[h := Without(hqh[h], id)];
      lqh := Without(lqh, id);
      var oldnum := b.num;
      b := b.(num := newnum, owner := NOBODY, pinned := false);
      assert b == Released(bkts[id], mem, true).(num := newnum);
      h := HashKey(newnum);
      hqh := hqh[h := [id] + hqh[h]];
      lqh := lqh + [id];
      bkts := bkts[id := b];
      if newnum >= npages {
        npages := newnum + 1;
      }
      file := file[oldnum := Zeros(pagesize)];
      g := Shadow((g.view - {oldnum})[newnum := mem], g.used[id := g.clock], g.clock + 1);
    }

    lemma RenumberOk(id: Id, newnum: int, mem: Bytes)
      requires Core() && id in bkts && bkts[id].pinned && bkts[id].waiters == 0
      requires |mem| == pagesize && 0 <= newnum < TWO31 && (newnum == bkts[id].num || !Resident(bkts, newnum))
      ensures HashKey(bkts[id].num) < |hqh| && HashKey(newnum) < |hqh|
      ensures var h := HashKey(bkts[id].num); var hqh1 := hqh[h := Without(hqh[h], id)]; var h' := HashKey(newnum);
        var b := Released(bkts[id], mem, true).(num := newnum);
        PoolOk(Without(lqh, id) + [id], hqh1[h' := [id] + hqh1[h']], bkts[id := b], file[bkts[id].num := Zeros(pagesize)],
               (g.view - {bkts[id].num})[newnum := mem], Longer(npages, newnum), pagesize,
               g.used[id := g.clock], g.clock + 1, nextId)
    {
      hide Queues, Coherent, Recency, HandOffs, HandOff, Without, HashKey, Zeros, Resident, NumsUnique, Bounds;
      var b := Released(bkts[id], mem, true).(num := newnum);
      RenumberHands(id, newnum, mem);
      UniqueNums();
      ChangeKeeps(bkts, file, g.view, npages, pagesize, id, b);
      IdBound(id);
      BoundsOne(bkts, nextId, id, b);
      LruFacts();
      RecencyUse(lqh, g.used, g.clock, id);
      RequeueOk(id, b);
    }

    lemma RenumberHands(id: Id, newnum: int, mem: Bytes)
      requires Core() && id in bkts && bkts[id].pinned
      ensures HandOffs(bkts[id := Released(bkts[id], mem, true).(num := newnum)])
    {
      hide Queues, Coherent, Recency, HandOff, Released;
      HandsOf(id);
      ReleaseHands(bkts[id], mem, true);
      SameHands(Released(bkts[id], mem, true), Released(bkts[id], mem, true).(num := newnum));
    }

    /** Off the old queues and onto the new ones. */
    lemma RequeueOk(id: Id, b: Bkt)
      requires Core() && id in bkts && (b.num == bkts[id].num || !Resident(bkts, b.num))
      ensures var h := HashKey(bkts[id].num); h < |hqh|
      ensures var h := HashKey(bkts[id].num); var hqh1 := hqh[h := Without(hqh[h], id)]; var h' := HashKey(b.num);
        && h' < |hqh1| && Queues(Without(lqh, id) + [id], hqh1[h' := [id] + hqh1[h']], bkts[id := b])
    {
      hide Queues, Coherent, Recency, HandOffs, Without, HashKey;
      UniqueNums();
      LruFacts();
      QueuesRemove(lqh, hqh, bkts, id);
      var rest := bkts - {id};
      StillAway(rest, bkts, id, b.num);
      var h := HashKey(bkts[id].num);
      QueuesInsert(Without(lqh, id), hqh[h := Without(hqh[h], id)], rest, id, b);
      assert rest[id := b] == bkts[id := b];
    }

    lemma IdBound(id: Id)
      requires Core() && id in bkts
      ensures id < nextId
    {
    }

    lemma StillAway(rest: Bkts, bkts0: Bkts, id: Id, newnum: int)
      requires NumsUnique(bkts0) && id in bkts0 && rest == bkts0 - {id}
      requires newnum == bkts0[id].num || !Resident(bkts0, newnum)
      ensures !Resident(rest, newnum)
    {
    }

    /** Writes all dirty pages that nobody holds or waits for. */
    method Sync() returns (order: seq<int>)
      requires Valid()
      modifies `bkts, `file, `npages
      ensures Valid() && Flushed(old(bkts), bkts)
      ensures forall i, j :: 0 <= i < j < |order| ==> order[i] <= order[j]
      ensures forall id :: id in bkts && !bkts[id].pinned && bkts[id].waiters == 0 ==> !bkts[id].dirty
      ensures forall id :: id in bkts && old(bkts)[id].dirty && !old(bkts)[id].pinned && old(bkts)[id].waiters == 0 ==>
        bkts[id].num in file && file[bkts[id].num] == bkts[id].page
      ensures forall id :: id in bkts && (old(bkts)[id].pinned || old(bkts)[id].waiters > 0) ==> bkts[id] == old(bkts)[id]
      ensures Filed(old(file), old(bkts), bkts, file)
      ensures forall p :: p in g.view && NotInUse(bkts, p) ==> p in file && file[p] == g.view[p]
    {
      hide Queues, Coherent, Recency, HandOffs, Filed;
      order := SyncI(0);
      CoreFlushed(old(bkts));
      forall id | id in bkts && old(bkts)[id].dirty && !old(bkts)[id].pinned && old(bkts)[id].waiters == 0
        ensures bkts[id].num in file && file[bkts[id].num] == bkts[id].page
      {
        FiledAt(old(file), old(bkts), id);
      }
      forall p | p in g.view && NotInUse(bkts, p)
        ensures p in file && file[p] == g.view[p]
      {
        ViewFiled(p);
      }
    }

    lemma FiledAt(file0: Disk, bkts0: Bkts, id: Id)
      requires Filed(file0, bkts0, bkts, file) && id in bkts0 && id in bkts && bkts[id] != bkts0[id]
      ensures bkts0[id].num in file && file[bkts0[id].num] == bkts0[id].page
    {
    }

    lemma ViewFiled(p: int)
      requires Core() && p in g.view && NotInUse(bkts, p)
      requires forall id :: id in bkts && !bkts[id].pinned && bkts[id].waiters == 0 ==> !bkts[id].dirty
      ensures p in file && file[p] == g.view[p]
    {
      hide Queues, Recency, HandOffs, Bounds;
      if Resident(bkts, p) {
        var id :| id in bkts && bkts[id].num == p;
      }
    }

    /** The holder's edit of the page, which sits in the bucket. */
    method Edit(id: Id, mem: Bytes)
      requires Core() && id in bkts && |mem| == pagesize && (mem == bkts[id].page || bkts[id].dirty)
      modifies `bkts, `g
      ensures Core() && bkts == old(bkts)[id := old(bkts)[id].(page := mem)]
      ensures g == old(g).(view := if old(bkts)[id].dirty then old(g).view[old(bkts)[id].num := mem] else old(g).view)
    {
      hide Queues, Coherent, Recency, HandOffs, HandOff;
      HandsOf(id);
      UniqueNums();
      var b := bkts[id].(page := mem);
      SameHands(bkts[id], b);
      HandsUpdate(bkts, id, b);
      TouchQueues(lqh, hqh, bkts, id, b);
      TouchBounds(id, b);
      if b.dirty {
        PutKeeps(bkts, file, g.view, npages, pagesize, id, b);
      } else {
        TouchKeeps(bkts, file, g.view, npages, pagesize, id, b);
      }
      bkts := bkts[id := b];
      g := g.(view := if b.dirty then g.view[b.num := mem] else g.view);
    }

    /** Writes a page that somebody holds. */
    method WriteHeld(id: Id)
      requires Core() && id in bkts
      modifies `bkts, `file, `npages
      ensures Core() && bkts == old(bkts)[id := old(bkts)[id].(dirty := false)]
    {
      hide Queues, Coherent, Recency, HandOffs, HandOff;
      HandsOf(id);
      UniqueNums();
      var b := bkts[id].(dirty := false);
      SameHands(bkts[id], b);
      HandsUpdate(bkts, id, b);
      TouchQueues(lqh, hqh, bkts, id, b);
      TouchBounds(id, b);
      Write(id);
    }

    /** Takes a clean page out of memory. */
    method Drop(id: Id)
      requires Core() && id in bkts && !bkts[id].dirty
      modifies `lqh, `hqh, `bkts
      ensures Core() && bkts == old(bkts) - {id} && lqh == Without(old(lqh), id) && |lqh| == |old(lqh)| - 1
    {
      hide Queues, Coherent, Recency, HandOffs;
      LruFacts();
      QueuesRemove(lqh, hqh, bkts, id);
      RemoveKeeps(bkts, file, g.view, npages, pagesize, id);
      HandsRemove(bkts, id);
      WithoutKeepsOrder(lqh, id, g.used, g.clock);
      var h := HashKey(bkts[id].num);
      hqh := hqh[h := Without(hqh[h], id)];
      lqh := Without(lqh, id);
      bkts := bkts - {id};
    }

    /** Removes a page from memory, writing it first when it is dirty. */
    method Delete(id: Id, mem: Bytes, me: Thread) returns (st: PutStatus)
      requires Valid() && Holds(bkts, id, me) && |mem| == pagesize
      requires mem == bkts[id].page || bkts[id].dirty
      modifies this
      ensures Valid() && st != InUse && (st == Again <==> old(bkts)[id].waiters > 0)
      ensures st == Again ==> bkts == old(bkts)[id := old(bkts)[id].(page := mem)] && lqh == old(lqh) && curcache == old(curcache)
      ensures st == Done ==> bkts == old(bkts) - {id} && lqh == Without(old(lqh), id) && curcache == old(curcache) - 1
      ensures g == old(g).(view := if old(bkts)[id].dirty then old(g).view[old(bkts)[id].num := mem] else old(g).view)
      ensures maxpgno == old(maxpgno)
    {
      hide Queues, Coherent, Recency, HandOffs;
      HandsOf(id);
      Edit(id, mem);
      if bkts[id].ref == 1 {
        if bkts[id].waiters > 0 {
          return Again;
        }
        if bkts[id].dirty {
          WriteHeld(id);
        }
        Drop(id);
        assert bkts == old(bkts) - {id};
        curcache := curcache - 1;
        st := Done;
      } else {
        st := InUse;
      }
    }

    // -------------------------------------------------------------- runs

    /** The place of a thread in a queue of waiters. */
    method PlaceOf(q: seq<Waiter>, me: Thread) returns (i: int)
      ensures i >= 0 ==> i < |q| && q[i].who == me
      ensures i < 0 ==> forall w :: w in q ==> w.who != me
    {
      i := |q| - 1;
      while i >= 0
        invariant -1 <= i < |q|
        invariant forall j :: i < j < |q| ==> q[j].who != me
      {
        if q[i].who == me {
          return;
        }
        i := i - 1;
      }
    }

    /** A thread takes the step it asks for, if it may. */
    method Perform(me: Thread, a: Action) returns (e: Event)
      requires Valid()
      modifies this
      ensures Valid() && Step(lim, old(Now()), me, a, e, Now())
    {
      hide Core, Queues, Coherent, Recency, HandOffs, HandOff, Resident, Released, Evicted, NoneEvictable, Flushed, Without, Brought, Busy;
      e := Skipped;
      if me == NOBODY || maxpgno >= 0xffff_ffff {
        return;
      }
      match a
      case AGet(p, flags) => e := PerformGet(p, flags, me);
      case AWake(id, flags) =>
        if id in bkts {
          var i := PlaceOf(bkts[id].wqh, me);
          PlaceIsOnly(id, i, me);
          if i >= 0 && bkts[id].wqh[i].wakeup {
            e := Woken(me, id, bkts[id].num, bkts[id].page);
            GetWoken(id, i, flags, me);
          }
        }
      case ANew(p, request, flags) => e := PerformNew(p, request, flags, me);
      case APut(id, mem, dirty) =>
        if Holds(bkts, id, me) && EditOk(pagesize, bkts[id], mem, dirty) {
          e := GaveBack(me, id, bkts[id].num, mem, dirty || bkts[id].dirty);
          Put(id, mem, dirty, me);
        }
      case AChange(id, newnum, mem) => e := PerformChange(id, newnum, mem, me);
      case ADelete(id, mem) =>
        if Holds(bkts, id, me) && EditOk(pagesize, bkts[id], mem, false) {
          e := if bkts[id].waiters > 0 then Kept(me, id, bkts[id].num, mem, bkts[id].dirty) else Deleted(me, id, bkts[id].num, mem, bkts[id].dirty);
          var st := Delete(id, mem, me);
        }
      case ASync =>
        var order := Sync();
        e := Synced;
    }

    /** A thread gets a page, if it is away from it. */
    method PerformGet(p: int, flags: Flags, me: Thread) returns (e: Event)
      requires Valid() && me != NOBODY && maxpgno < 0xffff_ffff
      modifies this
      ensures Valid() && Step(lim, old(Now()), me, AGet(p, flags), e, Now())
    {
      hide Core, Queues, Coherent, Recency, HandOffs, HandOff, Evicted, NoneEvictable, Flushed, Without, Brought;
      e := Skipped;
      if !(0 <= p < TWO31) {
        return;
      }
      ChainsOk();
      var found, id := Find(p);
      OnlyOne(p, found, id);
      if found {
        var i := PlaceOf(bkts[id].wqh, me);
        if i >= 0 || Holds(bkts, id, me) {
          return;
        }
      }
      var st;
      st, id := Get(p, flags, me);
      match st
      case Got => e := Read(me, id, p, bkts[id].page);
      case Blocked => e := Queued(me, id, p);
      case WriteToReadonly => e := Refused(me, p);
    }

    /** A thread creates a page, if it is not in memory. */
    method PerformNew(p: int, request: bool, flags: Flags, me: Thread) returns (e: Event)
      requires Valid() && me != NOBODY && maxpgno < 0xffff_ffff
      modifies this
      ensures Valid() && Step(lim, old(Now()), me, ANew(p, request, flags), e, Now())
    {
      hide Core, Queues, Coherent, Recency, HandOffs, HandOff, Evicted, NoneEvictable, Flushed, Without, Brought, Resident, Zeros;
      e := Skipped;
      var num := if request then p else maxpgno + 1;
      if !(0 <= num < TWO31) {
        return;
      }
      ChainsOk();
      var found, id := Find(num);
      if !found {
        num, id := NewPage(p, request, flags, me);
        e := Created(me, id, num, bkts[id].page);
      }
    }

    /** A thread renumbers a page that it holds. */
    method PerformChange(id: Id, newnum: int, mem: Bytes, me: Thread) returns (e: Event)
      requires Valid() && me != NOBODY && maxpgno < 0xffff_ffff
      modifies this
      ensures Valid() && Step(lim, old(Now()), me, AChange(id, newnum, mem), e, Now())
    {
      hide Core, Queues, Coherent, Recency, HandOffs, HandOff, Released, Without, Resident;
      e := Skipped;
      if Holds(bkts, id, me) && |mem| == pagesize && 0 <= newnum < TWO31 && (bkts[id].waiters == 0 || EditOk(pagesize, bkts[id], mem, false)) {
        ChainsOk();
        var found, other := Find(newnum);
        if newnum == bkts[id].num || !found {
          e := if bkts[id].waiters > 0 then GaveBack(me, id, bkts[id].num, mem, bkts[id].dirty) else Moved(me, id, bkts[id].num, newnum, mem);
          var st := ChangePage(id, newnum, mem, me);
        }
      }
    }

    /** A thread is in a queue once at most. */
    lemma PlaceIsOnly(id: Id, i: int, me: Thread)
      requires Core() && id in bkts
      requires i >= 0 ==> i < |bkts[id].wqh| && bkts[id].wqh[i].who == me
      requires i < 0 ==> forall w :: w in bkts[id].wqh ==> w.who != me
      ensures Waiter(me, true) in bkts[id].wqh <==> i >= 0 && bkts[id].wqh[i] == Waiter(me, true)
    {
      HandsOf(id);
    }

    lemma ValidSnap()
      requires Core()
      ensures SnapOk(Now())
    {
      hide Coherent, HashOk;
    }

    /** Any threads ask for any steps in any order. Each step does what it should to the pool it
        finds, and shows it; for each page the steps are those of a lock with a queue; and all
        pages together are those of an uncached page map, which every reader sees. */
    method Interleave(run: seq<(Thread, Action)>) returns (es: seq<Event>, ghost ss: seq<Snap>)
      requires Valid()
      modifies this
      ensures Valid() && Trace(lim, ss, run, es) && ss[0] == old(Now()) && ss[|run|] == Now()
      ensures forall p :: LegalRun(LockOf(old(bkts), p), p, es) && LockOf(bkts, p) == LockAfter(LockOf(old(bkts), p), p, es)
      ensures g.view == ViewAfter(old(g).view, es) && ReadsAgree(old(g).view, es)
    {
      hide Core, Step, SnapOk, LegalRun, LockOf, LockAfter;
      ValidSnap();
      es, ss := [], [Now()];
      while |es| < |run|
        invariant |es| <= |run| && Valid() && Trace(lim, ss, run[..|es|], es)
        invariant ss[0] == old(Now()) && ss[|es|] == Now()
      {
        var n := |es|;
        var e := Perform(run[n].0, run[n].1);
        ValidSnap();
        TraceStep(lim, ss, run[..n], es, run[n], e, Now());
        assert run[..n] + [run[n]] == run[..n + 1];
        es, ss := es + [e], ss + [Now()];
      }
      assert run[..|es|] == run;
      TraceView(lim, ss, run, es);
      forall p
        ensures LegalRun(LockOf(old(bkts), p), p, es) && LockOf(bkts, p) == LockAfter(LockOf(old(bkts), p), p, es)
      {
        TraceLocks(lim, ss, run, es, p);
      }
    }
  }
}
