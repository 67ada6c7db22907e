/** Walking over all keys of a store. */
module Cursors {
  import opened Pages
  import opened Levels
  import opened StoreInv
  import opened KeyLemmas
  import opened Store

  datatype Status = Clean | AtItem | NoMore

  datatype Dir = First | Last | Next | Prev

  /** The place is before the other: by bucket, page of the chain and entry; backwards, the
      buckets and the entries count down but the pages of a chain still count up. */
  ghost predicate Less(roles: Roles, back: bool, a: Loc, c: Loc) {
    && a.page in roles && roles[a.page].Chain? && c.page in roles && roles[c.page].Chain?
    && var (r, s) := (roles[a.page], roles[c.page]);
      || (if back then r.b > s.b else r.b < s.b)
      || (r.b == s.b && (r.i < s.i || (r.i == s.i && if back then a.idx > c.idx else a.idx < c.idx)))
  }

  class Cursor {
    const t: HashTable
    var status: Status
    var bucket: nat
    var pgno: Pgno
    var pgndx: nat
    ghost var x: nat

    constructor (t: HashTable)
      ensures this.t == t && status == Clean
    {
      this.t := t;
      status, bucket, pgno, pgndx, x := Clean, 0, INVALID_PGNO, 0, 0;
    }

    /** Entry pgndx of page x of the chain of the bucket. */
    ghost predicate On()
      reads this, t
    {
      && bucket < |t.chains| && x < |t.chains[bucket]| && pgno == t.chains[bucket][x]
      && pgndx < |Ents(t.pages, pgno)|
    }

    ghost predicate Valid()
      reads this, t
    {
      t.Valid() && (status == AtItem ==> On())
    }

    ghost function Here(): Loc
      reads this
    {
      Loc(pgno, pgndx)
    }

    /** No key lies between. */
    ghost predicate NoKeyBetween(back: bool, a: Loc, c: Loc)
      reads t
    {
      forall k :: k in t.keys ==> !(Less(t.roles, back, a, t.keys[k]) && Less(t.roles, back, t.keys[k], c))
    }

    ghost predicate NoKeyBefore(back: bool, c: Loc)
      reads t
    {
      forall k :: k in t.keys ==> !Less(t.roles, back, t.keys[k], c)
    }

    ghost predicate NoKeyAfter(back: bool, a: Loc)
      reads t
    {
      forall k :: k in t.keys ==> !Less(t.roles, back, a, t.keys[k])
    }

    /** Where a key is on its chain. */
    lemma KeySpot(k: Bytes)
      requires t.Valid() && k in t.keys
      ensures var p := t.keys[k].page;
        && p in t.roles && t.roles[p].Chain? && t.roles[p].b < |t.chains| && t.roles[p].i < |t.chains[t.roles[p].b]|
        && t.chains[t.roles[p].b][t.roles[p].i] == p
        && t.keys[k].idx < |Ents(t.pages, p)| && Ents(t.pages, p)[t.keys[k].idx].key == k
    {
      assert KeyAt(t.hdr, t.hash, t.pages, t.roles, t.data, k, t.keys[k]);
    }

    lemma SpotKey(b: nat, i: nat, e: nat)
      requires t.Valid() && b < |t.chains| && i < |t.chains[b]| && e < |Ents(t.pages, t.chains[b][i])|
      ensures var p := t.chains[b][i]; var k := Ents(t.pages, p)[e].key;
        && k in t.keys && t.keys[k] == Loc(p, e) && p in t.roles && t.roles[p] == Chain(b, i)
    {
      EntryIsKey(t.hdr, t.hash, t.pages, t.roles, t.chains, t.data, t.keys, b, i, e);
      t.PageFacts(b, i);
    }

    /** A bucket whose base page has no entry has no key. */
    lemma EmptyBucket(b: nat, k: Bytes)
      requires t.Valid() && b < |t.chains| && k in t.keys && t.keys[k].page in t.roles && t.roles[t.keys[k].page].Chain?
      requires |t.chains[b]| >= 1 && Ents(t.pages, t.chains[b][0]) == []
      ensures t.roles[t.keys[k].page].b != b
    {
      KeySpot(k);
      t.PageFacts(b, 0);
    }

    lemma BasePage(b: nat)
      requires t.Valid() && b <= t.hdr.maxBucket
      ensures b < |t.chains| && |t.chains[b]| >= 1 && t.chains[b][0] == BucketPage(t.hdr, b)
      ensures |t.chains| == t.hdr.maxBucket + 1
      ensures t.chains[b][0] in t.roles && t.roles[t.chains[b][0]] == Chain(b, 0)
    {
      assert ChainOk(t.hdr, t.pages, t.roles, b, t.chains[b]);
      assert t.chains[b][0] in t.roles && t.roles[t.chains[b][0]] == Chain(b, 0);
    }

    lemma Ready()
      requires t.Valid()
      ensures t.KeyReady()
    {
    }

    lemma ChainCount()
      requires t.Valid()
      ensures |t.chains| == t.hdr.maxBucket + 1
    {
    }

    /** The first entry of the first bucket that has one. */
    method FindFirst() returns (found: bool)
      requires Valid()
      modifies this
      ensures Valid() && (found <==> t.keys != map[])
      ensures found ==> status == AtItem && NoKeyBefore(false, Here())
      ensures !found ==> status == NoMore
    {
      hide t.KeyReady, t.Valid, BucketPage, Ents, Less;
      ChainCount();
      bucket := 0;
      while bucket <= t.hdr.maxBucket && Entries(bucket) == 0
        invariant t.Valid() && 0 <= bucket <= t.hdr.maxBucket + 1
        invariant forall b :: 0 <= b < bucket ==> Empty(b)
        modifies `bucket
      {
        BasePage(bucket);
        bucket := bucket + 1;
      }
      if bucket > t.hdr.maxBucket {
        status := NoMore;
        forall k | k in t.keys
          ensures false
        {
          NotInEmpty(k, 0, bucket);
        }
        return false;
      }
      BasePage(bucket);
      pgno, pgndx, x, status := BucketPage(t.hdr, bucket), 0, 0, AtItem;
      SpotKey(bucket, 0, 0);
      forall k | k in t.keys
        ensures !Less(t.roles, false, t.keys[k], Here())
      {
        NotInEmpty(k, 0, bucket);
        NotLess(k);
      }
      return true;
    }

    /** Entries on the base page of a bucket; a page never written has none. */
    function Entries(b: nat): nat
      reads t
    {
      |Ents(t.pages, BucketPage(t.hdr, b))|
    }

    ghost predicate Empty(b: nat)
      reads t
    {
      Entries(b) == 0
    }

    lemma NotInEmpty(k: Bytes, lo: nat, hi: nat)
      requires t.Valid() && k in t.keys && hi <= t.hdr.maxBucket + 1 && forall b :: lo <= b < hi ==> Empty(b)
      ensures t.keys[k].page in t.roles && t.roles[t.keys[k].page].Chain?
      ensures t.roles[t.keys[k].page].b < lo || hi <= t.roles[t.keys[k].page].b <= t.hdr.maxBucket
    {
      hide t.KeyReady, t.Valid, BucketPage;
      KeySpot(k);
      ChainCount();
      var b := t.roles[t.keys[k].page].b;
      if lo <= b < hi {
        BasePage(b);
        assert Empty(b);
        EmptyBucket(b, k);
      }
    }

    lemma NotLess(k: Bytes)
      requires On() && pgndx == 0 && x == 0 && k in t.keys && pgno in t.roles && t.roles[pgno] == Chain(bucket, 0)
      requires t.keys[k].page in t.roles && t.roles[t.keys[k].page].Chain? && bucket <= t.roles[t.keys[k].page].b
      ensures !Less(t.roles, false, t.keys[k], Here())
    {
    }

    /** The last entry of the base page of the last bucket that has one. */
    method FindLast() returns (found: bool)
      requires Valid()
      modifies this
      ensures Valid() && (found <==> t.keys != map[])
      ensures found ==> status == AtItem && NoKeyBefore(true, Here())
      ensures !found ==> status == NoMore
    {
      hide t.KeyReady, t.Valid, BucketPage, Ents, Less;
      ChainCount();
      AtLeastTwo();
      bucket := t.hdr.maxBucket;
      while Entries(bucket) == 0
        invariant t.Valid() && 0 <= bucket <= t.hdr.maxBucket && (bucket == 0 ==> Entries(0) != 0)
        invariant forall b :: bucket < b <= t.hdr.maxBucket ==> Empty(b)
        decreases bucket
        modifies this
      {
        BasePage(bucket);
        assert Empty(bucket);
        bucket := bucket - 1;
        if bucket == 0 && Entries(0) == 0 {
          status := NoMore;
          assert Empty(0);
          forall k | k in t.keys
            ensures false
          {
            NotInEmpty(k, 0, t.hdr.maxBucket + 1);
          }
          return false;
        }
      }
      BasePage(bucket);
      pgno, pgndx, x, status := BucketPage(t.hdr, bucket), Entries(bucket) - 1, 0, AtItem;
      SpotKey(bucket, 0, pgndx);
      forall k | k in t.keys
        ensures !Less(t.roles, true, t.keys[k], Here())
      {
        NotInEmpty(k, bucket + 1, t.hdr.maxBucket + 1);
        KeySpot(k);
        NotLessBack(k);
      }
      return true;
    }

    lemma AtLeastTwo()
      requires t.Valid()
      ensures t.hdr.maxBucket >= 1
    {
    }

    lemma NotLessBack(k: Bytes)
      requires On() && pgndx == |Ents(t.pages, pgno)| - 1 && x == 0 && k in t.keys && pgno in t.roles && t.roles[pgno] == Chain(bucket, 0)
      requires t.Valid() && t.keys[k].page in t.roles && t.roles[t.keys[k].page].Chain? && t.roles[t.keys[k].page].b <= bucket
      ensures !Less(t.roles, true, t.keys[k], Here())
    {
      KeySpot(k);
    }

    /** The entry after the current one. */
    method FindNext() returns (found: bool)
      requires Valid() && status == AtItem
      modifies this
      ensures Valid() && (found <==> !NoKeyAfter(false, old(Here())))
      ensures found ==> status == AtItem && Less(t.roles, false, old(Here()), Here()) && NoKeyBetween(false, old(Here()), Here())
      ensures !found ==> status == NoMore
    {
      hide t.KeyReady, t.Valid, BucketPage, Less, NoKeyBetween, NoKeyAfter, GetCreate, LayoutOk;
      ghost var b0, x0, e0, p0 := bucket, x, pgndx, pgno;
      SpotKey(bucket, x, pgndx);
      ChainCount();
      if pgndx == |Ents(t.pages, pgno)| - 1 {
        Ready();
        t.PageFacts(bucket, x);
        t.NoInvalidLink(bucket, x);
        var nextp := NextOf(pgno);
        if nextp == INVALID_PGNO {
          if bucket >= t.hdr.maxBucket {
            status := NoMore;
            NothingAfter(b0, x0, e0, bucket + 1);
            return false;
          }
          bucket := bucket + 1;
          while Entries(bucket) == 0
            invariant t.Valid() && b0 < bucket <= t.hdr.maxBucket && status == AtItem
            invariant forall b :: b0 < b < bucket ==> Empty(b)
            decreases t.hdr.maxBucket - bucket
            modifies this
          {
            assert Empty(bucket);
            if bucket == t.hdr.maxBucket {
              status := NoMore;
              NothingAfter(b0, x0, e0, bucket + 1);
              return false;
            }
            bucket := bucket + 1;
          }
          BasePage(bucket);
          pgno, x := BucketPage(t.hdr, bucket), 0;
          SpotKey(bucket, 0, 0);
          NothingBetween(b0, x0, e0, bucket);
        } else {
          t.PageFacts(bucket, x + 1);
          pgno, x := nextp, x + 1;
          SpotKey(bucket, x, 0);
          NothingToNextPage(b0, x0, e0);
        }
        pgndx := 0;
      } else {
        pgndx := pgndx + 1;
        SpotKey(bucket, x, pgndx);
        NothingToNextEntry(b0, x0, e0);
      }
      HereIsKey(Loc(p0, e0), false);
      return true;
    }

    function NextOf(p: Pgno): Pgno
      reads t
    {
      GetCreate(t.pages, t.hdr.bsize, p, TKey).next
    }

    lemma NothingAfter(b: nat, i: nat, e: nat, hi: nat)
      requires t.Valid() && b < |t.chains| && i + 1 == |t.chains[b]| && e + 1 == |Ents(t.pages, t.chains[b][i])|
      requires hi == t.hdr.maxBucket + 1 && forall y :: b < y < hi ==> Empty(y)
      ensures NoKeyAfter(false, Loc(t.chains[b][i], e))
    {
      hide t.KeyReady, t.Valid, BucketPage;
      SpotKey(b, i, e);
      forall k | k in t.keys
        ensures !Less(t.roles, false, Loc(t.chains[b][i], e), t.keys[k])
      {
        KeySpot(k);
        NotInEmpty(k, b + 1, hi);
      }
    }

    lemma NothingBetween(b: nat, i: nat, e: nat, hi: nat)
      requires t.Valid() && b < hi < |t.chains| && i + 1 == |t.chains[b]| && e + 1 == |Ents(t.pages, t.chains[b][i])|
      requires hi <= t.hdr.maxBucket && (forall y :: b < y < hi ==> Empty(y)) && |t.chains[hi]| >= 1
      requires t.chains[hi][0] in t.roles && t.roles[t.chains[hi][0]] == Chain(hi, 0)
      ensures NoKeyBetween(false, Loc(t.chains[b][i], e), Loc(t.chains[hi][0], 0))
      ensures Less(t.roles, false, Loc(t.chains[b][i], e), Loc(t.chains[hi][0], 0))
    {
      hide t.KeyReady, t.Valid, BucketPage;
      SpotKey(b, i, e);
      forall k | k in t.keys && Less(t.roles, false, Loc(t.chains[b][i], e), t.keys[k])
        ensures !Less(t.roles, false, t.keys[k], Loc(t.chains[hi][0], 0))
      {
        KeySpot(k);
        NotInEmpty(k, b + 1, hi);
      }
    }

    lemma NothingToNextPage(b: nat, i: nat, e: nat)
      requires t.Valid() && b < |t.chains| && i + 1 < |t.chains[b]| && e + 1 == |Ents(t.pages, t.chains[b][i])|
      requires 0 < |Ents(t.pages, t.chains[b][i + 1])|
      ensures NoKeyBetween(false, Loc(t.chains[b][i], e), Loc(t.chains[b][i + 1], 0))
      ensures Less(t.roles, false, Loc(t.chains[b][i], e), Loc(t.chains[b][i + 1], 0))
    {
      hide t.KeyReady, t.Valid;
      SpotKey(b, i, e);
      SpotKey(b, i + 1, 0);
      forall k | k in t.keys && Less(t.roles, false, Loc(t.chains[b][i], e), t.keys[k])
        ensures !Less(t.roles, false, t.keys[k], Loc(t.chains[b][i + 1], 0))
      {
        KeySpot(k);
      }
    }

    lemma NothingToNextEntry(b: nat, i: nat, e: nat)
      requires t.Valid() && b < |t.chains| && i < |t.chains[b]| && e + 1 < |Ents(t.pages, t.chains[b][i])|
      ensures NoKeyBetween(false, Loc(t.chains[b][i], e), Loc(t.chains[b][i], e + 1))
      ensures Less(t.roles, false, Loc(t.chains[b][i], e), Loc(t.chains[b][i], e + 1))
    {
      hide t.KeyReady, t.Valid;
      SpotKey(b, i, e);
      forall k | k in t.keys && Less(t.roles, false, Loc(t.chains[b][i], e), t.keys[k])
        ensures !Less(t.roles, false, t.keys[k], Loc(t.chains[b][i], e + 1))
      {
        KeySpot(k);
      }
    }

    /** The current entry is a key, so it comes after any place before it. */
    lemma HereIsKey(a: Loc, back: bool)
      requires t.Valid() && On() && Less(t.roles, back, a, Here())
      ensures !NoKeyAfter(back, a)
    {
      hide t.KeyReady, t.Valid, Less;
      SpotKey(bucket, x, pgndx);
    }

    /** The entry before the current one: towards the start of its page, then the last entry of
        the next page of the chain, then of the base page of a bucket below. */
    method FindPrev() returns (found: bool)
      requires Valid() && status == AtItem
      modifies this
      ensures Valid() && (found <==> !NoKeyAfter(true, old(Here())))
      ensures found ==> status == AtItem && Less(t.roles, true, old(Here()), Here()) && NoKeyBetween(true, old(Here()), Here())
      ensures !found ==> status == NoMore
    {
      hide t.KeyReady, t.Valid, BucketPage, Less, NoKeyBetween, NoKeyAfter, GetCreate, LayoutOk;
      ghost var b0, x0, p0 := bucket, x, pgno;
      SpotKey(bucket, x, pgndx);
      ChainCount();
      ghost var e0 := pgndx;
      if pgndx == 0 {
        Ready();
        t.PageFacts(bucket, x);
        t.NoInvalidLink(bucket, x);
        var nextp := NextOf(pgno);
        if nextp == INVALID_PGNO {
          if bucket == 0 {
            status := NoMore;
            NothingBelow(b0, x0, 0);
            return false;
          }
          bucket := bucket - 1;
          while Entries(bucket) == 0
            invariant t.Valid() && 0 <= bucket < b0 && status == AtItem
            invariant forall b :: bucket < b < b0 ==> Empty(b)
            decreases bucket
            modifies this
          {
            assert Empty(bucket);
            if bucket == 0 {
              status := NoMore;
              NothingBelow(b0, x0, 0);
              return false;
            }
            bucket := bucket - 1;
          }
          BasePage(bucket);
          pgno, x := BucketPage(t.hdr, bucket), 0;
          pgndx := Entries(bucket) - 1;
          SpotKey(bucket, 0, pgndx);
          NothingBetweenBack(b0, x0, bucket, pgndx);
        } else {
          t.PageFacts(bucket, x + 1);
          pgno, x := nextp, x + 1;
          pgndx := |Ents(t.pages, pgno)| - 1;
          SpotKey(bucket, x, pgndx);
          NothingToNextPageBack(b0, x0, pgndx);
        }
      } else {
        pgndx := pgndx - 1;
        SpotKey(bucket, x, pgndx);
        NothingToEntryBefore(b0, x0, e0);
      }
      HereIsKey(Loc(p0, e0), true);
      return true;
    }

    lemma NothingBelow(b: nat, i: nat, lo: nat)
      requires t.Valid() && b < |t.chains| && i + 1 == |t.chains[b]| && 0 < |Ents(t.pages, t.chains[b][i])|
      requires lo == 0 && forall y :: lo <= y < b ==> Empty(y)
      ensures NoKeyAfter(true, Loc(t.chains[b][i], 0))
    {
      hide t.KeyReady, t.Valid, BucketPage;
      SpotKey(b, i, 0);
      ChainCount();
      forall k | k in t.keys
        ensures !Less(t.roles, true, Loc(t.chains[b][i], 0), t.keys[k])
      {
        KeySpot(k);
        NotInEmpty(k, lo, b);
      }
    }

    lemma NothingBetweenBack(b: nat, i: nat, lo: nat, e: nat)
      requires t.Valid() && lo < b < |t.chains| && i + 1 == |t.chains[b]| && 0 < |Ents(t.pages, t.chains[b][i])|
      requires (forall y :: lo < y < b ==> Empty(y)) && |t.chains[lo]| >= 1 && e + 1 == |Ents(t.pages, t.chains[lo][0])|
      ensures NoKeyBetween(true, Loc(t.chains[b][i], 0), Loc(t.chains[lo][0], e))
      ensures Less(t.roles, true, Loc(t.chains[b][i], 0), Loc(t.chains[lo][0], e))
    {
      hide t.KeyReady, t.Valid, BucketPage;
      SpotKey(b, i, 0);
      SpotKey(lo, 0, e);
      ChainCount();
      forall k | k in t.keys && Less(t.roles, true, Loc(t.chains[b][i], 0), t.keys[k])
        ensures !Less(t.roles, true, t.keys[k], Loc(t.chains[lo][0], e))
      {
        KeySpot(k);
        NotInEmpty(k, lo + 1, b);
      }
    }

    lemma NothingToNextPageBack(b: nat, i: nat, e: nat)
      requires t.Valid() && b < |t.chains| && i + 1 < |t.chains[b]| && e + 1 == |Ents(t.pages, t.chains[b][i + 1])|
      requires 0 < |Ents(t.pages, t.chains[b][i])|
      ensures NoKeyBetween(true, Loc(t.chains[b][i], 0), Loc(t.chains[b][i + 1], e))
      ensures Less(t.roles, true, Loc(t.chains[b][i], 0), Loc(t.chains[b][i + 1], e))
    {
      hide t.KeyReady, t.Valid;
      SpotKey(b, i, 0);
      SpotKey(b, i + 1, e);
      forall k | k in t.keys && Less(t.roles, true, Loc(t.chains[b][i], 0), t.keys[k])
        ensures !Less(t.roles, true, t.keys[k], Loc(t.chains[b][i + 1], e))
      {
        KeySpot(k);
      }
    }

    lemma NothingToEntryBefore(b: nat, i: nat, e: nat)
      requires t.Valid() && b < |t.chains| && i < |t.chains[b]| && 0 < e < |Ents(t.pages, t.chains[b][i])|
      ensures NoKeyBetween(true, Loc(t.chains[b][i], e), Loc(t.chains[b][i], e - 1))
      ensures Less(t.roles, true, Loc(t.chains[b][i], e), Loc(t.chains[b][i], e - 1))
    {
      hide t.KeyReady, t.Valid;
      SpotKey(b, i, e);
      forall k | k in t.keys && Less(t.roles, true, Loc(t.chains[b][i], e), t.keys[k])
        ensures !Less(t.roles, true, t.keys[k], Loc(t.chains[b][i], e - 1))
      {
        KeySpot(k);
      }
    }

    /** The current key and its value. */
    method Current() returns (key: Bytes, val: Bytes)
      requires Valid() && status == AtItem
      ensures key in t.keys && t.keys[key] == Here() && key in t.Map() && t.Map()[key] == val
    {
      hide t.KeyReady, t.Valid, ContentsOf;
      SpotKey(bucket, x, pgndx);
      CurrentFacts();
      var e := Ents(t.pages, pgno)[pgndx];
      key := e.key;
      t.KeyFacts(key);
      ContentsAt(t.data, key);
      var r := t.GetData(key, Loc(pgno, pgndx), e.datap, 0);
      val := r.val;
    }

    lemma CurrentFacts()
      requires Valid() && status == AtItem
      ensures t.KeyReady() && t.keys.Keys == t.data.Keys && On()
      ensures t.DataReady()
    {
    }

    /** Moves as asked. A cursor that was never moved starts at an end. */
    method Move(dir: Dir) returns (found: bool)
      requires Valid() && (dir == Next || dir == Prev ==> status != NoMore)
      modifies this
      ensures Valid() && (found ==> status == AtItem) && (!found ==> status == NoMore)
      ensures var start := dir == First || dir == Last || old(status) == Clean; var back := dir == Last || dir == Prev;
        if start
        then (found <==> t.keys != map[]) && (found ==> NoKeyBefore(back, Here()))
        else (found <==> !NoKeyAfter(back, old(Here())))
             && (found ==> Less(t.roles, back, old(Here()), Here()) && NoKeyBetween(back, old(Here()), Here()))
    {
      hide t.Valid, On, Less;
      var d := dir;
      if dir == Next && status == Clean {
        d := First;
      }
      if dir == Prev && status == Clean {
        d := Last;
      }
      match d
      case First => found := FindFirst();
      case Last => found := FindLast();
      case Next => found := FindNext();
      case Prev => found := FindPrev();
    }

    // -------------------------------------------------------------- a whole walk

    /** The pairs stand in the order of their places. */
    ghost predicate InOrder(back: bool, pairs: seq<(Bytes, Bytes)>)
      reads t
    {
      && (forall i :: 0 <= i < |pairs| ==> pairs[i].0 in t.keys)
      && forall i, j :: 0 <= i < j < |pairs| ==> Less(t.roles, back, t.keys[pairs[i].0], t.keys[pairs[j].0])
    }

    /** The pairs met so far are stored pairs, none twice; the keys left are the others, and
        while an entry is found they are that entry's key and those after it. */
    ghost predicate Progress(back: bool, pairs: seq<(Bytes, Bytes)>, left: set<Bytes>, found: bool, here: Loc)
      reads t
    {
      && (forall i :: 0 <= i < |pairs| ==> pairs[i].0 in t.Map() && t.Map()[pairs[i].0] == pairs[i].1 && pairs[i].0 !in left)
      && (forall i, j :: 0 <= i < j < |pairs| ==> pairs[i].0 != pairs[j].0)
      && InOrder(back, pairs) && left <= t.keys.Keys
      && (forall k :: k in t.keys && k !in left ==> exists i :: 0 <= i < |pairs| && pairs[i].0 == k)
      && (if found then forall k :: k in t.keys ==> (k in left <==> !Less(t.roles, back, t.keys[k], here)) else left == {})
    }

    /** From a cursor never moved, moving one way until nothing is found meets every stored
        pair exactly once, in the order of the places. */
    method Walk(back: bool) returns (pairs: seq<(Bytes, Bytes)>)
      requires Valid() && status == Clean
      modifies this
      ensures Valid() && status == NoMore
      ensures forall i :: 0 <= i < |pairs| ==> pairs[i].0 in t.Map() && t.Map()[pairs[i].0] == pairs[i].1
      ensures forall i, j :: 0 <= i < j < |pairs| ==> pairs[i].0 != pairs[j].0
      ensures forall k :: k in t.Map() ==> exists i :: 0 <= i < |pairs| && pairs[i].0 == k
      ensures InOrder(back, pairs)
    {
      hide t.Valid, On, Less, ContentsOf, Progress;
      pairs := [];
      var found := Move(if back then Prev else Next);
      ghost var left := t.keys.Keys;
      WalkStart(back, found, Here());
      while found
        invariant Valid() && (found ==> status == AtItem) && (!found ==> status == NoMore)
        invariant Progress(back, pairs, left, found, Here())
        decreases |left|, found
      {
        ghost var here := Here();
        var key, val := Current();
        WalkTakes(back, pairs, left, here, key, val);
        found := Move(if back then Prev else Next);
        WalkStep(back, pairs, left, here, key, val, found, Here());
        pairs := pairs + [(key, val)];
        left := left - {key};
      }
      WalkEnds(back, pairs, left, Here());
    }

    lemma WalkStart(back: bool, found: bool, here: Loc)
      requires t.Valid() && (found <==> t.keys != map[]) && (found ==> NoKeyBefore(back, here))
      ensures Progress(back, [], t.keys.Keys, found, here)
    {
    }

    lemma WalkTakes(back: bool, pairs: seq<(Bytes, Bytes)>, left: set<Bytes>, here: Loc, key: Bytes, val: Bytes)
      requires Progress(back, pairs, left, true, here) && key in t.keys && t.keys[key] == here
      ensures key in left && |left - {key}| < |left|
    {
    }

    lemma WalkStep(back: bool, pairs: seq<(Bytes, Bytes)>, left: set<Bytes>, here: Loc, key: Bytes, val: Bytes, found: bool, next: Loc)
      requires t.Valid() && Progress(back, pairs, left, true, here)
      requires key in t.keys && t.keys[key] == here && key in t.Map() && t.Map()[key] == val
      requires found ==> Less(t.roles, back, here, next) && NoKeyBetween(back, here, next)
      requires !found ==> NoKeyAfter(back, here)
      ensures Progress(back, pairs + [(key, val)], left - {key}, found, next)
    {
      hide t.Valid, Less, ContentsOf;
      NotBeforeItself(back, here);
      var pairs' := pairs + [(key, val)];
      forall k | k in t.keys
        ensures found ==> (k in left - {key} <==> !Less(t.roles, back, t.keys[k], next))
        ensures !found ==> k !in left - {key}
      {
        Compare(back, k, key);
        if found && Less(t.roles, back, t.keys[k], here) {
          LessTrans(back, t.keys[k], here, next);
        }
      }
      forall k | k in t.keys && k !in left - {key}
        ensures exists i :: 0 <= i < |pairs'| && pairs'[i].0 == k
      {
        if k == key {
          assert pairs'[|pairs|].0 == k;
        } else {
          var i :| 0 <= i < |pairs| && pairs[i].0 == k;
          assert pairs'[i].0 == k;
        }
      }
    }

    lemma WalkEnds(back: bool, pairs: seq<(Bytes, Bytes)>, left: set<Bytes>, here: Loc)
      requires t.Valid() && Progress(back, pairs, left, false, here)
      ensures forall i :: 0 <= i < |pairs| ==> pairs[i].0 in t.Map() && t.Map()[pairs[i].0] == pairs[i].1
      ensures forall i, j :: 0 <= i < j < |pairs| ==> pairs[i].0 != pairs[j].0
      ensures forall k :: k in t.Map() ==> exists i :: 0 <= i < |pairs| && pairs[i].0 == k
      ensures InOrder(back, pairs)
    {
      hide t.Valid, Less, ContentsOf;
      MapIsKeys();
    }

    lemma MapIsKeys()
      requires t.Valid()
      ensures t.Map().Keys == t.keys.Keys
    {
    }

    lemma NotBeforeItself(back: bool, a: Loc)
      ensures !Less(t.roles, back, a, a)
    {
    }

    /** Two keys at places that are neither before nor after each other are one. */
    lemma Compare(back: bool, k: Bytes, key: Bytes)
      requires t.Valid() && k in t.keys && key in t.keys
      ensures Less(t.roles, back, t.keys[k], t.keys[key]) || Less(t.roles, back, t.keys[key], t.keys[k]) || k == key
      ensures !(Less(t.roles, back, t.keys[k], t.keys[key]) && Less(t.roles, back, t.keys[key], t.keys[k]))
    {
      hide t.KeyReady, t.Valid;
      KeySpot(k);
      KeySpot(key);
    }

    lemma LessTrans(back: bool, a: Loc, b: Loc, c: Loc)
      requires Less(t.roles, back, a, b) && Less(t.roles, back, b, c)
      ensures Less(t.roles, back, a, c)
    {
    }
  }
}
