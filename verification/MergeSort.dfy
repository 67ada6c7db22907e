/** The bottom-up merge sort of a linked list of pages, relinked in place. A node is an
    index; `next` holds the links, NIL ends a list. */
module MergeSort {
  import opened Lengths

  const NIL: int := -1
  const TWO31: nat := 0x8000_0000

  // ---------------------------------------------------------------- comparing page numbers

  /** The difference of two 32-bit page numbers, read as a signed number. */
  function Cmp(a: nat, b: nat): int {
    var d := (a - b) % TWO32;
    if d < TWO31 then d else d - TWO32
  }

  /** The comparison orders two page numbers exactly when they are less than 2^31 apart. */
  lemma CmpIsOrder(a: nat, b: nat)
    requires a < TWO32 && b < TWO32
    ensures (Cmp(a, b) <= 0 <==> a <= b) <==> 0 - TWO31 as int <= a - b < TWO31
  {
  }

  // ---------------------------------------------------------------- sequences of nodes

  predicate Nodes(n: nat, s: seq<int>) {
    forall i :: 0 <= i < |s| ==> 0 <= s[i] < n
  }

  predicate Distinct(s: seq<int>) {
    forall i, j :: 0 <= i < j < |s| ==> s[i] != s[j]
  }

  predicate Sorted(keys: seq<nat>, s: seq<int>)
    requires Nodes(|keys|, s)
  {
    forall i, j :: 0 <= i < j < |s| ==> keys[s[i]] <= keys[s[j]]
  }

  /** The nodes with key k, in order. */
  function WithKey(keys: seq<nat>, s: seq<int>, k: nat): seq<int>
    requires Nodes(|keys|, s)
  {
    if s == [] then []
    else if keys[s[0]] == k then [s[0]] + WithKey(keys, s[1..], k) else WithKey(keys, s[1..], k)
  }

  /** t has the nodes of s, those with equal keys in the same order. */
  ghost predicate SameByKey(keys: seq<nat>, s: seq<int>, t: seq<int>)
    requires Nodes(|keys|, s) && Nodes(|keys|, t)
  {
    forall k: nat :: WithKey(keys, t, k) == WithKey(keys, s, k)
  }

  lemma {:induction false} WithKeyConcat(keys: seq<nat>, a: seq<int>, b: seq<int>, k: nat)
    requires Nodes(|keys|, a) && Nodes(|keys|, b)
    ensures Nodes(|keys|, a + b) && WithKey(keys, a + b, k) == WithKey(keys, a, k) + WithKey(keys, b, k)
  {
    if a == [] {
      assert a + b == b;
    } else {
      WithKeyConcat(keys, a[1..], b, k);
      assert (a + b)[1..] == a[1..] + b;
    }
  }

  /** A stable rearrangement is a permutation. */
  lemma {:induction false} CountWithKey(keys: seq<nat>, s: seq<int>, x: int)
    requires Nodes(|keys|, s) && 0 <= x < |keys|
    ensures multiset(s)[x] == multiset(WithKey(keys, s, keys[x]))[x]
  {
    if s != [] {
      CountWithKey(keys, s[1..], x);
      assert s == [s[0]] + s[1..];
      if keys[s[0]] == keys[x] {
        assert WithKey(keys, s, keys[x]) == [s[0]] + WithKey(keys, s[1..], keys[x]);
      }
    }
  }

  lemma SameByKeyPermutes(keys: seq<nat>, s: seq<int>, t: seq<int>)
    requires Nodes(|keys|, s) && Nodes(|keys|, t) && SameByKey(keys, s, t)
    ensures multiset(s) == multiset(t)
  {
    forall x
      ensures multiset(s)[x] == multiset(t)[x]
    {
      if 0 <= x < |keys| {
        CountWithKey(keys, s, x);
        CountWithKey(keys, t, x);
      } else {
        assert x !in s && x !in t;
      }
    }
  }

  // ---------------------------------------------------------------- merging

  function Merge(keys: seq<nat>, a: seq<int>, b: seq<int>): (m: seq<int>)
    requires Nodes(|keys|, a) && Nodes(|keys|, b)
    ensures |m| == |a| + |b| && Nodes(|keys|, m)
    decreases |a| + |b|
  {
    if a == [] then b
    else if b == [] then a
    else if keys[a[0]] <= keys[b[0]] then [a[0]] + Merge(keys, a[1..], b)
    else [b[0]] + Merge(keys, a, b[1..])
  }

  lemma {:induction false} MergeSorts(keys: seq<nat>, a: seq<int>, b: seq<int>)
    requires Nodes(|keys|, a) && Nodes(|keys|, b) && Sorted(keys, a) && Sorted(keys, b)
    ensures Sorted(keys, Merge(keys, a, b))
    ensures forall x :: x in Merge(keys, a, b) ==> x in a || x in b
    decreases |a| + |b|
  {
    if a != [] && b != [] {
      if keys[a[0]] <= keys[b[0]] {
        MergeSorts(keys, a[1..], b);
        HeadFirst(keys, a[0], Merge(keys, a[1..], b), a, b);
      } else {
        MergeSorts(keys, a, b[1..]);
        HeadFirst(keys, b[0], Merge(keys, a, b[1..]), b, a);
      }
    }
  }

  lemma HeadFirst(keys: seq<nat>, x: int, m: seq<int>, a: seq<int>, b: seq<int>)
    requires Nodes(|keys|, m) && Nodes(|keys|, a) && Nodes(|keys|, b) && Sorted(keys, m) && Sorted(keys, a) && Sorted(keys, b)
    requires a != [] && b != [] && x == a[0] && keys[a[0]] <= keys[b[0]]
    requires forall y :: y in m ==> y in a[1..] || y in b
    ensures Nodes(|keys|, [x] + m) && Sorted(keys, [x] + m)
  {
    forall y | y in m
      ensures keys[x] <= keys[y]
    {
      if y in b {
        var i :| 0 <= i < |b| && b[i] == y;
      } else {
        var i :| 0 <= i < |a[1..]| && a[1..][i] == y;
      }
    }
  }

  lemma WithKeyCons(keys: seq<nat>, s: seq<int>, k: nat)
    requires Nodes(|keys|, s) && s != []
    ensures Nodes(|keys|, s[1..]) && s == [s[0]] + s[1..]
    ensures WithKey(keys, s, k) == (if keys[s[0]] == k then [s[0]] else []) + WithKey(keys, s[1..], k)
  {
  }

  lemma SortedTail(keys: seq<nat>, s: seq<int>)
    requires Nodes(|keys|, s) && s != [] && Sorted(keys, s)
    ensures Nodes(|keys|, s[1..]) && Sorted(keys, s[1..])
    ensures forall i :: 0 <= i < |s| ==> keys[s[0]] <= keys[s[i]]
  {
  }

  lemma MergeStep(keys: seq<nat>, a: seq<int>, b: seq<int>)
    requires Nodes(|keys|, a) && Nodes(|keys|, b) && a != [] && b != []
    ensures Nodes(|keys|, a[1..]) && Nodes(|keys|, b[1..])
    ensures Merge(keys, a, b) == if keys[a[0]] <= keys[b[0]] then [a[0]] + Merge(keys, a[1..], b) else [b[0]] + Merge(keys, a, b[1..])
    ensures Merge(keys, [], b) == b && Merge(keys, a, []) == a
  {
  }

  lemma MergeNone(keys: seq<nat>, a: seq<int>)
    requires Nodes(|keys|, a)
    ensures Merge(keys, [], a) == a && Merge(keys, a, []) == a
  {
  }

  /** Merging keeps the order of equal keys: those of the first list come first. */
  lemma {:induction false} MergeStable(keys: seq<nat>, a: seq<int>, b: seq<int>, k: nat)
    requires Nodes(|keys|, a) && Nodes(|keys|, b) && Sorted(keys, a) && Sorted(keys, b)
    ensures WithKey(keys, Merge(keys, a, b), k) == WithKey(keys, a, k) + WithKey(keys, b, k)
    decreases |a| + |b|
  {
    hide WithKey, Sorted, Merge;
    NoneSmaller(keys, [], k);
    if a == [] {
      MergeNone(keys, b);
    } else if b == [] {
      MergeNone(keys, a);
    } else {
      MergeStep(keys, a, b);
      var m := Merge(keys, a, b);
      WithKeyCons(keys, m, k);
      WithKeyCons(keys, a, k);
      WithKeyCons(keys, b, k);
      SortedTail(keys, a);
      SortedTail(keys, b);
      if keys[a[0]] <= keys[b[0]] {
        assert m[1..] == Merge(keys, a[1..], b);
        MergeStable(keys, a[1..], b, k);
      } else {
        assert m[1..] == Merge(keys, a, b[1..]);
        MergeStable(keys, a, b[1..], k);
        if keys[b[0]] == k {
          NoneSmaller(keys, a, k);
        }
      }
    }
  }

  lemma {:induction false} NoneSmaller(keys: seq<nat>, a: seq<int>, k: nat)
    requires Nodes(|keys|, a) && forall i :: 0 <= i < |a| ==> keys[a[i]] != k
    ensures WithKey(keys, a, k) == []
  {
    if a != [] {
      NoneSmaller(keys, a[1..], k);
    }
  }

  // ---------------------------------------------------------------- one pass

  /** Every n nodes are sorted. */
  predicate RunsSorted(keys: seq<nat>, s: seq<int>, n: nat)
    requires Nodes(|keys|, s) && n > 0
    decreases |s|
  {
    if |s| <= n then Sorted(keys, s) else Sorted(keys, s[..n]) && RunsSorted(keys, s[n..], n)
  }

  function First(s: seq<int>, n: nat): seq<int> {
    if |s| <= n then s else s[..n]
  }

  function Rest(s: seq<int>, n: nat): seq<int> {
    if |s| <= n then [] else s[n..]
  }

  /** Merges neighbouring runs of n nodes. */
  function Pass(keys: seq<nat>, s: seq<int>, n: nat): (t: seq<int>)
    requires Nodes(|keys|, s) && n > 0
    ensures |t| == |s| && Nodes(|keys|, t)
    decreases |s|
  {
    if s == [] then []
    else Merge(keys, First(s, n), First(Rest(s, n), n)) + Pass(keys, Rest(Rest(s, n), n), n)
  }

  lemma FirstRuns(keys: seq<nat>, s: seq<int>, n: nat)
    requires Nodes(|keys|, s) && n > 0 && RunsSorted(keys, s, n)
    ensures Sorted(keys, First(s, n)) && RunsSorted(keys, Rest(s, n), n)
    ensures s == First(s, n) + Rest(s, n)
  {
    hide Sorted;
    if |s| <= n {
      assert Sorted(keys, []) by { NoneSorted(keys); }
    }
  }

  lemma NoneSorted(keys: seq<nat>)
    ensures Sorted(keys, [])
  {
  }

  lemma {:induction false} PassDoublesRuns(keys: seq<nat>, s: seq<int>, n: nat)
    requires Nodes(|keys|, s) && n > 0 && RunsSorted(keys, s, n)
    ensures RunsSorted(keys, Pass(keys, s, n), 2 * n)
    decreases |s|
  {
    if s != [] {
      FirstRuns(keys, s, n);
      FirstRuns(keys, Rest(s, n), n);
      var m := Merge(keys, First(s, n), First(Rest(s, n), n));
      MergeSorts(keys, First(s, n), First(Rest(s, n), n));
      var r := Rest(Rest(s, n), n);
      PassDoublesRuns(keys, r, n);
      if r == [] {
        assert m + Pass(keys, r, n) == m;
      } else {
        assert |m| == 2 * n;
        assert (m + Pass(keys, r, n))[..2 * n] == m && (m + Pass(keys, r, n))[2 * n..] == Pass(keys, r, n);
      }
    }
  }

  lemma {:induction false} PassStable(keys: seq<nat>, s: seq<int>, n: nat, k: nat)
    requires Nodes(|keys|, s) && n > 0 && RunsSorted(keys, s, n)
    ensures WithKey(keys, Pass(keys, s, n), k) == WithKey(keys, s, k)
    decreases |s|
  {
    hide Sorted, RunsSorted, Merge, WithKey, First, Rest, Pass;
    PassStep(keys, s, n);
    if s != [] {
      FirstRuns(keys, s, n);
      FirstRuns(keys, Rest(s, n), n);
      var a, b, r := First(s, n), First(Rest(s, n), n), Rest(Rest(s, n), n);
      MergeStable(keys, a, b, k);
      PassStable(keys, r, n, k);
      WithKeyConcat(keys, Merge(keys, a, b), Pass(keys, r, n), k);
      WithKeyConcat(keys, a, Rest(s, n), k);
      WithKeyConcat(keys, b, r, k);
    }
  }

  lemma PassStep(keys: seq<nat>, s: seq<int>, n: nat)
    requires Nodes(|keys|, s) && n > 0
    ensures Nodes(|keys|, First(s, n)) && Nodes(|keys|, Rest(s, n))
    ensures Nodes(|keys|, First(Rest(s, n), n)) && Nodes(|keys|, Rest(Rest(s, n), n))
    ensures s == [] ==> Pass(keys, s, n) == []
    ensures s != [] ==> |Rest(Rest(s, n), n)| < |s|
    ensures s != [] ==>
      Pass(keys, s, n) == Merge(keys, First(s, n), First(Rest(s, n), n)) + Pass(keys, Rest(Rest(s, n), n), n)
  {
  }

  lemma {:induction false} OnesSorted(keys: seq<nat>, s: seq<int>)
    requires Nodes(|keys|, s)
    ensures RunsSorted(keys, s, 1)
    decreases |s|
  {
    if |s| > 1 {
      OnesSorted(keys, s[1..]);
    }
  }

  // ---------------------------------------------------------------- links

  /** Following the links from p along s leads to q. */
  ghost predicate Seg(next: seq<int>, p: int, s: seq<int>, q: int)
    requires Nodes(|next|, s)
    decreases |s|
  {
    if s == [] then p == q else p == s[0] && Seg(next, next[p], s[1..], q)
  }

  lemma {:induction false} SegFrame(next: seq<int>, next': seq<int>, p: int, s: seq<int>, q: int)
    requires |next| == |next'| && Nodes(|next|, s) && Seg(next, p, s, q)
    requires forall x :: x in s ==> next'[x] == next[x]
    ensures Seg(next', p, s, q)
    decreases |s|
  {
    if s != [] {
      SegFrame(next, next', next[p], s[1..], q);
    }
  }

  lemma {:induction false} SegJoin(next: seq<int>, p: int, a: seq<int>, q: int, b: seq<int>, r: int)
    requires Nodes(|next|, a) && Nodes(|next|, b)
    ensures Nodes(|next|, a + b)
    ensures Seg(next, p, a, q) && Seg(next, q, b, r) ==> Seg(next, p, a + b, r)
    decreases |a|
  {
    if a == [] {
      assert a + b == b;
    } else {
      assert (a + b)[1..] == a[1..] + b;
      if p == a[0] {
        SegJoin(next, next[p], a[1..], q, b, r);
      }
    }
  }

  /** Where i steps along s lead. */
  function StepsTo(s: seq<int>, i: nat, end: int): int
    requires i <= |s|
  {
    if i < |s| then s[i] else end
  }

  lemma {:induction false} SegSplit(next: seq<int>, p: int, s: seq<int>, q: int, i: nat)
    requires Nodes(|next|, s) && Seg(next, p, s, q) && i <= |s|
    ensures Seg(next, p, s[..i], StepsTo(s, i, q)) && Seg(next, StepsTo(s, i, q), s[i..], q)
    ensures i < |s| ==> next[s[i]] == StepsTo(s, i + 1, q)
    decreases |s|
  {
    if s != [] {
      if i > 0 {
        SegSplit(next, next[p], s[1..], q, i - 1);
        assert s[..i][1..] == s[1..][..i - 1];
        assert s[1..][i - 1..] == s[i..];
      } else {
        assert s[..0] == [] && s[0..] == s;
        assert s[1..] == [] || next[p] == s[1..][0];
      }
    }
  }

  ghost predicate Disjoint(a: seq<int>, b: seq<int>) {
    forall i, j :: 0 <= i < |a| && 0 <= j < |b| ==> a[i] != b[j]
  }

  /** Three lists without a common node. */
  ghost predicate Apart(a: seq<int>, b: seq<int>, c: seq<int>) {
    && Distinct(a) && Distinct(b) && Distinct(c)
    && Disjoint(a, b) && Disjoint(a, c) && Disjoint(b, c)
  }

  lemma MoveFromFirst(out: seq<int>, p: seq<int>, q: seq<int>)
    requires p != [] && Apart(out, p, q)
    ensures Apart(out + [p[0]], p[1..], q)
    ensures Disjoint(out, [p[0]])
  {
  }

  lemma MoveFromSecond(out: seq<int>, p: seq<int>, q: seq<int>)
    requires q != [] && Apart(out, p, q)
    ensures Apart(out + [q[0]], p, q[1..])
    ensures Disjoint(out, [q[0]])
  {
  }

  /** The merged list so far: the link of its last node may be anything. */
  ghost predicate OutOk(next: seq<int>, first: int, out: seq<int>, tail: int)
    requires Nodes(|next|, out)
  {
    if out == [] then tail == NIL
    else tail == out[|out| - 1] && Seg(next, first, out[..|out| - 1], tail)
  }

  /** The links after node e is put behind the tail. */
  function Linked(next: seq<int>, tail: int, e: int): (r: seq<int>)
    requires 0 <= e < |next| && tail < |next|
    ensures |r| == |next|
  {
    if tail >= 0 then next[e := next[tail]][tail := e] else next
  }

  /** Putting e behind the tail keeps the merged list, and every list without e and tail. */
  lemma AppendOut(next: seq<int>, first: int, out: seq<int>, tail: int, e: int)
    requires Nodes(|next|, out) && OutOk(next, first, out, tail) && Distinct(out) && Disjoint(out, [e])
    requires 0 <= e < |next|
    ensures tail < |next| && (tail >= 0 <==> out != [])
    ensures Nodes(|next|, out + [e])
    ensures OutOk(Linked(next, tail, e), if out == [] then e else first, out + [e], e)
  {
    var next' := Linked(next, tail, e);
    var out' := out + [e];
    assert out'[..|out'| - 1] == out;
    if out != [] {
      var init := out[..|out| - 1];
      assert [e][0] == e;
      forall x | x in init
        ensures next'[x] == next[x]
      {
        var i :| 0 <= i < |init| && init[i] == x;
        assert out[i] == x && x != [e][0] && x != out[|out| - 1];
      }
      SegFrame(next, next', first, init, tail);
      assert Seg(next', tail, [tail], e) by { SegOne(next', tail, e); }
      SegJoin(next', first, init, tail, [tail], e);
      assert init + [tail] == out;
    }
  }

  lemma SegOne(next: seq<int>, p: int, q: int)
    requires 0 <= p < |next| && next[p] == q
    ensures Seg(next, p, [p], q)
  {
  }

  lemma OtherList(next: seq<int>, tail: int, e: int, p: int, s: seq<int>, q: int)
    requires 0 <= e < |next| && tail < |next| && Nodes(|next|, s) && Seg(next, p, s, q)
    requires Disjoint(s, [e]) && (tail >= 0 ==> Disjoint(s, [tail]))
    ensures Seg(Linked(next, tail, e), p, s, q)
  {
    forall x | x in s
      ensures Linked(next, tail, e)[x] == next[x]
    {
      var i :| 0 <= i < |s| && s[i] == x;
      assert x != [e][0];
      assert tail >= 0 ==> x != [tail][0];
    }
    SegFrame(next, Linked(next, tail, e), p, s, q);
  }

  lemma SegHead(next: seq<int>, p: int, s: seq<int>, q: int)
    requires Nodes(|next|, s) && Seg(next, p, s, q)
    ensures s == [] ==> p == q
    ensures s != [] ==> 0 <= p < |next| && p == s[0] && Nodes(|next|, s[1..]) && Seg(next, next[p], s[1..], q)
  {
  }

  // ---------------------------------------------------------------- the sort

  /** Puts node e behind the tail of the merged list. */
  method Append(next: array<int>, first: int, tail: int, e: int, ghost out: seq<int>) returns (f: int)
    requires Nodes(next.Length, out) && OutOk(next[..], first, out, tail) && Distinct(out) && Disjoint(out, [e])
    requires 0 <= e < next.Length
    modifies next
    ensures tail < next.Length && next[..] == Linked(old(next[..]), tail, e)
    ensures f == if out == [] then e else first
  {
    AppendOut(next[..], first, out, tail, e);
    f := first;
    if tail != NIL {
      next[e] := next[tail];
      next[tail] := e;
    } else {
      f := e;
    }
    assert next[..] == Linked(old(next[..]), tail, e);
  }

  /** A merge on its way: `out` is merged, pr and qr are to be merged, `rest` comes after. */
  ghost predicate Merging(next: seq<int>, first: int, tail: int, p: int, q0: int, q: int,
                          out: seq<int>, pr: seq<int>, qr: seq<int>, rest: seq<int>)
  {
    && Nodes(|next|, out) && Nodes(|next|, pr) && Nodes(|next|, qr) && Nodes(|next|, qr + rest)
    && Apart(out, pr, qr + rest) && OutOk(next, first, out, tail)
    && Seg(next, p, pr, q0) && Seg(next, q, qr + rest, NIL)
  }

  /** The next node comes from the first run. */
  lemma TakeFirst(next: seq<int>, first: int, tail: int, p: int, q0: int, q: int,
                  out: seq<int>, pr: seq<int>, qr: seq<int>, rest: seq<int>)
    requires Merging(next, first, tail, p, q0, q, out, pr, qr, rest) && pr != []
    ensures 0 <= p < |next| && p == pr[0] && Disjoint(out, [p]) && Distinct(out) && tail < |next|
    ensures Nodes(|next|, out) && OutOk(next, first, out, tail)
    ensures Merging(Linked(next, tail, p), if out == [] then p else first, p, next[p], q0, q, out + [p], pr[1..], qr, rest)
  {
    hide Seg, Distinct, Disjoint, Linked, OutOk;
    SegHead(next, p, pr, q0);
    MoveFromFirst(out, pr, qr + rest);
    TailIs(next, first, out, tail);
    AppendOut(next, first, out, tail, p);
    Untouched(next, tail, p, out, pr[1..], qr + rest, next[p], q0, q);
  }

  /** The next node comes from the second run. */
  lemma TakeSecond(next: seq<int>, first: int, tail: int, p: int, q0: int, q: int,
                   out: seq<int>, pr: seq<int>, qr: seq<int>, rest: seq<int>)
    requires Merging(next, first, tail, p, q0, q, out, pr, qr, rest) && qr != []
    ensures 0 <= q < |next| && q == qr[0] && Disjoint(out, [q]) && Distinct(out) && tail < |next|
    ensures Nodes(|next|, out) && OutOk(next, first, out, tail)
    ensures Merging(Linked(next, tail, q), if out == [] then q else first, q, p, q0, next[q], out + [q], pr, qr[1..], rest)
  {
    hide Seg, Distinct, Disjoint, Linked, OutOk;
    SegHead(next, q, qr + rest, NIL);
    MoveFromSecond(out, pr, qr + rest);
    assert (qr + rest)[1..] == qr[1..] + rest && (qr + rest)[0] == qr[0];
    TailIs(next, first, out, tail);
    AppendOut(next, first, out, tail, q);
    Untouched(next, tail, q, out, pr, (qr + rest)[1..], p, q0, next[q]);
  }

  lemma QueueEnds(next: seq<int>, first: int, tail: int, p: int, q0: int, q: int,
                  out: seq<int>, pr: seq<int>, qr: seq<int>, rest: seq<int>)
    requires Merging(next, first, tail, p, q0, q, out, pr, qr, rest)
    ensures q == NIL <==> qr == [] && rest == []
    ensures Nodes(|next|, pr) && Nodes(|next|, qr)
    ensures pr != [] ==> 0 <= p < |next| && p == pr[0]
    ensures qr != [] ==> q == qr[0]
  {
  }

  /** Merges the run ps, from p on, with the run qs, from q0 on, behind the merged list. */
  method MergeRuns(next: array<int>, keys: seq<nat>, first0: int, tail0: int, p0: int, q0: int, psize0: nat, insize: nat,
                   ghost out0: seq<int>, ghost ps: seq<int>, ghost qs: seq<int>, ghost rest: seq<int>)
    returns (first: int, tail: int, q: int, ghost out: seq<int>)
    requires |keys| == next.Length && (forall i :: 0 <= i < |keys| ==> keys[i] < TWO31)
    requires Nodes(next.Length, ps) && Nodes(next.Length, qs) && Merging(next[..], first0, tail0, p0, q0, q0, out0, ps, qs, rest)
    requires psize0 == |ps| && |qs| <= insize && (|qs| < insize ==> rest == [])
    modifies next
    ensures out == out0 + Merge(keys, ps, qs) && Nodes(next.Length, out) && Nodes(next.Length, rest)
    ensures Apart(out, [], rest) && OutOk(next[..], first, out, tail) && Seg(next[..], q, rest, NIL)
  {
    hide Merge, Linked, Merging, Distinct, Disjoint, OutOk;
    first, tail, out := first0, tail0, out0;
    var p, psize, qsize := p0, psize0, insize;
    q := q0;
    ghost var pr, qr := ps, qs;
    QueueEnds(next[..], first, tail, p, q0, q, out, pr, qr, rest);
    while psize > 0 || (qsize > 0 && q != NIL)
      invariant Merging(next[..], first, tail, p, q0, q, out, pr, qr, rest) && Nodes(|keys|, pr) && Nodes(|keys|, qr)
      invariant psize == |pr| && |qr| <= qsize && (|qr| < qsize ==> rest == [])
      invariant out + Merge(keys, pr, qr) == out0 + Merge(keys, ps, qs)
      decreases |pr| + |qr|
    {
      QueueEnds(next[..], first, tail, p, q0, q, out, pr, qr, rest);
      var e;
      ghost var fromP := qr == [] || (pr != [] && keys[pr[0]] <= keys[qr[0]]);
      MergeMoves(keys, pr, qr);
      if fromP {
        TakeFirst(next[..], first, tail, p, q0, q, out, pr, qr, rest);
      } else {
        TakeSecond(next[..], first, tail, p, q0, q, out, pr, qr, rest);
      }
      if psize == 0 {
        e := q;
        q := next[q];
        qsize := qsize - 1;
      } else if qsize == 0 || q == NIL {
        e := p;
        p := next[p];
        psize := psize - 1;
      } else {
        CmpIsOrder(keys[p], keys[q]);
        if Cmp(keys[p], keys[q]) <= 0 {
          e := p;
          p := next[p];
          psize := psize - 1;
        } else {
          e := q;
          q := next[q];
          qsize := qsize - 1;
        }
      }
      pr, qr := if fromP then pr[1..] else pr, if fromP then qr else qr[1..];
      first := Append(next, first, tail, e, out);
      out := out + [e];
      tail := e;
    }
    MergeEnds(next[..], first, tail, p, q0, q, out, pr, qr, rest);
    MergeNone(keys, []);
  }

  lemma MergeEnds(next: seq<int>, first: int, tail: int, p: int, q0: int, q: int,
                  out: seq<int>, pr: seq<int>, qr: seq<int>, rest: seq<int>)
    requires Merging(next, first, tail, p, q0, q, out, pr, qr, rest) && pr == [] && (qr == [] || q == NIL)
    ensures qr == [] && Nodes(|next|, out) && Nodes(|next|, rest) && Apart(out, [], rest)
    ensures OutOk(next, first, out, tail) && Seg(next, q, rest, NIL)
  {
    QueueEnds(next, first, tail, p, q0, q, out, pr, qr, rest);
    assert qr + rest == rest;
  }

  lemma TailIs(next: seq<int>, first: int, out: seq<int>, tail: int)
    requires Nodes(|next|, out) && OutOk(next, first, out, tail)
    ensures tail >= 0 ==> out != [] && tail == out[|out| - 1]
    ensures tail < |next|
  {
  }

  /** Which node a merge takes next. */
  lemma MergeMoves(keys: seq<nat>, a: seq<int>, b: seq<int>)
    requires Nodes(|keys|, a) && Nodes(|keys|, b)
    ensures a != [] ==> Nodes(|keys|, a[1..])
    ensures b != [] ==> Nodes(|keys|, b[1..])
    ensures a != [] && (b == [] || keys[a[0]] <= keys[b[0]]) ==> Merge(keys, a, b) == [a[0]] + Merge(keys, a[1..], b)
    ensures b != [] && (a == [] || keys[a[0]] > keys[b[0]]) ==> Merge(keys, a, b) == [b[0]] + Merge(keys, a, b[1..])
  {
    hide Merge;
    if a == [] {
      MergeNone(keys, b);
      if b != [] {
        MergeNone(keys, b[1..]);
      }
    } else if b == [] {
      MergeNone(keys, a);
      MergeNone(keys, a[1..]);
    } else {
      MergeStep(keys, a, b);
    }
  }

  /** Appending e to the merged list leaves what remains of both runs alone. */
  lemma Untouched(next: seq<int>, tail: int, e: int, out: seq<int>, pr: seq<int>, ql: seq<int>, p: int, q0: int, q: int)
    requires Nodes(|next|, out) && Nodes(|next|, pr) && Nodes(|next|, ql) && 0 <= e < |next| && tail < |next|
    requires tail >= 0 ==> out != [] && tail == out[|out| - 1]
    requires Apart(out + [e], pr, ql) && Seg(next, p, pr, q0) && Seg(next, q, ql, NIL)
    ensures Seg(Linked(next, tail, e), p, pr, q0) && Seg(Linked(next, tail, e), q, ql, NIL)
  {
    hide Seg, Linked, Distinct;
    assert (out + [e])[|out|] == e;
    assert tail >= 0 ==> (out + [e])[|out| - 1] == tail;
    OtherList(next, tail, e, p, pr, q0);
    OtherList(next, tail, e, q, ql, NIL);
  }

  /** Finds where the second run starts: up to `insize` nodes further on. */
  method SkipRun(next: array<int>, insize: nat, p: int, ghost s: seq<int>) returns (psize: nat, q: int)
    requires insize > 0 && s != [] && Nodes(next.Length, s) && Seg(next[..], p, s, NIL)
    ensures Nodes(next.Length, First(s, insize)) && Nodes(next.Length, Rest(s, insize))
    ensures psize == |First(s, insize)|
    ensures Seg(next[..], p, First(s, insize), q) && Seg(next[..], q, Rest(s, insize), NIL)
  {
    hide Seg;
    q := p;
    psize := 0;
    var i := 0;
    SegSplit(next[..], p, s, NIL, 0);
    while i < insize
      invariant 0 <= i <= insize && psize == i < |s|
      invariant q == StepsTo(s, psize, NIL)
    {
      SegSplit(next[..], p, s, NIL, psize);
      psize := psize + 1;
      q := next[q];
      i := i + 1;
      if q == NIL {
        break;
      }
    }
    SegSplit(next[..], p, s, NIL, psize);
  }

  /** Sorts the list by page number, in place: passes that merge neighbouring runs, each run
      twice as long as in the pass before. */
  method SlistMergeSort(next: array<int>, keys: seq<nat>, head: int, ghost s: seq<int>) returns (first: int, ghost t: seq<int>)
    requires |keys| == next.Length && (forall i :: 0 <= i < |keys| ==> keys[i] < TWO31)
    requires Nodes(next.Length, s) && Distinct(s) && Seg(next[..], head, s, NIL)
    modifies next
    ensures Nodes(next.Length, t) && Seg(next[..], first, t, NIL)
    ensures Sorted(keys, t) && SameByKey(keys, s, t) && Distinct(t)
  {
    hide Seg, Sorted, RunsSorted, WithKey, Pass, Distinct;
    SegHead(next[..], head, s, NIL);
    first, t := head, s;
    if head == NIL {
      assert s == [];
      NoneSorted(keys);
      return;
    }
    var insize := 1;
    OnesSorted(keys, s);
    var done := false;
    while !done
      invariant insize > 0 && t != [] && Nodes(next.Length, t) && Seg(next[..], first, t, NIL) && Distinct(t)
      invariant RunsSorted(keys, t, insize) && SameByKey(keys, s, t)
      invariant done ==> Sorted(keys, t)
      invariant |t| == |s|
      decreases !done, |s| - insize
    {
      ghost var t1 := t;
      var nmerges;
      first, nmerges, t := OnePass(next, keys, first, insize, t);
      PassDoublesRuns(keys, t1, insize);
      forall k: nat
        ensures WithKey(keys, t, k) == WithKey(keys, s, k)
      {
        PassStable(keys, t1, insize, k);
      }
      if nmerges <= 1 {
        OneRun(keys, t, 2 * insize);
        done := true;
      }
      insize := insize * 2;
    }
  }

  lemma OneRun(keys: seq<nat>, s: seq<int>, n: nat)
    requires Nodes(|keys|, s) && n > 0 && RunsSorted(keys, s, n) && |s| <= n
    ensures Sorted(keys, s)
  {
  }

  /** A pass on its way: t is merged, r is to come. */
  ghost predicate Passing(next: seq<int>, first: int, tail: int, p: int, t: seq<int>, r: seq<int>) {
    && Nodes(|next|, t) && Nodes(|next|, r) && Seg(next, p, r, NIL)
    && Apart(t, [], r) && OutOk(next, first, t, tail)
  }

  /** Merges the next two runs. */
  method MergePair(next: array<int>, keys: seq<nat>, first0: int, tail0: int, p: int, insize: nat, ghost t0: seq<int>, ghost r: seq<int>)
    returns (first: int, tail: int, q: int, ghost t: seq<int>)
    requires |keys| == next.Length && (forall i :: 0 <= i < |keys| ==> keys[i] < TWO31) && insize > 0
    requires Passing(next[..], first0, tail0, p, t0, r) && r != [] && Nodes(|keys|, r)
    modifies next
    ensures Nodes(|keys|, First(r, insize)) && Nodes(|keys|, First(Rest(r, insize), insize))
    ensures Passing(next[..], first, tail, q, t, Rest(Rest(r, insize), insize))
    ensures t == t0 + Merge(keys, First(r, insize), First(Rest(r, insize), insize))
  {
    hide Seg, Merge, OutOk, Distinct, Disjoint;
    var psize, q0 := SkipRun(next, insize, p, r);
    RunsApart(t0, r, insize);
    PassStep(keys, r, insize);
    ghost var a, b, rest := First(r, insize), First(Rest(r, insize), insize), Rest(Rest(r, insize), insize);
    assert Merging(next[..], first0, tail0, p, q0, q0, t0, a, b, rest);
    first, tail, q, t := MergeRuns(next, keys, first0, tail0, p, q0, psize, insize, t0, a, b, rest);
  }

  lemma PassingFacts(next: seq<int>, first: int, tail: int, p: int, t: seq<int>, r: seq<int>)
    requires Passing(next, first, tail, p, t, r)
    ensures Nodes(|next|, t) && Nodes(|next|, r) && Distinct(t) && OutOk(next, first, t, tail)
    ensures p == NIL <==> r == []
  {
  }

  lemma PassingStart(next: seq<int>, p: int, s: seq<int>)
    requires Nodes(|next|, s) && Distinct(s) && Seg(next, p, s, NIL)
    ensures Passing(next, NIL, NIL, p, [], s)
  {
  }

  /** One pass over the list. */
  method OnePass(next: array<int>, keys: seq<nat>, head: int, insize: nat, ghost s: seq<int>)
    returns (first: int, nmerges: nat, ghost t: seq<int>)
    requires |keys| == next.Length && (forall i :: 0 <= i < |keys| ==> keys[i] < TWO31) && insize > 0
    requires s != [] && Nodes(next.Length, s) && Distinct(s) && Seg(next[..], head, s, NIL)
    modifies next
    ensures Nodes(next.Length, t) && Seg(next[..], first, t, NIL) && Distinct(t)
    ensures t == Pass(keys, s, insize)
    ensures nmerges <= 1 ==> |s| <= 2 * insize
    ensures nmerges > 1 ==> |s| > 2 * insize
  {
    hide Seg, Merge, Pass, OutOk, Distinct, Passing, First, Rest;
    first, nmerges, t := NIL, 0, [];
    var p, tail := head, NIL;
    ghost var r := s;
    PassingStart(next[..], p, s);
    while p != NIL
      invariant Passing(next[..], first, tail, p, t, r) && Nodes(next.Length, r)
      invariant t + Pass(keys, r, insize) == Pass(keys, s, insize)
      invariant |r| == Left(|s|, insize, nmerges)
      invariant nmerges == 0 ==> r == s
      invariant nmerges > 0 ==> Left(|s|, insize, nmerges - 1) > 0
      decreases |r|
    {
      PassingFacts(next[..], first, tail, p, t, r);
      nmerges := nmerges + 1;
      PassStep(keys, r, insize);
      ghost var t0 := t;
      first, tail, p, t := MergePair(next, keys, first, tail, p, insize, t, r);
      Counted(r, insize, nmerges, |s|);
      r := Rest(Rest(r, insize), insize);
      assert t + Pass(keys, r, insize) == t0 + (Merge(keys, t[|t0|..], []) + Pass(keys, r, insize)) by {
        MergeNone(keys, t[|t0|..]);
      }
    }
    PassingFacts(next[..], first, tail, p, t, r);
    PassStep(keys, [], insize);
    assert t + [] == t;
    TailIs(next[..], first, t, tail);
    LeftBounds(|s|, insize, nmerges);
    ghost var links := next[..];
    FinishList(links, first, t, tail);
    next[tail] := NIL;
    assert next[..] == links[tail := NIL];
  }

  /** The nodes left after k merges. */
  function Left(len: nat, n: nat, k: nat): nat {
    if k * (2 * n) <= len then len - k * (2 * n) else 0
  }

  lemma LeftBounds(len: nat, n: nat, k: nat)
    requires n > 0 && Left(len, n, k) == 0 && (k > 0 ==> Left(len, n, k - 1) > 0)
    ensures k <= 1 ==> len <= 2 * n
    ensures k > 1 ==> len > 2 * n
  {
    if k > 1 {
      assert (k - 1) * (2 * n) == 2 * n + (k - 2) * (2 * n);
    }
  }

  lemma RunsApart(t: seq<int>, r: seq<int>, n: nat)
    requires Apart(t, [], r) && n > 0
    ensures Apart(t, First(r, n), First(Rest(r, n), n) + Rest(Rest(r, n), n))
    ensures First(Rest(r, n), n) + Rest(Rest(r, n), n) == Rest(r, n)
    ensures |First(Rest(r, n), n)| <= n && (|First(Rest(r, n), n)| < n ==> Rest(Rest(r, n), n) == [])
  {
  }

  lemma Counted(r: seq<int>, n: nat, k: nat, len: nat)
    requires n > 0 && k > 0 && |r| == Left(len, n, k - 1)
    ensures |Rest(Rest(r, n), n)| == Left(len, n, k)
  {
  }

  /** Ending the merged list makes it a list. */
  lemma FinishList(next: seq<int>, first: int, out: seq<int>, tail: int)
    requires Nodes(|next|, out) && OutOk(next, first, out, tail) && out != [] && Distinct(out)
    ensures 0 <= tail < |next| && Seg(next[tail := NIL], first, out, NIL)
  {
    var next' := next[tail := NIL];
    var init := out[..|out| - 1];
    forall x | x in init
      ensures next'[x] == next[x]
    {
      var i :| 0 <= i < |init| && init[i] == x;
      assert out[i] == x && x != out[|out| - 1];
    }
    SegFrame(next, next', first, init, tail);
    SegOne(next', tail, NIL);
    SegJoin(next', first, init, tail, [tail], NIL);
    assert init + [tail] == out;
  }
}
