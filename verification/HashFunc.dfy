/** The unrolled string hashes and the default key comparison. */
module HashFunc {
  import opened Pages
  import opened Lengths

  const TWO31: nat := 0x8000_0000

  /** The hash as a plain fold from the left, modulo 2^32. */
  function Fold(mult: nat, key: Bytes): (h: nat)
    ensures h < TWO32
  {
    if key == [] then 0 else (mult * Fold(mult, key[..|key| - 1]) + key[|key| - 1] as nat) % TWO32
  }

  lemma FoldNext(mult: nat, key: Bytes, k: nat)
    requires k < |key|
    ensures Fold(mult, key[..k + 1]) == (mult * Fold(mult, key[..k]) + key[k] as nat) % TWO32
  {
    assert key[..k + 1][..k] == key[..k];
  }

  /** Times 65599, in 32 bits. */
  function Step3(n: nat, b: Byte): nat {
    (b as nat + (65599 * n) % TWO32) % TWO32
  }

  /** Shifted left by five plus itself, in 32 bits. */
  function Step4(h: nat, b: Byte): nat {
    (((h * 32) % TWO32 + h) % TWO32 + b as nat) % TWO32
  }

  lemma ModAdd(a: nat, b: nat)
    ensures (a % TWO32 + b) % TWO32 == (a + b) % TWO32
  {
  }

  lemma Step3IsFold(n: nat, b: Byte)
    ensures Step3(n, b) == (65599 * n + b as nat) % TWO32
  {
    ModAdd(65599 * n, b as nat);
  }

  lemma Step4IsFold(h: nat, b: Byte)
    ensures Step4(h, b) == (33 * h + b as nat) % TWO32
  {
    ModAdd(h * 32, h);
    ModAdd(h * 32 + h, b as nat);
  }

  // ---------------------------------------------------------------- the unrolled loops

  /** Passes of eight steps, the first of which may be shorter. */
  function Passes(len: nat): nat {
    ((len + 7) % TWO32) / 8
  }

  /** Steps of the first pass. */
  function Leftover(len: nat): nat {
    if len % 8 == 0 then 8 else len % 8
  }

  /** The passes take exactly one step for each byte, unless the rounding up of the length
      leaves 32 bits. */
  lemma PassesCover(len: nat)
    requires 0 < len < TWO32
    ensures 8 * Passes(len) as int - (8 - Leftover(len)) == len <==> len <= TWO32 - 8
  {
  }

  /** A jump into the middle of the eight steps takes the leftover bytes first. */
  method HamFunc3(key: Bytes) returns (n: nat)
    requires |key| <= TWO32 - 8
    ensures n == Fold(65599, key)
  {
    n := 0;
    if |key| == 0 {
      return;
    }
    var k := 0;
    var loop := Passes(|key|);
    var entry := Leftover(|key|);
    PassesCover(|key|);
    while loop > 0
      invariant 0 <= loop && 1 <= entry <= 8 && 0 <= k <= |key|
      invariant loop > 0 ==> k + 8 * loop - (8 - entry) == |key|
      invariant loop == 0 ==> k == |key|
      invariant n == Fold(65599, key[..k])
      decreases loop
    {
      if entry >= 8 {
        n, k := One3(key, k, n);
      }
      if entry >= 7 {
        n, k := One3(key, k, n);
      }
      if entry >= 6 {
        n, k := One3(key, k, n);
      }
      if entry >= 5 {
        n, k := One3(key, k, n);
      }
      if entry >= 4 {
        n, k := One3(key, k, n);
      }
      if entry >= 3 {
        n, k := One3(key, k, n);
      }
      if entry >= 2 {
        n, k := One3(key, k, n);
      }
      n, k := One3(key, k, n);
      entry := 8;
      loop := loop - 1;
    }
    assert key[..k] == key;
  }

  /** One step, and on to the next byte. */
  method One3(key: Bytes, k: nat, n: nat) returns (n': nat, k': nat)
    requires k < |key| && n == Fold(65599, key[..k])
    ensures k' == k + 1 && n' == Fold(65599, key[..k'])
  {
    Step3IsFold(n, key[k]);
    FoldNext(65599, key, k);
    n', k' := Step3(n, key[k]), k + 1;
  }

  method HamFunc4(key: Bytes) returns (h: nat)
    requires |key| <= TWO32 - 8
    ensures h == Fold(33, key)
  {
    h := 0;
    if |key| == 0 {
      return;
    }
    var k := 0;
    var loop := Passes(|key|);
    var entry := Leftover(|key|);
    PassesCover(|key|);
    while loop > 0
      invariant 0 <= loop && 1 <= entry <= 8 && 0 <= k <= |key|
      invariant loop > 0 ==> k + 8 * loop - (8 - entry) == |key|
      invariant loop == 0 ==> k == |key|
      invariant h == Fold(33, key[..k])
      decreases loop
    {
      if entry >= 8 {
        h, k := One4(key, k, h);
      }
      if entry >= 7 {
        h, k := One4(key, k, h);
      }
      if entry >= 6 {
        h, k := One4(key, k, h);
      }
      if entry >= 5 {
        h, k := One4(key, k, h);
      }
      if entry >= 4 {
        h, k := One4(key, k, h);
      }
      if entry >= 3 {
        h, k := One4(key, k, h);
      }
      if entry >= 2 {
        h, k := One4(key, k, h);
      }
      h, k := One4(key, k, h);
      entry := 8;
      loop := loop - 1;
    }
    assert key[..k] == key;
  }

  method One4(key: Bytes, k: nat, h: nat) returns (h': nat, k': nat)
    requires k < |key| && h == Fold(33, key[..k])
    ensures k' == k + 1 && h' == Fold(33, key[..k'])
  {
    Step4IsFold(h, key[k]);
    FoldNext(33, key, k);
    h', k' := Step4(h, key[k]), k + 1;
  }

  // ---------------------------------------------------------------- comparing keys

  /** Lexicographic order of unsigned bytes; a prefix comes first. */
  predicate Before(a: Bytes, b: Bytes) {
    if b == [] then false
    else if a == [] then true
    else a[0] < b[0] || (a[0] == b[0] && Before(a[1..], b[1..]))
  }

  /** Negative, zero or positive as the first key is before, equal to or after the second. */
  method DefCmp(a: Bytes, b: Bytes) returns (r: int)
    requires |a| < TWO31 && |b| < TWO31
    ensures r < 0 <==> Before(a, b)
    ensures r == 0 <==> a == b
    ensures r > 0 <==> Before(b, a)
    ensures 0 - TWO31 as int <= r < TWO31
  {
    var len := if |a| > |b| then |b| else |a|;
    var i := 0;
    while i < len
      invariant 0 <= i <= len && a[..i] == b[..i]
    {
      SamePrefix(a, b, i);
      if a[i] != b[i] {
        return a[i] as int - b[i] as int;
      }
      i := i + 1;
    }
    SamePrefix(a, b, i);
    assert a == a[..i] + a[i..] && b == b[..i] + b[i..];
    r := |a| - |b|;
  }

  lemma {:induction false} SamePrefix(a: Bytes, b: Bytes, i: nat)
    requires i <= |a| && i <= |b| && a[..i] == b[..i]
    ensures Before(a, b) == Before(a[i..], b[i..]) && Before(b, a) == Before(b[i..], a[i..])
  {
    if i > 0 {
      assert a[0] == a[..i][0] == b[..i][0] == b[0];
      assert a[1..][..i - 1] == a[..i][1..] && b[1..][..i - 1] == b[..i][1..];
      SamePrefix(a[1..], b[1..], i - 1);
      assert a[1..][i - 1..] == a[i..] && b[1..][i - 1..] == b[i..];
    } else {
      assert a[0..] == a && b[0..] == b;
    }
  }

  /** The order is a strict total order. */
  lemma {:induction false} BeforeTotal(a: Bytes, b: Bytes)
    ensures a == b || Before(a, b) || Before(b, a)
    ensures !(Before(a, b) && Before(b, a)) && !Before(a, a)
  {
    if a != [] && b != [] {
      BeforeTotal(a[1..], b[1..]);
      assert a == [a[0]] + a[1..] && b == [b[0]] + b[1..];
    }
    if a != [] {
      BeforeTotal(a[1..], a[1..]);
    }
  }

  lemma {:induction false} BeforeTransitive(a: Bytes, b: Bytes, c: Bytes)
    requires Before(a, b) && Before(b, c)
    ensures Before(a, c)
  {
    if a != [] && a[0] == b[0] == c[0] {
      BeforeTransitive(a[1..], b[1..], c[1..]);
    }
  }
}
