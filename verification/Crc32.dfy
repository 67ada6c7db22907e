/** The table-driven CRC-32 against the bit-at-a-time CRC-32 of section 8 of RFC 1952.
    A 32-bit word is a natural number below 2^32. */
module Crc32 {
  import opened Bits
  import opened Pages

  const POLY: nat := 0xedb8_8320
  const ONES: nat := 0xffff_ffff
  const WORD: nat := 0x1_0000_0000

  /** What an odd word xors in when it is shifted. */
  function Feedback(h: nat): nat {
    if h % 2 == 1 then POLY else 0
  }

  /** One bit of the division. */
  function BitStep(h: nat): nat {
    Xor(h / 2, Feedback(h))
  }

  function Steps(h: nat, n: nat): nat
    decreases n
  {
    if n == 0 then h else Steps(BitStep(h), n - 1)
  }

  /** One byte, bit at a time. */
  function ByteStep(c: nat, b: Byte): nat {
    Steps(Xor(c, b as nat), 8)
  }

  function Fold(c: nat, buf: Bytes): nat
    decreases |buf|
  {
    if buf == [] then c else ByteStep(Fold(c, buf[..|buf| - 1]), buf[|buf| - 1])
  }

  /** The checksum of `buf` continued from checksum `crc`. */
  function Crc(crc: nat, buf: Bytes): nat {
    Xor(Fold(Xor(crc, ONES), buf), ONES)
  }

  // ---------------------------------------------------------------- linearity

  lemma XorSelect(p: nat, x: bool, y: bool)
    ensures Xor(if x then p else 0, if y then p else 0) == if x != y then p else 0
  {
    hide Xor;
    XorSelf(p);
    XorZero(p);
    XorZero(0);
  }

  lemma FeedbackXor(a: nat, b: nat)
    ensures Feedback(Xor(a, b)) == Xor(Feedback(a), Feedback(b))
  {
    hide Xor;
    XorHalves(a, b);
    var x, y := a % 2 == 1, b % 2 == 1;
    OddSum(a % 2, b % 2);
    assert Xor(a, b) % 2 == if x != y then 1 else 0;
    XorSelect(POLY, x, y);
  }

  lemma OddSum(x: nat, y: nat)
    requires x < 2 && y < 2
    ensures (x + y) % 2 == if x != y then 1 else 0
  {
  }

  lemma BitStepXor(a: nat, b: nat)
    ensures BitStep(Xor(a, b)) == Xor(BitStep(a), BitStep(b))
  {
    FeedbackXor(a, b);
    XorHalves(a, b);
    XorSwap(a / 2, b / 2, Feedback(a), Feedback(b));
  }

  lemma XorSwap(a: nat, b: nat, c: nat, d: nat)
    ensures Xor(Xor(a, b), Xor(c, d)) == Xor(Xor(a, c), Xor(b, d))
  {
    XorAssoc(a, b, Xor(c, d));
    XorAssoc(b, c, d);
    XorComm(b, c);
    XorAssoc(c, b, d);
    XorAssoc(a, c, Xor(b, d));
  }

  lemma {:induction false} StepsXor(a: nat, b: nat, n: nat)
    ensures Steps(Xor(a, b), n) == Xor(Steps(a, n), Steps(b, n))
    decreases n
  {
    hide Xor, BitStep;
    if n > 0 {
      BitStepXor(a, b);
      StepsXor(BitStep(a), BitStep(b), n - 1);
    }
  }

  lemma {:induction false} StepsCompose(h: nat, m: nat, n: nat)
    ensures Steps(h, m + n) == Steps(Steps(h, m), n)
    decreases m
  {
    if m > 0 {
      StepsCompose(BitStep(h), m - 1, n);
    }
  }

  lemma HalfMultiple(c: nat, p: nat)
    requires p >= 1 && c % (2 * p) == 0
    ensures c % 2 == 0 && (c / 2) % p == 0 && c / 2 / p == c / (2 * p)
  {
    ModDouble(c, p);
    var q := c / 2 / p;
    assert c / 2 == p * q;
    assert c == (2 * p) * q + 0;
    ModUnique(c, 2 * p, q, 0);
  }

  /** While the low n bits are clear, n steps shift. */
  lemma {:induction false} StepsShift(c: nat, n: nat)
    requires c % Pow2(n) == 0
    ensures Steps(c, n) == c / Pow2(n)
    decreases n
  {
    if n > 0 {
      HalfMultiple(c, Pow2(n - 1));
      XorZero(c / 2);
      assert BitStep(c) == c / 2;
      StepsShift(c / 2, n - 1);
    }
  }

  /** One table step does the work of eight bit steps. */
  lemma StepsByTable(c: nat)
    ensures Steps(c, 8) == Xor(c / 256, Steps(c % 256, 8))
  {
    assert Pow2(8) == 256;
    var high, low := c - c % 256, c % 256;
    assert high % 256 == 0 && high / 256 == c / 256;
    XorDisjoint(high, low, 8);
    StepsXor(high, low, 8);
    StepsShift(high, 8);
  }

  lemma XorLowByte(c: nat, b: nat)
    requires b < 256
    ensures Xor(c, b) / 256 == c / 256
    ensures Xor(c, b) % 256 == Xor(c % 256, b)
  {
    assert Pow2(8) == 256;
    var high, low := c - c % 256, c % 256;
    assert high % 256 == 0;
    XorDisjoint(high, low, 8);
    XorAssoc(high, low, b);
    XorBound(low, b, 8);
    XorDisjoint(high, Xor(low, b), 8);
  }

  // ---------------------------------------------------------------- the table

  ghost predicate TableOk(t: seq<nat>) {
    |t| == 256 && forall x :: 0 <= x < 256 ==> t[x] == Steps(x, 8)
  }

  /** Entries at multiples of d are right. */
  ghost predicate FilledAt(t: seq<nat>, d: nat)
    requires d >= 1
  {
    |t| == 256 && forall x :: 0 <= x < 256 && x % d == 0 ==> t[x] == Steps(x, 8)
  }

  /** Entries at odd multiples of i below j are right. */
  ghost predicate OddFilled(t: seq<nat>, i: nat, j: nat)
    requires i >= 1
  {
    |t| == 256 && forall x :: 0 <= x < 256 && x % (2 * i) == i && x < j ==> t[x] == Steps(x, 8)
  }

  /** Fills the table by doubling: the entry of a power of two comes from one more bit step,
      every other new entry is the xor of two entries. */
  method InitTable(t: array<nat>)
    requires t.Length == 256
    modifies t
    ensures TableOk(t[..])
  {
    hide Steps, Xor, FilledAt, OddFilled, Pow2, TableOk;
    var h := 1;
    t[0] := 0;
    var i := 128;
    ghost var k := 8;
    FilledAtStart(t[..]);
    while i > 0
      invariant 0 <= k <= 8
      invariant if k == 0 then i == 0 else i == Pow2(k - 1)
      invariant h == Steps(1, 8 - k)
      invariant FilledAt(t[..], Pow2(k))
      decreases i
    {
      h := Xor(h / 2, if h % 2 == 1 then POLY else 0);
      PowerEntry(k);
      PowerDivides256(k);
      PassStart(t[..], k);
      var j := 0;
      while j < 256
        invariant 0 <= j <= 256 && j % (2 * i) == 0
        invariant FilledAt(t[..], 2 * i) && OddFilled(t[..], i, j)
      {
        MultipleBelow(j, i);
        ghost var before := t[..];
        t[i + j] := Xor(t[j], h);
        assert t[..] == before[i + j := Xor(before[j], h)];
        EntryStep(before, i, j, k);
        j := j + 2 * i;
      }
      MergeFilled(t[..], i);
      HalfPower(k);
      i := i / 2;
      k := k - 1;
    }
    AllFilled(t[..]);
  }

  lemma FilledAtStart(t: seq<nat>)
    requires |t| == 256 && t[0] == 0
    ensures FilledAt(t, Pow2(8)) && Pow2(7) == 128 && Steps(1, 0) == 1
  {
    assert Pow2(8) == 256 && Pow2(7) == 128;
    OnlyZero(t);
  }

  lemma OnlyZero(t: seq<nat>)
    requires |t| == 256 && t[0] == 0
    ensures FilledAt(t, 256)
  {
    hide Steps;
    StepsZero(8);
  }

  lemma PassStart(t: seq<nat>, k: nat)
    requires k >= 1 && FilledAt(t, Pow2(k))
    ensures FilledAt(t, 2 * Pow2(k - 1)) && OddFilled(t, Pow2(k - 1), 0)
  {
  }

  lemma AllFilled(t: seq<nat>)
    requires FilledAt(t, Pow2(0))
    ensures TableOk(t)
  {
  }

  lemma HalfPower(k: nat)
    requires k >= 1
    ensures if k == 1 then Pow2(k - 1) / 2 == 0 else Pow2(k - 1) / 2 == Pow2(k - 2)
  {
  }

  lemma MergeFilled(t: seq<nat>, i: nat)
    requires i >= 1 && FilledAt(t, 2 * i) && OddFilled(t, i, 256)
    ensures FilledAt(t, i)
  {
    forall x | 0 <= x < 256 && x % i == 0
      ensures t[x] == Steps(x, 8)
    {
      ModDoubleSplit(x, i);
    }
  }

  lemma EntryStep(t: seq<nat>, i: nat, j: nat, k: nat)
    requires 1 <= k && i == Pow2(k - 1) && j % (2 * i) == 0 && j + 2 * i <= 256
    requires FilledAt(t, 2 * i) && OddFilled(t, i, j)
    ensures var t' := t[i + j := Xor(t[j], Steps(i, 8))];
      FilledAt(t', 2 * i) && OddFilled(t', i, j + 2 * i)
    ensures (j + 2 * i) % (2 * i) == 0
  {
    hide Steps, Xor;
    EntrySum(i, j, k);
    NextMultiple(j, i);
    var t' := t[i + j := Xor(t[j], Steps(i, 8))];
    assert t'[i + j] == Steps(i + j, 8);
    forall x | 0 <= x < 256 && x % (2 * i) == 0
      ensures t'[x] == Steps(x, 8)
    {
      assert x != i + j;
    }
  }

  lemma {:induction false} StepsZero(n: nat)
    ensures Steps(0, n) == 0
    decreases n
  {
    if n > 0 {
      XorZero(0);
      StepsZero(n - 1);
    }
  }

  lemma PowerEntry(k: nat)
    requires 1 <= k <= 8
    ensures BitStep(Steps(1, 8 - k)) == Steps(Pow2(k - 1), 8) == Steps(1, 9 - k)
  {
    hide Steps, Xor;
    var p := Pow2(k - 1);
    assert p % p == 0 && p / p == 1;
    StepsShift(p, k - 1);
    StepsCompose(p, k - 1, 9 - k);
    StepsCompose(1, 8 - k, 1);
    StepsOne(Steps(1, 8 - k));
  }

  lemma StepsOne(h: nat)
    ensures Steps(h, 1) == BitStep(h)
  {
  }

  lemma PowerDivides256(k: nat)
    requires 1 <= k <= 8
    ensures Pow2(k - 1) <= 128 && 256 % (2 * Pow2(k - 1)) == 0
  {
    assert Pow2(0) == 1 && Pow2(1) == 2 && Pow2(2) == 4 && Pow2(3) == 8;
    assert Pow2(4) == 16 && Pow2(5) == 32;
    assert Pow2(6) == 64 && Pow2(7) == 128;
  }

  /** A multiple of 2i below 256 leaves room for i more. */
  lemma MultipleBelow(j: nat, i: nat)
    requires i > 0 && j % (2 * i) == 0 && j < 256 && 256 % (2 * i) == 0
    ensures j + 2 * i <= 256
  {
    var d := 2 * i;
    var a, b := j / d, 256 / d;
    assert j == d * a && 256 == d * b;
    if a >= b {
      assert d * a >= d * b by { MulMonotone(d, b, a); }
    } else {
      MulMonotone(d, a + 1, b);
      assert d * (a + 1) == d * a + d;
    }
  }

  lemma MulMonotone(d: nat, a: nat, b: nat)
    requires a <= b
    ensures d * a <= d * b
  {
  }

  lemma NextMultiple(j: nat, i: nat)
    requires i > 0 && j % (2 * i) == 0
    ensures (j + 2 * i) % (2 * i) == 0
    ensures forall x :: j <= x < j + 2 * i && x % (2 * i) == i ==> x == i + j
  {
    var d := 2 * i;
    var q := j / d;
    assert j == d * q;
    assert j + d == d * (q + 1) + 0;
    ModUnique(j + d, d, q + 1, 0);
    forall x | j <= x < j + d && x % d == i
      ensures x == i + j
    {
      ModUnique(x, d, q, x - j);
    }
  }

  lemma EntrySum(i: nat, j: nat, k: nat)
    requires 1 <= k && i == Pow2(k - 1) && j % (2 * i) == 0
    ensures Xor(Steps(j, 8), Steps(i, 8)) == Steps(i + j, 8)
    ensures (i + j) % (2 * i) == i
  {
    hide Steps, Xor;
    SumMod(i, j);
    XorDisjoint(j, i, k);
    StepsXor(j, i, 8);
  }

  lemma SumMod(i: nat, j: nat)
    requires i >= 1 && j % (2 * i) == 0
    ensures (i + j) % (2 * i) == i
  {
    var q := j / (2 * i);
    assert i + j == (2 * i) * q + i;
    ModUnique(i + j, 2 * i, q, i);
  }

  // ---------------------------------------------------------------- the checksum loop

  /** The table-driven loop computes the bit-at-a-time CRC of every buffer. */
  method Checksum(t: seq<nat>, crc: nat, buf: Bytes) returns (r: nat)
    requires TableOk(t)
    ensures r == Crc(crc, buf)
  {
    hide Xor, Steps;
    var c := Xor(crc, ONES);
    var n := 0;
    while n < |buf|
      invariant 0 <= n <= |buf|
      invariant c == Fold(Xor(crc, ONES), buf[..n])
    {
      assert buf[..n + 1][..n] == buf[..n];
      ghost var x := Xor(c, buf[n] as nat);
      StepsByTable(x);
      XorLowByte(c, buf[n] as nat);
      var idx := Xor(c, buf[n] as nat) % 256;
      c := Xor(c / 256, t[idx]);
      n := n + 1;
    }
    assert buf[..n] == buf;
    r := Xor(c, ONES);
  }

  // ---------------------------------------------------------------- laws

  lemma {:induction false} FoldAppend(c: nat, a: Bytes, b: Bytes)
    ensures Fold(c, a + b) == Fold(Fold(c, a), b)
    decreases |b|
  {
    if b == [] {
      assert a + b == a;
    } else {
      var b0 := b[..|b| - 1];
      assert (a + b)[..|a + b| - 1] == a + b0;
      FoldAppend(c, a, b0);
    }
  }

  /** Checksumming two pieces in turn is checksumming their concatenation. */
  lemma CrcAppend(crc: nat, a: Bytes, b: Bytes)
    ensures Crc(Crc(crc, a), b) == Crc(crc, a + b)
  {
    FoldAppend(Xor(crc, ONES), a, b);
    XorCancel(Fold(Xor(crc, ONES), a), ONES);
  }

  lemma WordIsPow2()
    ensures Pow2(32) == WORD && Pow2(31) == 0x8000_0000 && POLY >= Pow2(31)
  {
    Pow2Is31();
  }

  lemma BitStepBound(h: nat)
    requires h < WORD
    ensures BitStep(h) < WORD
  {
    WordIsPow2();
    XorBound(h / 2, if h % 2 == 1 then POLY else 0, 32);
  }

  lemma {:induction false} StepsBound(h: nat, n: nat)
    requires h < WORD
    ensures Steps(h, n) < WORD
    decreases n
  {
    if n > 0 {
      BitStepBound(h);
      StepsBound(BitStep(h), n - 1);
    }
  }

  lemma {:induction false} XorZeroMeansEqual(a: nat, b: nat)
    requires Xor(a, b) == 0
    ensures a == b
    decreases a + b
  {
    if a + b > 0 {
      XorHalves(a, b);
      XorZeroMeansEqual(a / 2, b / 2);
    }
  }

  /** The top bit of the polynomial makes one bit step injective on words. */
  lemma BitStepInjective(a: nat, b: nat)
    requires a < WORD && b < WORD && BitStep(a) == BitStep(b)
    ensures a == b
  {
    WordIsPow2();
    var x := Xor(a, b);
    BitStepXor(a, b);
    XorSelf(BitStep(a));
    assert BitStep(x) == 0;
    XorBound(a, b, 32);
    XorZeroMeansEqual(x / 2, if x % 2 == 1 then POLY else 0);
    assert x == 0;
    XorZeroMeansEqual(a, b);
  }

  lemma {:induction false} StepsInjective(a: nat, b: nat, n: nat)
    requires a < WORD && b < WORD && Steps(a, n) == Steps(b, n)
    ensures a == b
    decreases n
  {
    hide Xor, BitStep;
    if n > 0 {
      BitStepBound(a);
      BitStepBound(b);
      StepsInjective(BitStep(a), BitStep(b), n - 1);
      BitStepInjective(a, b);
    }
  }

  lemma XorByteBound(c: nat, b: Byte)
    requires c < WORD
    ensures Xor(c, b as nat) < WORD
  {
    WordIsPow2();
    XorBound(c, b as nat, 32);
  }

  /** A byte step is injective in the running value and in the byte. */
  lemma ByteStepInjective(c: nat, d: nat, x: Byte, y: Byte)
    requires c < WORD && d < WORD && ByteStep(c, x) == ByteStep(d, y)
    ensures x == y ==> c == d
    ensures c == d ==> x == y
  {
    XorByteBound(c, x);
    XorByteBound(d, y);
    StepsInjective(Xor(c, x as nat), Xor(d, y as nat), 8);
    if x == y {
      XorCancel(c, x as nat);
      XorCancel(d, y as nat);
    } else if c == d {
      XorComm(c, x as nat);
      XorComm(c, y as nat);
      XorCancel(x as nat, c);
      XorCancel(y as nat, c);
    }
  }

  lemma {:induction false} FoldBound(c: nat, buf: Bytes)
    requires c < WORD
    ensures Fold(c, buf) < WORD
    decreases |buf|
  {
    if buf != [] {
      FoldBound(c, buf[..|buf| - 1]);
      XorByteBound(Fold(c, buf[..|buf| - 1]), buf[|buf| - 1]);
      StepsBound(Xor(Fold(c, buf[..|buf| - 1]), buf[|buf| - 1] as nat), 8);
    }
  }

  lemma {:induction false} FoldInjective(c: nat, d: nat, buf: Bytes)
    requires c < WORD && d < WORD && Fold(c, buf) == Fold(d, buf)
    ensures c == d
    decreases |buf|
  {
    if buf != [] {
      var b0 := buf[..|buf| - 1];
      FoldBound(c, b0);
      FoldBound(d, b0);
      ByteStepInjective(Fold(c, b0), Fold(d, b0), buf[|buf| - 1], buf[|buf| - 1]);
      FoldInjective(c, d, b0);
    }
  }

  /** Buffers that differ in exactly one byte have different checksums. */
  lemma OneByteErrorDetected(crc: nat, buf: Bytes, k: nat, x: Byte)
    requires crc < WORD && k < |buf| && x != buf[k]
    ensures Crc(crc, buf[k := x]) != Crc(crc, buf)
  {
    WordIsPow2();
    var c := Xor(crc, ONES);
    XorBound(crc, ONES, 32);
    var pre, post := buf[..k], buf[k + 1..];
    FoldSplit(c, buf, k);
    FoldSplit(c, buf[k := x], k);
    assert buf[k := x][..k] == pre && buf[k := x][k + 1..] == post;
    var f := Fold(c, pre);
    FoldBound(c, pre);
    if Crc(crc, buf[k := x]) == Crc(crc, buf) {
      XorCancel(Fold(c, buf), ONES);
      XorCancel(Fold(c, buf[k := x]), ONES);
      ByteStepBound(f, buf[k]);
      ByteStepBound(f, x);
      FoldInjective(ByteStep(f, buf[k]), ByteStep(f, x), post);
      ByteStepInjective(f, f, buf[k], x);
      assert false;
    }
  }

  lemma ByteStepBound(c: nat, b: Byte)
    requires c < WORD
    ensures ByteStep(c, b) < WORD
  {
    XorByteBound(c, b);
    StepsBound(Xor(c, b as nat), 8);
  }

  lemma FoldSplit(c: nat, buf: Bytes, k: nat)
    requires k < |buf|
    ensures Fold(c, buf) == Fold(ByteStep(Fold(c, buf[..k]), buf[k]), buf[k + 1..])
  {
    assert buf == buf[..k + 1] + buf[k + 1..];
    FoldAppend(c, buf[..k + 1], buf[k + 1..]);
    assert buf[..k + 1][..k] == buf[..k];
  }

  /** The checksums of 0xff and of 0x7f, and the entry of the table that is the polynomial. */
  lemma KnownSums()
    ensures Steps(128, 8) == 0xedb8_8320
    ensures Crc(0, []) == 0 && Crc(0, [0xff]) == 0xff00_0000
    ensures Crc(0, [0x7f]) == Xor(0xff00_0000, 0xedb8_8320)
  {
    hide Xor, Steps, Crc;
    TopEntry();
    XorZero(0xff);
    XorComm(0x7f, 128);
    assert Pow2(7) == 128;
    XorDisjoint(128, 0x7f, 7);
    OneByteSum(0xff, 0);
    OneByteSum(0x7f, 128);
    XorZero(0xff00_0000);
    EmptySum();
  }

  lemma EmptySum()
    ensures Crc(0, []) == 0
  {
    hide Xor;
    XorZero(ONES);
    XorSelf(ONES);
  }

  lemma TopEntry()
    ensures Steps(0, 8) == 0 && Steps(128, 8) == 0xedb8_8320
  {
    hide Xor;
    assert Pow2(7) == 128 && Pow2(8) == 256;
    StepsShift(0, 8);
    StepsShift(128, 7);
    StepsCompose(128, 7, 1);
    XorZero(POLY);
    assert Steps(1, 1) == Steps(BitStep(1), 0);
  }

  /** The sum of one byte, from the table entry of its complement. */
  lemma OneByteSum(b: Byte, x: nat)
    requires Xor(b as nat, x) == 0xff
    ensures Crc(0, [b]) == Xor(0xff00_0000, Steps(x, 8))
  {
    hide Xor, Steps;
    assert [b][..0] == [] && Fold(ONES, []) == ONES;
    XorZero(ONES);
    assert Crc(0, [b]) == Xor(ByteStep(ONES, b), ONES);
    Complement(b as nat, x);
    StepsXor(0xffff_ff00, x, 8);
    assert Pow2(8) == 256 && Pow2(16) == 0x1_0000;
    assert Pow2(20) == 0x10_0000;
    assert Pow2(24) == 0x100_0000;
    StepsShift(0xffff_ff00, 8);
    var s, top, low := Steps(x, 8), 0xff00_0000, 0xff_ffff;
    XorDisjoint(top, low, 24);
    XorComm(top, low);
    XorSwap(low, s, low, top);
    XorSelf(low);
    XorZero(Xor(s, top));
    XorComm(s, top);
  }

  lemma Complement(b: nat, x: nat)
    requires Xor(b, x) == 0xff
    ensures Xor(ONES, b) == Xor(0xffff_ff00, x)
  {
    hide Xor;
    assert Pow2(8) == 256;
    XorDisjoint(0xffff_ff00, 0xff, 8);
    XorAssoc(0xffff_ff00, 0xff, b);
    XorComm(b, x);
    XorCancel(x, b);
  }

  // ---------------------------------------------------------------- pages

  const CHKSUM_POS: nat := 20
  const CHKSUM_OFFSET: nat := 24

  /** Checksum of a page image: everything before, then everything after the stored sum. */
  function PageChecksum(image: Bytes): nat
    requires |image| >= CHKSUM_OFFSET
  {
    Crc(Crc(0, image[..CHKSUM_POS]), image[CHKSUM_OFFSET..])
  }

  /** Storing the sum in its field does not change the sum, so a page written out passes the
      check when it is read back. */
  lemma StoredSumChecks(image: Bytes, field: Bytes)
    requires |image| >= CHKSUM_OFFSET && |field| == CHKSUM_OFFSET - CHKSUM_POS
    ensures PageChecksum(image[..CHKSUM_POS] + field + image[CHKSUM_OFFSET..]) == PageChecksum(image)
  {
    var stored := image[..CHKSUM_POS] + field + image[CHKSUM_OFFSET..];
    assert stored[..CHKSUM_POS] == image[..CHKSUM_POS];
    assert stored[CHKSUM_OFFSET..] == image[CHKSUM_OFFSET..];
  }

  /** A page with any one byte outside the stored sum changed does not pass the check. */
  lemma PageErrorDetected(image: Bytes, k: nat, x: Byte)
    requires |image| >= CHKSUM_OFFSET
    requires k < |image| && x != image[k] && !(CHKSUM_POS <= k < CHKSUM_OFFSET)
    ensures PageChecksum(image[k := x]) != PageChecksum(image)
  {
    hide Crc;
    var pre, post := image[..CHKSUM_POS], image[CHKSUM_OFFSET..];
    var bad := image[k := x];
    CrcAppend(0, pre, post);
    CrcAppend(0, bad[..CHKSUM_POS], bad[CHKSUM_OFFSET..]);
    var k' := if k < CHKSUM_POS then k else k - (CHKSUM_OFFSET - CHKSUM_POS);
    assert bad[..CHKSUM_POS] + bad[CHKSUM_OFFSET..] == (pre + post)[k' := x];
    OneByteErrorDetected(0, pre + post, k', x);
  }
}
