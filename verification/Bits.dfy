/** Powers of two, the ceiling logarithm and the bit operations the masks use, on
    natural numbers. */
module Bits {

  function Pow2(n: nat): (p: nat)
    ensures p >= 1
  {
    if n == 0 then 1 else 2 * Pow2(n - 1)
  }

  /** The least i with num <= 2^i. */
  function Log2(num: nat): nat {
    if num <= 1 then 0 else 1 + Log2((num + 1) / 2)
  }

  function BitAnd(a: nat, b: nat): nat {
    if a == 0 || b == 0 then 0
    else 2 * BitAnd(a / 2, b / 2) + (if a % 2 == 1 && b % 2 == 1 then 1 else 0)
  }

  function BitOr(a: nat, b: nat): nat
    decreases a + b
  {
    if a == 0 && b == 0 then 0
    else 2 * BitOr(a / 2, b / 2) + (if a % 2 == 1 || b % 2 == 1 then 1 else 0)
  }

  lemma {:induction false} Pow2Monotone(a: nat, b: nat)
    requires a <= b
    ensures Pow2(a) <= Pow2(b)
    ensures a < b ==> 2 * Pow2(a) <= Pow2(b)
    decreases b
  {
    if a < b {
      Pow2Monotone(a, b - 1);
    }
  }

  /** Log2 is the ceiling logarithm. */
  lemma {:induction false} Log2IsCeiling(num: nat)
    ensures num <= Pow2(Log2(num))
    ensures num > 1 ==> Log2(num) >= 1 && Pow2(Log2(num) - 1) < num
  {
    if num > 1 {
      Log2IsCeiling((num + 1) / 2);
    }
  }

  /** The ceiling logarithm is the only exponent with both bounds. */
  lemma Log2Unique(num: nat, i: nat)
    requires num <= Pow2(i)
    requires i > 0 ==> Pow2(i - 1) < num
    ensures num >= 1 ==> Log2(num) == i
  {
    if num >= 1 {
      Log2IsCeiling(num);
      if Log2(num) < i {
        Pow2Monotone(Log2(num), i - 1);
      } else if i < Log2(num) {
        Pow2Monotone(i, Log2(num) - 1);
      }
    }
  }

  /** Doubles `limit` until it reaches `num`. A `num` above 2^31 would shift the 32-bit
      limit to zero and never stop. */
  method CeilingLog(num: nat) returns (i: nat)
    requires num <= 0x8000_0000
    ensures i == Log2(num)
  {
    var limit := 1;
    i := 0;
    while limit < num
      invariant limit == Pow2(i)
      invariant i > 0 ==> Pow2(i - 1) < num
      invariant limit <= 0x8000_0000
      decreases num - limit
    {
      Pow2Below31(i);
      limit := limit * 2;
      i := i + 1;
    }
    if num >= 1 {
      Log2Unique(num, i);
    }
  }

  /** A power of two under 2^31 is at most 2^30, so doubling it does not leave 32 bits. */
  lemma Pow2Below31(i: nat)
    requires Pow2(i) < 0x8000_0000
    ensures 2 * Pow2(i) <= 0x8000_0000
  {
    Pow2Is31();
    if i >= 31 {
      Pow2Monotone(31, i);
    } else {
      Pow2Monotone(i, 30);
    }
  }

  lemma Pow2Is31()
    ensures Pow2(30) == 0x4000_0000 && Pow2(31) == 0x8000_0000
  {
    assert Pow2(10) == 1024;
    assert Pow2(20) == 1024 * 1024 by {
      assert Pow2(15) == 32768;
    }
    assert Pow2(25) == 32 * 1024 * 1024;
    assert Pow2(30) == 0x4000_0000;
  }

  /** Masking with 2^k - 1 is the remainder modulo 2^k. */
  lemma {:induction false} AndLowMask(n: nat, k: nat)
    ensures BitAnd(n, Pow2(k) - 1) == n % Pow2(k)
  {
    if k > 0 {
      AndLowMask(n / 2, k - 1);
      var p := Pow2(k - 1);
      assert (2 * p - 1) / 2 == p - 1;
      ModDouble(n, p);
    }
  }

  lemma ModDouble(n: nat, p: nat)
    requires p >= 1
    ensures n % (2 * p) == 2 * ((n / 2) % p) + n % 2
  {
    var q := (n / 2) / p;
    var r := (n / 2) % p;
    assert n / 2 == q * p + r;
    assert n == (2 * p) * q + (2 * r + n % 2);
    ModUnique(n, 2 * p, q, 2 * r + n % 2);
  }

  lemma MulAtLeast(d: int, k: int)
    requires d > 0 && k >= 1
    ensures d * k >= d
  {
  }

  lemma ModUnique(n: int, d: int, q: int, r: int)
    requires d > 0 && 0 <= r < d && n == d * q + r
    ensures n % d == r && n / d == q
  {
    var q' := n / d;
    if q > q' {
      MulAtLeast(d, q - q');
    } else if q < q' {
      MulAtLeast(d, q' - q);
    }
  }

  lemma ModDoubleSplit(n: nat, p: nat)
    requires p >= 1
    ensures n % (2 * p) == n % p || n % (2 * p) == n % p + p
  {
    var q, r := n / (2 * p), n % (2 * p);
    assert n == (2 * p) * q + r;
    if r < p {
      ModUnique(n, p, 2 * q, r);
    } else {
      assert n == p * (2 * q + 1) + (r - p);
      ModUnique(n, p, 2 * q + 1, r - p);
    }
  }

  /** Exclusive or, bit by bit. */
  function Xor(a: nat, b: nat): nat
    decreases a + b
  {
    if a == 0 && b == 0 then 0
    else 2 * Xor(a / 2, b / 2) + (a % 2 + b % 2) % 2
  }

  lemma XorHalves(a: nat, b: nat)
    ensures Xor(a, b) / 2 == Xor(a / 2, b / 2)
    ensures Xor(a, b) % 2 == (a % 2 + b % 2) % 2
  {
  }

  lemma {:induction false} XorZero(a: nat)
    ensures Xor(a, 0) == a && Xor(0, a) == a
  {
    if a > 0 {
      XorZero(a / 2);
    }
  }

  lemma {:induction false} XorSelf(a: nat)
    ensures Xor(a, a) == 0
  {
    if a > 0 {
      XorSelf(a / 2);
    }
  }

  lemma {:induction false} XorComm(a: nat, b: nat)
    ensures Xor(a, b) == Xor(b, a)
    decreases a + b
  {
    if a + b > 0 {
      XorComm(a / 2, b / 2);
    }
  }

  lemma ParityOf3(x: nat, y: nat, z: nat, xy: nat)
    requires xy % 2 == (x % 2 + y % 2) % 2
    ensures (xy % 2 + z % 2) % 2 == (x + y + z) % 2
    ensures (z % 2 + xy % 2) % 2 == (x + y + z) % 2
  {
    assert x % 2 == 0 || x % 2 == 1;
    assert y % 2 == 0 || y % 2 == 1;
    assert z % 2 == 0 || z % 2 == 1;
  }

  lemma XorParity(a: nat, b: nat, c: nat)
    ensures Xor(Xor(a, b), c) % 2 == (a + b + c) % 2
    ensures Xor(a, Xor(b, c)) % 2 == (a + b + c) % 2
  {
    hide Xor;
    XorHalves(a, b);
    XorHalves(b, c);
    XorHalves(Xor(a, b), c);
    XorHalves(a, Xor(b, c));
    ParityOf3(a, b, c, Xor(a, b));
    ParityOf3(b, c, a, Xor(b, c));
  }

  lemma XorHalf3(a: nat, b: nat, c: nat)
    ensures Xor(Xor(a, b), c) / 2 == Xor(Xor(a / 2, b / 2), c / 2)
    ensures Xor(a, Xor(b, c)) / 2 == Xor(a / 2, Xor(b / 2, c / 2))
  {
    XorHalves(a, b);
    XorHalves(b, c);
    XorHalves(Xor(a, b), c);
    XorHalves(a, Xor(b, c));
  }

  lemma SameHalves(x: nat, y: nat)
    requires x / 2 == y / 2 && x % 2 == y % 2
    ensures x == y
  {
  }

  lemma {:induction false} XorAssoc(a: nat, b: nat, c: nat)
    ensures Xor(Xor(a, b), c) == Xor(a, Xor(b, c))
    decreases a + b + c
  {
    if a + b + c > 0 {
      XorAssoc(a / 2, b / 2, c / 2);
      XorHalf3(a, b, c);
      XorParity(a, b, c);
      SameHalves(Xor(Xor(a, b), c), Xor(a, Xor(b, c)));
    }
  }

  lemma {:induction false} XorBound(a: nat, b: nat, k: nat)
    requires a < Pow2(k) && b < Pow2(k)
    ensures Xor(a, b) < Pow2(k)
  {
    if k > 0 {
      XorBound(a / 2, b / 2, k - 1);
      XorHalves(a, b);
    }
  }

  lemma XorCancel(a: nat, b: nat)
    ensures Xor(Xor(a, b), b) == a
  {
    XorAssoc(a, b, b);
    XorSelf(b);
    XorZero(a);
  }

  /** Words with no common bit are added. */
  lemma {:induction false} XorDisjoint(x: nat, y: nat, k: nat)
    requires x % Pow2(k) == 0 && y < Pow2(k)
    ensures Xor(x, y) == x + y
  {
    hide Xor;
    if k == 0 {
      XorZero(x);
    } else {
      var p := Pow2(k - 1);
      ModDouble(x, p);
      XorDisjoint(x / 2, y / 2, k - 1);
      XorHalves(x, y);
    }
  }

  /** Setting the next bit of an all-ones mask gives the next all-ones mask. */
  lemma {:induction false} OrNextMask(k: nat)
    ensures BitOr(Pow2(k), Pow2(k) - 1) == Pow2(k + 1) - 1
  {
    if k > 0 {
      OrNextMask(k - 1);
      assert (Pow2(k) - 1) / 2 == Pow2(k - 1) - 1;
    } else {
      assert BitOr(1, 0) == 2 * BitOr(0, 0) + 1;
    }
  }
}
