/**
 * Unsigned 64-bit words and their bitwise exclusive or, the only operation
 * the position keys use. A word is a natural number below 2^64; XOR is
 * defined bit by bit from the least significant bit up.
 */
module Bits {
  /** 2^k. */
  function Pow2(k: nat): (p: nat)
    ensures p >= 1
  {
    if k == 0 then 1 else 2 * Pow2(k - 1)
  }

  const WordLimit: nat := 0x1_0000_0000_0000_0000

  /** `u64`. */
  type U64 = x: nat | x < WordLimit

  /** Bitwise exclusive or of two natural numbers. */
  function Xor(a: nat, b: nat): nat
    decreases a + b
  {
    if a == 0 && b == 0 then 0
    else 2 * Xor(a / 2, b / 2) + (a + b) % 2
  }

  /** The low bit of `Xor(a, b)` is the sum of the low bits; the other bits are the XOR of the others. */
  lemma XorHalves(a: nat, b: nat)
    ensures Xor(a, b) / 2 == Xor(a / 2, b / 2)
    ensures Xor(a, b) % 2 == (a + b) % 2
  {
    if a == 0 && b == 0 {
      assert Xor(0, 0) == 0;
    }
  }

  lemma {:induction false} XorZero(a: nat)
    ensures Xor(0, a) == a && Xor(a, 0) == a
    decreases a
  {
    if a != 0 {
      XorZero(a / 2);
    }
  }

  lemma {:induction false} XorSelf(a: nat)
    ensures Xor(a, a) == 0
    decreases a
  {
    if a != 0 {
      XorSelf(a / 2);
    }
  }

  lemma {:induction false} XorComm(a: nat, b: nat)
    ensures Xor(a, b) == Xor(b, a)
    decreases a + b
  {
    if a != 0 || b != 0 {
      XorComm(a / 2, b / 2);
    }
  }

  /** Low bits add up through an intermediate sum. */
  lemma ParityChain(x: nat, y: nat, z: nat, w: nat, v: nat)
    requires x % 2 == (y + z) % 2 && v % 2 == (x + w) % 2
    ensures v % 2 == (y + z + w) % 2
  {
  }

  /** A number is determined by its half and its low bit. */
  lemma HalvesDetermine(x: nat, y: nat)
    requires x / 2 == y / 2 && x % 2 == y % 2
    ensures x == y
  {
  }

  /** The halves and the low bit of `(a ^ b) ^ c`. */
  lemma XorLeftParts(a: nat, b: nat, c: nat)
    ensures Xor(Xor(a, b), c) / 2 == Xor(Xor(a / 2, b / 2), c / 2)
    ensures Xor(Xor(a, b), c) % 2 == (a + b + c) % 2
  {
    var ab := Xor(a, b);
    XorHalves(a, b);
    XorHalves(ab, c);
    ParityChain(ab, a, b, c, Xor(ab, c));
  }

  /** The halves and the low bit of `a ^ (b ^ c)`. */
  lemma XorRightParts(a: nat, b: nat, c: nat)
    ensures Xor(a, Xor(b, c)) / 2 == Xor(a / 2, Xor(b / 2, c / 2))
    ensures Xor(a, Xor(b, c)) % 2 == (a + b + c) % 2
  {
    var bc := Xor(b, c);
    XorHalves(b, c);
    XorHalves(a, bc);
    ParityChain(bc, b, c, a, Xor(a, bc));
  }

  lemma {:induction false} XorAssoc(a: nat, b: nat, c: nat)
    ensures Xor(Xor(a, b), c) == Xor(a, Xor(b, c))
    decreases a + b + c
  {
    if a == 0 && b == 0 && c == 0 {
      assert Xor(a, b) == 0 && Xor(b, c) == 0;
    } else {
      XorAssoc(a / 2, b / 2, c / 2);
      XorLeftParts(a, b, c);
      XorRightParts(a, b, c);
      HalvesDetermine(Xor(Xor(a, b), c), Xor(a, Xor(b, c)));
    }
  }

  /** XOR keeps numbers of `k` bits within `k` bits. */
  lemma {:induction false} XorBound(a: nat, b: nat, k: nat)
    requires a < Pow2(k) && b < Pow2(k)
    ensures Xor(a, b) < Pow2(k)
    decreases k
  {
    if a != 0 || b != 0 {
      assert k > 0;
      XorBound(a / 2, b / 2, k - 1);
    }
  }

  lemma {:induction false} Pow2Add(a: nat, b: nat)
    ensures Pow2(a + b) == Pow2(a) * Pow2(b)
    decreases a
  {
    if a > 0 {
      Pow2Add(a - 1, b);
    }
  }

  lemma Pow64()
    ensures Pow2(64) == WordLimit
  {
    assert Pow2(4) == 16;
    Pow2Add(4, 4);
    assert Pow2(8) == 0x100;
    Pow2Add(8, 8);
    assert Pow2(16) == 0x1_0000;
    Pow2Add(16, 16);
    assert Pow2(32) == 0x1_0000_0000;
    Pow2Add(32, 32);
  }

  /** `^` on `u64`. */
  function Xor64(a: U64, b: U64): (r: U64)
  {
    Pow64();
    XorBound(a, b, 64);
    Xor(a, b)
  }

  /** XOR-ing the same word twice is no change: every update is its own inverse. */
  lemma Xor64Cancel(x: U64, v: U64)
    ensures Xor64(Xor64(x, v), v) == x
  {
    XorAssoc(x, v, v);
    XorSelf(v);
    XorZero(x);
  }

  /** Two XORs may be applied in either order. */
  lemma Xor64Shift(x: U64, y: U64, v: U64)
    ensures Xor64(Xor64(x, v), y) == Xor64(Xor64(x, y), v)
  {
    XorAssoc(x, v, y);
    XorComm(v, y);
    XorAssoc(x, y, v);
  }

  lemma Xor64Zero(x: U64)
    ensures Xor64(0, x) == x && Xor64(x, 0) == x
  {
    XorZero(x);
  }
}
