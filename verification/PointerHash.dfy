/** The 64-bit mixer behind both runtime indexes: the registry masks it to choose a
    home slot and the range treap uses it as priority (yc_runtime.c:52-60). Words are
    naturals below 2^64; shift, exclusive or, and, and the wrapping product are written
    out on them bit by bit. */
module PointerHash {
  /** Bytes of bookkeeping in front of every payload: sizeof(YcAllocHeader). */
  const HEADER: nat := 104

  const WORD: nat := 0x1_0000_0000_0000_0000
  const MUL1: nat := 0xff51_afd7_ed55_8ccd
  const MUL2: nat := 0xc4ce_b9fe_1a85_ec53
  /** Inverses of the two odd multipliers modulo 2^64. */
  const INV1: nat := 0x4f74_430c_22a5_4005
  const INV2: nat := 0x9cb4_b2f8_1293_37db

  function Pow2(k: nat): (p: nat)
    ensures p > 0
  {
    if k == 0 then 1 else 2 * Pow2(k - 1)
  }

  function Shr(a: nat, k: nat): nat
    decreases k
  {
    if k == 0 then a else Shr(a / 2, k - 1)
  }

  function Xor(a: nat, b: nat): nat
    decreases a + b
  {
    if a == 0 && b == 0 then 0 else 2 * Xor(a / 2, b / 2) + (a + b) % 2
  }

  function And(a: nat, b: nat): nat
    decreases a + b
  {
    if a == 0 && b == 0 then 0
    else 2 * And(a / 2, b / 2) + if a % 2 == 1 && b % 2 == 1 then 1 else 0
  }

  function XorShift(x: nat): nat { Xor(x, Shr(x, 33)) }

  function MulWrap(x: nat, m: nat): nat { x * m % WORD }

  /** yc_ptr_hash, step by step. */
  function Hash(p: nat): nat {
    XorShift(MulWrap(XorShift(MulWrap(XorShift(p), MUL1)), MUL2))
  }

  // ----- exclusive or and shift -----

  lemma XorBits(a: nat, b: nat)
    ensures Xor(a, b) / 2 == Xor(a / 2, b / 2)
    ensures Xor(a, b) % 2 == (a + b) % 2
  {
  }

  lemma {:induction false} XorCancels(a: nat, b: nat)
    ensures Xor(Xor(a, b), b) == a
    decreases a + b
  {
    if a != 0 || b != 0 {
      hide Xor;
      XorCancels(a / 2, b / 2);
      XorBits(a, b);
      XorBits(Xor(a, b), b);
      SameBits(Xor(Xor(a, b), b), a, Xor(a, b), b);
    }
  }

  lemma SameBits(y: nat, a: nat, x: nat, b: nat)
    requires y / 2 == a / 2 && y % 2 == (x + b) % 2 && x % 2 == (a + b) % 2
    ensures y == a
  {
  }

  lemma {:induction false} ShrXor(a: nat, b: nat, k: nat)
    ensures Shr(Xor(a, b), k) == Xor(Shr(a, k), Shr(b, k))
    decreases k
  {
    if k > 0 {
      ShrXor(a / 2, b / 2, k - 1);
      assert Xor(a, b) / 2 == Xor(a / 2, b / 2);
    }
  }

  lemma {:induction false} XorZero(a: nat)
    ensures Xor(a, 0) == a
  {
    if a > 0 { XorZero(a / 2); }
  }

  lemma {:induction false} XorBound(a: nat, b: nat, k: nat)
    requires a < Pow2(k) && b < Pow2(k)
    ensures Xor(a, b) < Pow2(k)
    decreases k
  {
    if k > 0 { XorBound(a / 2, b / 2, k - 1); }
  }

  lemma {:induction false} ShrBound(a: nat, k: nat, j: nat)
    requires a < Pow2(k + j)
    ensures Shr(a, k) < Pow2(j) && Shr(a, k) <= a
    decreases k
  {
    if k > 0 { ShrBound(a / 2, k - 1, j); }
  }

  lemma {:induction false} Pow2Split(j: nat, k: nat)
    ensures j <= k ==> Pow2(j) <= Pow2(k)
    decreases k
  {
    if j < k { Pow2Split(j, k - 1); }
  }

  lemma WordIsPow2()
    ensures Pow2(64) == WORD
  {
    assert Pow2(8) == 0x100;
    assert Pow2(16) == 0x1_0000;
    assert Pow2(24) == 0x100_0000;
    assert Pow2(32) == 0x1_0000_0000;
    assert Pow2(40) == 0x100_0000_0000;
    assert Pow2(48) == 0x1_0000_0000_0000;
    assert Pow2(56) == 0x100_0000_0000_0000;
  }

  /** The shift by 33 leaves the top 31 bits alone, so applying the step twice undoes it. */
  lemma XorShiftInvolutive(x: nat)
    requires x < WORD
    ensures XorShift(x) < WORD
    ensures XorShift(XorShift(x)) == x
  {
    var s := Shr(x, 33);
    WordIsPow2();
    ShrBound(x, 33, 31);
    XorBound(x, s, 64);
    Pow2Split(31, 33);
    ShrBound(s, 33, 0);
    ShrXor(x, s, 33);
    XorZero(s);
    XorCancels(x, s);
  }

  lemma RemainderOf(y: int, t: int, x: int)
    requires 0 <= x < WORD && y == t * WORD + x
    ensures y % WORD == x
  {
  }

  /** An odd multiplier and its inverse: m * inv is one more than a multiple of 2^64. */
  lemma MulInvertible(x: nat, m: nat, inv: nat, k: nat)
    requires x < WORD && m * inv == k * WORD + 1
    ensures MulWrap(MulWrap(x, m), inv) == x
  {
    var y := MulWrap(x, m);
    var q := x * m / WORD;
    assert y == x * m - q * WORD;
    calc {
      y * inv;
      (x * m - q * WORD) * inv;
      x * m * inv - q * WORD * inv;
      { assert x * m * inv == x * (m * inv); }
      x * (k * WORD + 1) - q * WORD * inv;
      { assert q * WORD * inv == q * inv * WORD; assert x * (k * WORD + 1) == x * k * WORD + x; }
      (x * k - q * inv) * WORD + x;
    }
    RemainderOf(y * inv, x * k - q * inv, x);
  }

  /** The mixer run backwards. */
  function Unhash(h: nat): nat {
    XorShift(MulWrap(XorShift(MulWrap(XorShift(h), INV2)), INV1))
  }

  lemma HashInvertible(p: nat)
    requires p < WORD
    ensures Hash(p) < WORD
    ensures Unhash(Hash(p)) == p
  {
    var b := MulWrap(XorShift(p), MUL1);
    var d := MulWrap(XorShift(b), MUL2);
    XorShiftInvolutive(p);
    XorShiftInvolutive(b);
    XorShiftInvolutive(d);
    MulInvertible(XorShift(p), MUL1, INV1, 0x4f3e2925cb7c5b4e);
    MulInvertible(XorShift(b), MUL2, INV2, 0x7878e44812b2d581);
  }

  lemma HashInjective(p: nat, q: nat)
    requires p < WORD && q < WORD
    requires Hash(p) == Hash(q)
    ensures p == q
  {
    HashInvertible(p);
    HashInvertible(q);
  }

  // ----- masking -----

  /** Masking with a power of two minus one yields a slot number, keeps the slot
      numbers, and wraps one past the last slot to zero. */
  lemma {:induction false} MaskBound(x: nat, k: nat)
    ensures And(x, Pow2(k) - 1) < Pow2(k)
    decreases k, x
  {
    if k == 0 {
      AndZero(x);
    } else {
      MaskBound(x / 2, k - 1);
      assert (Pow2(k) - 1) / 2 == Pow2(k - 1) - 1;
    }
  }

  lemma {:induction false} MaskKeeps(x: nat, k: nat)
    requires x < Pow2(k)
    ensures And(x, Pow2(k) - 1) == x
    decreases k
  {
    if k == 0 {
      AndZero(x);
    } else {
      MaskKeeps(x / 2, k - 1);
      assert (Pow2(k) - 1) / 2 == Pow2(k - 1) - 1 && (Pow2(k) - 1) % 2 == 1;
    }
  }

  lemma {:induction false} MaskWraps(k: nat)
    ensures And(Pow2(k), Pow2(k) - 1) == 0
  {
    if k == 0 {
      AndZero(1);
    } else {
      MaskWraps(k - 1);
      assert (Pow2(k) - 1) / 2 == Pow2(k - 1) - 1;
    }
  }

  lemma {:induction false} AndZero(x: nat)
    ensures And(x, 0) == 0
  {
    if x > 0 { AndZero(x / 2); }
  }
}
