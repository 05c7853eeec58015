/** Bitwise operators on non-negative integers, as the driver applies them to
    register bytes and 16-bit words: `&`, `|` and `<<` defined bit by bit, with
    the facts the driver relies on (masking keeps the low bits, a single-bit
    mask tests that bit, or-ing disjoint bit ranges is adding). */
module Bits {

  function Pow2(k: nat): (p: nat)
    ensures p >= 1
  {
    if k == 0 then 1 else 2 * Pow2(k - 1)
  }

  /** `a & b`, lowest bit first. Masking never sets a bit the mask lacks, so
      the result is at most the mask. */
  function And(a: nat, b: nat): (r: nat)
    decreases a
    ensures r <= b
  {
    if a == 0 || b == 0 then 0
    else 2 * And(a / 2, b / 2) + (if a % 2 == 1 && b % 2 == 1 then 1 else 0)
  }

  /** `a | b`, lowest bit first. Or-ing keeps every bit of both operands and
      adds no carry, so the result lies between each operand and their sum. */
  function Or(a: nat, b: nat): (r: nat)
    decreases a
    ensures a <= r && b <= r && r <= a + b
  {
    if a == 0 then b
    else if b == 0 then a
    else 2 * Or(a / 2, b / 2) + (if a % 2 == 1 || b % 2 == 1 then 1 else 0)
  }

  /** `a << k`: the low `k` bits are clear, and shifting back gives `a`. */
  function Shl(a: nat, k: nat): (r: nat)
    ensures r % Pow2(k) == 0 && r / Pow2(k) == a
  {
    DivModUnique(a * Pow2(k), Pow2(k), a, 0);
    a * Pow2(k)
  }

  /** Remainder by `q = 2 * p` through division by 2 first. */
  lemma {:induction false} ModTwice(x: nat, p: nat, q: nat)
    requires p >= 1 && q == 2 * p
    ensures x % q == 2 * ((x / 2) % p) + x % 2
  {
    DivModTwice(x, p, q);
  }

  /** Division by `q = 2 * p` through division by 2 first. */
  lemma {:induction false} DivTwice(x: nat, p: nat, q: nat)
    requires p >= 1 && q == 2 * p
    ensures x / 2 / p == x / q
  {
    DivModTwice(x, p, q);
  }

  lemma {:induction false} DivModTwice(x: nat, p: nat, q: nat)
    requires p >= 1 && q == 2 * p
    ensures x / 2 / p == x / q
    ensures x % q == 2 * ((x / 2) % p) + x % 2
  {
    var h, r := x / 2, x % 2;
    var s, t := h / p, h % p;
    assert x == q * s + (2 * t + r) by {
      assert x == 2 * h + r;
      assert h == p * s + t;
    }
    assert 0 <= 2 * t + r < q;
    DivModUnique(x, q, s, 2 * t + r);
  }

  /** Quotient and remainder are the only ones with the remainder in range. */
  lemma {:induction false} DivModUnique(x: nat, d: nat, q: nat, r: nat)
    requires d >= 1 && x == d * q + r && r < d
    ensures x / d == q && x % d == r
  {
    var m := q - x / d;
    assert d * m == x % d - r;
    MulAwayFromZero(d, m);
  }

  lemma {:induction false} MulAwayFromZero(d: int, m: int)
    requires d >= 1
    ensures m >= 1 ==> d * m >= d
    ensures m <= -1 ==> d * m <= -d
  {
  }

  /** Masking with `2^k - 1` keeps the low `k` bits. */
  lemma {:induction false} AndLowMask(x: nat, k: nat)
    ensures And(x, Pow2(k) - 1) == x % Pow2(k)
  {
    var q := Pow2(k);
    if k == 0 {
      assert q == 1 && x % q == 0;
      assert And(x, q - 1) == 0;
    } else if x == 0 {
      assert And(x, q - 1) == 0 && x % q == 0;
    } else {
      var p := Pow2(k - 1);
      assert q == 2 * p;
      AndLowMask(x / 2, k - 1);
      AndLowStep(x, p);
      assert And(x, q - 1) == x % q;
    }
  }

  /** The step of `AndLowMask`: one more mask bit keeps one more low bit. */
  lemma {:induction false} AndLowStep(x: nat, p: nat)
    requires x >= 1 && p >= 1
    requires And(x / 2, p - 1) == (x / 2) % p
    ensures And(x, 2 * p - 1) == x % (2 * p)
  {
    var m := 2 * p - 1;
    assert m / 2 == p - 1 && m % 2 == 1;
    assert And(x, m) == 2 * And(x / 2, p - 1) + x % 2;
    ModTwice(x, p, 2 * p);
  }

  /** Masking with `2^k` is nonzero exactly when bit `k` is set. */
  lemma {:induction false} AndSingleBit(x: nat, k: nat)
    ensures And(x, Pow2(k)) != 0 <==> (x / Pow2(k)) % 2 == 1
  {
    if x == 0 {
    } else if k == 0 {
      assert And(x, 1) == 2 * And(x / 2, 0) + x % 2;
    } else {
      var p := Pow2(k - 1);
      assert Pow2(k) == 2 * p;
      assert Pow2(k) / 2 == p && Pow2(k) % 2 == 0;
      assert And(x, Pow2(k)) == 2 * And(x / 2, p);
      AndSingleBit(x / 2, k - 1);
      DivTwice(x, p, Pow2(k));
    }
  }

  /** Or-ing a value shifted past the top bit of `l` is adding `l`. */
  lemma {:induction false} OrDisjoint(a: nat, l: nat, k: nat)
    requires l < Pow2(k)
    ensures Or(Shl(a, k), l) == Shl(a, k) + l
  {
    if k > 0 && a != 0 && l != 0 {
      var p := Pow2(k - 1);
      assert Shl(a, k) == 2 * Shl(a, k - 1);
      assert Shl(a, k) / 2 == Shl(a, k - 1) && Shl(a, k) % 2 == 0;
      OrDisjoint(a, l / 2, k - 1);
    }
  }

  lemma SmallPowers()
    ensures Pow2(7) == 0x80 && Pow2(8) == 0x100 && Pow2(15) == 0x8000 && Pow2(16) == 0x10000
  {
  }

  // The instances the driver uses.

  /** `x & 0x7F` is `x` modulo 128. */
  lemma {:induction false} AndLow7(x: nat)
    ensures And(x, 0x7F) == x % 0x80
  {
    AndLowMask(x, 7);
    SmallPowers();
  }

  /** `x & 0x80` tests bit 7. */
  lemma {:induction false} AndBit7(x: nat)
    ensures And(x, 0x80) != 0 <==> (x / 0x80) % 2 == 1
  {
    AndSingleBit(x, 7);
    SmallPowers();
  }

  /** `x & (1 << 15)` tests bit 15. */
  lemma {:induction false} AndBit15(x: nat)
    ensures And(x, Shl(1, 15)) != 0 <==> (x / 0x8000) % 2 == 1
  {
    AndSingleBit(x, 15);
    SmallPowers();
  }

  /** `0x80 | l` is `0x80 + l` for a 7-bit `l`. */
  lemma {:induction false} OrHigh7(l: nat)
    requires l < 0x80
    ensures Or(0x80, l) == 0x80 + l
  {
    SmallPowers();
    OrDisjoint(1, l, 7);
  }

  /** The write command byte `0x80 | (address & 0x7F)` of a 7-bit address. */
  lemma {:induction false} WriteCommandByte(address: nat)
    requires address < 0x80
    ensures Or(0x80, And(address, 0x7F)) == 0x80 + address
  {
    SmallPowers();
    AndLowMaskSmall(address, 7);
    OrDisjoint(1, address, 7);
  }

  /** Masking with `2^k - 1` keeps a value below `2^k` whole. */
  lemma {:induction false} AndLowMaskSmall(x: nat, k: nat)
    requires x < Pow2(k)
    ensures And(x, Pow2(k) - 1) == x
  {
    AndLowMask(x, k);
    DivModUnique(x, Pow2(k), 0, x);
  }

  /** `(h << 8) | l` is `h * 256 + l` for a byte `l`. */
  lemma {:induction false} ShlOr8(h: nat, l: nat)
    requires l < 0x100
    ensures Or(Shl(h, 8), l) == h * 0x100 + l
  {
    SmallPowers();
    OrDisjoint(h, l, 8);
  }
}
