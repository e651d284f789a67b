/** Machine words as natural numbers, with the bitwise operators the packed
    lock words and the ring masks use, and what those operators mean
    arithmetically. */
module Bits {

  const TWO32: nat := 0x1_0000_0000
  const TWO64: nat := 0x1_0000_0000_0000_0000

  function And(a: nat, b: nat): (r: nat) {
    if a == 0 || b == 0 then 0
    else 2 * And(a / 2, b / 2) + (if a % 2 == 1 && b % 2 == 1 then 1 else 0)
  }

  function Or(a: nat, b: nat): (r: nat) {
    if a == 0 then b
    else if b == 0 then a
    else 2 * Or(a / 2, b / 2) + (if a % 2 == 1 || b % 2 == 1 then 1 else 0)
  }

  function Pow2(k: nat): (r: nat)
    ensures r >= 1
  {
    if k == 0 then 1 else 2 * Pow2(k - 1)
  }

  /** Unsigned addition and subtraction in a word of the given modulus. */
  function Add(a: nat, b: nat, modulus: nat): (r: nat)
    requires modulus > 0
    ensures r < modulus
    ensures a + b < modulus ==> r == a + b
  {
    (a + b) % modulus
  }

  function Sub(a: nat, b: nat, modulus: nat): (r: nat)
    requires a < modulus && b < modulus
    ensures r < modulus
    ensures Add(r, b, modulus) == a
    ensures b <= a ==> r == a - b
  {
    if b <= a then a - b else a + modulus - b
  }

  /** Masking with 2^k - 1 is the remainder modulo 2^k. */
  lemma {:induction false} AndLowMask(x: nat, k: nat)
    ensures And(x, Pow2(k) - 1) == x % Pow2(k)
  {
    if k == 0 {
    } else if x == 0 {
    } else {
      AndLowMask(x / 2, k - 1);
      var p := Pow2(k - 1);
      assert (2 * p - 1) / 2 == p - 1;
      HalfRemainder(x, p);
    }
  }

  lemma HalfRemainder(x: nat, p: nat)
    requires p > 0
    ensures x % (2 * p) == 2 * ((x / 2) % p) + x % 2
  {
    var q, r := (x / 2) / p, (x / 2) % p;
    assert x / 2 == q * p + r;
    assert x == 2 * (x / 2) + x % 2;
    assert x == q * (2 * p) + (2 * r + x % 2) by {
      assert 2 * (q * p) == q * (2 * p);
    }
    RemainderUnique(x, 2 * p, q, 2 * r + x % 2);
  }

  lemma RemainderUnique(x: nat, d: nat, q: nat, r: nat)
    requires r < d && x == q * d + r
    ensures x % d == r && x / d == q
  {
    var q', r' := x / d, x % d;
    assert x == q' * d + r';
    MulDistributes(q, q', d);
    if q != q' {
      MultipleIsLarge(q - q', d);
    }
  }

  lemma MulDistributes(a: int, b: int, d: int)
    ensures (a - b) * d == a * d - b * d
  {
  }

  lemma MultipleIsLarge(k: int, d: int)
    requires k != 0 && d > 0
    ensures k * d >= d || k * d <= -d
  {
    if k > 0 {
      MulDistributes(k, 1, d);
      assert (k - 1) * d >= 0;
    } else {
      MulDistributes(-1, k, d);
      assert (-1 - k) * d >= 0;
    }
  }

  function Shr(x: nat, k: nat): (r: nat) {
    if k == 0 then x else Shr(x / 2, k - 1)
  }

  function Shl(x: nat, k: nat): (r: nat) {
    if k == 0 then x else 2 * Shl(x, k - 1)
  }

  lemma {:induction false} ShiftMeaning(x: nat, k: nat)
    ensures Shr(x, k) == x / Pow2(k)
    ensures Shl(x, k) == x * Pow2(k)
  {
    if k > 0 {
      ShiftMeaning(x / 2, k - 1);
      ShiftMeaning(x, k - 1);
      HalfQuotient(x, Pow2(k - 1));
    }
  }

  lemma HalfQuotient(x: nat, p: nat)
    requires p > 0
    ensures x / (2 * p) == (x / 2) / p
  {
    var q, r := (x / 2) / p, (x / 2) % p;
    assert x / 2 == q * p + r;
    assert x == q * (2 * p) + (2 * r + x % 2) by {
      assert 2 * (q * p) == q * (2 * p);
    }
    RemainderUnique(x, 2 * p, q, 2 * r + x % 2);
  }

  /** Masking with a shifted mask drops the low bits. */
  lemma {:induction false} AndShiftedMask(x: nat, m: nat, k: nat)
    ensures And(x, Shl(m, k)) == Shl(And(Shr(x, k), m), k)
  {
    if k > 0 {
      AndShiftedMask(x / 2, m, k - 1);
      var y := Shl(m, k - 1);
      assert (2 * y) / 2 == y;
      assert And(x, 2 * y) == 2 * And(x / 2, y);
    }
  }

  /** The lowest bit as a mask, and the word without it. */
  lemma LowBit(x: nat)
    ensures And(x, 1) == x % 2
    ensures Or(x, 1) == x - x % 2 + 1
  {
    if x > 0 {
      assert And(x / 2, 0) == 0;
      assert Or(x / 2, 0) == x / 2;
    }
  }

  lemma Pow2At16()
    ensures Pow2(15) == 0x8000 && Pow2(16) == 0x1_0000
  {
    assert Pow2(8) == 0x100;
  }

  lemma Pow2At31()
    ensures Pow2(31) == 0x8000_0000
  {
    Pow2At16();
    assert Pow2(24) == 0x100_0000;
  }

  lemma AndEvenMask(w: nat, m: nat)
    ensures And(w, 2 * m) == 2 * And(w / 2, m)
  {
    if w > 0 && m > 0 {
      assert (2 * m) / 2 == m;
    }
  }

  /** Masking a 32-bit word with the complement of 1 clears its lowest bit. */
  lemma LowBitCleared(w: nat)
    requires w < TWO32
    ensures And(w, 0xffff_fffe) == w - w % 2
  {
    Pow2At31();
    AndEvenMask(w, Pow2(31) - 1);
    AndLowMask(w / 2, 31);
  }

  /** The flag bits of a 64-bit word that carries a pointer: bit 0 and bit 1,
      tested, set and cleared. */
  lemma SecondBit(w: nat)
    ensures And(w, 2) == 2 * ((w / 2) % 2)
    ensures Or(w, 2) == w - And(w, 2) + 2
  {
    AndEvenMask(w, 1);
    LowBit(w / 2);
    if w > 0 {
      assert Or(w, 2) == 2 * Or(w / 2, 1) + w % 2;
    }
  }

  lemma ThirdBit(w: nat)
    ensures And(w, 4) == 4 * ((w / 4) % 2)
  {
    AndEvenMask(w, 2);
    SecondBit(w / 2);
    assert w / 2 / 2 == w / 4;
  }

  lemma Pow2At64()
    ensures Pow2(61) == 0x2000_0000_0000_0000
    ensures Pow2(62) == 0x4000_0000_0000_0000
    ensures Pow2(63) == 0x8000_0000_0000_0000
    ensures Pow2(64) == TWO64
  {
    Pow2At31();
    assert Pow2(40) == 0x100_0000_0000;
    assert Pow2(48) == 0x1_0000_0000_0000;
    assert Pow2(56) == 0x100_0000_0000_0000;
  }

  /** Masking a word of k + 1 bits with the complement of its lowest bit. */
  lemma LowBitMasked(w: nat, k: nat)
    requires w < 2 * Pow2(k)
    ensures And(w, 2 * (Pow2(k) - 1)) == w - w % 2
  {
    var p := Pow2(k);
    AndEvenMask(w, p - 1);
    AndLowMask(w / 2, k);
    RemainderUnique(w / 2, p, 0, w / 2);
  }

  /** Masking with an odd mask keeps the lowest bit. */
  lemma AndOddMask(w: nat, m: nat)
    ensures And(w, 2 * m + 1) == 2 * And(w / 2, m) + w % 2
  {
    assert (2 * m + 1) / 2 == m;
  }

  /** Masking a 64-bit word with the complement of 1, of 2 and of 7. */
  lemma FlagsCleared(w: nat)
    requires w < TWO64
    ensures And(w, 0xffff_ffff_ffff_fffe) == w - w % 2
    ensures And(w, 0xffff_ffff_ffff_fffd) == w - And(w, 2)
    ensures And(w, 0xffff_ffff_ffff_fff8) == w - w % 8
  {
    Pow2At64();
    LowBitMasked(w, 63);
    LowBitMasked(w / 2, 62);
    AndOddMask(w, 0x7fff_ffff_ffff_fffe);
    SecondBit(w);
    LowBitMasked(w / 2 / 2, 61);
    AndEvenMask(w / 2, 0x3fff_ffff_ffff_fffe);
    AndEvenMask(w, 0x7fff_ffff_ffff_fffc);
    var q := w / 8;
    assert w / 2 / 2 - w / 2 / 2 % 2 == 2 * q;
  }
}
