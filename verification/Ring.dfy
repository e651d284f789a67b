/** What the two ring buffers share: a capacity that is a power of two, and slots
    found by masking a position. */
module Ring {
  import opened Bits

  /** What a word of len bits can lack to all ones, counted one up, if its n highest
      bits are ones. */
  function Gap(len: nat, n: nat): (r: nat)
    ensures r >= 1
  {
    if n < len then Pow2(len - n) else 1
  }

  /** The n highest of the word's len bits are ones; all of them, if it has fewer. */
  ghost predicate Smeared(v: nat, len: nat, n: nat) {
    v < Pow2(len) <= v + Gap(len, n)
  }

  lemma {:induction false} Pow2Adds(a: nat, b: nat)
    ensures Pow2(a + b) == Pow2(a) * Pow2(b)
  {
    if a > 0 {
      Pow2Adds(a - 1, b);
      assert 2 * (Pow2(a - 1) * Pow2(b)) == (2 * Pow2(a - 1)) * Pow2(b);
    }
  }

  lemma {:induction false} Pow2Grows(a: nat, b: nat)
    requires a <= b
    ensures Pow2(a) <= Pow2(b)
  {
    if a < b {
      Pow2Grows(a, b - 1);
    }
  }

  /** Disjunction stays below a power of two, keeps what is above one, and is at
      least either operand. */
  lemma {:induction false} OrBounds(a: nat, b: nat, m: nat)
    requires a < Pow2(m) && b < Pow2(m)
    ensures Or(a, b) < Pow2(m) && Or(a, b) >= b && Or(a, b) >= a
  {
    if a != 0 && b != 0 {
      OrBounds(a / 2, b / 2, m - 1);
    }
  }

  lemma {:induction false} OrAbove(hi: nat, lo: nat, x: nat, m: nat)
    requires lo < Pow2(m) && x < Pow2(m)
    ensures Or(hi * Pow2(m) + lo, x) == hi * Pow2(m) + Or(lo, x)
  {
    if m > 0 && x > 0 {
      var h := hi * Pow2(m - 1);
      assert hi * Pow2(m) == 2 * h;
      OrAbove(hi, lo / 2, x / 2, m - 1);
      OrHalves(2 * h + lo, x);
      OrHalves(lo, x);
      assert (2 * h + lo) / 2 == h + lo / 2 && (2 * h + lo) % 2 == lo % 2;
    }
  }

  lemma OrHalves(a: nat, b: nat)
    ensures Or(a, b) == 2 * Or(a / 2, b / 2) + (if a % 2 == 1 || b % 2 == 1 then 1 else 0)
  {
  }

  lemma QuotientMeans(v: nat, d: nat, a: nat)
    requires d > 0
    ensures v / d >= a <==> v >= a * d
  {
    var q := v / d;
    assert v == q * d + v % d;
    if q < a {
      MulDistributes(a, q, d);
      MultipleIsLarge(a - q, d);
    } else {
      MulDistributes(q, a, d);
      assert (q - a) * d >= 0;
    }
  }

  /** A number that lacks at most p to p times d, divided by d, lacks at most g to p. */
  lemma QuotientLacks(v: nat, d: nat, p: nat, g: nat)
    requires d > 0 && v < p * d <= v + p
    requires 1 <= g <= p <= d * g
    ensures v / d < p <= v / d + g
  {
    QuotientMeans(v, d, p);
    MulDistributes(p, g, d);
    assert g * d == d * g;
    QuotientMeans(v, d, p - g);
  }

  /** The gap to the next power of two, in steps of d. */
  lemma GapShrinks(len: nat, n: nat)
    requires 1 <= n < len
    ensures 1 <= Gap(len, 2 * n) <= Pow2(len - n) <= Pow2(n) * Gap(len, 2 * n)
    ensures Pow2(len) == Pow2(len - n) * Pow2(n)
  {
    Pow2Adds(len - n, n);
    if 2 * n < len {
      Pow2Adds(n, len - 2 * n);
      Pow2Grows(len - 2 * n, len - n);
    } else {
      Pow2Grows(len - n, n);
    }
  }

  /** The word shifted down by n fills the gap below the n highest bits. */
  lemma ShiftedFills(v: nat, len: nat, n: nat)
    requires Smeared(v, len, n) && 1 <= n < len
    ensures Shr(v, n) < Pow2(len - n) <= Shr(v, n) + Gap(len, 2 * n)
  {
    ShiftMeaning(v, n);
    GapShrinks(len, n);
    QuotientLacks(v, Pow2(n), Pow2(len - n), Gap(len, 2 * n));
  }

  lemma TopSplits(v: nat, d: nat, p: nat)
    requires d >= 1 && v < p * d <= v + p
    ensures (d - 1) * p <= v < (d - 1) * p + p
    ensures (d - 1) * p + p == p * d
  {
    MulDistributes(d, 1, p);
    assert d * p == p * d;
  }

  /** One step of the rounding doubles the number of ones at the top. */
  lemma SmearDoubles(v: nat, len: nat, n: nat)
    requires Smeared(v, len, n) && n >= 1
    ensures Smeared(Or(v, Shr(v, n)), len, 2 * n)
  {
    hide Pow2, Or, Shr;
    if n >= len {
      ShiftMeaning(v, n);
      QuotientMeans(v, Pow2(n), v + 1);
      assert (v + 1) * Pow2(n) >= v + 1;
      OrBounds(v, Shr(v, n), len);
    } else {
      SmearDoublesBelow(v, len, n);
    }
  }

  lemma SmearDoublesBelow(v: nat, len: nat, n: nat)
    requires Smeared(v, len, n) && 1 <= n < len
    ensures Smeared(Or(v, Shr(v, n)), len, 2 * n)
  {
    hide Pow2, Or, Shr;
    var p, d := Pow2(len - n), Pow2(n);
    GapShrinks(len, n);
    TopSplits(v, d, p);
    var top := (d - 1) * p;
    ShiftedFills(v, len, n);
    OrAbove(d - 1, v - top, Shr(v, n), len - n);
    OrBounds(v - top, Shr(v, n), len - n);
    var w := Or(v, Shr(v, n));
    assert w < top + p && w >= top + Shr(v, n);
    assert Pow2(len) == top + p;
  }

  /** How many bits a word has. */
  ghost function Length(v: nat): (len: nat)
    ensures v < Pow2(len)
    ensures v > 0 ==> len > 0 && Pow2(len - 1) <= v
  {
    if v == 0 then 0 else Length(v / 2) + 1
  }

  lemma {:induction false} LengthBounded(v: nat, k: nat)
    requires v < Pow2(k)
    ensures Length(v) <= k
  {
    if v > 0 {
      LengthBounded(v / 2, k - 1);
    }
  }

  ghost predicate IsLeastPow2(r: nat, v: nat) {
    && (exists k :: r == Pow2(k))
    && v <= r
    && forall k :: v <= Pow2(k) ==> r <= Pow2(k)
  }

  lemma OneMoreIsLeast(v: nat)
    ensures IsLeastPow2(Pow2(Length(v)), v + 1)
  {
    var len := Length(v);
    forall k | v + 1 <= Pow2(k)
      ensures Pow2(len) <= Pow2(k)
    {
      LengthBounded(v, k);
      Pow2Grows(len, k);
    }
  }

  lemma FirstSmear(v: nat)
    requires v < TWO64
    ensures Length(v) <= 64 && Smeared(v, Length(v), 1)
  {
    Pow2At64();
    LengthBounded(v, 64);
  }

  /** All ones: the next number is the power of two. */
  lemma LastSmear(start: nat, v: nat)
    requires start < TWO64 && Length(start) <= 64 && Smeared(v, Length(start), 64)
    ensures v < TWO64
    ensures start < 0x8000_0000_0000_0000 ==> v + 1 < TWO64 && IsLeastPow2(v + 1, start + 1)
    ensures start >= 0x8000_0000_0000_0000 ==> v + 1 == TWO64
  {
    var len := Length(start);
    Pow2At64();
    Pow2Grows(len, 64);
    OneMoreIsLeast(start);
    if start < 0x8000_0000_0000_0000 {
      LengthBounded(start, 63);
      Pow2Grows(len, 63);
    } else if len < 64 {
      Pow2Grows(len, 63);
    }
  }

  /** Rounding up to a power of two in a 64-bit word: exact from 1 to 2^63; for any
      other word the result does not fit, and what is left of it is 0. */
  method RoundUpPow2(value: nat) returns (r: nat)
    requires value < TWO64
    ensures 1 <= value <= 0x8000_0000_0000_0000 ==> IsLeastPow2(r, value)
    ensures !(1 <= value <= 0x8000_0000_0000_0000) ==> r == 0
  {
    var v := Sub(value, 1, TWO64);
    ghost var start := v;
    ghost var len := Length(v);
    FirstSmear(v);
    hide *;
    v := Or(v, Shr(v, 1));
    SmearDoubles(start, len, 1);
    SmearDoubles(v, len, 2);
    v := Or(v, Shr(v, 2));
    SmearDoubles(v, len, 4);
    v := Or(v, Shr(v, 4));
    SmearDoubles(v, len, 8);
    v := Or(v, Shr(v, 8));
    SmearDoubles(v, len, 16);
    v := Or(v, Shr(v, 16));
    SmearDoubles(v, len, 32);
    v := Or(v, Shr(v, 32));
    LastSmear(start, v);
    return Add(v, 1, TWO64);
  }

  // Positions and slots.

  /** The capacity is a power of two, at least two, and a 64-bit word counts it. */
  ghost predicate IsCapacity(c: nat) {
    2 <= c < TWO64 && exists k :: c == Pow2(k)
  }

  lemma LeastIsCapacity(r: nat, v: nat)
    requires IsLeastPow2(r, v) && 2 <= v <= 0x8000_0000_0000_0000
    ensures IsCapacity(r)
  {
    Pow2At64();
  }

  /** The slot of a position: `position & mask`. */
  function SlotOf(position: nat, mask: nat): (i: nat)
    requires IsCapacity(mask + 1)
    ensures i == position % (mask + 1)
  {
    var k: nat :| mask + 1 == Pow2(k);
    AndLowMask(position, k);
    And(position, mask)
  }

  lemma AddRemainder(p: nat, d: nat, c: nat)
    requires d < c
    ensures (p + d) % c == if p % c + d < c then p % c + d else p % c + d - c
  {
    var q, r := p / c, p % c;
    assert p == q * c + r;
    if r + d < c {
      RemainderUnique(p + d, c, q, r + d);
    } else {
      assert (q + 1) * c == q * c + c;
      RemainderUnique(p + d, c, q + 1, r + d - c);
    }
  }

  lemma NextTurn(p: nat, c: nat)
    requires c > 0
    ensures (p + c) % c == p % c
  {
    AddMultiples(p / c, 1, c);
    RemainderUnique(p + c, c, p / c + 1, p % c);
  }

  /** Within one turn of the ring, no two positions share a slot. */
  lemma SlotsDiffer(p: nat, q: nat, c: nat)
    requires p < q < p + c
    ensures p % c != q % c
  {
    AddRemainder(p, q - p, c);
  }

  /** The position within one turn from `base` that has the slot of `h`. */
  ghost function Occupant(base: nat, c: nat, h: nat): (p: nat)
    requires c > 0
    ensures base <= p < base + c && p % c == h % c
  {
    var off := if h % c >= base % c then h % c - base % c else h % c + c - base % c;
    AddRemainder(base, off, c);
    base + off
  }

  /** Two positions with the same slot are the same, or at least a turn apart. */
  lemma SameSlotApart(p: nat, q: nat, c: nat)
    requires c > 0 && p % c == q % c
    ensures p == q || p + c <= q || q + c <= p
  {
    if p < q < p + c {
      SlotsDiffer(p, q, c);
    } else if q < p < q + c {
      SlotsDiffer(q, p, c);
    }
  }

  /** The capacity divides 2^64. */
  lemma CapacityDivides(c: nat) returns (d: nat)
    requires IsCapacity(c)
    ensures d > 0 && d * c == TWO64
  {
    var k: nat :| c == Pow2(k);
    ExponentBelow(k);
    Pow2At64();
    Pow2Adds(64 - k, k);
    d := Pow2(64 - k);
  }

  lemma ExponentBelow(k: nat)
    ensures k < 64 || Pow2(k) >= TWO64
  {
    Pow2At64();
    if k >= 64 {
      Pow2Grows(64, k);
    }
  }

  /** A position kept in a 64-bit word has the slot of the unbounded position. */
  lemma WrapKeepsSlot(i: nat, mask: nat)
    requires IsCapacity(mask + 1)
    ensures SlotOf(i % TWO64, mask) == SlotOf(i, mask)
  {
    var d := CapacityDivides(mask + 1);
    DividedModulus(i, d, mask + 1);
  }

  lemma Reassociate(q: nat, d: nat, c: nat)
    ensures q * (d * c) == (q * d) * c
  {
  }

  lemma AddMultiples(a: nat, b: nat, c: nat)
    ensures (a + b) * c == a * c + b * c
  {
  }

  lemma DividedModulus(i: nat, d: nat, c: nat)
    requires d > 0 && c > 0 && d * c > 0
    ensures (i % (d * c)) % c == i % c
  {
    var m := d * c;
    var q, r := i / m, i % m;
    assert i == q * m + r;
    var q', r' := r / c, r % c;
    assert r == q' * c + r';
    Reassociate(q, d, c);
    AddMultiples(q * d, q', c);
    RemainderUnique(i, c, q * d + q', r');
  }
}
