/**
  Powers of two and masks as the rings use them: `is_power_of_2`, `roundup_power_of_two`, and index
  masking by a count minus one. Bit operations are on naturals; 64-bit truncation is written out.
 */
module Bits {

  function Pow2(k: nat): (r: nat)
    ensures r > 0
  {
    if k == 0 then 1 else 2 * Pow2(k - 1)
  }

  /** Bitwise and. */
  function And(a: nat, b: nat): nat {
    if a == 0 || b == 0 then 0
    else (if a % 2 == 1 && b % 2 == 1 then 1 else 0) + 2 * And(a / 2, b / 2)
  }

  // ----- Masking is reduction modulo the count -----

  lemma DoubleMod(q: nat, p: nat, r: nat)
    requires p > 0 && r < 2
    ensures (2 * q + r) % (2 * p) == 2 * (q % p) + r
  {
    var d, m := q / p, q % p;
    assert q == p * d + m;
    assert 2 * q + r == (2 * p) * d + (2 * m + r) by {
      assert 2 * (p * d) == (2 * p) * d;
    }
    RemainderUnique(2 * q + r, 2 * p, d, 2 * m + r);
  }

  lemma MulAtLeast(m: nat, e: nat)
    requires e >= 1
    ensures m * e >= m
  {
    assert m * e == m + m * (e - 1);
  }

  lemma RemainderUnique(x: nat, m: nat, d: nat, r: nat)
    requires m > 0 && r < m && x == m * d + r
    ensures x % m == r && x / m == d
  {
    var d', r' := x / m, x % m;
    assert m * (d - d') == r' - r;
    if d > d' {
      MulAtLeast(m, d - d');
    } else if d' > d {
      MulAtLeast(m, d' - d);
    }
  }

  /** `x & (count - 1)` is `x % count` when the count is a power of two. */
  lemma {:induction false} MaskIsMod(x: nat, k: nat)
    ensures And(x, Pow2(k) - 1) == x % Pow2(k)
  {
    if k > 0 {
      MaskIsMod(x / 2, k - 1);
      var p := Pow2(k - 1);
      assert (2 * p - 1) / 2 == p - 1 && (2 * p - 1) % 2 == 1;
      DoubleMod(x / 2, p, x % 2);
      assert x == 2 * (x / 2) + x % 2;
    }
  }

  // ----- is_power_of_2 -----

  predicate IsPowerOf2(n: nat) {
    n != 0 && And(n, n - 1) == 0
  }

  lemma {:induction false} AndSelf(n: nat)
    ensures And(n, n) == n
  {
    if n > 0 {
      AndSelf(n / 2);
    }
  }

  lemma {:induction false} Pow2Passes(k: nat)
    ensures IsPowerOf2(Pow2(k))
  {
    if k > 0 {
      Pow2Passes(k - 1);
      var p := Pow2(k - 1);
      assert (2 * p - 1) / 2 == p - 1;
    }
  }

  lemma {:induction false} PassingIsPow2(n: nat) returns (k: nat)
    requires IsPowerOf2(n)
    ensures n == Pow2(k)
  {
    if n % 2 == 1 {
      AndSelf(n / 2);
      assert (n - 1) / 2 == n / 2;
      k := 0;
    } else {
      assert (n - 1) / 2 == n / 2 - 1 && (n - 1) % 2 == 1;
      k := PassingIsPow2(n / 2);
      k := k + 1;
    }
  }

  /** The bit trick of `is_power_of_2` holds of exactly the powers of two. */
  lemma IsPowerOf2Correct(n: nat)
    ensures IsPowerOf2(n) <==> exists k :: n == Pow2(k)
  {
    if IsPowerOf2(n) {
      var k := PassingIsPow2(n);
    }
    if k :| n == Pow2(k) {
      Pow2Passes(k);
    }
  }

  // ----- roundup_power_of_two -----

  lemma {:induction false} Pow2Monotone(i: nat, j: nat)
    requires i <= j
    ensures Pow2(i) <= Pow2(j)
    ensures i < j ==> 2 * Pow2(i) <= Pow2(j)
  {
    if i < j {
      Pow2Monotone(i, j - 1);
    }
  }

  /** Testing a single bit. */
  lemma {:induction false} AndBit(j: nat, v: nat)
    requires v < Pow2(j + 1)
    ensures And(Pow2(j), v) == 0 <==> v < Pow2(j)
  {
    if j > 0 && v > 0 {
      AndBit(j - 1, v / 2);
    }
  }

  /** The shift loop, for any word size: it stops at the highest set bit. */
  method HighestBit(val: nat, start: nat, ghost top: nat) returns (andv: nat, ghost j: nat)
    requires start == Pow2(top) && 0 < val < 2 * Pow2(top)
    ensures j <= top && andv == Pow2(j) <= val < 2 * Pow2(j)
  {
    andv, j := start, top;
    while And(andv, val) == 0
      invariant j <= top && andv == Pow2(j) && 0 < val < 2 * Pow2(j)
      decreases j
    {
      AndBit(j, val);
      j := j - 1;
      andv := andv / 2;
    }
    AndBit(j, val);
  }

  lemma RoundsUp(val: nat, j: nat)
    requires Pow2(j) < val <= Pow2(j + 1)
    ensures IsPowerOf2(Pow2(j + 1)) && forall p :: IsPowerOf2(p) && val <= p ==> Pow2(j + 1) <= p
  {
    Pow2Passes(j + 1);
    forall p | IsPowerOf2(p) && val <= p ensures Pow2(j + 1) <= p {
      BetweenPowers(j, p);
    }
  }

  /** All ones but the top bit: `~(maxulong & (maxulong >> 1))` is the top bit alone. */
  lemma TopBit(top: nat)
    ensures var ones := Pow2(top + 1) - 1; ones - And(ones, ones / 2) == Pow2(top)
  {
    var ones := Pow2(top + 1) - 1;
    assert ones / 2 == Pow2(top) - 1;
    MaskIsMod(ones, top);
    RemainderUnique(ones, Pow2(top), 1, Pow2(top) - 1);
  }

  /** `val - 1` in arithmetic modulo `word`. */
  function Decremented(val: nat, word: nat): nat
    requires word > 0
  {
    if val == 0 then word - 1 else val - 1
  }

  /** `roundup_power_of_two` in words of `top + 1` bits (the source has top = 63). The result is the
      smallest power of two that is at least `val`, exactly for the values that have one among the
      words; 0 and values above 2^top yield 0. */
  method RoundupPowerOfTwo(val: nat, top: nat) returns (r: nat)
    requires val < Pow2(top + 1)
    ensures 1 <= val <= Pow2(top) ==> IsPowerOf2(r) && val <= r && forall p :: IsPowerOf2(p) && val <= p ==> r <= p
    ensures val == 0 || val > Pow2(top) ==> r == 0
  {
    var word := Pow2(top + 1);
    if And(val, Decremented(val, word)) == 0 {
      if val > 0 {
        LargePower(val, top);
      }
      return val;
    }
    var maxulong := word - 1;
    TopBit(top);
    var andv, j := HighestBit(val, maxulong - And(maxulong, maxulong / 2), top);
    r := ShiftedLeft(andv, word);
    HighestBitShifted(val, top, j);
  }

  /** `x << 1` in arithmetic modulo `word`. */
  function ShiftedLeft(x: nat, word: nat): (r: nat)
    requires word > 0
    ensures r < word
  {
    (2 * x) % word
  }

  lemma HighestBitShifted(val: nat, top: nat, j: nat)
    requires j <= top && Pow2(j) <= val < 2 * Pow2(j) && !IsPowerOf2(val)
    ensures var r := ShiftedLeft(Pow2(j), Pow2(top + 1));
            && (val <= Pow2(top) ==> IsPowerOf2(r) && val <= r && forall p :: IsPowerOf2(p) && val <= p ==> r <= p)
            && (val > Pow2(top) ==> r == 0)
  {
    Pow2Passes(j);
    if j < top {
      Pow2Monotone(j + 1, top);
      RoundsUp(val, j);
      RemainderUnique(Pow2(j + 1), Pow2(top + 1), 0, Pow2(j + 1));
    } else {
      RemainderUnique(Pow2(top + 1), Pow2(top + 1), 1, 0);
    }
  }

  lemma BetweenPowers(j: nat, p: nat)
    requires IsPowerOf2(p) && Pow2(j) < p
    ensures Pow2(j + 1) <= p
  {
    var k := PassingIsPow2(p);
    if k <= j {
      Pow2Monotone(k, j);
    } else {
      Pow2Monotone(j + 1, k);
    }
  }

  lemma LargePower(val: nat, top: nat)
    requires IsPowerOf2(val) && val < Pow2(top + 1)
    ensures val <= Pow2(top)
  {
    if val > Pow2(top) {
      BetweenPowers(top, val);
    }
  }

  // ----- Wrapping counters -----

  /** A counter reduced modulo a multiple of the ring size still finds the same slot. */
  lemma ModOfMod(x: nat, m: nat, c: nat)
    requires m > 0 && c > 0
    ensures m * c > 0 && (x % (m * c)) % m == x % m
  {
    var w := m * c;
    MulAtLeast(m, c);
    var d, r := x / w, x % w;
    assert x == w * d + r;
    MultipleMod(r, m, c, d);
  }

  /** Adding multiples of the modulus does not change the remainder. */
  lemma MultipleMod(r: nat, m: nat, c: nat, d: nat)
    requires m > 0
    ensures m * c * d + r >= 0 && (m * c * d + r) % m == r % m
  {
    var e, t := r / m, r % m;
    assert r == m * e + t;
    var q := c * d + e;
    assert m * q == m * (c * d) + m * e;
    assert m * (c * d) == m * c * d;
    RemainderUnique(m * c * d + r, m, q, t);
  }

  lemma {:induction false} Pow2Splits(i: nat, j: nat)
    ensures Pow2(i + j) == Pow2(i) * Pow2(j)
  {
    if i > 0 {
      Pow2Splits(i - 1, j);
    }
  }

  /** Masking a counter that wraps at 2^w by a power-of-two ring size finds the unwrapped slot. */
  lemma MaskOfWrapped(x: nat, k: nat, w: nat)
    requires k <= w
    ensures And(x % Pow2(w), Pow2(k) - 1) == x % Pow2(k)
  {
    Pow2Splits(k, w - k);
    ModOfMod(x, Pow2(k), Pow2(w - k));
    MaskIsMod(x % Pow2(w), k);
  }

  // ----- Slots -----

  /** The slot of ring position `i`, and the block that belongs there: i mod 2^k. */
  function Slot(i: nat, k: nat): (j: nat)
    ensures j < Pow2(k)
  {
    if i < Pow2(k) then i else Slot(i - Pow2(k), k)
  }

  lemma NextMultiple(x: nat, n: nat)
    requires n > 0
    ensures (x + n) % n == x % n
  {
    var d, r := x / n, x % n;
    assert x == n * d + r;
    assert n * (d + 1) == n * d + n;
    RemainderUnique(x + n, n, d + 1, r);
  }

  lemma {:induction false} SlotIsMod(i: nat, k: nat)
    ensures Slot(i, k) == i % Pow2(k)
  {
    var n := Pow2(k);
    if i < n {
      RemainderUnique(i, n, 0, i);
    } else {
      SlotIsMod(i - n, k);
      NextMultiple(i - n, n);
    }
  }

  lemma SlotPeriod(i: nat, k: nat)
    ensures Slot(i + Pow2(k), k) == Slot(i, k)
  {
  }

  lemma {:induction false} SlotsDiffer(i: nat, j: nat, k: nat)
    requires i < j < i + Pow2(k)
    ensures Slot(i, k) != Slot(j, k)
  {
    if i >= Pow2(k) {
      SlotsDiffer(i - Pow2(k), j - Pow2(k), k);
    } else if j >= Pow2(k) {
      assert Slot(j, k) == j - Pow2(k) < i;
    }
  }

  /** A stretch of positions that does not reach the end of the ring is contiguous. */
  lemma {:induction false} SlotAdds(i: nat, d: nat, k: nat)
    requires Slot(i, k) + d < Pow2(k)
    ensures Slot(i + d, k) == Slot(i, k) + d
  {
    if i >= Pow2(k) {
      SlotAdds(i - Pow2(k), d, k);
    }
  }

  lemma MaskIsSlot(x: nat, k: nat)
    ensures And(x, Pow2(k) - 1) == Slot(x, k)
  {
    MaskIsMod(x, k);
    SlotIsMod(x, k);
  }
}
