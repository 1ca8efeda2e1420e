/**
 * Machine integer types of the emulator (BYTE8, WORD16) as bounded integers,
 * with the bitwise AND the variable RAM mask needs.  Fixed masks and shifts
 * elsewhere are written out as the arithmetic they amount to.
 */
module Bits {
  type byte = x: int | 0 <= x < 0x100
  type word = x: int | 0 <= x < 0x1_0000
  /** A register-select index: the 1802's P and X are four bits wide. */
  type nibble = x: int | 0 <= x < 0x10

  /** WORD16 increment, wrapping at 2^16 (R[P]++ in the C source). */
  function Inc16(w: word): (r: word)
    ensures r == (w + 1) % 0x1_0000
  {
    if w == 0xFFFF then 0 else w + 1
  }

  /** 1, 2, 4, 8, ...: the sizes a RAM mask + 1 can take. */
  ghost predicate IsPow2(n: nat)
  {
    n == 1 || (n > 1 && n % 2 == 0 && IsPow2(n / 2))
  }

  /** Bitwise AND of two naturals, bit by bit from the least significant end. */
  function And(a: nat, b: nat): (r: nat)
    ensures r <= a && r <= b
  {
    if a == 0 || b == 0 then 0
    else 2 * And(a / 2, b / 2) + (if a % 2 == 1 && b % 2 == 1 then 1 else 0)
  }

  /** Masking twice with the same mask is masking once. */
  lemma {:induction false} AndIdempotent(a: nat, m: nat)
    ensures And(And(a, m), m) == And(a, m)
  {
    if a != 0 && m != 0 {
      AndIdempotent(a / 2, m / 2);
      var x := And(a / 2, m / 2);
      var bit := if a % 2 == 1 && m % 2 == 1 then 1 else 0;
      assert And(a, m) == 2 * x + bit;
      assert (2 * x + bit) / 2 == x && (2 * x + bit) % 2 == bit;
    }
  }

  /** AND with p - 1, for p a power of two, keeps every number below p unchanged. */
  lemma {:induction false} AndBelowPow2(a: nat, p: nat)
    requires IsPow2(p) && a < p
    ensures And(a, p - 1) == a
  {
    if a != 0 {
      var h := p / 2;
      assert p - 1 == 2 * (h - 1) + 1;
      AndBelowPow2(a / 2, h);
      assert And(a, p - 1) == 2 * And(a / 2, h - 1) + a % 2;
    }
  }

  lemma ModUnique(a: int, d: int, q: int, s: int)
    requires d > 0 && 0 <= s < d && a == d * q + s
    ensures a % d == s
  {
    var q' := a / d;
    var s' := a % d;
    assert d * (q - q') == s' - s by {
      assert d * q + s == d * q' + s';
    }
    if q > q' {
      MulAtLeast(d, q - q');
    } else if q < q' {
      MulAtLeast(d, q' - q);
    }
  }

  /** Adding a multiple of the modulus does not change the remainder. */
  lemma ModShift(a: int, d: int, k: int)
    requires d > 0
    ensures (a + d * k) % d == a % d
  {
    assert a + d * k == d * (a / d + k) + a % d;
    ModUnique(a + d * k, d, a / d + k, a % d);
  }

  lemma {:induction false} MulAtLeast(d: int, k: int)
    requires d > 0 && k >= 1
    ensures d * k >= d
  {
    if k > 1 {
      MulAtLeast(d, k - 1);
      assert d * k == d * (k - 1) + d;
    }
  }
}
