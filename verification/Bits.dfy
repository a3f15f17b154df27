/** Bitwise operations on unsigned numbers, bit by bit from the lowest. */
module Bits {
  type Bit = b: nat | b < 2

  function Or(a: nat, b: nat): nat {
    if a == 0 || b == 0 then a + b
    else 2 * Or(a / 2, b / 2) + if a % 2 == 1 || b % 2 == 1 then 1 else 0
  }

  function And(a: nat, b: nat): nat {
    if a == 0 || b == 0 then 0
    else 2 * And(a / 2, b / 2) + if a % 2 == 1 && b % 2 == 1 then 1 else 0
  }

  function Shl(a: nat, n: nat): nat {
    if n == 0 then a else 2 * Shl(a, n - 1)
  }

  function Shr(a: nat, n: nat): nat {
    if n == 0 then a else Shr(a / 2, n - 1)
  }

  /** The number with ones in its n lowest bits. */
  function Ones(n: nat): nat {
    if n == 0 then 0 else 2 * Ones(n - 1) + 1
  }

  /** Or and And work on the lowest bits and on the rest separately, for zero operands too. */
  lemma LowestBit(a: nat, x: Bit, b: nat, y: Bit)
    ensures Or(2 * a + x, 2 * b + y) == 2 * Or(a, b) + if x == 1 || y == 1 then 1 else 0
    ensures And(2 * a + x, 2 * b + y) == 2 * And(a, b) + if x == 1 && y == 1 then 1 else 0
  {
    assert (2 * a + x) / 2 == a && (2 * b + y) / 2 == b;
  }

  /** Setting bits that are set already changes nothing. */
  lemma {:induction false} OrAgain(a: nat, b: nat)
    ensures Or(a, Or(a, b)) == Or(a, b) && Or(a, a) == a
  {
    if a != 0 && b != 0 {
      OrAgain(a / 2, b / 2);
    } else if a != 0 {
      OrAgain(a / 2, 0);
    }
  }

  /** Numbers of n bits stay so. */
  lemma {:induction false} OrBound(a: nat, b: nat, n: nat)
    requires a <= Ones(n) && b <= Ones(n)
    ensures Or(a, b) <= Ones(n)
    decreases n
  {
    if n > 0 && a != 0 && b != 0 {
      OrBound(a / 2, b / 2, n - 1);
    }
  }

  /** Or with a number shifted by n leaves the n lowest bits alone and works on the rest. */
  lemma {:induction false} OrShifted(a: nat, k: nat, n: nat)
    ensures Shr(Or(Shl(a, n), k), n) == Or(a, Shr(k, n))
    decreases n
  {
    if n > 0 {
      OrShifted(a, k / 2, n - 1);
      OrEven(Shl(a, n - 1), k);
    }
  }

  lemma {:induction false} OrShiftedLow(a: nat, k: nat, n: nat)
    ensures And(Or(Shl(a, n), k), Ones(n)) == And(k, Ones(n))
    decreases n
  {
    if n > 0 {
      var s := Shl(a, n - 1);
      OrShiftedLow(a, k / 2, n - 1);
      OrEven(s, k);
      AndOnes(k, n);
      AndOnes(Or(2 * s, k), n);
    }
  }

  lemma OrEven(s: nat, k: nat)
    ensures Or(2 * s, k) / 2 == Or(s, k / 2) && Or(2 * s, k) % 2 == k % 2
  {
    LowestBit(s, 0, k / 2, k % 2);
  }

  lemma AndOnes(a: nat, n: nat)
    requires n > 0
    ensures And(a, Ones(n)) == 2 * And(a / 2, Ones(n - 1)) + a % 2
  {
    LowestBit(a / 2, a % 2, Ones(n - 1), 1);
  }

  /** A number is known by its n lowest bits and the rest. */
  lemma {:induction false} Parts(a: nat, b: nat, n: nat)
    requires Shr(a, n) == Shr(b, n) && And(a, Ones(n)) == And(b, Ones(n))
    ensures a == b
    decreases n
  {
    if n > 0 {
      AndOnes(a, n);
      AndOnes(b, n);
      Parts(a / 2, b / 2, n - 1);
    }
  }

  /** A number of n bits is all below bit n. */
  lemma {:induction false} Short(a: nat, n: nat)
    requires a <= Ones(n)
    ensures Shr(a, n) == 0 && And(a, Ones(n)) == a
    decreases n
  {
    if n > 0 {
      Short(a / 2, n - 1);
      AndOnes(a, n);
    }
  }

  /** Of n + m bits, a shift by n leaves m. */
  lemma {:induction false} ShrBound(a: nat, n: nat, m: nat)
    requires a <= Ones(n + m)
    ensures Shr(a, n) <= Ones(m)
    decreases n
  {
    if n > 0 {
      ShrBound(a / 2, n - 1, m);
    }
  }

  /** Or with a number of n bits below a shifted one is addition. */
  lemma {:induction false} OrAdds(a: nat, k: nat, n: nat)
    requires k <= Ones(n)
    ensures Or(Shl(a, n), k) == Shl(a, n) + k
    decreases n
  {
    if n > 0 {
      OrAdds(a, k / 2, n - 1);
      OrEven(Shl(a, n - 1), k);
    }
  }

  /** A number of n bits below a shifted one is packed without loss, and in one way only. */
  lemma Packed(a: nat, k: nat, w: nat, n: nat)
    requires k <= Ones(n)
    ensures Shr(w, n) == a && And(w, Ones(n)) == k <==> w == Or(Shl(a, n), k)
  {
    Short(k, n);
    OrShifted(a, k, n);
    OrShiftedLow(a, k, n);
    if Shr(w, n) == a && And(w, Ones(n)) == k {
      Parts(w, Or(Shl(a, n), k), n);
    }
  }

  /** The same functions a byte at a time. */
  lemma ByByte(a: nat, n: nat)
    ensures Ones(n + 8) == 256 * Ones(n) + 255
    ensures Shl(a, n + 8) == 256 * Shl(a, n)
  {
    OneStep(a, n + 4);
    OneStep(a, n);
  }

  lemma OneStep(a: nat, n: nat)
    ensures Ones(n + 4) == 16 * Ones(n) + 15
    ensures Shl(a, n + 4) == 16 * Shl(a, n)
  {
    assert Ones(n + 4) == 2 * Ones(n + 3) + 1 && Ones(n + 2) == 2 * Ones(n + 1) + 1;
    assert Shl(a, n + 4) == 2 * Shl(a, n + 3) && Shl(a, n + 2) == 2 * Shl(a, n + 1);
  }

  lemma OnesLiterals()
    ensures Ones(8) == 0xFF && Ones(24) == 0xFF_FFFF && Ones(32) == 0xFFFF_FFFF
  {
    ByByte(0, 0);
    ByByte(0, 8);
    ByByte(0, 16);
    ByByte(0, 24);
  }

  lemma ShlLiteral(a: nat)
    ensures Shl(a, 24) == 0x100_0000 * a
  {
    ByByte(a, 0);
    ByByte(a, 8);
    ByByte(a, 16);
  }
}
