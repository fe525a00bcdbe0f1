/** Unsigned machine words as natural numbers, and their bits. */
module Bits {

  type Byte = x: int | 0 <= x < 0x100
  type Dword = x: int | 0 <= x < 0x1_0000_0000
  type Qword = x: int | 0 <= x < 0x1_0000_0000_0000_0000

  function Pow2(n: nat): (p: nat)
    ensures p > 0
  {
    if n == 0 then 1 else 2 * Pow2(n - 1)
  }

  /** Bit `i` of `x`, counted from the least significant. */
  predicate Bit(x: nat, i: nat) {
    if i == 0 then x % 2 == 1 else Bit(x / 2, i - 1)
  }

  function Or(a: nat, b: nat): nat {
    if a == 0 then b
    else if b == 0 then a
    else (if a % 2 == 1 || b % 2 == 1 then 1 else 0) + 2 * Or(a / 2, b / 2)
  }

  function And(a: nat, b: nat): nat {
    if a == 0 || b == 0 then 0
    else (if a % 2 == 1 && b % 2 == 1 then 1 else 0) + 2 * And(a / 2, b / 2)
  }

  /** Every bit set in `a` is set in `b`. */
  ghost predicate Within(a: nat, b: nat) {
    forall i: nat :: Bit(a, i) ==> Bit(b, i)
  }

  lemma {:induction false} ZeroBit(i: nat)
    ensures !Bit(0, i)
  {
    if i > 0 { ZeroBit(i - 1); }
  }

  lemma {:induction false} OrBit(a: nat, b: nat, i: nat)
    ensures Bit(Or(a, b), i) <==> Bit(a, i) || Bit(b, i)
  {
    if a == 0 || b == 0 {
      ZeroBit(i);
    } else if i > 0 {
      OrBit(a / 2, b / 2, i - 1);
    }
  }

  lemma {:induction false} AndBit(a: nat, b: nat, i: nat)
    ensures Bit(And(a, b), i) <==> Bit(a, i) && Bit(b, i)
  {
    if a == 0 || b == 0 {
      ZeroBit(i);
    } else if i > 0 {
      AndBit(a / 2, b / 2, i - 1);
    }
  }

  lemma OrBits(a: nat, b: nat)
    ensures forall i: nat :: Bit(Or(a, b), i) <==> Bit(a, i) || Bit(b, i)
  {
    forall i: nat ensures Bit(Or(a, b), i) <==> Bit(a, i) || Bit(b, i) { OrBit(a, b, i); }
  }

  lemma AndBits(a: nat, b: nat)
    ensures forall i: nat :: Bit(And(a, b), i) <==> Bit(a, i) && Bit(b, i)
  {
    forall i: nat ensures Bit(And(a, b), i) <==> Bit(a, i) && Bit(b, i) { AndBit(a, b, i); }
  }

  lemma {:induction false} OrBound(a: nat, b: nat, k: nat)
    requires a < Pow2(k) && b < Pow2(k)
    ensures Or(a, b) < Pow2(k)
  {
    if a != 0 && b != 0 { OrBound(a / 2, b / 2, k - 1); }
  }

  lemma {:induction false} AndBound(a: nat, b: nat, k: nat)
    requires a < Pow2(k) && b < Pow2(k)
    ensures And(a, b) < Pow2(k)
  {
    if a != 0 && b != 0 { AndBound(a / 2, b / 2, k - 1); }
  }

  lemma QwordBits()
    ensures Pow2(32) == 0x1_0000_0000 && Pow2(64) == 0x1_0000_0000_0000_0000
  {
    assert Pow2(8) == 0x100;
    assert Pow2(16) == 0x1_0000;
    assert Pow2(24) == 0x100_0000;
    assert Pow2(32) == 0x1_0000_0000;
    assert Pow2(40) == 0x100_0000_0000;
    assert Pow2(48) == 0x1_0000_0000_0000;
    assert Pow2(56) == 0x100_0000_0000_0000;
  }

  lemma OrEven(h: nat, low: nat)
    ensures Or(2 * h, low) == low % 2 + 2 * Or(h, low / 2)
  {
    assert (2 * h) / 2 == h && (2 * h) % 2 == 0;
  }

  lemma DoubleMultiple(high: nat, k: nat)
    requires k > 0
    ensures high * Pow2(k) == 2 * (high * Pow2(k - 1))
  {
  }

  /** OR is addition when the two words have no bit position in common. */
  lemma {:induction false} OrIsSum(high: nat, low: nat, k: nat)
    requires low < Pow2(k)
    ensures Or(high * Pow2(k), low) == high * Pow2(k) + low
  {
    if k > 0 {
      OrIsSum(high, low / 2, k - 1);
      DoubleMultiple(high, k);
      OrEven(high * Pow2(k - 1), low);
    }
  }

  lemma {:induction false} BitOfPow2(k: nat, i: nat)
    ensures Bit(Pow2(k), i) <==> i == k
  {
    if k == 0 {
      if i > 0 { ZeroBit(i - 1); }
    } else if i > 0 {
      BitOfPow2(k - 1, i - 1);
    }
  }

  /** The bits below `k` do not see what is added above them. */
  lemma HalfThenQuotient(x: nat, size: nat)
    requires size > 0
    ensures x / 2 / size == x / (2 * size)
  {
    var quotient, rest := x / 2 / size, x / 2 % size;
    assert x / 2 == size * quotient + rest;
    assert 2 * size * quotient == 2 * (size * quotient);
    Peel(x % 2 + 2 * rest, 2 * size, quotient);
  }

  /** A bit is the parity of a quotient. */
  lemma {:induction false} BitIsQuotient(x: nat, k: nat)
    ensures Bit(x, k) <==> x / Pow2(k) % 2 == 1
  {
    if k > 0 {
      BitIsQuotient(x / 2, k - 1);
      HalfThenQuotient(x, Pow2(k - 1));
    }
  }

  lemma {:induction false} LowBit(low: nat, high: nat, k: nat, i: nat)
    requires i < k
    ensures Bit(low + Pow2(k) * high, i) <==> Bit(low, i)
  {
    var half := Pow2(k - 1) * high;
    assert Pow2(k) * high == 2 * half;
    assert (low + 2 * half) / 2 == low / 2 + half;
    if i > 0 { LowBit(low / 2, high, k - 1, i - 1); }
  }

  /** Two words with the same bits are the same word. */
  lemma {:induction false} SameBits(a: nat, b: nat)
    requires forall i: nat :: Bit(a, i) <==> Bit(b, i)
    ensures a == b
    decreases a + b
  {
    if a > 0 || b > 0 {
      forall i: nat ensures Bit(a / 2, i) <==> Bit(b / 2, i) {
        assert Bit(a, i + 1) <==> Bit(b, i + 1);
      }
      assert Bit(a, 0) <==> Bit(b, 0);
      SameBits(a / 2, b / 2);
    }
  }

  lemma MultipleGrows(size: int, count: int)
    requires size > 0
    ensures count >= 1 ==> size * count >= size
    ensures count <= -1 ==> size * count <= -size
  {
  }

  /** The lowest field of a packed word and the word above it. */
  lemma Peel(field: nat, size: nat, rest: nat)
    requires field < size
    ensures (field + size * rest) % size == field
    ensures (field + size * rest) / size == rest
  {
    var x := field + size * rest;
    assert size * (x / size - rest) == field - x % size;
    MultipleGrows(size, x / size - rest);
  }

  lemma SamePeel(field: nat, rest: nat, field': nat, rest': nat, size: nat)
    requires field < size && field' < size
    requires field + size * rest == field' + size * rest'
    ensures field == field' && rest == rest'
  {
    Peel(field, size, rest);
    Peel(field', size, rest');
  }
}
