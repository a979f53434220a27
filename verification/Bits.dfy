/** Bitwise operators on natural numbers, one binary digit at a time. */
module Bits {
  function Pow2(k: nat): (p: nat)
    ensures p > 0
  {
    if k == 0 then 1 else 2 * Pow2(k - 1)
  }

  /** `(n >> i) & 1` */
  predicate Bit(n: nat, i: nat) { if i == 0 then n % 2 == 1 else Bit(n / 2, i - 1) }

  function Or(a: nat, b: nat): nat
    decreases a + b
  {
    if a == 0 && b == 0 then 0
    else 2 * Or(a / 2, b / 2) + if a % 2 == 1 || b % 2 == 1 then 1 else 0
  }

  /** `a & ~b` */
  function AndNot(a: nat, b: nat): nat {
    if a == 0 then 0 else 2 * AndNot(a / 2, b / 2) + if a % 2 == 1 && b % 2 == 0 then 1 else 0
  }

  /** The word written back by a read-modify-write of one bit. */
  function WithBit(word: nat, i: nat, value: bool): nat {
    if value then Or(word, Pow2(i)) else AndNot(word, Pow2(i))
  }

  lemma {:induction false} OrBits(a: nat, b: nat, j: nat)
    ensures Bit(Or(a, b), j) <==> Bit(a, j) || Bit(b, j)
    decreases j
  {
    if a == 0 && b == 0 {
      ZeroBits(j);
    } else {
      assert Or(a, b) / 2 == Or(a / 2, b / 2);
      if j > 0 { OrBits(a / 2, b / 2, j - 1); }
    }
  }

  lemma {:induction false} ZeroBits(j: nat)
    ensures !Bit(0, j)
  {
    if j > 0 { ZeroBits(j - 1); }
  }

  lemma {:induction false} AndNotBits(a: nat, b: nat, j: nat)
    ensures Bit(AndNot(a, b), j) <==> Bit(a, j) && !Bit(b, j)
    decreases j
  {
    if a == 0 {
      ZeroBits(j);
    } else {
      assert AndNot(a, b) / 2 == AndNot(a / 2, b / 2);
      if j > 0 { AndNotBits(a / 2, b / 2, j - 1); }
    }
  }

  lemma {:induction false} Pow2Bits(i: nat, j: nat)
    ensures Bit(Pow2(i), j) <==> i == j
  {
    if i == 0 {
      if j > 0 { ZeroBits(j - 1); }
    } else if j > 0 {
      Pow2Bits(i - 1, j - 1);
    }
  }

  lemma {:induction false} OrBound(a: nat, b: nat, k: nat)
    requires a < Pow2(k) && b < Pow2(k)
    ensures Or(a, b) < Pow2(k)
  {
    if k > 0 { OrBound(a / 2, b / 2, k - 1); }
  }

  lemma {:induction false} AndNotBound(a: nat, b: nat)
    ensures AndNot(a, b) <= a
  {
    if a > 0 { AndNotBound(a / 2, b / 2); }
  }

  lemma {:induction false} Pow2Less(i: nat, k: nat)
    requires i < k
    ensures Pow2(i) < Pow2(k)
  {
    if i > 0 { Pow2Less(i - 1, k - 1); }
  }

  /** A bit write sets its bit, leaves the other bits as they were, and stays within a word. */
  lemma WithBitOnly(word: nat, i: nat, value: bool)
    requires word < 0x1_0000 && i < 16
    ensures forall j :: 0 <= j < 16 ==> (Bit(WithBit(word, i, value), j) <==> if j == i then value else Bit(word, j))
    ensures WithBit(word, i, value) < 0x1_0000
  {
    forall j | 0 <= j < 16
      ensures Bit(WithBit(word, i, value), j) <==> if j == i then value else Bit(word, j)
    {
      Pow2Bits(i, j);
      OrBits(word, Pow2(i), j);
      AndNotBits(word, Pow2(i), j);
    }
    Pow2Less(i, 16);
    Pow16();
    OrBound(word, Pow2(i), 16);
    AndNotBound(word, Pow2(i));
  }

  lemma Pow16()
    ensures Pow2(16) == 0x1_0000
  {
    assert Pow2(4) == 16;
    assert Pow2(8) == 256;
    assert Pow2(12) == 4096;
  }

  /** Disjoint halves combine by addition: `lo | (hi << 16)`. */
  lemma {:induction false} OrShifted(lo: nat, hi: nat, k: nat)
    requires lo < Pow2(k)
    ensures Or(lo, hi * Pow2(k)) == lo + hi * Pow2(k)
  {
    if k == 0 {
      OrZero(hi);
    } else {
      var h := hi * Pow2(k - 1);
      assert hi * Pow2(k) == 2 * h;
      OrShifted(lo / 2, hi, k - 1);
      if lo > 0 || h > 0 {
        assert Or(lo, 2 * h) == 2 * Or(lo / 2, h) + lo % 2;
      }
    }
  }

  lemma {:induction false} OrZero(n: nat)
    ensures Or(0, n) == n
  {
    if n > 0 { OrZero(n / 2); }
  }
}
