/** Bits of natural numbers, and the C bit operators on unsigned values. */
module Bits {
  import opened Words

  /** Bit i of v, bit 0 being the least significant. */
  predicate Bit(v: nat, i: nat)
  {
    if i == 0 then v % 2 == 1 else Bit(v / 2, i - 1)
  }

  function And(a: nat, b: nat): nat
  {
    if a == 0 || b == 0 then 0 else Num(a % 2 == 1 && b % 2 == 1) + 2 * And(a / 2, b / 2)
  }

  function Or(a: nat, b: nat): nat
    decreases a + b
  {
    if a == 0 && b == 0 then 0 else Num(a % 2 == 1 || b % 2 == 1) + 2 * Or(a / 2, b / 2)
  }

  function Xor(a: nat, b: nat): nat
    decreases a + b
  {
    if a == 0 && b == 0 then 0 else Num((a % 2 == 1) != (b % 2 == 1)) + 2 * Xor(a / 2, b / 2)
  }

  function Shl(v: nat, n: nat): nat
    decreases n
  {
    if n == 0 then v else Shl(2 * v, n - 1)
  }

  function Shr(v: nat, n: nat): nat { if n == 0 then v else Shr(v / 2, n - 1) }

  function Pow2(n: nat): (p: nat)
    ensures p > 0
  {
    if n == 0 then 1 else 2 * Pow2(n - 1)
  }

  lemma {:induction false} BitZero(i: nat)
    ensures !Bit(0, i)
  {
    if i > 0 { BitZero(i - 1); }
  }

  lemma {:induction false} BitAnd(a: nat, b: nat, i: nat)
    ensures Bit(And(a, b), i) <==> Bit(a, i) && Bit(b, i)
  {
    if a == 0 || b == 0 {
      BitZero(i);
    } else if i > 0 {
      BitAnd(a / 2, b / 2, i - 1);
    }
  }

  lemma {:induction false} BitOr(a: nat, b: nat, i: nat)
    ensures Bit(Or(a, b), i) <==> Bit(a, i) || Bit(b, i)
  {
    if a == 0 && b == 0 {
      BitZero(i);
    } else if i > 0 {
      BitOr(a / 2, b / 2, i - 1);
    }
  }

  lemma {:induction false} BitXor(a: nat, b: nat, i: nat)
    ensures Bit(Xor(a, b), i) <==> Bit(a, i) != Bit(b, i)
  {
    if a == 0 && b == 0 {
      BitZero(i);
    } else if i > 0 {
      BitXor(a / 2, b / 2, i - 1);
    }
  }

  lemma {:induction false} BitShl(v: nat, n: nat, i: nat)
    ensures Bit(Shl(v, n), i) <==> i >= n && Bit(v, i - n)
    decreases n
  {
    if n > 0 {
      BitShl(2 * v, n - 1, i);
      if i >= n {
        assert Bit(2 * v, i - n + 1) == Bit(v, i - n);
      }
    }
  }

  lemma {:induction false} BitShr(v: nat, n: nat, i: nat)
    ensures Bit(Shr(v, n), i) == Bit(v, i + n)
  {
    if n > 0 {
      BitShr(v / 2, n - 1, i);
    }
  }

  lemma {:induction false} BitMod(v: nat, n: nat, i: nat)
    ensures Bit(v % Pow2(n), i) <==> i < n && Bit(v, i)
  {
    if n == 0 {
      assert v % Pow2(0) == 0;
      BitZero(i);
    } else {
      var p := Pow2(n - 1);
      ModHalf(v, p);
      if i > 0 { BitMod(v / 2, n - 1, i - 1); }
    }
  }

  lemma ModHalf(v: nat, p: nat)
    requires p > 0
    ensures (v % (2 * p)) % 2 == v % 2
    ensures (v % (2 * p)) / 2 == (v / 2) % p
  {
    var q, r := v / (2 * p), v % (2 * p);
    assert v == 2 * (p * q) + r;
    assert v / 2 == p * q + r / 2;
    assert r / 2 < p;
    ModUnique(v / 2, p, q, r / 2);
  }

  lemma ModUnique(v: nat, p: nat, q: nat, r: nat)
    requires v == p * q + r && r < p
    ensures v % p == r
  {
    var q', r' := v / p, v % p;
    assert p * q' + r' == v;
    assert p * (q - q') == p * q - p * q' == -(p * (q' - q));
    if q > q' {
      MulAtLeast(p, q - q');
    } else if q < q' {
      MulAtLeast(p, q' - q);
    }
  }

  lemma MulAtLeast(p: nat, d: nat)
    requires d >= 1
    ensures p * d >= p
  {
    assert p * d == p + p * (d - 1);
  }

  /** A number below 2^n is its n low bits. */
  lemma {:induction false} SameBits(a: nat, b: nat, n: nat)
    requires a < Pow2(n) && b < Pow2(n)
    requires forall i :: 0 <= i < n ==> Bit(a, i) == Bit(b, i)
    ensures a == b
  {
    if n > 0 {
      assert Bit(a, 0) == Bit(b, 0);
      forall i | 0 <= i < n - 1
        ensures Bit(a / 2, i) == Bit(b / 2, i)
      {
        assert Bit(a, i + 1) == Bit(b, i + 1);
      }
      SameBits(a / 2, b / 2, n - 1);
    }
  }

  lemma {:induction false} HighBitsClear(v: nat, n: nat, i: nat)
    requires v < Pow2(n) && n <= i
    ensures !Bit(v, i)
  {
    if n == 0 {
      BitZero(i);
    } else {
      HighBitsClear(v / 2, n - 1, i - 1);
    }
  }

  lemma {:induction false} OrBound(a: nat, b: nat, n: nat)
    requires a < Pow2(n) && b < Pow2(n)
    ensures Or(a, b) < Pow2(n)
  {
    if n > 0 && !(a == 0 && b == 0) { OrBound(a / 2, b / 2, n - 1); }
  }

  lemma {:induction false} OrCommutes(a: nat, b: nat)
    ensures Or(a, b) == Or(b, a)
    decreases a + b
  {
    if !(a == 0 && b == 0) { OrCommutes(a / 2, b / 2); }
  }

  lemma {:induction false} XorBound(a: nat, b: nat, n: nat)
    requires a < Pow2(n) && b < Pow2(n)
    ensures Xor(a, b) < Pow2(n)
  {
    if n > 0 && !(a == 0 && b == 0) { XorBound(a / 2, b / 2, n - 1); }
  }

  lemma {:induction false} AndBound(a: nat, b: nat)
    ensures And(a, b) <= a && And(a, b) <= b
  {
    if a != 0 && b != 0 { AndBound(a / 2, b / 2); }
  }

  lemma {:induction false} ShrBound(v: nat, n: nat)
    ensures Shr(v, n) <= v
  {
    if n > 0 { ShrBound(v / 2, n - 1); }
  }

  lemma Pow2Values()
    ensures Pow2(1) == 2 && Pow2(8) == 0x100 && Pow2(14) == 0x4000 && Pow2(16) == 0x1_0000
  {
    assert Pow2(4) == 16;
    assert Pow2(12) == 0x1000;
  }

  /** The masks of the generated code: 0xff, and the single bits 0 to 3. */
  lemma {:induction false} Masks(i: nat)
    ensures Bit(0xff, i) <==> i < 8
    ensures Bit(1, i) <==> i == 0
    ensures Bit(2, i) <==> i == 1
    ensures Bit(4, i) <==> i == 2
    ensures Bit(8, i) <==> i == 3
  {
    if i >= 1 { BitZero(i - 1); }
    if i >= 2 { BitZero(i - 2); assert Bit(2, i) == Bit(1, i - 1); }
    if i >= 3 { BitZero(i - 3); assert Bit(4, i) == Bit(2, i - 1) == Bit(1, i - 2); }
    if i >= 4 { BitZero(i - 4); assert Bit(8, i) == Bit(4, i - 1) == Bit(2, i - 2) == Bit(1, i - 3); }
    Pow2Values();
    if i >= 8 {
      HighBitsClear(0xff, 8, i);
    } else {
      assert i == 0 || i == 1 || i == 2 || i == 3 || i == 4 || i == 5 || i == 6 || i == 7;
    }
  }
}
