/** Bitwise operators on naturals, with the bit-by-bit meaning of each.

The kernel uses 32-bit words; nothing below depends on the width except `Not`,
which takes it as a parameter. */
module BitOps {

  function Pow2(n: nat): (r: nat)
    ensures r > 0
  {
    if n == 0 then 1 else 2 * Pow2(n - 1)
  }

  predicate Bit(x: nat, k: nat) {
    if k == 0 then x % 2 == 1 else Bit(x / 2, k - 1)
  }

  function And(x: nat, y: nat): nat {
    if x == 0 || y == 0 then 0
    else 2 * And(x / 2, y / 2) + (if x % 2 == 1 && y % 2 == 1 then 1 else 0)
  }

  function Or(x: nat, y: nat): nat
    decreases x + y
  {
    if x == 0 then y else if y == 0 then x
    else 2 * Or(x / 2, y / 2) + (if x % 2 == 1 || y % 2 == 1 then 1 else 0)
  }

  /** Complement within n bits. */
  function Not(n: nat, x: nat): nat
    requires x < Pow2(n)
  {
    Pow2(n) - 1 - x
  }

  lemma {:induction false} ZeroBit(k: nat)
    ensures !Bit(0, k)
  {
    if k > 0 { ZeroBit(k - 1); }
  }

  lemma {:induction false} AndBit(x: nat, y: nat, k: nat)
    ensures Bit(And(x, y), k) <==> Bit(x, k) && Bit(y, k)
  {
    if x == 0 || y == 0 {
      ZeroBit(k);
    } else if k > 0 {
      AndBit(x / 2, y / 2, k - 1);
    }
  }

  lemma {:induction false} OrBit(x: nat, y: nat, k: nat)
    ensures Bit(Or(x, y), k) <==> Bit(x, k) || Bit(y, k)
    decreases k
  {
    if x == 0 || y == 0 {
      ZeroBit(k);
    } else if k > 0 {
      OrBit(x / 2, y / 2, k - 1);
    }
  }

  lemma {:induction false} NotBit(n: nat, x: nat, k: nat)
    requires x < Pow2(n) && k < n
    ensures Bit(Not(n, x), k) <==> !Bit(x, k)
  {
    assert Not(n, x) == 2 * Not(n - 1, x / 2) + (1 - x % 2);
    if k > 0 { NotBit(n - 1, x / 2, k - 1); }
  }

  lemma {:induction false} Pow2Bit(i: nat, k: nat)
    ensures Bit(Pow2(i), k) <==> i == k
  {
    if i == 0 {
      if k > 0 { ZeroBit(k - 1); }
    } else if k > 0 {
      Pow2Bit(i - 1, k - 1);
    }
  }

  lemma {:induction false} Pow2Grows(i: nat, n: nat)
    requires i < n
    ensures Pow2(i) < Pow2(n)
  {
    if i > 0 { Pow2Grows(i - 1, n - 1); }
  }

  lemma {:induction false} LowMaskBit(n: nat, k: nat)
    ensures Bit(Pow2(n) - 1, k) <==> k < n
  {
    if n == 0 {
      ZeroBit(k);
    } else if k > 0 {
      assert (Pow2(n) - 1) / 2 == Pow2(n - 1) - 1;
      LowMaskBit(n - 1, k - 1);
    }
  }

  /** A value below 2^n has no bit at or above n. */
  lemma {:induction false} HighBit(n: nat, x: nat, k: nat)
    requires x < Pow2(n) && n <= k
    ensures !Bit(x, k)
  {
    if n == 0 { ZeroBit(k); } else { HighBit(n - 1, x / 2, k - 1); }
  }

  lemma {:induction false} OrBelow(n: nat, x: nat, y: nat)
    requires x < Pow2(n) && y < Pow2(n)
    ensures Or(x, y) < Pow2(n)
    decreases n
  {
    if x != 0 && y != 0 && n > 0 { OrBelow(n - 1, x / 2, y / 2); }
  }

  lemma {:induction false} AndBelow(x: nat, y: nat)
    ensures And(x, y) <= x && And(x, y) <= y
  {
    if x != 0 && y != 0 { AndBelow(x / 2, y / 2); }
  }

  /** A non-zero value has a bit, so zero is what has none. */
  lemma {:induction false} SomeBit(x: nat) returns (k: nat)
    requires x != 0
    ensures Bit(x, k)
  {
    if x % 2 == 1 {
      k := 0;
    } else {
      k := SomeBit(x / 2);
      k := k + 1;
    }
  }

  lemma {:induction false} SameBits(x: nat, y: nat)
    requires forall k: nat :: Bit(x, k) <==> Bit(y, k)
    ensures x == y
    decreases x
  {
    assert Bit(x, 0) <==> Bit(y, 0);
    if x == 0 {
      if y != 0 { var k := SomeBit(y); ZeroBit(k); }
    } else {
      forall k: nat
        ensures Bit(x / 2, k) <==> Bit(y / 2, k)
      {
        assert Bit(x, k + 1) <==> Bit(y, k + 1);
      }
      SameBits(x / 2, y / 2);
    }
  }

  /** Masking with 2^n - 1 wraps an index into [0, 2^n): it leaves smaller values
  alone and takes 2^n away from the rest. */
  lemma {:induction false} MaskBelow(x: nat, n: nat)
    requires x < Pow2(n)
    ensures And(x, Pow2(n) - 1) == x
  {
    if n > 0 && x > 0 {
      assert (Pow2(n) - 1) / 2 == Pow2(n - 1) - 1;
      MaskBelow(x / 2, n - 1);
    }
  }

  lemma {:induction false} MaskWraps(x: nat, n: nat)
    ensures And(x + Pow2(n), Pow2(n) - 1) == And(x, Pow2(n) - 1)
  {
    if n > 0 {
      assert (Pow2(n) - 1) / 2 == Pow2(n - 1) - 1;
      assert (x + Pow2(n)) / 2 == x / 2 + Pow2(n - 1);
      MaskWraps(x / 2, n - 1);
      ZeroAnd(Pow2(n - 1) - 1);
    }
  }

  lemma {:induction false} ZeroAnd(y: nat)
    ensures And(0, y) == 0
  {
  }

  ghost predicate LowestBit(x: nat, n: nat) {
    Bit(x, n) && forall k :: 0 <= k < n ==> !Bit(x, k)
  }

  function TrailingZeros(x: nat): (n: nat)
    requires x != 0
    ensures LowestBit(x, n)
  {
    if x % 2 == 1 then 0
    else
      var n := TrailingZeros(x / 2);
      assert forall k :: 0 < k < n + 1 ==> Bit(x, k) == Bit(x / 2, k - 1);
      n + 1
  }

  /** The portable loop behind `ctz`. */
  method Ctz(x: nat) returns (n: nat)
    requires x != 0
    ensures LowestBit(x, n)
  {
    n := 0;
    var y := x;
    while y % 2 == 0
      invariant y != 0 && n + TrailingZeros(y) == TrailingZeros(x)
      decreases y
    {
      y := y / 2;
      n := n + 1;
    }
  }
}
