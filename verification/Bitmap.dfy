/** The bare-word bitmap of the scheduler and the block pool. */
module Bitmaps {
  import opened Lists
  import opened BitOps

  /** The bit that position i has in its word. */
  predicate BitAt(words: seq<nat>, i: nat)
    requires i / 32 < |words|
  {
    Bit(words[i / 32], i % 32)
  }

  function WordCount(bits: nat): nat {
    (bits + 31) / 32
  }

  /** How many real bits word w has: only the tail word can be short. */
  function RealBits(bits: nat, w: nat): nat {
    if w + 1 == WordCount(bits) && bits % 32 != 0 then bits % 32 else 32
  }

  /** Words of the right number and width whose padding bits are zero. */
  ghost predicate CleanWords(bits: nat, words: seq<nat>) {
    bits > 0 && |words| == WordCount(bits) &&
    forall w :: 0 <= w < |words| ==> words[w] < Pow2(RealBits(bits, w))
  }

  ghost function Members(bits: nat, words: seq<nat>): (s: set<nat>)
    requires CleanWords(bits, words)
    ensures forall i :: i in s <==> 0 <= i < bits && BitAt(words, i)
  {
    set i: nat | i < bits && BitAt(words, i)
  }

  /** Clean padding: a word's bits are exactly the real positions it covers. */
  lemma {:induction false} PositionIsReal(bits: nat, words: seq<nat>, w: nat, k: nat)
    requires CleanWords(bits, words) && w < |words| && k < 32
    ensures 32 * w + k < bits <==> k < RealBits(bits, w)
    ensures (32 * w + k) / 32 == w && (32 * w + k) % 32 == k
    ensures Bit(words[w], k) ==> k < RealBits(bits, w)
  {
    if k >= RealBits(bits, w) {
      HighBit(RealBits(bits, w), words[w], k);
    }
  }

  lemma {:induction false} UpdateWord(bits: nat, words: seq<nat>, i: nat, x: nat, on: bool)
    requires CleanWords(bits, words) && i < bits
    requires x < Pow2(RealBits(bits, i / 32))
    requires forall k :: 0 <= k < 32 ==>
               (Bit(x, k) <==> if k == i % 32 then on else Bit(words[i / 32], k))
    ensures CleanWords(bits, words[i / 32 := x])
    ensures Members(bits, words[i / 32 := x]) ==
            if on then Members(bits, words) + {i} else Members(bits, words) - {i}
  {
    var words' := words[i / 32 := x];
    forall j: nat | j < bits
      ensures BitAt(words', j) <==> if j == i then on else BitAt(words, j)
    {
      if j / 32 == i / 32 {
        assert Bit(x, j % 32) <==> if j % 32 == i % 32 then on else Bit(words[i / 32], j % 32);
      }
    }
  }

  ghost predicate AllBits(n: nat, x: nat) {
    forall k :: 0 <= k < n ==> Bit(x, k)
  }

  /** A word is full exactly when it equals the mask of its real bits. */
  lemma {:induction false} FullIsMask(n: nat, x: nat)
    requires x < Pow2(n)
    ensures x == Pow2(n) - 1 <==> AllBits(n, x)
  {
    var mask: nat := Pow2(n) - 1;
    forall k: nat
      ensures Bit(mask, k) <==> k < n
    {
      LowMaskBit(n, k);
    }
    if x == mask {
      assert AllBits(n, mask);
    } else if AllBits(n, x) {
      forall k: nat
        ensures Bit(x, k) <==> Bit(mask, k)
      {
        if k >= n { HighBit(n, x, k); }
      }
      SameBits(x, mask);
    }
  }

  /** The complement under the mask has exactly the free real bits. */
  lemma {:induction false} FreeBits(n: nat, x: nat, k: nat)
    requires 0 < n <= 32 && x < Pow2(n) <= Pow2(32)
    ensures Bit(And(Not(32, x), Pow2(n) - 1), k) <==> k < n && !Bit(x, k)
  {
    AndBit(Not(32, x), Pow2(n) - 1, k);
    LowMaskBit(n, k);
    if k < 32 { NotBit(32, x, k); }
  }

  ghost predicate InWord(bits: nat, w: nat, i: nat) {
    i < bits && i / 32 == w
  }

  lemma {:induction false} WordView(bits: nat, words: seq<nat>, w: nat, i: nat)
    requires CleanWords(bits, words) && w < |words| && i / 32 == w
    ensures i < bits <==> i % 32 < RealBits(bits, w)
    ensures i in Members(bits, words) <==> Bit(words[w], i % 32)
  {
    PositionIsReal(bits, words, w, i % 32);
  }

  class Bitmap {
    const bits: nat
    const words: array<nat>

    ghost predicate Valid()
      reads words
    {
      CleanWords(bits, words[..])
    }

    /** The bitmap as the set of its set bits. */
    ghost function On(): set<nat>
      requires Valid()
      reads words
    {
      Members(bits, words[..])
    }

    constructor (bits: nat)
      requires bits > 0
      ensures Valid() && this.bits == bits && On() == {} && fresh(words)
    {
      this.bits := bits;
      this.words := new nat[WordCount(bits)](_ => 0);
      new;
      forall i: nat | i < bits
        ensures !BitAt(words[..], i)
      {
        ZeroBit(i % 32);
      }
    }

    method Set(i: nat)
      requires Valid() && i < bits
      modifies words
      ensures Valid() && On() == old(On()) + {i}
    {
      ghost var was := words[..];
      ghost var n := RealBits(bits, i / 32);
      var x := Or(words[i / 32], Pow2(i % 32));
      forall k | 0 <= k < 32
        ensures Bit(x, k) <==> if k == i % 32 then true else Bit(was[i / 32], k)
      {
        OrBit(was[i / 32], Pow2(i % 32), k);
        Pow2Bit(i % 32, k);
      }
      PositionIsReal(bits, was, i / 32, i % 32);
      Pow2Grows(i % 32, n);
      OrBelow(n, was[i / 32], Pow2(i % 32));
      UpdateWord(bits, was, i, x, true);
      words[i / 32] := x;
      assert words[..] == was[i / 32 := x];
    }

    method Clear(i: nat)
      requires Valid() && i < bits
      modifies words
      ensures Valid() && On() == old(On()) - {i}
    {
      ghost var was := words[..];
      Pow2Grows(i % 32, 32);
      var x := And(words[i / 32], Not(32, Pow2(i % 32)));
      forall k | 0 <= k < 32
        ensures Bit(x, k) <==> if k == i % 32 then false else Bit(was[i / 32], k)
      {
        AndBit(was[i / 32], Not(32, Pow2(i % 32)), k);
        NotBit(32, Pow2(i % 32), k);
        Pow2Bit(i % 32, k);
      }
      AndBelow(was[i / 32], Not(32, Pow2(i % 32)));
      UpdateWord(bits, was, i, x, false);
      words[i / 32] := x;
      assert words[..] == was[i / 32 := x];
    }

    method Test(i: nat) returns (b: bool)
      requires Valid() && i < bits
      ensures b <==> i in On()
    {
      var x := And(words[i / 32], Pow2(i % 32));
      b := x != 0;
      forall k
        ensures Bit(x, k) <==> Bit(words[i / 32], k) && k == i % 32
      {
        AndBit(words[i / 32], Pow2(i % 32), k);
        Pow2Bit(i % 32, k);
      }
      if b { var k := SomeBit(x); } else { ZeroBit(i % 32); }
    }

    /** Are all real bits of word w set? */
    method WordFull(w: nat) returns (b: bool)
      requires Valid() && w < words.Length
      ensures b <==> forall i: nat :: InWord(bits, w, i) ==> i in On()
    {
      var n := RealBits(bits, w);
      b := words[w] == Pow2(n) - 1;
      FullIsMask(n, words[w]);
      if b {
        forall i: nat | InWord(bits, w, i)
          ensures i in On()
        {
          WordView(bits, words[..], w, i);
        }
      } else {
        var k :| 0 <= k < n && !Bit(words[w], k);
        PositionIsReal(bits, words[..], w, k);
        assert InWord(bits, w, 32 * w + k) && 32 * w + k !in On();
      }
    }

    /** The least clear bit of word w; None exactly when the word is full. */
    method FirstZeroInWord(w: nat) returns (r: Option<nat>)
      requires Valid() && w < words.Length
      ensures r.Some? ==>
                && InWord(bits, w, r.value) && r.value !in On()
                && forall i: nat :: InWord(bits, w, i) && i < r.value ==> i in On()
      ensures r.None? ==> forall i: nat :: InWord(bits, w, i) ==> i in On()
    {
      var n := RealBits(bits, w);
      if n < 32 { Pow2Grows(n, 32); }
      var free := And(Not(32, words[w]), Pow2(n) - 1);
      forall i: nat | i / 32 == w
        ensures InWord(bits, w, i) && i !in On() <==> Bit(free, i % 32)
      {
        WordView(bits, words[..], w, i);
        FreeBits(n, words[w], i % 32);
      }
      if free != 0 {
        var k := Ctz(free);
        FreeBits(n, words[w], k);
        PositionIsReal(bits, words[..], w, k);
        r := Some(32 * w + k);
      } else {
        r := None;
        forall k: nat
          ensures !Bit(free, k)
        {
          ZeroBit(k);
        }
      }
    }

    /** The least clear bit of all; None exactly when every bit is set. */
    method FindFirstZero() returns (r: Option<nat>)
      requires Valid()
      ensures r.Some? ==> r.value < bits && r.value !in On() && forall i :: 0 <= i < r.value ==> i in On()
      ensures r.None? ==> forall i :: 0 <= i < bits ==> i in On()
    {
      var w := 0;
      while w < words.Length
        invariant w <= words.Length
        invariant forall i :: 0 <= i < 32 * w && i < bits ==> i in On()
      {
        r := FirstZeroInWord(w);
        if r.Some? {
          forall i | 0 <= i < r.value
            ensures i in On()
          {
            if i >= 32 * w { assert InWord(bits, w, i); }
          }
          return;
        }
        forall i | 0 <= i < 32 * (w + 1) && i < bits
          ensures i in On()
        {
          if i >= 32 * w { assert InWord(bits, w, i); }
        }
        w := w + 1;
      }
      r := None;
    }

    /** The least set bit; None exactly when no bit is set. */
    method FindFirstSet() returns (r: Option<nat>)
      requires Valid()
      ensures r.Some? ==> r.value in On() && forall i :: i in On() ==> r.value <= i
      ensures r.None? ==> On() == {}
    {
      var w := 0;
      while w < words.Length
        invariant w <= words.Length
        invariant forall i :: i in On() ==> 32 * w <= i
      {
        if words[w] != 0 {
          var k := Ctz(words[w]);
          WordBitIsReal(w, k);
          forall i | i in On()
            ensures 32 * w + k <= i
          {
            if i / 32 == w { assert Bit(words[w], i % 32); }
          }
          return Some(32 * w + k);
        }
        forall i | i in On()
          ensures 32 * (w + 1) <= i
        {
          if i / 32 == w { ZeroBit(i % 32); }
        }
        w := w + 1;
      }
      r := None;
    }

    lemma {:induction false} WordBitIsReal(w: nat, k: nat)
      requires Valid() && w < words.Length && Bit(words[w], k)
      ensures k < 32 && 32 * w + k in On()
    {
      if k >= RealBits(bits, w) { HighBit(RealBits(bits, w), words[w], k); }
      PositionIsReal(bits, words[..], w, k);
    }
  }
}
