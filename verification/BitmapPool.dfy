/** The pool object: an L2 bitmap with one bit per block, an L1 bitmap with one bit
per L2 word that says "full", the poison marks and the buffer itself. */
module BitmapPools {
  import opened Lists
  import opened Arith
  import opened Bitmaps
  import opened PoolSpec

  /** Every real position that word w of L2 covers is in use. */
  ghost predicate Full(count: nat, used: set<nat>, w: nat) {
    forall i: nat :: InWord(count, w, i) ==> i in used
  }

  ghost predicate Summarises(count: nat, l1: set<nat>, used: set<nat>) {
    forall w: nat :: w < WordCount(count) ==> (w in l1 <==> Full(count, used, w))
  }

  class BitmapPool {
    const size: nat
    const count: nat
    const poison: bool
    const l1: Bitmap
    const l2: Bitmap
    const everPoisoned: Bitmap
    const buffer: array<nat>
    var usedCount: nat

    ghost predicate Separate() {
      && l1.words != l2.words && l1.words != everPoisoned.words && l2.words != everPoisoned.words
      && buffer != l1.words && buffer != l2.words && buffer != everPoisoned.words
    }

    ghost predicate Shaped()
      reads l1.words, l2.words, everPoisoned.words
    {
      && size > 0 && count > 0 && buffer.Length == size * count && Separate()
      && l1.Valid() && l1.bits == WordCount(count)
      && l2.Valid() && l2.bits == count && everPoisoned.Valid() && everPoisoned.bits == count
    }

    /** L1 bit w is set exactly when L2 word w is full, tail word included. */
    ghost predicate Valid()
      reads this, l1.words, l2.words, everPoisoned.words
    {
      Shaped() && Summarises(count, l1.On(), l2.On()) && usedCount == |l2.On()|
    }

    ghost function View(): Pool
      requires Shaped()
      reads this, l1.words, l2.words, everPoisoned.words, buffer
    {
      Pool(size, count, poison, l2.On(), everPoisoned.On(), buffer[..])
    }

    constructor (size: nat, count: nat, poison: bool)
      requires size > 0 && count > 0
      ensures Valid() && View() == New(size, count, poison)
    {
      this.size, this.count, this.poison := size, count, poison;
      l1 := new Bitmap(WordCount(count));
      l2 := new Bitmap(count);
      everPoisoned := new Bitmap(count);
      buffer := new nat[size * count](_ => 0);
      usedCount := 0;
      new;
      FreshSummary(count);
    }

    /** The two-level search finds what the linear scan would. */
    method AvailableBlockIndex() returns (r: Option<nat>)
      requires Valid()
      ensures r == Scan(l2.On(), count, 0)
    {
      hide Scan;
      var w := l1.FindFirstZero();
      if w.None? {
        NoneFree(count, l1.On(), l2.On());
        return None;
      }
      r := l2.FirstZeroInWord(w.value);
      FoundIsFirst(count, l1.On(), l2.On(), w.value, r);
    }

    method SetAsInUsed(i: nat)
      requires Valid() && i < count && i !in l2.On()
      modifies this`usedCount, l1.words, l2.words
      ensures Valid() && l2.On() == old(l2.On()) + {i}
    {
      ghost var was, summary := l2.On(), l1.On();
      l2.Set(i);
      var full := l2.WordFull(i / 32);
      if full {
        l1.Set(i / 32);
      }
      UsedSummary(count, summary, l1.On(), was, i);
      usedCount := usedCount + 1;
    }

    method ReleaseBlock(i: nat) returns (ok: bool)
      requires Valid()
      modifies this`usedCount, l1.words, l2.words
      ensures Valid() && (ok <==> i in old(l2.On())) && l2.On() == old(l2.On()) - {i}
    {
      if i >= count {
        return false;
      }
      var inUse := l2.Test(i);
      if !inUse {
        return false;
      }
      ghost var was, summary := l2.On(), l1.On();
      l2.Clear(i);
      l1.Clear(i / 32);
      ReleasedSummary(count, summary, was, i);
      usedCount := usedCount - 1;
      ok := true;
    }

    method IndexOfGivenPtr(off: int) returns (r: Option<nat>)
      requires Shaped()
      ensures r == IndexOf(View(), off)
    {
      if off < 0 || off >= size * count {
        return None;
      }
      if off % size != 0 {
        return None;
      }
      r := Some(off / size);
    }

    method PoisonBlock(i: nat)
      requires Valid() && i < count
      modifies everPoisoned.words, buffer
      ensures Valid()
      ensures View() == if poison then old(View()).(bytes := Fill(old(View()).bytes, size, i), freed := old(View()).freed + {i})
                        else old(View())
    {
      if poison {
        BlockFits(View(), i);
        ghost var was := View();
        var j := 0;
        while j < size
          invariant j <= size && Valid() && everPoisoned.On() == was.freed && l2.On() == was.used
          invariant forall n :: 0 <= n < buffer.Length ==>
                      buffer[n] == if i * size <= n < i * size + j then POISON else was.bytes[n]
        {
          buffer[i * size + j] := POISON;
          j := j + 1;
        }
        assert buffer[..] == Fill(was.bytes, size, i);
        everPoisoned.Set(i);
      }
    }

    /** Has some byte of the block lost the fill value? */
    method DetectedPoison(i: nat) returns (b: bool)
      requires Valid() && i < count && poison
      ensures b <==> Tampered(View(), i)
    {
      BlockFits(View(), i);
      var j := 0;
      while j < size
        invariant j <= size && forall n :: i * size <= n < i * size + j ==> buffer[n] == POISON
      {
        if buffer[i * size + j] != POISON {
          assert View().bytes[i * size + j] != POISON;
          return true;
        }
        j := j + 1;
      }
      b := false;
    }

    method RawAllocate() returns (reply: Reply)
      requires Valid()
      modifies this`usedCount, l1.words, l2.words
      ensures Valid() && (View(), reply) == Allocate(old(View()))
    {
      hide Summarises, Tampered, CleanWords, Members;
      var index := AvailableBlockIndex();
      if index.None? {
        return Says(OutOfMemory);
      }
      var i := index.value;
      if poison {
        var before := everPoisoned.Test(i);
        if before {
          var tampered := DetectedPoison(i);
          if tampered {
            return Says(Poisoned);
          }
        }
      }
      SetAsInUsed(i);
      reply := Given(i * size);
    }

    method RawDeallocate(off: int) returns (verdict: MemoryError)
      requires Valid()
      modifies this`usedCount, l1.words, l2.words, everPoisoned.words, buffer
      ensures Valid() && (View(), verdict) == Release(old(View()), off)
    {
      hide Summarises, CleanWords, Members, Fill, IndexOf;
      var index := IndexOfGivenPtr(off);
      if index.None? {
        return NotOwned;
      }
      AddressInvertsIndex(View(), off);
      var released := ReleaseBlock(index.value);
      if !released {
        assert l2.On() == old(l2.On());
        return NotOwned;
      }
      PoisonBlock(index.value);
      verdict := Ok;
    }
  }

  // ---- the summary ----

  lemma {:induction false} FreshSummary(count: nat)
    requires count > 0
    ensures Summarises(count, {}, {})
  {
    forall w: nat | w < WordCount(count)
      ensures !Full(count, {}, w)
    {
      assert InWord(count, w, 32 * w);
    }
  }

  lemma {:induction false} NoneFree(count: nat, l1: set<nat>, used: set<nat>)
    requires Summarises(count, l1, used) && forall w :: 0 <= w < WordCount(count) ==> w in l1
    ensures Scan(used, count, 0) == None
  {
    forall i: nat | i < count
      ensures i in used
    {
      assert Full(count, used, i / 32) && InWord(count, i / 32, i);
    }
  }

  lemma {:induction false} FoundIsFirst(count: nat, l1: set<nat>, used: set<nat>, w: nat, r: Option<nat>)
    requires Summarises(count, l1, used) && w < WordCount(count) && w !in l1 && forall v :: 0 <= v < w ==> v in l1
    requires r.Some? ==> InWord(count, w, r.value) && r.value !in used && forall i: nat :: InWord(count, w, i) && i < r.value ==> i in used
    requires r.None? ==> Full(count, used, w)
    ensures r == Scan(used, count, 0)
  {
    forall i: nat | i < r.value
      ensures i in used
    {
      assert InWord(count, i / 32, i);
      if i / 32 < w { assert Full(count, used, i / 32); }
    }
  }

  lemma {:induction false} UsedSummary(count: nat, l1: set<nat>, l1': set<nat>, used: set<nat>, i: nat)
    requires Summarises(count, l1, used) && i < count
    requires l1' == if Full(count, used + {i}, i / 32) then l1 + {i / 32} else l1
    requires i !in used
    ensures Summarises(count, l1', used + {i})
  {
    forall w: nat | w < WordCount(count)
      ensures w in l1' <==> Full(count, used + {i}, w)
    {
      if w == i / 32 {
        assert InWord(count, w, i) && !Full(count, used, w);
      } else {
        assert Full(count, used + {i}, w) <==> Full(count, used, w) by {
          assert forall j: nat :: InWord(count, w, j) ==> j != i;
        }
      }
    }
  }

  lemma {:induction false} ReleasedSummary(count: nat, l1: set<nat>, used: set<nat>, i: nat)
    requires Summarises(count, l1, used) && i < count && i in used
    ensures Summarises(count, l1 - {i / 32}, used - {i})
  {
    forall w: nat | w < WordCount(count)
      ensures w in l1 - {i / 32} <==> Full(count, used - {i}, w)
    {
      if w == i / 32 {
        assert InWord(count, w, i);
      } else {
        assert Full(count, used - {i}, w) <==> Full(count, used, w) by {
          assert forall j: nat :: InWord(count, w, j) ==> j != i;
        }
      }
    }
  }
}
