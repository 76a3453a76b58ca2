/** The block pool as its clients see it: offsets into one buffer, handed out and
taken back, with a fill pattern that betrays writes to freed blocks.

Allocation is defined by a plain linear scan for the first free block; the
two-level bitmap search of `BitmapPool.dfy` is proved to find the same one. */
module PoolSpec {
  import opened Lists
  import opened Arith

  const POISON: nat := 0x67

  datatype MemoryError = Ok | OutOfMemory | Poisoned | NotOwned

  datatype Pool = Pool(
    size: nat,
    count: nat,
    poison: bool,
    used: set<nat>,
    freed: set<nat>,
    bytes: seq<nat>)

  function New(size: nat, count: nat, poison: bool): Pool {
    Pool(size, count, poison, {}, {}, seq(size * count, _ => 0))
  }

  /** The first block from i on that is not in use. */
  function Scan(used: set<nat>, count: nat, i: nat): (r: Option<nat>)
    ensures r.Some? ==> i <= r.value < count && r.value !in used && forall j :: i <= j < r.value ==> j in used
    ensures r.None? ==> forall j :: i <= j < count ==> j in used
    decreases count - i
  {
    if i >= count then None else if i !in used then Some(i) else Scan(used, count, i + 1)
  }

  function At(p: Pool, i: nat): nat {
    i * p.size
  }

  ghost predicate Tampered(p: Pool, i: nat) {
    exists j :: At(p, i) <= j < At(p, i) + p.size && j < |p.bytes| && p.bytes[j] != POISON
  }

  datatype Reply = Given(off: nat) | Says(e: MemoryError)

  ghost function Allocate(p: Pool): (Pool, Reply) {
    var i := Scan(p.used, p.count, 0);
    if i.None? then (p, Says(OutOfMemory))
    else if p.poison && i.value in p.freed && Tampered(p, i.value) then (p, Says(Poisoned))
    else (p.(used := p.used + {i.value}), Given(At(p, i.value)))
  }

  /** The block a pointer names: only the exact start of one counts. */
  function IndexOf(p: Pool, off: int): Option<nat>
    requires p.size > 0
  {
    if off < 0 || off >= p.size * p.count || off % p.size != 0 then None else Some(off / p.size)
  }

  function Fill(bytes: seq<nat>, size: nat, i: nat): seq<nat> {
    seq(|bytes|, j requires 0 <= j < |bytes| =>
      if i * size <= j < i * size + size then POISON else bytes[j])
  }

  function Release(p: Pool, off: int): (Pool, MemoryError)
    requires p.size > 0
  {
    var i := IndexOf(p, off);
    if i.None? || i.value !in p.used then (p, NotOwned)
    else
      var q := p.(used := p.used - {i.value});
      (if p.poison then q.(bytes := Fill(p.bytes, p.size, i.value), freed := p.freed + {i.value}) else q, Ok)
  }

  ghost predicate WellFormed(p: Pool) {
    && p.size > 0 && |p.bytes| == p.size * p.count
    && (forall i :: i in p.used || i in p.freed ==> i < p.count)
  }

  lemma {:induction false} BlockFits(p: Pool, i: nat)
    requires WellFormed(p) && i < p.count
    ensures At(p, i) + p.size <= |p.bytes|
  {
    MultipleBelow(i, p.count, p.size);
  }

  /** Pointer and index are inverse to each other, both ways. */
  lemma {:induction false} IndexInvertsAddress(p: Pool, i: nat)
    requires WellFormed(p) && i < p.count
    ensures IndexOf(p, At(p, i)) == Some(i)
  {
    BlockFits(p, i);
    DivMod(i, 0, p.size);
  }

  lemma {:induction false} AddressInvertsIndex(p: Pool, off: int)
    requires WellFormed(p)
    ensures IndexOf(p, off).Some? <==> exists i :: 0 <= i < p.count && At(p, i) == off
    ensures IndexOf(p, off).Some? ==> IndexOf(p, off).value < p.count && At(p, IndexOf(p, off).value) == off
  {
    if IndexOf(p, off).Some? {
      Split(off, p.size, p.count);
      assert At(p, off / p.size) == off;
    } else if exists i :: 0 <= i < p.count && At(p, i) == off {
      var i :| 0 <= i < p.count && At(p, i) == off;
      IndexInvertsAddress(p, i);
    }
  }

  lemma {:induction false} AddressesDiffer(p: Pool, i: nat, j: nat)
    requires WellFormed(p) && i < p.count && j < p.count && At(p, i) == At(p, j)
    ensures i == j
  {
    IndexInvertsAddress(p, i);
    IndexInvertsAddress(p, j);
  }

  // ---- histories ----

  /** A poke is any write from outside, by the owner of a block or by a culprit. */
  datatype Event = Take | Give(off: int) | Poke(at: nat, byte: nat)

  datatype Entry = Entry(event: Event, reply: Reply)

  ghost function Step(p: Pool, e: Event): (r: (Pool, Reply))
    requires WellFormed(p)
    ensures WellFormed(r.0) && r.0.size == p.size && r.0.count == p.count && r.0.poison == p.poison
  {
    match e
    case Take => Allocate(p)
    case Give(off) =>
      AddressInvertsIndex(p, off);
      var (q, e) := Release(p, off);
      (q, Says(e))
    case Poke(at, byte) =>
      if at < |p.bytes| then (p.(bytes := p.bytes[at := byte]), Says(Ok)) else (p, Says(Ok))
  }

  /** The offsets clients hold: given out and not successfully given back since. */
  ghost function Live(log: seq<Entry>): set<nat> {
    if log == [] then {}
    else
      var before, last := Live(log[..|log| - 1]), log[|log| - 1];
      if last.event.Take? && last.reply.Given? then before + {last.reply.off}
      else if last.event.Give? && last.event.off >= 0 && last.reply == Says(Ok) then before - {last.event.off}
      else before
  }

  /** The offsets that were ever given back. */
  ghost function Returned(log: seq<Entry>): set<nat> {
    if log == [] then {}
    else
      var before, last := Returned(log[..|log| - 1]), log[|log| - 1];
      if last.event.Give? && last.event.off >= 0 && last.reply == Says(Ok) then before + {last.event.off} else before
  }

  ghost predicate IsRun(run: seq<Pool>, log: seq<Entry>, size: nat, count: nat, poison: bool) {
    && |run| == |log| + 1 && size > 0 && run[0] == New(size, count, poison)
    && (forall i :: 0 <= i < |log| && WellFormed(run[i]) ==> Step(run[i], log[i].event) == (run[i + 1], log[i].reply))
  }

  ghost predicate Tracks(p: Pool, log: seq<Entry>) {
    && (forall i :: 0 <= i < p.count ==> (i in p.used <==> At(p, i) in Live(log)))
    && (forall off :: off in Live(log) ==> IsBlock(p, off))
    && (forall i :: 0 <= i < p.count && p.poison ==> (i in p.freed <==> At(p, i) in Returned(log)))
  }

  ghost predicate IsBlock(p: Pool, off: nat) {
    exists i :: 0 <= i < p.count && At(p, i) == off
  }

  lemma {:induction false} StepTracks(p: Pool, log: seq<Entry>, e: Event)
    requires WellFormed(p) && Tracks(p, log)
    ensures Tracks(Step(p, e).0, log + [Entry(e, Step(p, e).1)])
  {
    var (q, reply) := Step(p, e);
    var log' := log + [Entry(e, reply)];
    assert log'[..|log'| - 1] == log;
    match e {
      case Take => TakeTracks(p, log);
      case Give(off) => GiveTracks(p, log, off);
      case Poke(at, byte) => SameTracks(p, q, log, log');
    }
  }

  lemma {:induction false} SameTracks(p: Pool, q: Pool, log: seq<Entry>, log': seq<Entry>)
    requires Tracks(p, log) && q.used == p.used && q.freed == p.freed
    requires q.size == p.size && q.count == p.count && q.poison == p.poison
    requires Live(log') == Live(log) && Returned(log') == Returned(log)
    ensures Tracks(q, log')
  {
    assert forall i: nat :: At(q, i) == At(p, i);
    assert forall off :: IsBlock(p, off) ==> IsBlock(q, off);
  }

  lemma {:induction false} TakeTracks(p: Pool, log: seq<Entry>)
    requires WellFormed(p) && Tracks(p, log)
    ensures Tracks(Allocate(p).0, log + [Entry(Take, Allocate(p).1)])
  {
    var (q, reply) := Allocate(p);
    var log' := log + [Entry(Take, reply)];
    assert log'[..|log'| - 1] == log;
    if reply.Given? {
      var i := Scan(p.used, p.count, 0).value;
      assert Live(log') == Live(log) + {At(p, i)} && Returned(log') == Returned(log);
      UsedTracks(p, q, log, log', i);
    } else {
      SameTracks(p, q, log, log');
    }
  }

  lemma {:induction false} UsedTracks(p: Pool, q: Pool, log: seq<Entry>, log': seq<Entry>, i: nat)
    requires WellFormed(p) && Tracks(p, log) && i < p.count && q == p.(used := p.used + {i})
    requires Live(log') == Live(log) + {At(p, i)} && Returned(log') == Returned(log)
    ensures Tracks(q, log')
  {
    assert forall j: nat :: At(q, j) == At(p, j);
    assert forall off :: IsBlock(p, off) ==> IsBlock(q, off);
    assert IsBlock(q, At(p, i));
    forall j: nat | j < p.count && At(p, j) == At(p, i)
      ensures j == i
    {
      AddressesDiffer(p, i, j);
    }
  }

  lemma {:induction false} GiveTracks(p: Pool, log: seq<Entry>, off: int)
    requires WellFormed(p) && Tracks(p, log)
    ensures Tracks(Release(p, off).0, log + [Entry(Give(off), Says(Release(p, off).1))])
  {
    var (q, e) := Release(p, off);
    var log' := log + [Entry(Give(off), Says(e))];
    assert log'[..|log'| - 1] == log;
    if e == Ok {
      AddressInvertsIndex(p, off);
      var i := IndexOf(p, off).value;
      assert Live(log') == Live(log) - {off} && Returned(log') == Returned(log) + {off};
      FreedTracks(p, q, log, log', i);
    } else {
      SameTracks(p, q, log, log');
    }
  }

  lemma {:induction false} FreedTracks(p: Pool, q: Pool, log: seq<Entry>, log': seq<Entry>, i: nat)
    requires WellFormed(p) && Tracks(p, log) && i < p.count && q.used == p.used - {i}
    requires q.size == p.size && q.count == p.count && q.poison == p.poison
    requires q.freed == if p.poison then p.freed + {i} else p.freed
    requires Live(log') == Live(log) - {At(p, i)} && Returned(log') == Returned(log) + {At(p, i)}
    ensures Tracks(q, log')
  {
    assert forall j: nat :: At(q, j) == At(p, j);
    assert forall off :: IsBlock(p, off) ==> IsBlock(q, off);
    forall j: nat | j < p.count && At(p, j) == At(p, i)
      ensures j == i
    {
      AddressesDiffer(p, i, j);
    }
  }

  lemma {:induction false} EveryRun(run: seq<Pool>, log: seq<Entry>, size: nat, count: nat, poison: bool, i: nat)
    requires IsRun(run, log, size, count, poison) && i < |run|
    ensures WellFormed(run[i]) && Tracks(run[i], log[..i])
    ensures run[i].size == size && run[i].count == count && run[i].poison == poison
  {
    if i == 0 {
      assert log[..0] == [];
    } else {
      hide Tracks, WellFormed, Step;
      EveryRun(run, log, size, count, poison, i - 1);
      StepTracks(run[i - 1], log[..i - 1], log[i - 1].event);
      assert run[i - 1 + 1] == run[i];
      assert Step(run[i - 1], log[i - 1].event) == (run[i], log[i - 1].reply);
      assert log[..i] == log[..i - 1] + [Entry(log[i - 1].event, log[i - 1].reply)];
    }
  }

  // ---- what clients may rely on, in terms of what they did ----

  /** The lowest block that no client holds. */
  ghost predicate FirstFree(p: Pool, log: seq<Entry>, i: nat) {
    i < p.count && At(p, i) !in Live(log) && forall j: nat :: j < i ==> At(p, j) in Live(log)
  }

  /** The verdict of every allocation of every history: out of memory exactly when
  every block is held; else about the lowest block not held: poisoned exactly when
  it was given back before and some byte of it is not the fill value; else that
  block. So no held block is ever handed out again. */
  lemma {:induction false} AllocationVerdict(run: seq<Pool>, log: seq<Entry>, size: nat, count: nat, poison: bool, n: nat)
    requires IsRun(run, log, size, count, poison) && n < |log| && log[n].event == Take
    ensures
      var p, past, reply := run[n], log[..n], log[n].reply;
      && p.count == count && p.size == size
      && (reply == Says(OutOfMemory) <==> forall i: nat :: i < count ==> At(p, i) in Live(past))
      && (reply == Says(Poisoned) <==>
            exists i :: FirstFree(p, past, i) && poison && At(p, i) in Returned(past) && Tampered(p, i))
      && (forall off :: reply == Given(off) ==> off !in Live(past) && exists i :: FirstFree(p, past, i) && off == At(p, i))
      && (reply.Given? || run[n + 1] == p)
  {
    EveryRun(run, log, size, count, poison, n);
    var p, past := run[n], log[..n];
    assert Allocate(p) == (run[n + 1], log[n].reply);
    var i := Scan(p.used, p.count, 0);
    if i.Some? {
      assert FirstFree(p, past, i.value);
      assert forall j :: FirstFree(p, past, j) ==> j == i.value;
    }
    hide Live, Returned, Tampered;
  }

  /** Every release: Ok exactly for a held block, which is then free; wild, interior
  and foreign pointers and double frees are refused and change nothing. */
  lemma {:induction false} ReleaseVerdict(run: seq<Pool>, log: seq<Entry>, size: nat, count: nat, poison: bool, n: nat)
    requires IsRun(run, log, size, count, poison) && n < |log| && log[n].event.Give?
    ensures
      var p, past, off, reply := run[n], log[..n], log[n].event.off, log[n].reply;
      && (reply == Says(Ok) <==> off >= 0 && off in Live(past))
      && (reply == Says(Ok) || (reply == Says(NotOwned) && run[n + 1] == p))
  {
    EveryRun(run, log, size, count, poison, n);
    var p, past, off := run[n], log[..n], log[n].event.off;
    AddressInvertsIndex(p, off);
    assert Step(p, log[n].event) == (run[n + 1], log[n].reply);
    if off >= 0 && off in Live(past) {
      assert IsBlock(p, off);
    }
    hide Live, Returned;
  }

  /** No false alarm: a block given back and not written since is never accused. */
  lemma {:induction false} UntouchedIsClean(run: seq<Pool>, log: seq<Entry>, size: nat, count: nat, i: nat, a: nat, b: nat)
    requires IsRun(run, log, size, count, true) && a < b < |run| && i < count
    requires log[a] == Entry(Give(i * size), Says(Ok))
    requires forall n :: a < n < b && log[n].event.Poke? ==> !(i * size <= log[n].event.at < i * size + size)
    ensures !Tampered(run[b], i)
    decreases b
  {
    EveryRun(run, log, size, count, true, b - 1);
    var p, q := run[b - 1], run[b - 1 + 1];
    assert Step(p, log[b - 1].event) == (q, log[b - 1].reply);
    if b - 1 > a {
      UntouchedIsClean(run, log, size, count, i, a, b - 1);
    } else {
      AddressInvertsIndex(p, i * size);
      IndexInvertsAddress(p, i);
    }
    StaysClean(p, log[b - 1].event, i, b - 1 == a);
  }

  lemma {:induction false} StaysClean(p: Pool, e: Event, i: nat, filled: bool)
    requires WellFormed(p) && p.poison && i < p.count
    requires filled ==> e == Give(At(p, i)) && Step(p, e).1 == Says(Ok)
    requires !filled ==> !Tampered(p, i)
    requires !filled && e.Poke? ==> !(At(p, i) <= e.at < At(p, i) + p.size)
    ensures !Tampered(Step(p, e).0, i)
  {
    if filled { IndexInvertsAddress(p, i); }
  }

  /** A release that is accepted fills its own block and no other byte; allocation
  and refusals change no byte at all. */
  lemma {:induction false} OnlyFreedBlockIsFilled(p: Pool, e: Event)
    requires WellFormed(p) && !e.Poke?
    ensures
      var (q, reply) := Step(p, e);
      && |q.bytes| == |p.bytes|
      && forall j :: 0 <= j < |p.bytes| ==>
           q.bytes[j] ==
           if e.Give? && reply == Says(Ok) && p.poison && e.off <= j < e.off + p.size then 0x67 else p.bytes[j]
    ensures Step(p, e).0.freed - p.freed <= if e.Give? && e.off >= 0 then {e.off / p.size} else {}
  {
    if e.Give? { AddressInvertsIndex(p, e.off); }
  }

  /** Whatever was just handed out can be given back, and the pool is as before. */
  lemma {:induction false} TakeGiveRoundTrip(p: Pool)
    requires WellFormed(p) && Allocate(p).1.Given?
    ensures
      var (q, reply) := Allocate(p);
      var (r, e) := Release(q, reply.off);
      e == Ok && r.used == p.used
  {
    IndexInvertsAddress(p, Scan(p.used, p.count, 0).value);
  }
}
