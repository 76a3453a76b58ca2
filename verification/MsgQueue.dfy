/** The message queue object: the ring is an array, and each method is one guarded
region of `post_for` or `receive_one` after its semaphore was won. */
module MsgQueues {
  import opened Lists
  import opened Ticks
  import opened BitOps
  import S = SemaphoreSpec
  import opened Semaphores
  import opened MsgQueueSpec

  class MsgQueue<M(0)> {
    const units: Semaphore
    const spaces: Semaphore
    const ring: array<M>
    var head: nat
    var count: nat

    ghost predicate Valid(k: nat)
      reads this, ring
    {
      ring.Length == Pow2(k) && head < ring.Length && count <= ring.Length && units != spaces
    }

    ghost function View(): Ring<M>
      reads this, ring
    {
      Ring(ring[..], head, count)
    }

    constructor (k: nat, fill: M)
      ensures Valid(k) && fresh(ring) && fresh(units) && fresh(spaces)
      ensures Contents(View()) == []
      ensures units.View() == S.Semaphore(0, []) && spaces.View() == S.Semaphore(Pow2(k), [])
    {
      ring := new M[Pow2(k)](_ => fill);
      units := new Semaphore(0);
      spaces := new Semaphore(Pow2(k));
      head, count := 0, 0;
    }

    /** The slot is already reserved; the unit is handed out only after the data
    has landed. */
    method Write(m: M, ghost k: nat) returns (woken: Option<nat>)
      requires Valid(k) && count < ring.Length
      modifies this, ring, units
      ensures Valid(k)
      ensures Contents(View()) == old(Contents(View())) + [m]
      ensures (units.View(), woken) == S.Release(old(units.View()))
    {
      PutAppends(View(), k, m);
      ghost var was := View();
      var slot := And(head + count, ring.Length - 1);
      ring[slot] := m;
      count := count + 1;
      assert View() == Put(was, m);
      woken := units.Release();
    }

    /** The message at the head, and a free slot for whoever sleeps on one. */
    method PopRing(ghost k: nat) returns (out: M, woken: Option<nat>)
      requires Valid(k) && count > 0
      modifies this, spaces
      ensures Valid(k) && old(Contents(View())) == [out] + Contents(View())
      ensures (spaces.View(), woken) == S.Release(old(spaces.View()))
    {
      TakeIsFirst(View(), k);
      out := ring[head];
      head := And(head + 1, ring.Length - 1);
      count := count - 1;
      woken := spaces.Release();
    }
  }
}
