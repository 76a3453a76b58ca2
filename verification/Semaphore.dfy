/** The semaphore object; each method is one guarded region of the source. */
module Semaphores {
  import opened Lists
  import opened Ticks
  import Spec = SemaphoreSpec

  class Semaphore {
    var count: nat
    var waiters: seq<nat>

    ghost function View(): Spec.Semaphore
      reads this
    {
      Spec.Semaphore(count, waiters)
    }

    constructor (initial: nat)
      ensures View() == Spec.Semaphore(initial, [])
    {
      count, waiters := initial, [];
    }

    /** The body of both `acquire` loops: the untimed one has no deadline. */
    method AcquireTurn(me: nat, ddl: Option<nat>, now: nat) returns (verdict: Option<Spec.SyncError>)
      modifies this
      ensures (View(), verdict) == Spec.Turn(old(View()), me, ddl, now)
    {
      if count > 0 {
        count := count - 1;
        waiters := Drop(waiters, Is(me));
        return Some(Spec.Ok);
      }
      if ddl.Some? {
        var left := Diff(Wrap(ddl.value), Wrap(now));
        if left <= 0 {
          waiters := Drop(waiters, Is(me));
          return Some(Spec.TimedOut);
        }
      }
      waiters := waiters + [me];
      verdict := None;
    }

    method Release() returns (woken: Option<nat>)
      modifies this
      ensures (View(), woken) == Spec.Release(old(View()))
    {
      count := (count + 1) % MODULUS;
      woken := None;
      if waiters != [] {
        woken := Some(waiters[0]);
        waiters := waiters[1..];
      }
    }
  }
}
