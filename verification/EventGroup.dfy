/** The event group object; each method is one guarded region of the source. */
module EventGroups {
  import opened Lists
  import opened Ticks
  import opened BitOps
  import Spec = EventGroupSpec

  class EventGroup {
    var bits: nat
    var waiters: seq<nat>

    ghost function View(): Spec.Group
      reads this
    {
      Spec.Group(bits, waiters)
    }

    constructor ()
      ensures View() == Spec.Group(0, [])
    {
      bits, waiters := 0, [];
    }

    /** The body of both `wait` loops: the untimed one has no deadline. */
    method WaitTurn(me: nat, c: Spec.Condition, ddl: Option<nat>, now: nat) returns (answer: Spec.Answer)
      modifies this
      ensures (View(), answer) == Spec.Turn(old(View()), me, c, ddl, now)
    {
      var hit := Spec.SatisfiedOr(bits, c);
      if hit.Some? {
        if ddl.Some? {
          waiters := Drop(waiters, Is(me));
        }
        return Spec.Hit(hit.value);
      }
      if ddl.Some? {
        var left := Diff(Wrap(ddl.value), Wrap(now));
        if left <= 0 {
          waiters := Drop(waiters, Is(me));
          return Spec.TimedOut;
        }
      }
      waiters := waiters + [me];
      answer := Spec.Parks;
    }

    /** Broadcast: every waiter is taken out, head first, and made ready. */
    method Set(more: nat) returns (woken: seq<nat>)
      modifies this
      ensures View() == Spec.Set(old(View()), more) && woken == old(waiters)
    {
      bits := Or(bits, more);
      woken := [];
      while waiters != []
        invariant woken + waiters == old(waiters) && bits == Or(old(bits), more)
        decreases |waiters|
      {
        woken := woken + [waiters[0]];
        waiters := waiters[1..];
      }
    }

    method Clear(gone: nat)
      requires gone < Pow2(Spec.WIDTH)
      modifies this
      ensures View() == Spec.Clear(old(View()), gone)
    {
      bits := And(bits, Not(Spec.WIDTH, gone));
    }
  }
}
