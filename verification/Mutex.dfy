/** The mutex object, working on a scheduler object. Its methods are the guarded
regions of `lock` and `unlock`; `MutexSpec` says what each computes. */
module Mutexes {
  import opened Lists
  import opened SchedulerSpec
  import opened Schedulers
  import Spec = MutexSpec

  class Mutex {
    var owner: Option<Task>
    var saved: nat
    var boosted: bool
    var waiters: seq<Spec.Waiter>

    ghost function View(): Spec.Mutex
      reads this
    {
      Spec.Mutex(owner, saved, boosted, waiters)
    }

    constructor ()
      ensures View() == Spec.Fresh()
    {
      owner, saved, boosted, waiters := None, 0, false, [];
    }

    /** The question asked once at the door of `lock`. */
    method Door(sched: Scheduler) returns (answer: Option<Spec.MutexError>)
      requires sched.Valid() && sched.current.Some?
      ensures answer == if owner == sched.current then Some(Spec.SelfLocked) else None
    {
      answer := if owner == sched.current then Some(Spec.SelfLocked) else None;
    }

    method LockTurn(sched: Scheduler, me: Spec.Waiter) returns (verdict: Option<Spec.MutexError>)
      requires sched.Valid() && Consistent(sched.View())
      requires sched.current == Some(me.task) && me.task != Idle
      requires owner.Some? ==> owner.value in sched.tcb && owner != Some(Idle)
      modifies this, sched, sched.present.words
      ensures sched.Valid()
      ensures (sched.View(), View(), verdict) == Spec.LockTurn(old(sched.View()), old(View()), me)
    {
      hide RingsExactBut, Insert, Drop;
      if owner == Some(me.task) {
        waiters := Drop(waiters, Spec.Of(me.task));
        return Some(Spec.Ok);
      }
      if owner.None? {
        owner := Some(me.task);
        waiters := Drop(waiters, Spec.Of(me.task));
        return Some(Spec.Ok);
      }
      waiters := Insert(Spec.ByPrio(), waiters, me);
      if sched.tcb[owner.value].prio > sched.tcb[me.task].prio {
        if !boosted {
          saved := sched.tcb[owner.value].prio;
          boosted := true;
        }
        sched.Reprioritize(owner.value, sched.tcb[me.task].prio);
      }
      sched.Block(me.task);
      verdict := None;
    }

    method Unlock(sched: Scheduler) returns (verdict: Spec.MutexError)
      requires sched.Valid() && Consistent(sched.View()) && sched.current.Some?
      requires owner == sched.current ==> sched.current != Some(Idle)
      requires owner == sched.current && boosted ==> saved < LEVELS
      requires forall w :: w in waiters ==> w.task in sched.tcb && w.task != Idle && w.prio < LEVELS
      modifies this, sched, sched.present.words
      ensures sched.Valid()
      ensures (sched.View(), View(), verdict) == Spec.Unlock(old(sched.View()), old(View()))
    {
      hide RingsExactBut, Urgent, SchedulerSpec.Reprioritize, SchedulerSpec.MakeReady;
      if owner != sched.current {
        return Spec.NotYourLock;
      }
      ghost var was := sched.View();
      if boosted {
        ReprioritizeConsistent(was, sched.current.value, saved);
        ReprioritizeTcb(was, sched.current.value, saved);
        sched.Reprioritize(sched.current.value, saved);
        boosted := false;
      }
      if waiters == [] {
        owner := None;
        return Spec.Ok;
      }
      var head := waiters[0];
      waiters := waiters[1..];
      owner := Some(head.task);
      if waiters != [] && waiters[0].prio < sched.tcb[owner.value].prio {
        saved := sched.tcb[owner.value].prio;
        boosted := true;
        sched.Reprioritize(owner.value, waiters[0].prio);
      }
      sched.MakeReady(head.task);
      verdict := Spec.Ok;
    }
  }
}
