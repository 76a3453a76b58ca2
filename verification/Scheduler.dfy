/** The scheduler object: rings plus a presence bitmap, updated in place.

Each method is proved to compute the transition of `SchedulerSpec`; the bitmap
must agree with the rings before and after, and `PopHighest` finds through it
the level that the specification defines by looking at every ring. */
module Schedulers {
  import opened Lists
  import opened SchedulerSpec
  import opened Bitmaps

  class Scheduler {
    var current: Option<Task>
    var tcb: map<Task, TCB>
    var fifo: seq<seq<Task>>
    const present: Bitmap
    var served: nat
    var pending: bool

    ghost function View(): Sched
      reads this
    {
      Sched(current, tcb, fifo, served, pending)
    }

    /** Bit p is set exactly when ring p is non-empty. */
    ghost predicate BitmapAgrees()
      reads this, present.words
    {
      && |fifo| == LEVELS
      && present.bits == LEVELS && present.Valid()
      && (forall p :: 0 <= p < LEVELS ==> (p in present.On() <==> fifo[p] != []))
    }

    ghost predicate Valid()
      reads this, present.words
    {
      && WellTyped(View()) && BitmapAgrees()
      && (forall p, t :: 0 <= p < LEVELS && t in fifo[p] ==> t in tcb)
    }

    constructor ()
      ensures Valid() && View() == Init()
    {
      current := None;
      tcb := map[Idle := TCB(IDLE_PRIO, Ready, None)];
      fifo := seq(LEVELS, _ => []);
      present := new Bitmap(LEVELS);
      served := 0;
      pending := false;
    }

    method Add(t: Task, prio: nat)
      requires Valid() && t !in tcb
      modifies this, present.words
      ensures Valid() && View() == SchedulerSpec.Add(old(View()), t, prio)
    {
      ghost var was := tcb;
      if prio < LEVELS {
        tcb := tcb[t := TCB(prio, Ready, None)];
        PushBack(t);
      }
      if current.Some? && prio < tcb[current.value].prio {
        pending := true;
      }
      assert prio >= LEVELS ==> tcb == was;
    }

    method PickNext() returns (next: Task)
      requires Valid()
      modifies this, present.words
      ensures Valid() && View() == SchedulerSpec.PickNext(old(View())) && current == Some(next)
    {
      hide CleanWords, Members;
      Requeue();
      var popped := PopHighest();
      next := if popped.Some? then popped.value else Idle;
      current := Some(next);
      served := 0;
      tcb := tcb[next := tcb[next].(state := Running)];
      pending := false;
    }

    /** A preempted task goes back to the front of its ring. */
    method Requeue()
      requires Valid()
      modifies this`tcb, this`fifo, present.words
      ensures Valid() && View() == PushRunning(old(View()))
    {
      if current.Some? && current != Some(Idle) && tcb[current.value].state == Running {
        PushFront(current.value);
      }
    }

    method MakeReady(t: Task)
      requires Valid()
      modifies this, present.words
      ensures Valid() && View() == SchedulerSpec.MakeReady(old(View()), t)
    {
      if t !in tcb || tcb[t].state != Blocked {
        return;
      }
      PushBack(t);
      if current.Some? && tcb[t].prio < tcb[current.value].prio {
        pending := true;
      }
    }

    method Block(t: Task)
      requires Valid()
      modifies this
      ensures Valid() && View() == SchedulerSpec.Block(old(View()), t)
    {
      if t !in tcb {
        return;
      }
      tcb := tcb[t := tcb[t].(state := Blocked)];
      if current == Some(t) {
        pending := true;
      }
    }

    method Yield()
      requires Valid()
      modifies this, present.words
      ensures Valid() && View() == SchedulerSpec.Yield(old(View()))
    {
      if current == None || current == Some(Idle) {
        return;
      }
      PushBack(current.value);
      pending := true;
    }

    method Reprioritize(t: Task, prio: nat)
      requires Valid() && t in tcb && t != Idle && prio < LEVELS
      modifies this, present.words
      ensures Valid() && View() == SchedulerSpec.Reprioritize(old(View()), t, prio)
    {
      hide CleanWords, Members;
      var p := tcb[t].prio;
      if p == prio {
        return;
      }
      if tcb[t].state == Ready {
        DropSubset(fifo[p], t);
        fifo := fifo[p := Drop(fifo[p], Is(t))];
        if fifo[p] == [] {
          present.Clear(p);
        }
        tcb := tcb[t := tcb[t].(prio := prio)];
        PushBack(t);
      } else {
        tcb := tcb[t := tcb[t].(prio := prio)];
      }
    }

    method Notify(t: Task, value: nat) returns (accepted: bool)
      requires Valid()
      modifies this, present.words
      ensures Valid() && (View(), accepted) == SchedulerSpec.Notify(old(View()), t, value)
    {
      if t !in tcb || t == Idle {
        return false;
      }
      tcb := tcb[t := tcb[t].(letter := Some(value))];
      if tcb[t].state == Blocked {
        MakeReady(t);
      }
      accepted := true;
    }

    method WaitNotify() returns (letter: Option<nat>)
      requires Valid()
      modifies this
      ensures Valid() && (View(), letter) == TakeLetter(old(View()))
    {
      letter := None;
      if current.Some? && tcb[current.value].letter.Some? {
        letter := tcb[current.value].letter;
        tcb := tcb[current.value := tcb[current.value].(letter := None)];
      }
    }

    method OnTick()
      requires Valid()
      modifies this, present.words
      ensures Valid() && View() == SchedulerSpec.OnTick(old(View()))
    {
      if current == None || current == Some(Idle) {
        return;
      }
      served := served + 1;
      if served < SLICE_TICKS {
        return;
      }
      served := 0;
      if fifo[tcb[current.value].prio] == [] {
        return;
      }
      PushBack(current.value);
      tcb := tcb[current.value := tcb[current.value].(state := Ready)];
      pending := true;
    }

    method PushBack(t: Task)
      requires Valid() && t in tcb
      modifies this`tcb, this`fifo, present.words
      ensures Valid() && View() == SchedulerSpec.PushBack(old(View()), t)
    {
      var p := tcb[t].prio;
      if p >= LEVELS {
        return;
      }
      tcb := tcb[t := tcb[t].(state := Ready)];
      fifo := fifo[p := fifo[p] + [t]];
      present.Set(p);
    }

    method PushFront(t: Task)
      requires Valid() && t in tcb
      modifies this`tcb, this`fifo, present.words
      ensures Valid() && View() == SchedulerSpec.PushFront(old(View()), t)
    {
      var p := tcb[t].prio;
      if p >= LEVELS {
        return;
      }
      tcb := tcb[t := tcb[t].(state := Ready)];
      fifo := fifo[p := [t] + fifo[p]];
      present.Set(p);
    }

    /** The head of the most urgent ring, found by the bitmap. */
    method PopHighest() returns (t: Option<Task>)
      requires Valid()
      modifies this`fifo, present.words
      ensures Valid()
      ensures
        var p := Top(old(fifo), 0);
        if p < LEVELS
        then t == Some(old(fifo)[p][0]) && fifo == old(fifo)[p := old(fifo)[p][1..]]
        else t == None && fifo == old(fifo)
      ensures t.Some? ==> t.value in tcb
    {
      ghost var p := Top(fifo, 0);
      var level := present.FindFirstSet();
      if level.None? {
        return None;
      }
      assert level.value == p;
      t := Some(fifo[level.value][0]);
      assert fifo[p][0] in fifo[p];
      fifo := fifo[level.value := fifo[level.value][1..]];
      if fifo[level.value] == [] {
        present.Clear(level.value);
      }
    }
  }

  lemma {:induction false} DropSubset(s: seq<Task>, t: Task)
    ensures forall u :: u in Drop(s, Is(t)) ==> u in s
  {
  }
}
