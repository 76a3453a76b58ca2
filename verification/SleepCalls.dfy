/** `sleep_for` and the waking drain, on the scheduler and time kernel objects. */
module SleepCalls {
  import opened Lists
  import opened SchedulerSpec
  import opened Schedulers
  import opened Ticks
  import opened TimeKernels
  import T = TimeKernelSpec
  import Sleep

  /** Arm and block inside one guard. */
  method SleepFor(sched: Scheduler, time: TimeKernel, t: Task, span: Ticks.Tick)
    requires sched.Valid() && t != Idle
    modifies sched, time
    ensures sched.Valid() && sched.View() == Block(old(sched.View()), t)
    ensures time.View() == T.Enqueue(old(time.View()), t.id, span)
  {
    time.CallAfterSpan(t.id, span);
    sched.Block(t);
  }

  lemma {:induction false} WakeOneMore(s: Sched, fired: seq<nat>, w: nat)
    requires |s.fifo| == LEVELS
    ensures Sleep.WakeAll(s, fired + [w]) == MakeReady(Sleep.WakeAll(s, fired), User(w))
    decreases fired
  {
    if fired == [] {
      assert fired + [w] == [w];
      assert [w][1..] == [];
    } else {
      assert (fired + [w])[1..] == fired[1..] + [w];
      WakeOneMore(MakeReady(s, User(fired[0])), fired[1..], w);
    }
  }

  /** `on_elapsed` whose callbacks wake sleepers: each popped alarm makes its owner
  ready before the next one is looked at. */
  method ElapsedWaking(sched: Scheduler, time: TimeKernel, n: Ticks.Tick) returns (fired: seq<nat>)
    requires sched.Valid()
    modifies sched, sched.present.words, time
    ensures sched.Valid()
    ensures (time.View(), fired) == T.OnElapsed(old(time.View()), n, [])
    ensures sched.View() == Sleep.WakeAll(old(sched.View()), fired)
  {
    fired := [];
    if n == 0 {
      return;
    }
    time.clock := Plus(time.clock, n);
    time.port := T.Elapse(time.port, n);
    fired := WakeLoop(sched, time);
    time.RefreshAlarm();
  }

  method WakeLoop(sched: Scheduler, time: TimeKernel) returns (fired: seq<nat>)
    requires sched.Valid()
    modifies sched, sched.present.words, time`queue
    ensures sched.Valid()
    ensures time.View() == T.Drain(old(time.View()), []).0
    ensures fired == T.Drain(old(time.View()), []).1
    ensures sched.View() == Sleep.WakeAll(old(sched.View()), fired)
  {
    hide T.Drain, MakeReady, Sleep.WakeAll;
    ghost var start, whole, asleep := time.View(), time.View(), sched.View();
    fired := [];
    NoneWoken(asleep);
    var due := time.PopDue();
    while due.Some?
      invariant sched.Valid()
      invariant due.Some? <==> T.HeadDue(whole)
      invariant due.Some? ==> due.value == whole.queue[0] && time.View() == whole.(queue := whole.queue[1..])
      invariant due.None? ==> time.View() == whole
      invariant T.Drain(start, []).0 == T.Drain(whole, []).0
      invariant T.Drain(start, []).1 == fired + T.Drain(whole, []).1
      invariant |asleep.fifo| == LEVELS && sched.View() == Sleep.WakeAll(asleep, fired)
      decreases T.DueCount(whole.queue, whole.clock), due.Some?
    {
      T.FireShrinks(whole, []);
      DrainTurn(whole, []);
      WakeOneMore(asleep, fired, due.value.id);
      ghost var before := fired;
      sched.MakeReady(User(due.value.id));
      fired := fired + [due.value.id];
      whole := time.View();
      assert before + ([due.value.id] + T.Drain(whole, []).1) == fired + T.Drain(whole, []).1;
      due := time.PopDue();
    }
    DrainTurn(whole, []);
  }

  lemma {:induction false} NoneWoken(s: Sched)
    requires |s.fifo| == LEVELS
    ensures Sleep.WakeAll(s, []) == s
  {
  }
}
