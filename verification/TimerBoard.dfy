/** The timer objects on their time kernel. `fired` runs inside the drain loop, so
the loop is here too, with timer callbacks in place of bare kernel ones. */
module TimerBoards {
  import opened Lists
  import opened Ticks
  import opened TimeKernelSpec
  import opened TimeKernels
  import opened TimerSpec

  class TimerBoard {
    const kernel: TimeKernel
    var timers: map<nat, Timer>

    ghost function View(): Timers
      reads this, kernel
    {
      Timers(kernel.View(), timers)
    }

    constructor ()
      ensures View() == Timers(Start(), map[]) && fresh(kernel)
    {
      kernel := new TimeKernel();
      timers := map[];
    }

    method StartOneshot(t: nat, span: Tick)
      modifies this, kernel
      ensures View() == Apply(old(View()), Oneshot(t, span))
    {
      ArmMe(t, 0, span);
    }

    method StartPeriodic(t: nat, span: Tick)
      modifies this, kernel
      ensures View() == Apply(old(View()), Periodic(t, span))
    {
      ArmMe(t, span, span);
    }

    method ArmMe(t: nat, period: Tick, span: Tick)
      modifies this, kernel
      ensures View() == Timers(Enqueue(old(kernel.View()), t, span), old(timers)[t := Timer(period, true)])
    {
      timers := timers[t := Timer(period, true)];
      kernel.CallAfterSpan(t, span);
    }

    method StopTimer(t: nat)
      modifies this, kernel
      ensures View() == Apply(old(View()), Stop(t))
    {
      timers := timers[t := Timer(0, false)];
      var _ := kernel.CancelWaiter(t);
    }

    /** The user function: any timer calls. */
    method Invoke(ops: seq<TimerOp>)
      modifies this, kernel
      ensures View() == ApplyAll(old(View()), ops)
    {
      hide Apply;
      var i := 0;
      while i < |ops|
        invariant i <= |ops|
        invariant ApplyAll(View(), ops[i..]) == ApplyAll(old(View()), ops)
      {
        assert ops[i..][0] == ops[i] && ops[i..][1..] == ops[i + 1..];
        match ops[i] {
          case Oneshot(t, span) => StartOneshot(t, span);
          case Periodic(t, span) => StartPeriodic(t, span);
          case Stop(t) => StopTimer(t);
        }
        i := i + 1;
      }
      assert ops[i..] == [];
    }

    /** The reaction of timer t, already popped from the queue. */
    method Fired(t: nat, ops: seq<TimerOp>)
      modifies this, kernel
      ensures
        var cool := old(View()).(timers := old(timers)[t := Of(old(View()), t).(running := false)]);
        View() == Rebook(ApplyAll(cool, ops), t)
    {
      timers := timers[t := (if t in timers then timers[t] else Timer(0, false)).(running := false)];
      Invoke(ops);
      var p := (if t in timers then timers[t] else Timer(0, false)).period;
      if p != 0 {
        timers := timers[t := Timer(p, true)];
        kernel.CallAfterSpan(t, p);
      }
    }

    method DrainDue(script: seq<seq<TimerOp>>) returns (fired: seq<nat>)
      requires ShortPeriods(View()) && TScriptAhead(script)
      modifies this, kernel
      ensures View() == TDrain(old(View()), script).0
      ensures fired == TDrain(old(View()), script).1
    {
      hide TDrain, ApplyAll, Rebook, ShortPeriods;
      ghost var start, whole := View(), View();
      var left := script;
      fired := [];
      var due := kernel.PopDue();
      while due.Some?
        invariant TScriptAhead(left) && ShortPeriods(whole)
        invariant due.Some? <==> HeadDue(whole.kernel)
        invariant due.Some? ==> due.value == whole.kernel.queue[0]
        invariant due.Some? ==> View() == whole.(kernel := whole.kernel.(queue := whole.kernel.queue[1..]))
        invariant due.None? ==> View() == whole
        invariant TDrain(start, script).0 == TDrain(whole, left).0
        invariant TDrain(start, script).1 == fired + TDrain(whole, left).1
        decreases DueCount(whole.kernel.queue, whole.kernel.clock), due.Some?
      {
        TFireShrinks(whole, TFirst(left));
        TDrainTurn(whole, left);
        ghost var before := fired;
        Fired(due.value.id, TFirst(left));
        fired := fired + [due.value.id];
        assert View() == TFire(whole, TFirst(left));
        left := TRest(left);
        whole := View();
        assert before + ([due.value.id] + TDrain(whole, left).1) == fired + TDrain(whole, left).1;
        due := kernel.PopDue();
      }
      TDrainTurn(whole, left);
    }

    method Elapsed(n: Tick, script: seq<seq<TimerOp>>) returns (fired: seq<nat>)
      requires ShortPeriods(View()) && TScriptAhead(script)
      modifies this, kernel
      ensures (View(), fired) == TElapsed(old(View()), n, script)
    {
      if n == 0 {
        return [];
      }
      kernel.clock := Plus(kernel.clock, n);
      kernel.port := Elapse(kernel.port, n);
      fired := DrainDue(script);
      kernel.RefreshAlarm();
    }
  }

  lemma {:induction false} TDrainTurn(s: Timers, script: seq<seq<TimerOp>>)
    requires ShortPeriods(s) && TScriptAhead(script)
    ensures HeadDue(s.kernel) ==>
              && ShortPeriods(TFire(s, TFirst(script)))
              && TDrain(s, script).0 == TDrain(TFire(s, TFirst(script)), TRest(script)).0
              && TDrain(s, script).1 == [s.kernel.queue[0].id] + TDrain(TFire(s, TFirst(script)), TRest(script)).1
    ensures !HeadDue(s.kernel) ==> TDrain(s, script) == (s, [])
  {
    if HeadDue(s.kernel) { TFireShrinks(s, TFirst(script)); }
  }
}
