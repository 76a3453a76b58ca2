/** The time kernel object; `TimeKernelSpec` says what each method computes and
`TimeRuns` what every run of them guarantees. */
module TimeKernels {
  import opened Lists
  import opened Ticks
  import opened TimeKernelSpec

  lemma {:induction false} DrainTurn(k: Kernel, script: seq<seq<Op>>)
    requires ScriptAhead(script)
    ensures HeadDue(k) ==>
              && Drain(k, script).0 == Drain(Fire(k, First(script)), Rest(script)).0
              && Drain(k, script).1 == [k.queue[0].id] + Drain(Fire(k, First(script)), Rest(script)).1
    ensures !HeadDue(k) ==> Drain(k, script) == (k, [])
  {
  }

  class TimeKernel {
    var clock: Tick
    var queue: seq<Booking>
    var armed: Tick
    var armValid: bool
    var port: Port

    ghost function View(): Kernel
      reads this
    {
      Kernel(clock, queue, armed, armValid, port)
    }

    constructor ()
      ensures View() == Start()
    {
      clock, queue, armed, armValid, port := 0, [], 0, false, Off;
    }

    method RefreshAlarm()
      modifies this
      ensures View() == UpdateAlarm(old(View()))
    {
      if queue == [] {
        if armValid {
          port := Off;
          armValid := false;
        }
        return;
      }
      var head := queue[0].deadline;
      var armedPending := armValid && Diff(armed, clock) > 0;
      var headEarlier := armValid && Diff(armed, head) > 0;
      if armedPending && !headEarlier {
        return;
      }
      var remaining := Diff(head, clock);
      if remaining < 1 {
        remaining := 1;
      }
      port := Alarm(remaining);
      armed := head;
      armValid := true;
    }

    /** `call_after_span` and the booking half of `park_for`. */
    method CallAfterSpan(w: nat, span: Tick)
      modifies this
      ensures View() == Enqueue(old(View()), w, span)
    {
      queue := Drop(queue, Node(w));
      queue := Insert(ByDeadline(), queue, Booking(w, Plus(clock, span)));
      RefreshAlarm();
    }

    method CancelWaiter(w: nat) returns (found: bool)
      modifies this
      ensures (View(), found) == CancelBooking(old(View()), w)
    {
      found := Find(queue, Node(w)) < |queue|;
      queue := Drop(queue, Node(w));
      RefreshAlarm();
    }

    method DueIn() returns (distance: Option<int>)
      ensures distance == TimeKernelSpec.NextDueIn(View())
    {
      if queue == [] {
        return None;
      }
      var remaining := Diff(queue[0].deadline, clock);
      distance := Some(if remaining > 0 then remaining else 0);
    }

    method PopDue() returns (due: Option<Booking>)
      modifies this`queue
      ensures due.Some? <==> old(HeadDue(View()))
      ensures due.Some? ==> due.value == old(queue[0]) && queue == old(queue[1..])
      ensures due.None? ==> queue == old(queue)
    {
      due := None;
      if queue != [] && IsDue(queue[0].deadline, clock) {
        due := Some(queue[0]);
        queue := queue[1..];
      }
    }

    /** A callback: any bookings and cancellations. */
    method Run(ops: seq<Op>)
      modifies this
      ensures View() == DoAll(old(View()), ops)
    {
      var i := 0;
      while i < |ops|
        invariant i <= |ops|
        invariant DoAll(View(), ops[i..]) == DoAll(old(View()), ops)
      {
        ghost var rest := ops[i..];
        assert rest[0] == ops[i] && rest[1..] == ops[i + 1..];
        match ops[i] {
          case Book(w, span) => CallAfterSpan(w, span);
          case Cancel(w) => var _ := CancelWaiter(w);
        }
        i := i + 1;
      }
      assert ops[i..] == [];
    }

    /** The loop of `on_elapsed`: pop what is due, run its callback, look again. */
    method DrainDue(script: seq<seq<Op>>) returns (fired: seq<nat>)
      requires ScriptAhead(script)
      modifies this
      ensures View() == Drain(old(View()), script).0
      ensures fired == Drain(old(View()), script).1
    {
      hide Drain, DoAll;
      ghost var start, whole := View(), View();
      var left := script;
      fired := [];
      var due := PopDue();
      while due.Some?
        invariant ScriptAhead(left)
        invariant due.Some? <==> HeadDue(whole)
        invariant due.Some? ==> due.value == whole.queue[0] && View() == whole.(queue := whole.queue[1..])
        invariant due.None? ==> View() == whole
        invariant Drain(start, script).0 == Drain(whole, left).0
        invariant Drain(start, script).1 == fired + Drain(whole, left).1
        decreases DueCount(whole.queue, whole.clock), due.Some?
      {
        FireShrinks(whole, First(left));
        DrainTurn(whole, left);
        ghost var before := fired;
        Run(First(left));
        fired := fired + [due.value.id];
        left := Rest(left);
        whole := View();
        assert before + ([due.value.id] + Drain(whole, left).1) == fired + Drain(whole, left).1;
        due := PopDue();
      }
      DrainTurn(whole, left);
    }

    method Elapsed(n: Tick, script: seq<seq<Op>>) returns (fired: seq<nat>)
      requires ScriptAhead(script)
      modifies this
      ensures (View(), fired) == OnElapsed(old(View()), n, script)
    {
      if n == 0 {
        return [];
      }
      clock := Plus(clock, n);
      port := Elapse(port, n);
      fired := DrainDue(script);
      RefreshAlarm();
    }
  }
}
