/** Software timers over the time kernel: one-shot and periodic bookings, stopped
and re-booked also from inside the callbacks that the drain runs.

A timer is named by its waiter node. What the k-th callback of a drain does to
timers, its own included, is the k-th entry of a script. */
module TimerSpec {
  import opened Lists
  import opened Ticks
  import opened TimeKernelSpec

  /** A constructed timer has period 0 and is not running. */
  datatype Timer = Timer(period: Tick, running: bool)

  datatype Timers = Timers(kernel: Kernel, timers: map<nat, Timer>)

  datatype TimerOp = Oneshot(t: nat, span: Tick) | Periodic(t: nat, span: Tick) | Stop(t: nat)

  function Of(s: Timers, t: nat): Timer {
    if t in s.timers then s.timers[t] else Timer(0, false)
  }

  function Apply(s: Timers, op: TimerOp): Timers {
    match op
    case Oneshot(t, span) => Timers(Enqueue(s.kernel, t, span), s.timers[t := Timer(0, true)])
    case Periodic(t, span) => Timers(Enqueue(s.kernel, t, span), s.timers[t := Timer(span, true)])
    case Stop(t) => Timers(CancelBooking(s.kernel, t).0, s.timers[t := Timer(0, false)])
  }

  function ApplyAll(s: Timers, ops: seq<TimerOp>): Timers
    decreases ops
  {
    if ops == [] then s else ApplyAll(Apply(s, ops[0]), ops[1..])
  }

  /** `fired` up to the user function: popped, and cooled off by default. */
  function CoolOff(s: Timers): Timers
    requires s.kernel.queue != []
  {
    var t := s.kernel.queue[0].id;
    Timers(s.kernel.(queue := s.kernel.queue[1..]), s.timers[t := Of(s, t).(running := false)])
  }

  /** `fired` after the user function: a period that survived re-books. */
  function Rebook(s: Timers, t: nat): Timers {
    var p := Of(s, t).period;
    if p == 0 then s else Timers(Enqueue(s.kernel, t, p), s.timers[t := Timer(p, true)])
  }

  function TFire(s: Timers, ops: seq<TimerOp>): Timers
    requires HeadDue(s.kernel)
  {
    Rebook(ApplyAll(CoolOff(s), ops), s.kernel.queue[0].id)
  }

  /** Calls made from callbacks ask for at least one tick, within the half range. */
  predicate SpansAhead(ops: seq<TimerOp>) {
    forall i :: 0 <= i < |ops| && !ops[i].Stop? ==> 1 <= ops[i].span < HALF
  }

  predicate TScriptAhead(script: seq<seq<TimerOp>>) {
    forall i :: 0 <= i < |script| ==> SpansAhead(script[i])
  }

  predicate ShortPeriods(s: Timers) {
    forall t :: t in s.timers ==> s.timers[t].period < HALF
  }

  function TFirst(script: seq<seq<TimerOp>>): seq<TimerOp> {
    if script == [] then [] else script[0]
  }

  function TRest(script: seq<seq<TimerOp>>): seq<seq<TimerOp>> {
    if script == [] then [] else script[1..]
  }

  function TDrain(s: Timers, script: seq<seq<TimerOp>>): (Timers, seq<nat>)
    requires ShortPeriods(s) && TScriptAhead(script)
    decreases DueCount(s.kernel.queue, s.kernel.clock)
  {
    if !HeadDue(s.kernel) then (s, [])
    else
      TFireShrinks(s, TFirst(script));
      var (r, fired) := TDrain(TFire(s, TFirst(script)), TRest(script));
      (r, [s.kernel.queue[0].id] + fired)
  }

  function TElapsed(s: Timers, n: Tick, script: seq<seq<TimerOp>>): (Timers, seq<nat>)
    requires ShortPeriods(s) && TScriptAhead(script)
  {
    if n == 0 then (s, [])
    else
      var (r, fired) := TDrain(s.(kernel := Advance(s.kernel, n)), script);
      (r.(kernel := UpdateAlarm(r.kernel)), fired)
  }

  // ---- timers are kernel clients: a timer drain is a kernel drain ----

  function KernelOp(op: TimerOp): Op {
    if op.Stop? then Cancel(op.t) else Book(op.t, op.span)
  }

  function KernelOps(ops: seq<TimerOp>): (r: seq<Op>)
    ensures |r| == |ops| && forall i :: 0 <= i < |ops| ==> r[i] == KernelOp(ops[i])
  {
    if ops == [] then [] else [KernelOp(ops[0])] + KernelOps(ops[1..])
  }

  /** All that the kernel sees of one firing, the re-booking included. */
  function FireOps(s: Timers, ops: seq<TimerOp>): seq<Op>
    requires HeadDue(s.kernel)
  {
    var t := s.kernel.queue[0].id;
    var p := Of(ApplyAll(CoolOff(s), ops), t).period;
    KernelOps(ops) + if p == 0 then [] else [Book(t, p)]
  }

  lemma {:induction false} DoAllAppend(k: Kernel, a: seq<Op>, b: seq<Op>)
    ensures DoAll(k, a + b) == DoAll(DoAll(k, a), b)
    decreases a
  {
    hide Do;
    if a == [] {
      assert a + b == b;
    } else {
      DoAllAppend(Do(k, a[0]), a[1..], b);
      assert (a + b)[1..] == a[1..] + b;
    }
  }

  lemma {:induction false} ApplyAllIsDoAll(s: Timers, ops: seq<TimerOp>)
    ensures ApplyAll(s, ops).kernel == DoAll(s.kernel, KernelOps(ops))
    decreases ops
  {
    if ops != [] {
      ApplyAllIsDoAll(Apply(s, ops[0]), ops[1..]);
      assert Apply(s, ops[0]).kernel == Do(s.kernel, KernelOp(ops[0]));
    }
  }

  lemma {:induction false} ApplyAllShort(s: Timers, ops: seq<TimerOp>)
    requires ShortPeriods(s) && SpansAhead(ops)
    ensures ShortPeriods(ApplyAll(s, ops))
    decreases ops
  {
    if ops != [] {
      ApplyAllShort(Apply(s, ops[0]), ops[1..]);
    }
  }

  lemma {:induction false} RebookIsDo(s: Timers, t: nat)
    ensures Rebook(s, t).kernel ==
            if Of(s, t).period == 0 then s.kernel else DoAll(s.kernel, [Book(t, Of(s, t).period)])
  {
    hide Enqueue, DoAll;
    DoOne(s.kernel, Book(t, Of(s, t).period));
  }

  lemma {:induction false} TFireIsFire(s: Timers, ops: seq<TimerOp>)
    requires HeadDue(s.kernel) && ShortPeriods(s) && SpansAhead(ops)
    ensures TFire(s, ops).kernel == Fire(s.kernel, FireOps(s, ops))
    ensures Ahead(FireOps(s, ops)) && ShortPeriods(TFire(s, ops))
  {
    hide DoAll, Enqueue;
    var t := s.kernel.queue[0].id;
    var s0 := CoolOff(s);
    var s1 := ApplyAll(s0, ops);
    ApplyAllIsDoAll(s0, ops);
    ApplyAllShort(s0, ops);
    hide ApplyAll;
    RebookIsDo(s1, t);
    DoAllAppend(s0.kernel, KernelOps(ops), [Book(t, Of(s1, t).period)]);
    assert KernelOps(ops) + [] == KernelOps(ops);
  }

  lemma {:induction false} DoOne(k: Kernel, op: Op)
    ensures DoAll(k, [op]) == Do(k, op)
  {
    assert DoAll(Do(k, op), []) == Do(k, op);
  }

  lemma {:induction false} TFireShrinks(s: Timers, ops: seq<TimerOp>)
    requires HeadDue(s.kernel) && ShortPeriods(s) && SpansAhead(ops)
    ensures ShortPeriods(TFire(s, ops)) && TFire(s, ops).kernel.clock == s.kernel.clock
    ensures DueCount(TFire(s, ops).kernel.queue, s.kernel.clock) < DueCount(s.kernel.queue, s.kernel.clock)
  {
    TFireIsFire(s, ops);
    FireShrinks(s.kernel, FireOps(s, ops));
  }

  /** The kernel script a timer drain amounts to. */
  function KernelScript(s: Timers, script: seq<seq<TimerOp>>): seq<seq<Op>>
    requires ShortPeriods(s) && TScriptAhead(script)
    decreases DueCount(s.kernel.queue, s.kernel.clock)
  {
    if !HeadDue(s.kernel) then []
    else
      TFireShrinks(s, TFirst(script));
      [FireOps(s, TFirst(script))] + KernelScript(TFire(s, TFirst(script)), TRest(script))
  }

  lemma {:induction false} TDrainIsDrain(s: Timers, script: seq<seq<TimerOp>>)
    requires ShortPeriods(s) && TScriptAhead(script)
    ensures ScriptAhead(KernelScript(s, script)) && ShortPeriods(TDrain(s, script).0)
    ensures TDrain(s, script).0.kernel == Drain(s.kernel, KernelScript(s, script)).0
    ensures TDrain(s, script).1 == Drain(s.kernel, KernelScript(s, script)).1
    decreases DueCount(s.kernel.queue, s.kernel.clock)
  {
    if HeadDue(s.kernel) {
      var ops := TFirst(script);
      TFireShrinks(s, ops);
      var r := KernelScript(TFire(s, ops), TRest(script));
      TFireIsFire(s, ops);
      TDrainIsDrain(TFire(s, ops), TRest(script));
      hide TFire, Fire, FireOps;
      assert KernelScript(s, script) == [FireOps(s, ops)] + r;
      assert First([FireOps(s, ops)] + r) == FireOps(s, ops) && Rest([FireOps(s, ops)] + r) == r;
    }
  }

  /** An elapsed step of the timers is one of the kernel, so everything proved of
  kernel runs holds of timers. */
  lemma {:induction false} TElapsedIsOnElapsed(s: Timers, n: Tick, script: seq<seq<TimerOp>>)
    requires ShortPeriods(s) && TScriptAhead(script)
    ensures exists ks ::
              && ScriptAhead(ks)
              && OnElapsed(s.kernel, n, ks) == (TElapsed(s, n, script).0.kernel, TElapsed(s, n, script).1)
  {
    var s1 := s.(kernel := Advance(s.kernel, n));
    TDrainIsDrain(s1, script);
    var ks := KernelScript(s1, script);
    hide Drain, TDrain;
    assert OnElapsed(s.kernel, n, ks) == (TElapsed(s, n, script).0.kernel, TElapsed(s, n, script).1);
  }
}
