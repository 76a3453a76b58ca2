/** What every run of the timers keeps: a timer runs exactly while it is booked,
fires at most once per elapsed step, stays silent once stopped, and beats at its
period when left alone. */
module TimerRuns {
  import opened Lists
  import opened Ticks
  import opened TimeKernelSpec
  import opened TimerSpec

  // ---- the queue as a set of bookings ----

  ghost predicate Once(q: seq<Booking>) {
    forall i, j :: 0 <= i < j < |q| ==> q[i].id != q[j].id
  }

  lemma {:induction false} DropEffect(q: seq<Booking>, w: nat)
    requires Once(q)
    ensures Once(Drop(q, Node(w)))
    ensures forall b :: b in Drop(q, Node(w)) <==> b in q && b.id != w
  {
    var k := Find(q, Node(w));
    if k < |q| {
      assert Node(w)(q[k]);
      assert q == q[..k] + [q[k]] + q[k + 1..];
    } else {
      forall i | 0 <= i < |q| ensures q[i].id != w { assert !Node(w)(q[i]); }
    }
  }

  lemma {:induction false} PasteOnce(q: seq<Booking>, x: Booking, k: nat)
    requires Once(q) && k <= |q| && forall i :: 0 <= i < |q| ==> q[i].id != x.id
    ensures Once(q[..k] + [x] + q[k..])
  {
  }

  lemma {:induction false} InsertEffect(q: seq<Booking>, x: Booking)
    requires Once(q) && forall b :: b in q ==> b.id != x.id
    ensures Once(Insert(ByDeadline(), q, x))
    ensures forall b :: b in Insert(ByDeadline(), q, x) <==> b in q || b == x
  {
    InsertShape(ByDeadline(), q, x);
    PasteOnce(q, x, Slot(ByDeadline(), q, x));
    hide Once;
  }

  lemma {:induction false} EnqueueEffect(k: Kernel, w: nat, span: Tick)
    requires Once(k.queue)
    ensures Once(Enqueue(k, w, span).queue) && Enqueue(k, w, span).clock == k.clock
    ensures forall b :: b in Enqueue(k, w, span).queue <==>
              (b in k.queue && b.id != w) || b == Booking(w, Plus(k.clock, span))
  {
    DropEffect(k.queue, w);
    hide Drop;
    InsertEffect(Drop(k.queue, Node(w)), Booking(w, Plus(k.clock, span)));
  }

  lemma {:induction false} CancelEffect(k: Kernel, w: nat)
    requires Once(k.queue)
    ensures Once(CancelBooking(k, w).0.queue) && CancelBooking(k, w).0.clock == k.clock
    ensures forall b :: b in CancelBooking(k, w).0.queue <==> b in k.queue && b.id != w
  {
    DropEffect(k.queue, w);
    hide Drop;
  }

  lemma {:induction false} PopEffect(q: seq<Booking>)
    requires Once(q) && q != []
    ensures Once(q[1..])
    ensures forall b :: b in q[1..] <==> b in q && b.id != q[0].id
  {
    assert q == [q[0]] + q[1..];
  }

  // ---- running exactly while booked ----

  /** `busy` is the timer whose callback is being run, if any. */
  ghost predicate TimersOk(s: Timers, busy: Option<nat>) {
    && Once(s.kernel.queue)
    && (forall t: nat :: Of(s, t).running <==> Booked(s.kernel, t))
    && (forall t: nat :: Some(t) != busy && Of(s, t).period != 0 ==> Of(s, t).running)
  }

  lemma {:induction false} StartOk()
    ensures TimersOk(Timers(Start(), map[]), None)
  {
  }

  lemma {:induction false} BookOk(s: Timers, t: nat, span: Tick, period: Tick, busy: Option<nat>, after: Option<nat>)
    requires TimersOk(s, busy) && (after == busy || (busy == Some(t) && after == None))
    ensures TimersOk(Timers(Enqueue(s.kernel, t, span), s.timers[t := Timer(period, true)]), after)
  {
    var r := Timers(Enqueue(s.kernel, t, span), s.timers[t := Timer(period, true)]);
    EnqueueEffect(s.kernel, t, span);
    hide Enqueue, Once;
    assert Booking(t, Plus(s.kernel.clock, span)) in r.kernel.queue;
    forall u: nat
      ensures Of(r, u).running <==> Booked(r.kernel, u)
      ensures Some(u) != after && Of(r, u).period != 0 ==> Of(r, u).running
    {
      if u != t {
        assert Of(r, u) == Of(s, u);
        assert forall b :: b in r.kernel.queue && b.id == u <==> b in s.kernel.queue && b.id == u;
      }
    }
  }

  lemma {:induction false} StopOk(s: Timers, t: nat, busy: Option<nat>)
    requires TimersOk(s, busy)
    ensures TimersOk(Apply(s, Stop(t)), busy)
  {
    var r := Apply(s, Stop(t));
    CancelEffect(s.kernel, t);
    hide CancelBooking, Once;
    forall u: nat
      ensures Of(r, u).running <==> Booked(r.kernel, u)
      ensures Some(u) != busy && Of(r, u).period != 0 ==> Of(r, u).running
    {
      if u != t {
        assert Of(r, u) == Of(s, u);
        assert forall b :: b in r.kernel.queue && b.id == u <==> b in s.kernel.queue && b.id == u;
      }
    }
  }

  lemma {:induction false} ApplyOk(s: Timers, op: TimerOp, busy: Option<nat>)
    requires TimersOk(s, busy)
    ensures TimersOk(Apply(s, op), busy)
  {
    hide TimersOk;
    match op
    case Oneshot(t, span) => BookOk(s, t, span, 0, busy, busy);
    case Periodic(t, span) => BookOk(s, t, span, span, busy, busy);
    case Stop(t) => StopOk(s, t, busy);
  }

  lemma {:induction false} ApplyAllOk(s: Timers, ops: seq<TimerOp>, busy: Option<nat>)
    requires TimersOk(s, busy)
    ensures TimersOk(ApplyAll(s, ops), busy)
    decreases ops
  {
    hide TimersOk, Apply;
    if ops != [] {
      ApplyOk(s, ops[0], busy);
      ApplyAllOk(Apply(s, ops[0]), ops[1..], busy);
    }
  }

  lemma {:induction false} CoolOffOk(s: Timers)
    requires TimersOk(s, None) && s.kernel.queue != []
    ensures TimersOk(CoolOff(s), Some(s.kernel.queue[0].id))
  {
    var t, r := s.kernel.queue[0].id, CoolOff(s);
    PopEffect(s.kernel.queue);
    hide Once;
    forall u: nat
      ensures Of(r, u).running <==> Booked(r.kernel, u)
      ensures u != t && Of(r, u).period != 0 ==> Of(r, u).running
    {
      if u != t {
        assert Of(r, u) == Of(s, u);
        assert forall b :: b in r.kernel.queue && b.id == u <==> b in s.kernel.queue && b.id == u;
      }
    }
  }

  lemma {:induction false} RebookOk(s: Timers, t: nat)
    requires TimersOk(s, Some(t))
    ensures TimersOk(Rebook(s, t), None)
  {
    if Of(s, t).period != 0 {
      BookOk(s, t, Of(s, t).period, Of(s, t).period, Some(t), None);
    }
  }

  lemma {:induction false} TFireOk(s: Timers, ops: seq<TimerOp>)
    requires TimersOk(s, None) && HeadDue(s.kernel)
    ensures TimersOk(TFire(s, ops), None)
  {
    hide TimersOk, CoolOff, Rebook;
    CoolOffOk(s);
    ApplyAllOk(CoolOff(s), ops, Some(s.kernel.queue[0].id));
    RebookOk(ApplyAll(CoolOff(s), ops), s.kernel.queue[0].id);
  }

  lemma {:induction false} TDrainOk(s: Timers, script: seq<seq<TimerOp>>)
    requires ShortPeriods(s) && TScriptAhead(script) && TimersOk(s, None)
    ensures TimersOk(TDrain(s, script).0, None)
    decreases DueCount(s.kernel.queue, s.kernel.clock)
  {
    hide TimersOk, TFire;
    if HeadDue(s.kernel) {
      TFireShrinks(s, TFirst(script));
      TFireOk(s, TFirst(script));
      TDrainOk(TFire(s, TFirst(script)), TRest(script));
    }
  }

  lemma {:induction false} SameQueueOk(s: Timers, k: Kernel)
    requires TimersOk(s, None) && k.queue == s.kernel.queue
    ensures TimersOk(s.(kernel := k), None)
  {
    var r := s.(kernel := k);
    assert forall t: nat :: Of(r, t) == Of(s, t) && (Booked(k, t) <==> Booked(s.kernel, t));
  }

  /** Between guards every timer runs exactly while it is booked, and a periodic
  timer is never lost: with a period it is running. */
  lemma {:induction false} TElapsedOk(s: Timers, n: Tick, script: seq<seq<TimerOp>>)
    requires ShortPeriods(s) && TScriptAhead(script) && TimersOk(s, None)
    ensures TimersOk(TElapsed(s, n, script).0, None) && ShortPeriods(TElapsed(s, n, script).0)
  {
    if n > 0 {
      var s1 := s.(kernel := Advance(s.kernel, n));
      SameQueueOk(s, s1.kernel);
      TDrainOk(s1, script);
      TDrainIsDrain(s1, script);
      var s2 := TDrain(s1, script).0;
      hide TimersOk, TDrain;
      assert UpdateAlarm(s2.kernel).queue == s2.kernel.queue;
      SameQueueOk(s2, UpdateAlarm(s2.kernel));
    }
  }

  // ---- at most once per step ----

  ghost predicate NotDueAgain(k: Kernel, gone: set<nat>) {
    forall b :: b in k.queue && b.id in gone ==> !IsDue(b.deadline, k.clock)
  }

  lemma {:induction false} DoAllNotDue(k: Kernel, ops: seq<Op>, gone: set<nat>)
    requires Once(k.queue) && NotDueAgain(k, gone) && Ahead(ops)
    ensures Once(DoAll(k, ops).queue) && DoAll(k, ops).clock == k.clock && NotDueAgain(DoAll(k, ops), gone)
    decreases ops
  {
    if ops != [] {
      match ops[0] {
        case Book(w, span) =>
          EnqueueEffect(k, w, span);
          PlusIsAhead(k.clock, span);
        case Cancel(w) =>
          CancelEffect(k, w);
      }
      hide Enqueue, CancelBooking, Once;
      DoAllNotDue(Do(k, ops[0]), ops[1..], gone);
    }
  }

  /** However callbacks book and cancel, no waiter fires twice in one step. */
  lemma {:induction false} FiresOnce(k: Kernel, script: seq<seq<Op>>, gone: set<nat>)
    requires ScriptAhead(script) && Once(k.queue) && NotDueAgain(k, gone)
    ensures NoDup(Drain(k, script).1)
    ensures forall w :: w in Drain(k, script).1 ==> w !in gone
    decreases DueCount(k.queue, k.clock)
  {
    if HeadDue(k) {
      var w := k.queue[0].id;
      assert k.queue[0] in k.queue;
      PopEffect(k.queue);
      DoAllNotDue(k.(queue := k.queue[1..]), First(script), gone + {w});
      FireShrinks(k, First(script));
      hide Once;
      FiresOnce(Fire(k, First(script)), Rest(script), gone + {w});
    }
  }

  lemma {:induction false} TimerFiresOnce(s: Timers, n: Tick, script: seq<seq<TimerOp>>)
    requires ShortPeriods(s) && TScriptAhead(script) && TimersOk(s, None)
    ensures NoDup(TElapsed(s, n, script).1)
  {
    if n > 0 {
      var s1 := s.(kernel := Advance(s.kernel, n));
      TDrainIsDrain(s1, script);
      FiresOnce(s1.kernel, KernelScript(s1, script), {});
    }
  }

  // ---- silent while stopped ----

  predicate Arms(ops: seq<TimerOp>, t: nat) {
    exists i :: 0 <= i < |ops| && ops[i].t == t && !ops[i].Stop?
  }

  predicate ScriptArms(script: seq<seq<TimerOp>>, t: nat) {
    exists i :: 0 <= i < |script| && Arms(script[i], t)
  }

  ghost predicate Cold(s: Timers, t: nat) {
    Once(s.kernel.queue) && !Booked(s.kernel, t)
  }

  lemma {:induction false} ApplyCold(s: Timers, op: TimerOp, t: nat)
    requires Cold(s, t) && (op.t == t ==> op.Stop?)
    ensures Cold(Apply(s, op), t)
  {
    match op
    case Oneshot(u, span) => EnqueueEffect(s.kernel, u, span);
    case Periodic(u, span) => EnqueueEffect(s.kernel, u, span);
    case Stop(u) => CancelEffect(s.kernel, u);
  }

  lemma {:induction false} ApplyAllCold(s: Timers, ops: seq<TimerOp>, t: nat)
    requires Cold(s, t) && !Arms(ops, t)
    ensures Cold(ApplyAll(s, ops), t)
    decreases ops
  {
    hide Cold, Apply;
    if ops != [] {
      ApplyCold(s, ops[0], t);
      assert !Arms(ops[1..], t) by {
        forall i | 0 <= i < |ops[1..]| ensures !(ops[1..][i].t == t && !ops[1..][i].Stop?) {
          assert ops[1..][i] == ops[i + 1];
        }
      }
      ApplyAllCold(Apply(s, ops[0]), ops[1..], t);
    }
  }

  lemma {:induction false} TFireCold(s: Timers, ops: seq<TimerOp>, t: nat)
    requires HeadDue(s.kernel) && Cold(s, t) && !Arms(ops, t)
    ensures s.kernel.queue[0].id != t && Cold(TFire(s, ops), t)
  {
    var u := s.kernel.queue[0].id;
    assert s.kernel.queue[0] in s.kernel.queue;
    PopEffect(s.kernel.queue);
    ApplyAllCold(CoolOff(s), ops, t);
    var s1 := ApplyAll(CoolOff(s), ops);
    hide ApplyAll, CoolOff;
    if Of(s1, u).period != 0 { EnqueueEffect(s1.kernel, u, Of(s1, u).period); }
  }

  lemma {:induction false} TDrainCold(s: Timers, script: seq<seq<TimerOp>>, t: nat)
    requires ShortPeriods(s) && TScriptAhead(script) && Cold(s, t) && !ScriptArms(script, t)
    ensures t !in TDrain(s, script).1 && Cold(TDrain(s, script).0, t)
    decreases DueCount(s.kernel.queue, s.kernel.clock)
  {
    hide Cold, TFire, Arms;
    if HeadDue(s.kernel) {
      var rest := TRest(script);
      assert !Arms(TFirst(script), t) by { if script == [] { NoArms(t); } }
      assert !ScriptArms(rest, t) by {
        forall i | 0 <= i < |rest| ensures !Arms(rest[i], t) { assert rest[i] == script[i + 1]; }
      }
      TFireShrinks(s, TFirst(script));
      TFireCold(s, TFirst(script), t);
      TDrainCold(TFire(s, TFirst(script)), rest, t);
    }
  }

  lemma {:induction false} NoArms(t: nat)
    ensures !Arms([], t)
  {
  }

  predicate LastIsStop(ops: seq<TimerOp>, t: nat) {
    exists i :: 0 <= i < |ops| && ops[i] == Stop(t) && forall j :: i < j < |ops| ==> ops[j].t != t
  }

  predicate Spares(ops: seq<TimerOp>, t: nat) {
    forall i :: 0 <= i < |ops| ==> ops[i].t != t
  }

  lemma {:induction false} SparedKeeps(s: Timers, ops: seq<TimerOp>, t: nat)
    requires Spares(ops, t)
    ensures Of(ApplyAll(s, ops), t) == Of(s, t)
    decreases ops
  {
    if ops != [] { SparedKeeps(Apply(s, ops[0]), ops[1..], t); }
  }

  lemma {:induction false} LastStopWins(s: Timers, ops: seq<TimerOp>, t: nat)
    requires LastIsStop(ops, t)
    ensures Of(ApplyAll(s, ops), t) == Timer(0, false)
    decreases ops
  {
    var i :| 0 <= i < |ops| && ops[i] == Stop(t) && forall j :: i < j < |ops| ==> ops[j].t != t;
    if i == 0 {
      assert Of(Apply(s, ops[0]), t) == Timer(0, false);
      SparedKeeps(Apply(s, ops[0]), ops[1..], t);
    } else {
      assert LastIsStop(ops[1..], t) by { assert ops[1..][i - 1] == Stop(t); }
      LastStopWins(Apply(s, ops[0]), ops[1..], t);
    }
  }

  /** `stop` inside the timer's own function walks free: no re-booking. */
  lemma {:induction false} StopInsideCallback(s: Timers, ops: seq<TimerOp>)
    requires TimersOk(s, None) && HeadDue(s.kernel) && LastIsStop(ops, s.kernel.queue[0].id)
    ensures
      var t := s.kernel.queue[0].id;
      Of(TFire(s, ops), t) == Timer(0, false) && Cold(TFire(s, ops), t)
  {
    var t := s.kernel.queue[0].id;
    LastStopWins(CoolOff(s), ops, t);
    TFireOk(s, ops);
    hide ApplyAll, CoolOff;
    assert Of(TFire(s, ops), t) == Timer(0, false);
  }

  // ---- runs ----

  datatype TStep = Call(op: TimerOp) | Tick(n: Ticks.Tick, script: seq<seq<TimerOp>>)

  predicate TLegal(step: TStep) {
    match step
    case Call(op) => !op.Stop? ==> op.span < HALF
    case Tick(_, script) => TScriptAhead(script)
  }

  function TNext(s: Timers, step: TStep): (Timers, seq<nat>)
    requires ShortPeriods(s) && TLegal(step)
  {
    match step
    case Call(op) => (Apply(s, op), [])
    case Tick(n, script) => TElapsed(s, n, script)
  }

  ghost predicate IsTRun(ss: seq<Timers>, steps: seq<TStep>) {
    && |ss| == |steps| + 1 && ss[0] == Timers(Start(), map[])
    && (forall i :: 0 <= i < |steps| ==> TLegal(steps[i]))
    && (forall i :: 0 <= i < |steps| ==> ShortPeriods(ss[i]) ==> ss[i + 1] == TNext(ss[i], steps[i]).0)
  }

  /** Over every run. */
  lemma {:induction false} EveryTimerRun(ss: seq<Timers>, steps: seq<TStep>, i: nat)
    requires IsTRun(ss, steps) && i < |ss|
    ensures ShortPeriods(ss[i]) && TimersOk(ss[i], None)
    ensures i < |steps| ==> NoDup(TNext(ss[i], steps[i]).1)
  {
    hide TimersOk, Apply, TElapsed;
    if i == 0 {
      StartOk();
    } else {
      EveryTimerRun(ss, steps, i - 1);
      var s, step := ss[i - 1], steps[i - 1];
      assert ss[i - 1 + 1] == TNext(s, step).0;
      match step {
        case Call(op) =>
          ApplyOk(s, op, None);
          ApplyShort(s, op);
        case Tick(n, script) => TElapsedOk(s, n, script);
      }
    }
    if i < |steps| && steps[i].Tick? {
      TimerFiresOnce(ss[i], steps[i].n, steps[i].script);
    }
  }

  lemma {:induction false} ApplyShort(s: Timers, op: TimerOp)
    requires ShortPeriods(s) && (!op.Stop? ==> op.span < HALF)
    ensures ShortPeriods(Apply(s, op))
  {
  }

  predicate StepArms(step: TStep, t: nat) {
    match step
    case Call(op) => op.t == t && !op.Stop?
    case Tick(_, script) => ScriptArms(script, t)
  }

  lemma {:induction false} StepCold(s: Timers, step: TStep, t: nat)
    requires ShortPeriods(s) && TLegal(step) && Cold(s, t) && !StepArms(step, t)
    ensures t !in TNext(s, step).1 && Cold(TNext(s, step).0, t)
  {
    match step
    case Call(op) => ApplyCold(s, op, t);
    case Tick(n, script) =>
      if n > 0 { TDrainCold(s.(kernel := Advance(s.kernel, n)), script, t); }
  }

  /** From the moment a timer is not running, no step fires it until some call,
  from a task or a callback, arms it again. */
  lemma {:induction false} StoppedStaysSilent(ss: seq<Timers>, steps: seq<TStep>, t: nat, i: nat, j: nat)
    requires IsTRun(ss, steps) && i <= j < |steps| && !Of(ss[i], t).running
    requires forall m :: i <= m <= j ==> !StepArms(steps[m], t)
    ensures ShortPeriods(ss[j]) && t !in TNext(ss[j], steps[j]).1 && !Of(ss[j + 1], t).running
  {
    ColdAt(ss, steps, t, i, j);
    EveryTimerRun(ss, steps, j);
    EveryTimerRun(ss, steps, j + 1);
    StepCold(ss[j], steps[j], t);
  }

  lemma {:induction false} ColdAt(ss: seq<Timers>, steps: seq<TStep>, t: nat, i: nat, j: nat)
    requires IsTRun(ss, steps) && i <= j < |steps| && !Of(ss[i], t).running
    requires forall m :: i <= m < j ==> !StepArms(steps[m], t)
    ensures Cold(ss[j], t)
  {
    if i == j {
      EveryTimerRun(ss, steps, i);
    } else {
      ColdAt(ss, steps, t, i, j - 1);
      EveryTimerRun(ss, steps, j - 1);
      hide Cold, TNext;
      StepCold(ss[j - 1], steps[j - 1], t);
      assert ss[j - 1 + 1] == TNext(ss[j - 1], steps[j - 1]).0;
    }
  }
}
