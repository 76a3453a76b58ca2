/** Whole runs of the time kernel: bookings, cancellations and elapsed steps with
arbitrary callbacks, in any order and number. */
module TimeRuns {
  import opened Lists
  import opened Ticks
  import opened TimeKernelSpec
  import opened TimeLedger

  // ---- the lazily re-armed alarm ----

  lemma {:induction false} DiffIs(a: Tick, b: Tick, d: int, turns: int)
    requires a - b == d + turns * MODULUS && -HALF <= d < HALF
    ensures Diff(a, b) == d
  {
    ModShift(d, turns);
  }

  function Turns(a: Tick, b: Tick): int {
    (a - b) / MODULUS + if (a - b) % MODULUS < HALF then 0 else 1
  }

  lemma {:induction false} DiffTurns(a: Tick, b: Tick)
    ensures a - b == Diff(a, b) + Turns(a, b) * MODULUS
  {
  }

  lemma {:induction false} DiffThrough(a: Tick, b: Tick, c: Tick)
    requires -HALF <= Diff(a, c) - Diff(b, c) < HALF
    ensures Diff(a, b) == Diff(a, c) - Diff(b, c)
  {
    DiffTurns(a, c);
    DiffTurns(b, c);
    DiffIs(a, b, Diff(a, c) - Diff(b, c), Turns(a, c) - Turns(b, c));
  }

  lemma {:induction false} DiffLater(a: Tick, c: Tick, n: Tick)
    requires -HALF <= Diff(a, c) - n < HALF
    ensures Diff(a, Plus(c, n)) == Diff(a, c) - n
  {
    DiffTurns(a, c);
    var wrapped := (c + n) / MODULUS;
    assert c + n == Plus(c, n) + wrapped * MODULUS;
    DiffIs(a, Plus(c, n), Diff(a, c) - n, Turns(a, c) + wrapped);
  }

  /** What is remembered about the armed alarm: how far ahead its tick lies, and
  that it fires then if that is still ahead. */
  ghost predicate ArmKnown(k: Kernel, late: nat, maxSpan: nat) {
    && (k.armValid <==> k.port.Alarm?)
    && (k.armValid ==>
          && 0 <= late + Diff(k.armed, k.clock) && Diff(k.armed, k.clock) <= maxSpan
          && (Diff(k.armed, k.clock) > 0 ==> k.port.left == Diff(k.armed, k.clock)))
  }

  ghost predicate QueueNear(k: Kernel, late: nat, maxSpan: nat) {
    forall i :: 0 <= i < |k.queue| ==> 0 <= late + Diff(k.queue[i].deadline, k.clock) && Diff(k.queue[i].deadline, k.clock) <= maxSpan
  }

  /** Off exactly when nothing waits; otherwise it has yet to fire, and fires no
  later than the head is due, or at the next tick if the head is already overdue. */
  ghost predicate AlarmSafe(k: Kernel) {
    && (k.port == Off <==> k.queue == [])
    && (k.queue != [] ==>
          1 <= k.port.left <= (if Diff(k.queue[0].deadline, k.clock) < 1 then 1 else Diff(k.queue[0].deadline, k.clock)))
  }

  lemma {:induction false} UpdateAlarmKnown(k: Kernel, late: nat, maxSpan: nat)
    requires ArmKnown(k, late, maxSpan) && QueueNear(k, late, maxSpan)
    ensures ArmKnown(UpdateAlarm(k), late, maxSpan)
  {
  }

  lemma {:induction false} UpdateAlarmSafe(k: Kernel, late: nat, maxSpan: nat)
    requires ArmKnown(k, late, maxSpan) && QueueNear(k, late, maxSpan) && late + maxSpan < HALF
    ensures ArmKnown(UpdateAlarm(k), late, maxSpan) && AlarmSafe(UpdateAlarm(k))
  {
    if k.queue != [] && k.armValid {
      DiffThrough(k.armed, k.queue[0].deadline, k.clock);
    }
  }

  lemma {:induction false} RelatedNear(k: Kernel, a: Ledger, lo: nat, maxSpan: nat)
    requires Related(k, a, lo, maxSpan)
    ensures QueueNear(k, a.now - lo, maxSpan)
  {
    forall i | 0 <= i < |k.queue|
      ensures -(a.now - lo) <= Diff(k.queue[i].deadline, k.clock) <= maxSpan
    {
      DiffIsTrueIff(a.book[a.live[k.queue[i].id]].deadline, a.now);
    }
  }

  lemma {:induction false} DoArm(k: Kernel, a: Ledger, op: Op, lo: nat, maxSpan: nat)
    requires Related(k, a, lo, maxSpan) && (op.Book? ==> op.span <= maxSpan)
    requires ArmKnown(k, a.now - lo, maxSpan)
    ensures ArmKnown(Do(k, op), a.now - lo, maxSpan)
    ensures lo == a.now ==> AlarmSafe(Do(k, op))
  {
    DoRelated(k, a, op, lo, maxSpan);
    RelatedNear(Do(k, op), LDo(a, op), lo, maxSpan);
    var q := match op
      case Book(w, span) => Insert(ByDeadline(), Drop(k.queue, Node(w)), Booking(w, Plus(k.clock, span)))
      case Cancel(w) => Drop(k.queue, Node(w));
    UpdateAlarmKeeps(k.(queue := q));
    UpdateAlarmKnown(k.(queue := q), a.now - lo, maxSpan);
    if lo == a.now { UpdateAlarmSafe(k.(queue := q), 0, maxSpan); }
  }

  lemma {:induction false} DoAllArm(k: Kernel, a: Ledger, ops: seq<Op>, lo: nat, maxSpan: nat)
    requires Related(k, a, lo, maxSpan) && SpansUpTo(ops, maxSpan) && ArmKnown(k, a.now - lo, maxSpan)
    ensures ArmKnown(DoAll(k, ops), a.now - lo, maxSpan)
    decreases ops
  {
    if ops != [] {
      DoArm(k, a, ops[0], lo, maxSpan);
      DoRelated(k, a, ops[0], lo, maxSpan);
      DoAllArm(Do(k, ops[0]), LDo(a, ops[0]), ops[1..], lo, maxSpan);
    }
  }

  lemma {:induction false} FireArm(k: Kernel, a: Ledger, prev: nat, ops: seq<Op>, lo: nat, maxSpan: nat)
    requires Related(k, a, lo, maxSpan) && HeadDue(k) && SpansUpTo(ops, maxSpan)
    requires ArmKnown(k, a.now - lo, maxSpan)
    ensures ArmKnown(Fire(k, ops), a.now - lo, maxSpan)
  {
    hide DoAll, Matches;
    PopRelated(k, a, prev, lo, maxSpan);
    var h := k.queue[0].id;
    var b := Close(a, h, Fired(prev, a.now)).(log := a.log + [a.live[h]]);
    assert b.now == a.now;
    DoAllArm(k.(queue := k.queue[1..]), b, ops, lo, maxSpan);
  }

  lemma {:induction false} DrainArm(k: Kernel, a: Ledger, prev: nat, script: seq<seq<Op>>, lo: nat, maxSpan: nat)
    requires Sound(a) && lo <= a.now
    requires Related(k, a, lo, maxSpan) && ScriptAhead(script) && ScriptUpTo(script, maxSpan)
    requires ArmKnown(k, a.now - lo, maxSpan)
    ensures ArmKnown(Drain(k, script).0, a.now - lo, maxSpan)
    decreases |Due(a)|
  {
    hide ArmKnown, Related, Sound, LFire, Fire;
    HeadIsNext(k, a, lo, maxSpan);
    if HeadDue(k) {
      var ops, w := First(script), Next(a);
      FireShrinks(k, ops);
      FireRelated(k, a, prev, ops, lo, maxSpan);
      LFireShrinks(a, w, prev, ops);
      FireArm(k, a, prev, ops, lo, maxSpan);
      DrainArm(Fire(k, ops), LFire(a, w, prev, ops), prev, Rest(script), lo, maxSpan);
    }
  }

  lemma {:induction false} OnElapsedArm(k: Kernel, a: Ledger, n: Tick, script: seq<seq<Op>>, maxSpan: nat)
    requires Aligned(k, a, maxSpan) && 0 < n && HalfRange(n, maxSpan)
    requires ScriptAhead(script) && ScriptUpTo(script, maxSpan) && ArmKnown(k, 0, maxSpan)
    ensures ArmKnown(OnElapsed(k, n, script).0, 0, maxSpan) && AlarmSafe(OnElapsed(k, n, script).0)
  {
    var k1, b := Advance(k, n), a.(now := a.now + n);
    AdvanceRelated(k, a, n, maxSpan);
    if k.armValid { DiffLater(k.armed, k.clock, n); }
    DrainArm(k1, b, a.now, script, a.now, maxSpan);
    DrainRelated(k1, b, a.now, script, a.now, maxSpan);
    var k2, r := Drain(k1, script).0, LDrain(b, a.now, script);
    NothingDueAligned(k2, r, a.now, maxSpan);
    RelatedNear(k2, r, r.now, maxSpan);
    RearmedAhead(k2, n, maxSpan);
  }

  /** After the drain nothing is overdue, so neither is the alarm. */
  lemma {:induction false} RearmedAhead(k: Kernel, late: nat, maxSpan: nat)
    requires ArmKnown(k, late, maxSpan) && QueueNear(k, 0, maxSpan) && HalfRange(late, maxSpan)
    ensures ArmKnown(UpdateAlarm(k), 0, maxSpan) && AlarmSafe(UpdateAlarm(k))
  {
    if k.queue != [] && k.armValid {
      DiffThrough(k.armed, k.queue[0].deadline, k.clock);
    }
  }

  // ---- the history every run writes ----

  /** The times of a fired booking: booked no later than the step before, due by
  the firing step, and not due by any earlier step since it was booked. */
  ghost predicate OnTime(r: Record)
    requires r.status.Fired?
  {
    && r.bookedAt <= r.status.prev < r.status.now && r.deadline <= r.status.now
    && (r.status.prev < r.deadline || (r.status.prev == r.deadline == r.bookedAt))
  }

  /** Two entries of the log: from different steps in time order, or from the same
  step in deadline order with ties in booking order. */
  ghost predicate LogOrdered(a: Ledger, t: nat, u: nat)
    requires t < |a.book| && u < |a.book| && a.book[t].status.Fired? && a.book[u].status.Fired?
  {
    a.book[t].status.now < a.book[u].status.now ||
    (a.book[t].status == a.book[u].status && Sooner(a, t, u))
  }

  ghost predicate Logged(a: Ledger) {
    forall i :: 0 <= i < |a.log| ==> a.log[i] < |a.book| && a.book[a.log[i]].status.Fired?
  }

  /** The log lists every fired ticket exactly once, on time and in order. */
  ghost predicate GoodHistory(a: Ledger) {
    && Logged(a)
    && (forall t :: 0 <= t < |a.book| && a.book[t].status.Fired? ==>
          t in a.log && OnTime(a.book[t]) && a.book[t].status.now <= a.now)
    && (forall i, j :: 0 <= i < j < |a.log| ==> LogOrdered(a, a.log[i], a.log[j]))
  }

  /** Between steps: pending bookings lie ahead, except one for "now". */
  ghost predicate Quiet(a: Ledger) {
    forall t :: 0 <= t < |a.book| && a.book[t].status == Pending ==>
      a.book[t].bookedAt <= a.now && (a.now < a.book[t].deadline || a.now == a.book[t].deadline == a.book[t].bookedAt)
  }

  ghost predicate FiredNow(a: Ledger, t: int) {
    0 <= t < |a.book| && a.book[t].status.Fired? && a.book[t].status.now == a.now
  }

  /** In the middle of a drain that started from time prev. */
  ghost predicate Draining(a: Ledger, prev: nat) {
    && prev < a.now
    && (forall t :: 0 <= t < |a.book| && a.book[t].status == Pending ==>
          && (prev < a.book[t].deadline || prev == a.book[t].deadline == a.book[t].bookedAt)
          && (a.book[t].deadline <= a.now ==> a.book[t].bookedAt <= prev)
          && a.book[t].bookedAt <= a.now)
    && (forall t :: FiredNow(a, t) ==> a.book[t].status.prev == prev && a.book[t].deadline <= a.now)
    && (forall t, u :: FiredNow(a, t) && 0 <= u < |a.book| && a.book[u].status == Pending ==> Sooner(a, t, u))
  }

  /** A cancel or booking changes no fired record and no log entry. */
  lemma {:induction false} DoHistory(a: Ledger, op: Op)
    requires Sound(a) && GoodHistory(a)
    ensures GoodHistory(LDo(a, op))
  {
    DoShape(a, op);
    hide Sound, LDo;
    HistoryKept(a, LDo(a, op));
  }

  lemma {:induction false} HistoryKept(a: Ledger, b: Ledger)
    requires GoodHistory(a) && b.log == a.log && b.now == a.now && |a.book| <= |b.book|
    requires forall t :: 0 <= t < |b.book| && b.book[t].status.Fired? ==> t < |a.book| && b.book[t] == a.book[t]
    requires forall t :: 0 <= t < |a.book| && a.book[t].status.Fired? ==> b.book[t] == a.book[t]
    ensures GoodHistory(b)
  {
    assert Logged(b);
    forall i, j | 0 <= i < j < |b.log|
      ensures LogOrdered(b, b.log[i], b.log[j])
    {
      assert LogOrdered(a, a.log[i], a.log[j]);
    }
  }

  lemma {:induction false} DoQuiet(a: Ledger, op: Op)
    requires Sound(a) && Quiet(a)
    ensures Quiet(LDo(a, op))
  {
    DoShape(a, op);
    hide Sound, LDo;
  }

  /** Old records keep all but a pending status; new ones are the booking made. */
  lemma {:induction false} DoShape(a: Ledger, op: Op)
    requires Sound(a)
    ensures
      var b := LDo(a, op);
      && b.now == a.now && b.log == a.log && |a.book| <= |b.book|
      && (forall t :: 0 <= t < |a.book| && b.book[t].status != Dropped ==> b.book[t] == a.book[t])
      && (forall t :: 0 <= t < |a.book| && a.book[t].status != Pending ==> b.book[t] == a.book[t])
      && (forall t :: |a.book| <= t < |b.book| ==>
            op.Book? && b.book[t] == Record(op.w, a.now + op.span, a.now, Pending))
  {
  }

  lemma {:induction false} DoDraining(a: Ledger, op: Op, prev: nat)
    requires Sound(a) && Draining(a, prev) && (op.Book? ==> 1 <= op.span)
    ensures Draining(LDo(a, op), prev)
  {
    DoShape(a, op);
    hide Sound, LDo;
    var b := LDo(a, op);
    assert forall t :: FiredNow(b, t) ==> FiredNow(a, t) && b.book[t] == a.book[t];
    forall t, u | FiredNow(b, t) && 0 <= u < |b.book| && b.book[u].status == Pending
      ensures Sooner(b, t, u)
    {
      assert FiredNow(a, t);
      if u < |a.book| { assert Sooner(a, t, u); }
    }
  }

  lemma {:induction false} DoAllDraining(a: Ledger, ops: seq<Op>, prev: nat)
    requires Sound(a) && Draining(a, prev) && GoodHistory(a) && Ahead(ops)
    ensures Draining(LDoAll(a, ops), prev) && GoodHistory(LDoAll(a, ops))
    decreases ops
  {
    if ops != [] {
      DoDraining(a, ops[0], prev);
      DoHistory(a, ops[0]);
      DoAllDraining(LDo(a, ops[0]), ops[1..], prev);
    }
  }

  /** Firing the next due booking extends the history properly. */
  lemma {:induction false} FireHistory(a: Ledger, prev: nat)
    requires Sound(a) && Draining(a, prev) && GoodHistory(a) && Due(a) != {}
    ensures
      var t := a.live[Next(a)];
      var b := Close(a, Next(a), Fired(prev, a.now)).(log := a.log + [t]);
      Sound(b) && Draining(b, prev) && GoodHistory(b)
  {
    var w := Next(a);
    var t := a.live[w];
    var b := Close(a, w, Fired(prev, a.now)).(log := a.log + [t]);
    NextBeatsAll(a);
    FiredDraining(a, b, prev, t);
    FiredLog(a, b, prev, t);
  }

  lemma {:induction false} NextBeatsAll(a: Ledger)
    requires Sound(a) && Due(a) != {}
    ensures forall u :: 0 <= u < |a.book| && a.book[u].status == Pending && u != a.live[Next(a)] ==>
              Sooner(a, a.live[Next(a)], u)
  {
    var w := Next(a);
    forall u | 0 <= u < |a.book| && a.book[u].status == Pending && u != a.live[w]
      ensures Sooner(a, a.live[w], u)
    {
      var v := a.book[u].id;
      if v in Due(a) { assert Sooner(a, a.live[w], a.live[v]); }
    }
  }

  ghost predicate Marks(a: Ledger, b: Ledger, prev: nat, t: nat) {
    && t < |a.book| && b.now == a.now && b.log == a.log + [t]
    && b.book == a.book[t := a.book[t].(status := Fired(prev, a.now))]
  }

  lemma {:induction false} FiredDraining(a: Ledger, b: Ledger, prev: nat, t: nat)
    requires Draining(a, prev) && Marks(a, b, prev, t) && a.book[t].status == Pending && a.book[t].deadline <= a.now
    requires forall u :: 0 <= u < |a.book| && a.book[u].status == Pending && u != t ==> Sooner(a, t, u)
    ensures Draining(b, prev)
  {
    forall x | FiredNow(b, x)
      ensures b.book[x].status.prev == prev && b.book[x].deadline <= b.now
    {
      assert x != t ==> FiredNow(a, x);
    }
    forall x, u | FiredNow(b, x) && 0 <= u < |b.book| && b.book[u].status == Pending
      ensures Sooner(b, x, u)
    {
      if x == t { assert Sooner(a, t, u); } else { assert FiredNow(a, x) && Sooner(a, x, u); }
    }
  }

  lemma {:induction false} FiredLog(a: Ledger, b: Ledger, prev: nat, t: nat)
    requires Draining(a, prev) && GoodHistory(a)
    requires Marks(a, b, prev, t) && a.book[t].status == Pending && a.book[t].deadline <= a.now
    ensures GoodHistory(b)
  {
    assert b.log[|a.log|] == t;
    assert OnTime(b.book[t]);
    forall u | 0 <= u < |b.book| && b.book[u].status.Fired?
      ensures u in b.log && OnTime(b.book[u]) && b.book[u].status.now <= b.now
    {
      if u != t { assert u in a.log; }
    }
    forall i, j | 0 <= i < j < |b.log|
      ensures LogOrdered(b, b.log[i], b.log[j])
    {
      var x := a.log[i];
      assert x != t;
      if j < |a.log| {
        assert LogOrdered(a, a.log[i], a.log[j]);
      } else if FiredNow(a, x) {
        assert Sooner(a, x, t);
      }
    }
  }

  lemma {:induction false} DrainHistory(a: Ledger, prev: nat, script: seq<seq<Op>>)
    requires Sound(a) && Draining(a, prev) && GoodHistory(a) && ScriptAhead(script)
    ensures Draining(LDrain(a, prev, script), prev) && GoodHistory(LDrain(a, prev, script))
    decreases |Due(a)|
  {
    hide Draining, GoodHistory;
    if Due(a) != {} {
      var w, ops := Next(a), First(script);
      LFireShrinks(a, w, prev, ops);
      FireHistory(a, prev);
      DoAllDraining(Close(a, w, Fired(prev, a.now)).(log := a.log + [a.live[w]]), ops, prev);
      DrainHistory(LFire(a, w, prev, ops), prev, Rest(script));
    }
  }

  lemma {:induction false} StartDraining(a: Ledger, n: nat)
    requires Sound(a) && Quiet(a) && GoodHistory(a) && n > 0
    ensures
      var b := a.(now := a.now + n);
      Sound(b) && GoodHistory(b) && Draining(b, a.now)
  {
    var b := a.(now := a.now + n);
    forall i, j | 0 <= i < j < |b.log|
      ensures LogOrdered(b, b.log[i], b.log[j])
    {
      assert LogOrdered(a, a.log[i], a.log[j]);
    }
    assert forall t :: !FiredNow(b, t);
  }

  lemma {:induction false} EndDraining(a: Ledger, prev: nat)
    requires Sound(a) && Draining(a, prev) && Due(a) == {}
    ensures Quiet(a)
  {
    forall t | 0 <= t < |a.book| && a.book[t].status == Pending
      ensures a.now < a.book[t].deadline
    {
      assert a.book[t].id !in Due(a);
    }
  }

  lemma {:induction false} ElapsedHistory(a: Ledger, n: nat, script: seq<seq<Op>>)
    requires Sound(a) && Quiet(a) && GoodHistory(a) && ScriptAhead(script)
    ensures Quiet(LElapsed(a, n, script)) && GoodHistory(LElapsed(a, n, script))
  {
    hide Quiet, GoodHistory, Draining;
    if n > 0 {
      var b := a.(now := a.now + n);
      StartDraining(a, n);
      DrainHistory(b, a.now, script);
      EndDraining(LDrain(b, a.now, script), a.now);
    }
  }

  // ---- runs ----

  datatype Step = Call(op: Op) | Elapsed(n: Tick, script: seq<seq<Op>>)

  ghost predicate Legal(step: Step, maxStep: nat, maxSpan: nat) {
    match step
    case Call(op) => op.Book? ==> op.span <= maxSpan
    case Elapsed(n, script) => n <= maxStep && ScriptAhead(script) && ScriptUpTo(script, maxSpan)
  }

  function KStep(k: Kernel, step: Step): (Kernel, seq<nat>)
    requires step.Elapsed? ==> ScriptAhead(step.script)
  {
    match step
    case Call(op) => (Do(k, op), [])
    case Elapsed(n, script) => OnElapsed(k, n, script)
  }

  ghost function LStep(a: Ledger, step: Step): (r: Ledger)
    requires Sound(a) && (step.Elapsed? ==> ScriptAhead(step.script))
    ensures Sound(r)
  {
    match step
    case Call(op) => LDo(a, op)
    case Elapsed(n, script) => LElapsed(a, n, script)
  }

  /** Kernel and ledger taking the same steps from power-on. */
  ghost predicate IsRun(ks: seq<Kernel>, ls: seq<Ledger>, steps: seq<Step>, maxStep: nat, maxSpan: nat) {
    && |ks| == |ls| == |steps| + 1 && ks[0] == Start() && ls[0] == Empty()
    && (forall i :: 0 <= i < |steps| ==> Legal(steps[i], maxStep, maxSpan))
    && (forall i :: 0 <= i < |steps| ==> ks[i + 1] == KStep(ks[i], steps[i]).0)
    && (forall i :: 0 <= i < |steps| ==> Sound(ls[i]) ==> ls[i + 1] == LStep(ls[i], steps[i]))
  }

  ghost predicate RunInv(k: Kernel, a: Ledger, maxSpan: nat) {
    && Sound(a) && Aligned(k, a, maxSpan) && Quiet(a) && GoodHistory(a)
    && ArmKnown(k, 0, maxSpan) && AlarmSafe(k)
  }

  lemma {:induction false} StepInv(k: Kernel, a: Ledger, step: Step, maxStep: nat, maxSpan: nat)
    requires RunInv(k, a, maxSpan) && Legal(step, maxStep, maxSpan) && HalfRange(maxStep, maxSpan)
    ensures RunInv(KStep(k, step).0, LStep(a, step), maxSpan)
    ensures LogGrewBy(|a.log|, LStep(a, step), KStep(k, step).1)
    ensures Extends(a, LStep(a, step))
  {
    match step
    case Call(op) => CallInv(k, a, op, maxSpan);
    case Elapsed(n, script) => ElapsedInv(k, a, n, script, maxSpan);
  }

  lemma {:induction false} CallInv(k: Kernel, a: Ledger, op: Op, maxSpan: nat)
    requires RunInv(k, a, maxSpan) && (op.Book? ==> op.span <= maxSpan)
    ensures RunInv(Do(k, op), LDo(a, op), maxSpan)
    ensures LogGrewBy(|a.log|, LDo(a, op), []) && Extends(a, LDo(a, op))
  {
    DoRelated(k, a, op, a.now, maxSpan);
    DoArm(k, a, op, a.now, maxSpan);
    DoQuiet(a, op);
    DoHistory(a, op);
    LDoExtends(a, op);
  }

  lemma {:induction false} ElapsedInv(k: Kernel, a: Ledger, n: Tick, script: seq<seq<Op>>, maxSpan: nat)
    requires RunInv(k, a, maxSpan) && HalfRange(n, maxSpan) && ScriptAhead(script) && ScriptUpTo(script, maxSpan)
    ensures RunInv(OnElapsed(k, n, script).0, LElapsed(a, n, script), maxSpan)
    ensures LogGrewBy(|a.log|, LElapsed(a, n, script), OnElapsed(k, n, script).1)
    ensures Extends(a, LElapsed(a, n, script))
  {
    hide Related, Quiet, GoodHistory, ArmKnown, AlarmSafe, Drain, LDrain;
    if n > 0 {
      OnElapsedRefines(k, a, n, script, maxSpan);
      ElapsedHistory(a, n, script);
      OnElapsedArm(k, a, n, script, maxSpan);
      LDrainExtends(a.(now := a.now + n), a.now, script);
    }
  }

  /** The wrapping kernel refines the unbounded ledger over every run: always
  aligned, history on time and in order, alarm safe. */
  lemma {:induction false} EveryRun(ks: seq<Kernel>, ls: seq<Ledger>, steps: seq<Step>, maxStep: nat, maxSpan: nat, i: nat)
    requires IsRun(ks, ls, steps, maxStep, maxSpan) && HalfRange(maxStep, maxSpan) && i < |ks|
    ensures RunInv(ks[i], ls[i], maxSpan)
  {
    if i == 0 {
      StartInv(maxSpan);
    } else {
      hide RunInv;
      EveryRun(ks, ls, steps, maxStep, maxSpan, i - 1);
      assert Sound(ls[i - 1]) by { RunInvSound(ks[i - 1], ls[i - 1], maxSpan); }
      assert ks[i - 1 + 1] == ks[i] && ls[i - 1 + 1] == ls[i];
      StepInv(ks[i - 1], ls[i - 1], steps[i - 1], maxStep, maxSpan);
    }
  }

  lemma {:induction false} StartInv(maxSpan: nat)
    requires maxSpan < HALF
    ensures RunInv(Start(), Empty(), maxSpan)
  {
  }

  lemma {:induction false} RunInvSound(k: Kernel, a: Ledger, maxSpan: nat)
    requires RunInv(k, a, maxSpan)
    ensures Sound(a)
  {
  }

  /** In each step the kernel fires exactly the waiters the ledger logs. */
  lemma {:induction false} SameFirings(ks: seq<Kernel>, ls: seq<Ledger>, steps: seq<Step>, maxStep: nat, maxSpan: nat, i: nat)
    requires IsRun(ks, ls, steps, maxStep, maxSpan) && HalfRange(maxStep, maxSpan) && i < |steps|
    ensures LogGrewBy(|ls[i].log|, ls[i + 1], KStep(ks[i], steps[i]).1)
    ensures Extends(ls[i], ls[i + 1])
  {
    EveryRun(ks, ls, steps, maxStep, maxSpan, i);
    StepInv(ks[i], ls[i], steps[i], maxStep, maxSpan);
  }

  lemma {:induction false} FatesAreFinal(ks: seq<Kernel>, ls: seq<Ledger>, steps: seq<Step>, maxStep: nat, maxSpan: nat, i: nat, j: nat)
    requires IsRun(ks, ls, steps, maxStep, maxSpan) && HalfRange(maxStep, maxSpan) && i <= j < |ks|
    ensures Extends(ls[i], ls[j])
    decreases j - i
  {
    if i < j {
      SameFirings(ks, ls, steps, maxStep, maxSpan, i);
      FatesAreFinal(ks, ls, steps, maxStep, maxSpan, i + 1, j);
      ExtendsTrans(ls[i], ls[i + 1], ls[j]);
    }
  }

  /** `cancel` answers true exactly for a live booking, which then never fires. */
  lemma {:induction false} CancelledNeverFires(ks: seq<Kernel>, ls: seq<Ledger>, steps: seq<Step>, maxStep: nat, maxSpan: nat, i: nat, j: nat, w: nat)
    requires IsRun(ks, ls, steps, maxStep, maxSpan) && HalfRange(maxStep, maxSpan) && i < j < |ks|
    requires steps[i] == Call(Cancel(w))
    ensures CancelBooking(ks[i], w).1 <==> w in ls[i].live
    ensures w in ls[i].live ==>
              ls[i].live[w] < |ls[j].book| && ls[j].book[ls[i].live[w]].status == Dropped && ls[i].live[w] !in ls[j].log
  {
    EveryRun(ks, ls, steps, maxStep, maxSpan, i);
    EveryRun(ks, ls, steps, maxStep, maxSpan, j);
    CancelRelated(ks[i], ls[i], w, ls[i].now, maxSpan);
    FatesAreFinal(ks, ls, steps, maxStep, maxSpan, i + 1, j);
    if w in ls[i].live {
      assert ls[i + 1] == LDo(ls[i], Cancel(w));
      assert ls[i + 1].book[ls[i].live[w]].status == Dropped;
    }
  }

  /** After a step every booking whose deadline has come has fired or was dropped. */
  lemma {:induction false} NothingOverdue(ks: seq<Kernel>, ls: seq<Ledger>, steps: seq<Step>, maxStep: nat, maxSpan: nat, i: nat)
    requires IsRun(ks, ls, steps, maxStep, maxSpan) && HalfRange(maxStep, maxSpan) && i < |steps|
    requires steps[i].Elapsed? && steps[i].n > 0
    ensures
      var r := ls[i + 1];
      forall t :: 0 <= t < |r.book| && r.book[t].deadline <= r.now ==> r.book[t].status != Pending
  {
    EveryRun(ks, ls, steps, maxStep, maxSpan, i);
    var r := ls[i + 1];
    assert r == LElapsed(ls[i], steps[i].n, steps[i].script);
    forall t | 0 <= t < |r.book| && r.book[t].status == Pending
      ensures r.now < r.book[t].deadline
    {
      assert r.book[t].id !in Due(r);
    }
  }

  /** The true time of a run is the sum of its elapsed steps. */
  function TimeAt(steps: seq<Step>, i: nat): nat
    requires i <= |steps|
  {
    if i == 0 then 0 else TimeAt(steps, i - 1) + if steps[i - 1].Elapsed? then steps[i - 1].n else 0
  }

  lemma {:induction false} TimeIsElapsed(ks: seq<Kernel>, ls: seq<Ledger>, steps: seq<Step>, maxStep: nat, maxSpan: nat, i: nat)
    requires IsRun(ks, ls, steps, maxStep, maxSpan) && HalfRange(maxStep, maxSpan) && i < |ks|
    ensures ls[i].now == TimeAt(steps, i)
  {
    hide RunInv, LElapsed, LDo, Sound, KStep;
    if i > 0 {
      TimeIsElapsed(ks, ls, steps, maxStep, maxSpan, i - 1);
      EveryRun(ks, ls, steps, maxStep, maxSpan, i - 1);
      RunInvSound(ks[i - 1], ls[i - 1], maxSpan);
      assert ls[i - 1 + 1] == LStep(ls[i - 1], steps[i - 1]);
    }
  }

  /** A booking is entered for exactly the span asked from the true time of the call,
  replaces the waiter's old one, and touches no other waiter. */
  lemma {:induction false} BookedAsAsked(ks: seq<Kernel>, ls: seq<Ledger>, steps: seq<Step>, maxStep: nat, maxSpan: nat, i: nat, w: nat, span: Tick)
    requires IsRun(ks, ls, steps, maxStep, maxSpan) && HalfRange(maxStep, maxSpan) && i < |steps|
    requires steps[i] == Call(Book(w, span))
    ensures Sound(ls[i]) && Sound(ls[i + 1])
    ensures
      var a, b := ls[i], ls[i + 1];
      && w in b.live && b.live[w] == |a.book| && |b.book| == |a.book| + 1
      && b.book[b.live[w]] == Record(w, TimeAt(steps, i) + span, TimeAt(steps, i), Pending)
      && (forall v :: v != w ==> (v in b.live <==> v in a.live))
      && (forall v :: v != w && v in a.live ==> b.live[v] == a.live[v] && b.book[b.live[v]] == a.book[a.live[v]])
      && (w in a.live ==> b.book[a.live[w]].status == Dropped)
  {
    EveryRun(ks, ls, steps, maxStep, maxSpan, i);
    TimeIsElapsed(ks, ls, steps, maxStep, maxSpan, i);
    assert ls[i + 1] == LDo(ls[i], Book(w, span));
    CloseKeeps(ls[i], w, Dropped);
    hide RunInv;
  }

  /** What an idle system is told is the true distance to the next deadline. */
  lemma {:induction false} NextDueInIsTrue(k: Kernel, a: Ledger, maxSpan: nat)
    requires Aligned(k, a, maxSpan)
    ensures NextDueIn(k) == None <==> a.live == map[]
    ensures NextDueIn(k).Some? ==>
              && NextDueIn(k).value >= 0
              && (exists w :: w in a.live && a.book[a.live[w]].deadline == a.now + NextDueIn(k).value)
              && (forall w :: w in a.live ==> a.now + NextDueIn(k).value <= a.book[a.live[w]].deadline)
  {
    if k.queue != [] {
      var h := k.queue[0].id;
      DiffIsTrueIff(a.book[a.live[h]].deadline, a.now);
      forall w | w in a.live
        ensures a.book[a.live[h]].deadline <= a.book[a.live[w]].deadline
      {
        assert Has(k.queue, w);
        var i :| 0 <= i < |k.queue| && k.queue[i].id == w;
        assert i > 0 ==> Ahead2(a, k.queue[0].id, k.queue[i].id);
      }
      assert h in a.live && a.live != map[];
    } else {
      assert forall w :: w in a.live ==> Has(k.queue, w);
      assert a.live == map[];
    }
  }
}
