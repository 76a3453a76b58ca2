/** A periodic timer left alone beats at its period: true time, any other timers
doing anything meanwhile. */
module TimerBeat {
  import opened Lists
  import opened Ticks
  import opened TimeKernelSpec
  import opened TimeLedger
  import opened TimeRuns
  import opened TimerSpec
  import opened TimerRuns
  import opened Arith

  /** The kernel is aligned with some ledger in unbounded time. */
  ghost predicate Tracked(k: Kernel, maxSpan: nat) {
    exists a :: Sound(a) && Aligned(k, a, maxSpan)
  }

  predicate OpsUpTo(ops: seq<TimerOp>, maxSpan: nat) {
    forall i :: 0 <= i < |ops| && !ops[i].Stop? ==> ops[i].span <= maxSpan
  }

  predicate TScriptUpTo(script: seq<seq<TimerOp>>, maxSpan: nat) {
    forall i :: 0 <= i < |script| ==> OpsUpTo(script[i], maxSpan)
  }

  predicate PeriodsUpTo(s: Timers, maxSpan: nat) {
    forall t :: t in s.timers ==> s.timers[t].period <= maxSpan
  }

  lemma {:induction false} ApplyUpTo(s: Timers, op: TimerOp, maxSpan: nat)
    requires PeriodsUpTo(s, maxSpan) && (!op.Stop? ==> op.span <= maxSpan)
    ensures PeriodsUpTo(Apply(s, op), maxSpan)
  {
  }

  lemma {:induction false} ApplyAllUpTo(s: Timers, ops: seq<TimerOp>, maxSpan: nat)
    requires PeriodsUpTo(s, maxSpan) && OpsUpTo(ops, maxSpan)
    ensures PeriodsUpTo(ApplyAll(s, ops), maxSpan)
    decreases ops
  {
    if ops != [] { ApplyAllUpTo(Apply(s, ops[0]), ops[1..], maxSpan); }
  }

  lemma {:induction false} TFireUpTo(s: Timers, ops: seq<TimerOp>, maxSpan: nat)
    requires HeadDue(s.kernel) && PeriodsUpTo(s, maxSpan) && OpsUpTo(ops, maxSpan)
    ensures PeriodsUpTo(TFire(s, ops), maxSpan) && SpansUpTo(FireOps(s, ops), maxSpan)
  {
    ApplyAllUpTo(CoolOff(s), ops, maxSpan);
    hide ApplyAll, Enqueue;
  }

  lemma {:induction false} KernelScriptUpTo(s: Timers, script: seq<seq<TimerOp>>, maxSpan: nat)
    requires ShortPeriods(s) && TScriptAhead(script) && PeriodsUpTo(s, maxSpan) && TScriptUpTo(script, maxSpan)
    ensures ScriptUpTo(KernelScript(s, script), maxSpan) && PeriodsUpTo(TDrain(s, script).0, maxSpan)
    decreases DueCount(s.kernel.queue, s.kernel.clock)
  {
    if HeadDue(s.kernel) {
      TFireShrinks(s, TFirst(script));
      TFireUpTo(s, TFirst(script), maxSpan);
      hide TFire, FireOps, SpansUpTo;
      KernelScriptUpTo(TFire(s, TFirst(script)), TRest(script), maxSpan);
    }
  }

  ghost predicate NothingDue(k: Kernel) {
    forall b :: b in k.queue ==> !IsDue(b.deadline, k.clock)
  }

  lemma {:induction false} AlignedNothingDue(k: Kernel, a: Ledger, maxSpan: nat)
    requires Sound(a) && Aligned(k, a, maxSpan) && Due(a) == {}
    ensures NothingDue(k)
  {
    forall b | b in k.queue
      ensures !IsDue(b.deadline, k.clock)
    {
      var i :| 0 <= i < |k.queue| && k.queue[i] == b;
      assert b.id !in Due(a);
      DiffIsTrueIff(a.now, a.book[a.live[b.id]].deadline);
    }
  }

  lemma {:induction false} TrackedElapsed(s: Timers, n: Tick, script: seq<seq<TimerOp>>, maxSpan: nat)
    requires ShortPeriods(s) && TScriptAhead(script) && PeriodsUpTo(s, maxSpan) && TScriptUpTo(script, maxSpan)
    requires Tracked(s.kernel, maxSpan) && 0 < n && HalfRange(n, maxSpan)
    ensures Tracked(TElapsed(s, n, script).0.kernel, maxSpan) && NothingDue(TElapsed(s, n, script).0.kernel)
    ensures PeriodsUpTo(TElapsed(s, n, script).0, maxSpan)
  {
    var a :| Sound(a) && Aligned(s.kernel, a, maxSpan);
    var s1 := s.(kernel := Advance(s.kernel, n));
    var ks := KernelScript(s1, script);
    TDrainIsDrain(s1, script);
    KernelScriptUpTo(s1, script, maxSpan);
    OnElapsedRefines(s.kernel, a, n, ks, maxSpan);
    hide Aligned, Drain, TDrain, KernelScript, UpdateAlarm;
    assert OnElapsed(s.kernel, n, ks).0 == TElapsed(s, n, script).0.kernel;
    AlignedNothingDue(OnElapsed(s.kernel, n, ks).0, LElapsed(a, n, ks), maxSpan);
  }

  lemma {:induction false} TrackedApply(s: Timers, op: TimerOp, maxSpan: nat)
    requires Tracked(s.kernel, maxSpan) && (!op.Stop? ==> op.span <= maxSpan)
    ensures Tracked(Apply(s, op).kernel, maxSpan)
  {
    var a :| Sound(a) && Aligned(s.kernel, a, maxSpan);
    DoRelated(s.kernel, a, KernelOp(op), a.now, maxSpan);
    hide Related, LDo;
    assert Aligned(Do(s.kernel, KernelOp(op)), LDo(a, KernelOp(op)), maxSpan);
    assert Apply(s, op).kernel == Do(s.kernel, KernelOp(op)) by { hide Enqueue, CancelBooking; }
  }

  // ---- what leaves a timer alone ----

  predicate ScriptSpares(script: seq<seq<TimerOp>>, t: nat) {
    forall i :: 0 <= i < |script| ==> Spares(script[i], t)
  }

  /** Timer b.id is booked as b and has period p. */
  ghost predicate Keeping(s: Timers, b: Booking, p: Tick) {
    Once(s.kernel.queue) && b in s.kernel.queue && Of(s, b.id) == Timer(p, true)
  }

  lemma {:induction false} ApplyKeeps(s: Timers, op: TimerOp, b: Booking, p: Tick)
    requires Keeping(s, b, p) && op.t != b.id
    ensures Keeping(Apply(s, op), b, p) && Apply(s, op).kernel.clock == s.kernel.clock
  {
    if op.Stop? { CancelEffect(s.kernel, op.t); } else { EnqueueEffect(s.kernel, op.t, op.span); }
    hide Once, Enqueue, CancelBooking;
  }

  lemma {:induction false} ApplyAllKeeps(s: Timers, ops: seq<TimerOp>, b: Booking, p: Tick)
    requires Keeping(s, b, p) && Spares(ops, b.id)
    ensures Keeping(ApplyAll(s, ops), b, p) && ApplyAll(s, ops).kernel.clock == s.kernel.clock
    decreases ops
  {
    hide Keeping, Apply;
    if ops != [] {
      ApplyKeeps(s, ops[0], b, p);
      ApplyAllKeeps(Apply(s, ops[0]), ops[1..], b, p);
    }
  }

  lemma {:induction false} OtherFires(s: Timers, ops: seq<TimerOp>, b: Booking, p: Tick)
    requires HeadDue(s.kernel) && Keeping(s, b, p) && s.kernel.queue[0].id != b.id && Spares(ops, b.id)
    ensures Keeping(TFire(s, ops), b, p)
  {
    var u := s.kernel.queue[0].id;
    PopEffect(s.kernel.queue);
    assert Keeping(CoolOff(s), b, p) by { hide Once; }
    ApplyAllKeeps(CoolOff(s), ops, b, p);
    var s1 := ApplyAll(CoolOff(s), ops);
    hide ApplyAll, CoolOff, Once;
    if Of(s1, u).period != 0 { EnqueueEffect(s1.kernel, u, Of(s1, u).period); }
    hide Enqueue;
  }

  /** Its own turn: re-booked one period from now. */
  lemma {:induction false} OwnFires(s: Timers, ops: seq<TimerOp>, b: Booking, p: Tick)
    requires HeadDue(s.kernel) && Keeping(s, b, p) && s.kernel.queue[0].id == b.id && Spares(ops, b.id) && p != 0
    ensures Keeping(TFire(s, ops), Booking(b.id, Plus(s.kernel.clock, p)), p)
  {
    PopEffect(s.kernel.queue);
    OnceThrough(CoolOff(s), ops);
    SparedKeeps(CoolOff(s), ops, b.id);
    var s1 := ApplyAll(CoolOff(s), ops);
    assert Of(s1, b.id).period == p;
    hide ApplyAll, CoolOff, Once;
    EnqueueEffect(s1.kernel, b.id, p);
    hide Enqueue;
  }

  lemma {:induction false} OnceThrough(s: Timers, ops: seq<TimerOp>)
    requires Once(s.kernel.queue)
    ensures Once(ApplyAll(s, ops).kernel.queue) && ApplyAll(s, ops).kernel.clock == s.kernel.clock
    decreases ops
  {
    if ops != [] {
      if ops[0].Stop? { CancelEffect(s.kernel, ops[0].t); } else { EnqueueEffect(s.kernel, ops[0].t, ops[0].span); }
      hide Once, Enqueue, CancelBooking;
      OnceThrough(Apply(s, ops[0]), ops[1..]);
    }
  }

  lemma {:induction false} SparesParts(script: seq<seq<TimerOp>>, t: nat)
    requires ScriptSpares(script, t)
    ensures Spares(TFirst(script), t) && ScriptSpares(TRest(script), t)
  {
  }

  lemma {:induction false} UndueStays(s: Timers, script: seq<seq<TimerOp>>, b: Booking, p: Tick)
    requires ShortPeriods(s) && TScriptAhead(script) && ScriptSpares(script, b.id)
    requires Keeping(s, b, p) && !IsDue(b.deadline, s.kernel.clock)
    ensures b.id !in TDrain(s, script).1 && Keeping(TDrain(s, script).0, b, p)
    decreases DueCount(s.kernel.queue, s.kernel.clock)
  {
    if HeadDue(s.kernel) {
      var ops := TFirst(script);
      SparesParts(script, b.id);
      TFireShrinks(s, ops);
      HeadIs(s, b, p);
      OtherFires(s, ops, b, p);
      hide Keeping, TFire, Spares;
      UndueStays(TFire(s, ops), TRest(script), b, p);
    }
  }

  lemma {:induction false} HeadIs(s: Timers, b: Booking, p: Tick)
    requires Keeping(s, b, p)
    ensures s.kernel.queue[0].id == b.id ==> s.kernel.queue[0] == b
  {
  }

  lemma {:induction false} PeriodicInDrain(s: Timers, script: seq<seq<TimerOp>>, b: Booking, p: Tick)
    requires ShortPeriods(s) && TScriptAhead(script) && ScriptSpares(script, b.id)
    requires Keeping(s, b, p) && p != 0 && p < HALF
    ensures Keeping(TDrain(s, script).0,
                    if b.id in TDrain(s, script).1 then Booking(b.id, Plus(s.kernel.clock, p)) else b, p)
    decreases DueCount(s.kernel.queue, s.kernel.clock)
  {
    if HeadDue(s.kernel) {
      var ops := TFirst(script);
      SparesParts(script, b.id);
      TFireShrinks(s, ops);
      hide Keeping, TFire, Spares;
      if s.kernel.queue[0].id == b.id {
        OwnFires(s, ops, b, p);
        PlusIsAhead(s.kernel.clock, p);
        UndueStays(TFire(s, ops), TRest(script), Booking(b.id, Plus(s.kernel.clock, p)), p);
      } else {
        OtherFires(s, ops, b, p);
        PeriodicInDrain(TFire(s, ops), TRest(script), b, p);
      }
    }
  }

  /** Distance in ticks from now to the booking. */
  function Left(s: Timers, b: Booking): int {
    Diff(b.deadline, s.kernel.clock)
  }

  ghost predicate Beating(s: Timers, b: Booking, p: Tick, maxSpan: nat) {
    && ShortPeriods(s) && PeriodsUpTo(s, maxSpan) && Tracked(s.kernel, maxSpan)
    && Keeping(s, b, p) && 1 <= p <= maxSpan && 1 <= Left(s, b) <= p
  }

  /** One elapsed step of any size: the timer fires exactly when its distance is
  covered, and is then booked one period from now; otherwise it comes closer by
  the step. */
  lemma {:induction false} PeriodicStep(s: Timers, n: Tick, script: seq<seq<TimerOp>>, b: Booking, p: Tick, maxSpan: nat)
      returns (after: Booking)
    requires Beating(s, b, p, maxSpan) && ShortPeriods(s) && 0 < n && HalfRange(n, maxSpan)
    requires TScriptAhead(script) && TScriptUpTo(script, maxSpan) && ScriptSpares(script, b.id)
    ensures
      var (r, fired) := TElapsed(s, n, script);
      && after.id == b.id && Beating(r, after, p, maxSpan)
      && (b.id in fired <==> Left(s, b) <= n)
      && Left(r, after) == if Left(s, b) <= n then p else Left(s, b) - n
  {
    hide Diff, Plus, IsDue, TElapsed, Tracked, Advance;
    var r, fired := TElapsed(s, n, script).0, TElapsed(s, n, script).1;
    var now := Plus(s.kernel.clock, n);
    after := if b.id in fired then Booking(b.id, Plus(now, p)) else b;
    StepKeeps(s, n, script, b, p);
    TrackedElapsed(s, n, script, maxSpan);
    Distances(b.deadline, s.kernel.clock, n, p);
    assert b.id !in fired ==> b in r.kernel.queue;
  }

  lemma {:induction false} Distances(d: Tick, clock: Tick, n: Tick, p: Tick)
    requires 0 <= Diff(d, clock) <= p && HalfRange(n, p)
    ensures
      var now := Plus(clock, n);
      && Diff(d, now) == Diff(d, clock) - n && Diff(Plus(now, p), now) == p
      && (IsDue(d, now) <==> Diff(d, clock) <= n)
  {
    var now := Plus(clock, n);
    DiffLater(d, clock, n);
    DueWhen(d, now);
    PlusDistance(now, p);
  }

  lemma {:induction false} StepKeeps(s: Timers, n: Tick, script: seq<seq<TimerOp>>, b: Booking, p: Tick)
    requires ShortPeriods(s) && Keeping(s, b, p) && 1 <= p < HALF && 0 < n
    requires TScriptAhead(script) && ScriptSpares(script, b.id)
    ensures
      var (r, fired) := TElapsed(s, n, script);
      var now := Plus(s.kernel.clock, n);
      && Keeping(r, if b.id in fired then Booking(b.id, Plus(now, p)) else b, p)
      && r.kernel.clock == now && ShortPeriods(r)
      && (!IsDue(b.deadline, now) ==> b.id !in fired)
  {
    var s1 := s.(kernel := Advance(s.kernel, n));
    assert Keeping(s1, b, p);
    PeriodicInDrain(s1, script, b, p);
    TDrainIsDrain(s1, script);
    TDrainClock(s1, script);
    if !IsDue(b.deadline, s1.kernel.clock) { UndueStays(s1, script, b, p); }
    hide TDrain, IsDue;
    assert UpdateAlarm(TDrain(s1, script).0.kernel).queue == TDrain(s1, script).0.kernel.queue;
    assert UpdateAlarm(TDrain(s1, script).0.kernel).clock == s1.kernel.clock;
    hide UpdateAlarm;
  }

  lemma {:induction false} DueWhen(d: Tick, now: Tick)
    requires -HALF < Diff(d, now)
    ensures IsDue(d, now) <==> Diff(d, now) <= 0
  {
  }

  lemma {:induction false} TDrainClock(s: Timers, script: seq<seq<TimerOp>>)
    requires ShortPeriods(s) && TScriptAhead(script)
    ensures TDrain(s, script).0.kernel.clock == s.kernel.clock
    decreases DueCount(s.kernel.queue, s.kernel.clock)
  {
    if HeadDue(s.kernel) {
      TFireShrinks(s, TFirst(script));
      hide TFire;
      TDrainClock(TFire(s, TFirst(script)), TRest(script));
    }
  }

  // ---- one-shot timers ----

  /** Arming books one node, at the asked distance, and only a periodic timer keeps
  a period. */
  lemma {:induction false} ArmedAsAsked(s: Timers, t: nat, span: Tick)
    requires Once(s.kernel.queue)
    ensures Keeping(Apply(s, Oneshot(t, span)), Booking(t, Plus(s.kernel.clock, span)), 0)
    ensures Keeping(Apply(s, Periodic(t, span)), Booking(t, Plus(s.kernel.clock, span)), span)
    ensures forall b :: b in Apply(s, Oneshot(t, span)).kernel.queue && b.id == t ==> b == Booking(t, Plus(s.kernel.clock, span))
  {
    EnqueueEffect(s.kernel, t, span);
    hide Enqueue, Once;
  }

  lemma {:induction false} PeriodicStartsBeating(s: Timers, t: nat, p: Tick, maxSpan: nat)
    requires Once(s.kernel.queue) && ShortPeriods(s) && PeriodsUpTo(s, maxSpan) && Tracked(s.kernel, maxSpan)
    requires 1 <= p <= maxSpan < HALF
    ensures
      var b := Booking(t, Plus(s.kernel.clock, p));
      Beating(Apply(s, Periodic(t, p)), b, p, maxSpan) && Left(Apply(s, Periodic(t, p)), b) == p
  {
    hide Tracked, Keeping, Apply, Diff, Plus, Once, ShortPeriods, PeriodsUpTo;
    ArmedAsAsked(s, t, p);
    TrackedApply(s, Periodic(t, p), maxSpan);
    ApplyShort(s, Periodic(t, p));
    ApplyUpTo(s, Periodic(t, p), maxSpan);
    StartDistance(s, t, p);
  }

  lemma {:induction false} StartDistance(s: Timers, t: nat, p: Tick)
    requires Once(s.kernel.queue) && p < HALF
    ensures Left(Apply(s, Periodic(t, p)), Booking(t, Plus(s.kernel.clock, p))) == p
  {
    hide Diff, Plus, Enqueue, Once;
    EnqueueEffect(s.kernel, t, p);
    PlusDistance(s.kernel.clock, p);
  }

  lemma {:induction false} PlusDistance(now: Tick, p: Tick)
    requires p < HALF
    ensures Diff(Plus(now, p), now) == p
  {
    DiffIs(Plus(now, p), now, p, -((now + p) / MODULUS));
  }

  lemma {:induction false} SparesArmsNot(script: seq<seq<TimerOp>>, t: nat)
    requires ScriptSpares(script, t)
    ensures !ScriptArms(script, t)
  {
  }

  lemma {:induction false} OwnOneshotFires(s: Timers, ops: seq<TimerOp>, b: Booking)
    requires HeadDue(s.kernel) && Keeping(s, b, 0) && s.kernel.queue[0].id == b.id && Spares(ops, b.id)
    ensures Cold(TFire(s, ops), b.id)
  {
    PopEffect(s.kernel.queue);
    assert Cold(CoolOff(s), b.id);
    ApplyAllCold(CoolOff(s), ops, b.id);
    SparedKeeps(CoolOff(s), ops, b.id);
    hide ApplyAll, Once;
  }

  lemma {:induction false} OneshotInDrain(s: Timers, script: seq<seq<TimerOp>>, b: Booking)
    requires ShortPeriods(s) && TScriptAhead(script) && ScriptSpares(script, b.id) && Keeping(s, b, 0)
    ensures if b.id in TDrain(s, script).1 then Cold(TDrain(s, script).0, b.id) else Keeping(TDrain(s, script).0, b, 0)
    decreases DueCount(s.kernel.queue, s.kernel.clock)
  {
    if HeadDue(s.kernel) {
      var ops := TFirst(script);
      SparesParts(script, b.id);
      TFireShrinks(s, ops);
      hide Keeping, TFire, Spares, Cold;
      if s.kernel.queue[0].id == b.id {
        OwnOneshotFires(s, ops, b);
        SparesArmsNot(TRest(script), b.id);
        TDrainCold(TFire(s, ops), TRest(script), b.id);
      } else {
        OtherFires(s, ops, b, 0);
        OneshotInDrain(TFire(s, ops), TRest(script), b);
      }
    }
  }

  /** A one-shot timer left alone fires in exactly the step that covers its span,
  and is cold from then on. */
  lemma {:induction false} OneshotStep(s: Timers, n: Tick, script: seq<seq<TimerOp>>, b: Booking, maxSpan: nat)
    requires ShortPeriods(s) && PeriodsUpTo(s, maxSpan) && Tracked(s.kernel, maxSpan) && TimersOk(s, None)
    requires Keeping(s, b, 0) && 0 <= Left(s, b) <= maxSpan && 0 < n && HalfRange(n, maxSpan)
    requires TScriptAhead(script) && TScriptUpTo(script, maxSpan) && ScriptSpares(script, b.id)
    ensures
      var (r, fired) := TElapsed(s, n, script);
      && (b.id in fired <==> Left(s, b) <= n)
      && (if Left(s, b) <= n then Of(r, b.id) == Timer(0, false) && !Booked(r.kernel, b.id)
          else Keeping(r, b, 0) && Left(r, b) == Left(s, b) - n)
  {
    hide Diff, Plus, IsDue, TElapsed, Tracked, Once;
    var r, fired := TElapsed(s, n, script).0, TElapsed(s, n, script).1;
    OneshotOutcome(s, n, script, b);
    TElapsedOk(s, n, script);
    TrackedElapsed(s, n, script, maxSpan);
    Distances(b.deadline, s.kernel.clock, n, maxSpan);
    assert b.id !in fired ==> b in r.kernel.queue;
    if b.id in fired { assert !Of(r, b.id).running; }
  }

  lemma {:induction false} OneshotOutcome(s: Timers, n: Tick, script: seq<seq<TimerOp>>, b: Booking)
    requires ShortPeriods(s) && Keeping(s, b, 0) && 0 < n && TScriptAhead(script) && ScriptSpares(script, b.id)
    ensures
      var (r, fired) := TElapsed(s, n, script);
      var now := Plus(s.kernel.clock, n);
      && r.kernel.clock == now
      && (!IsDue(b.deadline, now) ==> b.id !in fired)
      && (if b.id in fired then Cold(r, b.id) else Keeping(r, b, 0))
  {
    var s1 := s.(kernel := Advance(s.kernel, n));
    assert Keeping(s1, b, 0);
    OneshotInDrain(s1, script, b);
    TDrainClock(s1, script);
    if !IsDue(b.deadline, s1.kernel.clock) { UndueStays(s1, script, b, 0); }
    hide TDrain, IsDue;
    assert UpdateAlarm(TDrain(s1, script).0.kernel).queue == TDrain(s1, script).0.kernel.queue;
    assert UpdateAlarm(TDrain(s1, script).0.kernel).clock == s1.kernel.clock;
    hide UpdateAlarm;
  }

  // ---- tick by tick ----

  ghost predicate LeavesAlone(step: TStep, t: nat, maxSpan: nat) {
    match step
    case Call(op) => op.t != t && (!op.Stop? ==> op.span <= maxSpan)
    case Tick(n, script) => n == 1 && TScriptAhead(script) && TScriptUpTo(script, maxSpan) && ScriptSpares(script, t)
  }

  function TickCount(steps: seq<TStep>): nat {
    if steps == [] then 0 else TickCount(steps[..|steps| - 1]) + if steps[|steps| - 1].Tick? then 1 else 0
  }

  lemma {:induction false} CallBeats(s: Timers, op: TimerOp, b: Booking, p: Tick, maxSpan: nat)
    requires Beating(s, b, p, maxSpan) && op.t != b.id && (!op.Stop? ==> op.span <= maxSpan) && maxSpan < HALF
    ensures Beating(Apply(s, op), b, p, maxSpan) && Left(Apply(s, op), b) == Left(s, b)
  {
    hide Tracked, Keeping, Apply;
    ApplyKeeps(s, op, b, p);
    TrackedApply(s, op, maxSpan);
    ApplyShort(s, op);
    ApplyUpTo(s, op, maxSpan);
  }

  // ---- remainders ----

  function Phase(m: nat, p: nat): nat
    requires p >= 1
  {
    m % p
  }

  lemma {:induction false} NextPhase(m: nat, p: nat)
    requires p >= 1
    ensures 0 <= Phase(m, p) < p
    ensures Phase(m + 1, p) == if Phase(m, p) + 1 == p then 0 else Phase(m, p) + 1
  {
    var q, r := m / p, m % p;
    assert m == q * p + r;
    if r + 1 < p {
      assert m + 1 == q * p + (r + 1);
      DivMod(q, r + 1, p);
    } else {
      assert m + 1 == (q + 1) * p + 0;
      DivMod(q + 1, 0, p);
    }
  }

  lemma {:induction false} PhaseZero(p: nat)
    requires p >= 1
    ensures Phase(0, p) == 0
  {
    DivMod(0, 0, p);
  }

  /** A stretch of a run in which timer t is left alone. */
  ghost predicate Stretch(ss: seq<Timers>, steps: seq<TStep>, t: nat, maxSpan: nat) {
    && |ss| == |steps| + 1
    && (forall m :: 0 <= m < |steps| ==> LeavesAlone(steps[m], t, maxSpan) && TLegal(steps[m]))
    && (forall m :: 0 <= m < |steps| && ShortPeriods(ss[m]) ==> ss[m + 1] == TNext(ss[m], steps[m]).0)
  }

  /** Started p ticks ahead, the timer fires at tick p, 2p, 3p, ... and at no
  other, whatever the other timers, tasks and callbacks do. */
  lemma {:induction false} BeatsAtPeriod(ss: seq<Timers>, steps: seq<TStep>, b: Booking, p: Tick, maxSpan: nat, i: nat)
      returns (now: Booking)
    requires Stretch(ss, steps, b.id, maxSpan) && i < |ss| && HalfRange(1, maxSpan) && p >= 1
    requires Beating(ss[0], b, p, maxSpan) && Left(ss[0], b) == p
    ensures now.id == b.id && Beating(ss[i], now, p, maxSpan) && ShortPeriods(ss[i])
    ensures Left(ss[i], now) == p - Phase(TickCount(steps[..i]), p)
    ensures i < |steps| && steps[i].Tick? ==>
              (b.id in TNext(ss[i], steps[i]).1 <==> Phase(TickCount(steps[..i]) + 1, p) == 0)
  {
    hide Beating, TNext, Left, Phase, ShortPeriods, LeavesAlone;
    if i == 0 {
      now := b;
      assert TickCount(steps[..0]) == 0;
      PhaseZero(p);
    } else {
      var before := BeatsAtPeriod(ss, steps, b, p, maxSpan, i - 1);
      assert ss[i - 1 + 1] == TNext(ss[i - 1], steps[i - 1]).0;
      now := OneMore(ss[i - 1], steps[i - 1], before, p, maxSpan);
      var m := TickCount(steps[..i - 1]);
      NextPhase(m, p);
      assert steps[..i][..i - 1] == steps[..i - 1];
      assert TickCount(steps[..i]) == m + if steps[i - 1].Tick? then 1 else 0;
      BeatingShort(ss[i], now, p, maxSpan);
    }
    BeatingShort(ss[i], now, p, maxSpan);
    if i < |steps| && steps[i].Tick? {
      var _ := OneMore(ss[i], steps[i], now, p, maxSpan);
      NextPhase(TickCount(steps[..i]), p);
    }
  }

  lemma {:induction false} BeatingShort(s: Timers, b: Booking, p: Tick, maxSpan: nat)
    requires Beating(s, b, p, maxSpan)
    ensures ShortPeriods(s)
  {
  }

  lemma {:induction false} OneMore(s: Timers, step: TStep, b: Booking, p: Tick, maxSpan: nat) returns (now: Booking)
    requires Beating(s, b, p, maxSpan) && ShortPeriods(s) && LeavesAlone(step, b.id, maxSpan) && TLegal(step)
    requires HalfRange(1, maxSpan)
    ensures
      var (r, fired) := TNext(s, step);
      && now.id == b.id && Beating(r, now, p, maxSpan)
      && (step.Tick? ==> (b.id in fired <==> Left(s, b) <= 1))
      && Left(r, now) == if step.Tick? then (if Left(s, b) <= 1 then p else Left(s, b) - 1) else Left(s, b)
  {
    hide Beating, TElapsed, Apply, Left;
    match step
    case Call(op) =>
      now := b;
      CallBeats(s, op, b, p, maxSpan);
    case Tick(n, script) =>
      now := PeriodicStep(s, n, script, b, p, maxSpan);
  }
}
