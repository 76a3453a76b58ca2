/** Timers from power-on: when exactly a timer fires, in terms of the call that armed
it and the ticks since. */
module TimerHistory {
  import opened Lists
  import opened Ticks
  import opened TimeKernelSpec
  import opened TimeLedger
  import opened TimerSpec
  import opened TimerRuns
  import opened TimerBeat

  ghost predicate Bounded(step: TStep, maxStep: nat, maxSpan: nat) {
    match step
    case Call(op) => !op.Stop? ==> op.span <= maxSpan
    case Tick(n, script) => n <= maxStep && TScriptUpTo(script, maxSpan)
  }

  /** A run from power-on whose steps and spans stay within the half range. */
  ghost predicate BoundedRun(ss: seq<Timers>, steps: seq<TStep>, maxStep: nat, maxSpan: nat) {
    && IsTRun(ss, steps) && HalfRange(maxStep, maxSpan)
    && (forall i :: 0 <= i < |steps| ==> Bounded(steps[i], maxStep, maxSpan))
  }

  ghost predicate Sane(s: Timers, maxSpan: nat) {
    ShortPeriods(s) && PeriodsUpTo(s, maxSpan) && Tracked(s.kernel, maxSpan) && TimersOk(s, None)
  }

  lemma {:induction false} StartTracked(maxSpan: nat)
    requires maxSpan < HALF
    ensures Tracked(Start(), maxSpan)
  {
    assert Aligned(Start(), Empty(), maxSpan);
  }

  lemma {:induction false} SaneStep(s: Timers, step: TStep, maxStep: nat, maxSpan: nat)
    requires Sane(s, maxSpan) && ShortPeriods(s) && TLegal(step) && Bounded(step, maxStep, maxSpan)
    requires HalfRange(maxStep, maxSpan)
    ensures Sane(TNext(s, step).0, maxSpan)
  {
    hide Tracked, TimersOk, Apply, TElapsed;
    match step
    case Call(op) =>
      TrackedApply(s, op, maxSpan);
      ApplyUpTo(s, op, maxSpan);
      ApplyShort(s, op);
      ApplyOk(s, op, None);
    case Tick(n, script) =>
      TElapsedOk(s, n, script);
      if n > 0 { TrackedElapsed(s, n, script, maxSpan); } else { StandStill(s, script); }
  }

  lemma {:induction false} StandStill(s: Timers, script: seq<seq<TimerOp>>)
    requires ShortPeriods(s) && TScriptAhead(script)
    ensures TElapsed(s, 0, script) == (s, [])
  {
  }

  /** Every state of every bounded run is aligned with unbounded time. */
  lemma {:induction false} EveryRunSane(ss: seq<Timers>, steps: seq<TStep>, maxStep: nat, maxSpan: nat, i: nat)
    requires BoundedRun(ss, steps, maxStep, maxSpan) && i < |ss|
    ensures Sane(ss[i], maxSpan) && ShortPeriods(ss[i])
  {
    if i == 0 {
      StartTracked(maxSpan);
      StartOk();
      hide Tracked, TimersOk;
    } else {
      EveryRunSane(ss, steps, maxStep, maxSpan, i - 1);
      hide Sane, TNext, TLegal, Bounded;
      SaneStep(ss[i - 1], steps[i - 1], maxStep, maxSpan);
      assert ss[i - 1 + 1] == TNext(ss[i - 1], steps[i - 1]).0;
      EveryTimerRun(ss, steps, i);
    }
  }

  // ---- periodic timers ----

  /** A periodic timer started by step i and left alone since, ticks coming one by
  one, fires in tick step j exactly when that is the p-th, 2p-th, 3p-th ... tick. */
  lemma {:induction false} PeriodicFiresIff(ss: seq<Timers>, steps: seq<TStep>, maxStep: nat, maxSpan: nat, i: nat, j: nat, t: nat, p: Tick)
    requires BoundedRun(ss, steps, maxStep, maxSpan) && i < j < |steps|
    requires steps[i] == Call(Periodic(t, p)) && p >= 1 && steps[j].Tick?
    requires forall m :: i < m <= j ==> LeavesAlone(steps[m], t, maxSpan)
    ensures ShortPeriods(ss[j])
    ensures t in TNext(ss[j], steps[j]).1 <==> Phase(TickCount(steps[i + 1..j]) + 1, p) == 0
  {
    hide Sane, Beating, TNext, Phase, Left, LeavesAlone, Plus, ShortPeriods, Stretch, Bounded;
    EveryRunSane(ss, steps, maxStep, maxSpan, j);
    PeriodicStarted(ss, steps, maxStep, maxSpan, i, t, p);
    StretchOf(ss, steps, maxStep, maxSpan, i, j, t);
    assert HalfRange(1, maxSpan) by { OneTickInRange(steps[j], t, maxStep, maxSpan); }
    var b := Booking(t, Plus(ss[i].kernel.clock, p));
    var ss', steps' := ss[i + 1..j + 2], steps[i + 1..j + 1];
    assert ss'[0] == ss[i + 1];
    var _ := BeatsAtPeriod(ss', steps', b, p, maxSpan, j - i - 1);
    assert steps'[j - i - 1] == steps[j] && ss'[j - i - 1] == ss[j];
    assert steps'[..j - i - 1] == steps[i + 1..j];
  }

  lemma {:induction false} OneTickInRange(step: TStep, t: nat, maxStep: nat, maxSpan: nat)
    requires step.Tick? && LeavesAlone(step, t, maxSpan) && Bounded(step, maxStep, maxSpan) && HalfRange(maxStep, maxSpan)
    ensures HalfRange(1, maxSpan)
  {
  }

  lemma {:induction false} PeriodicStarted(ss: seq<Timers>, steps: seq<TStep>, maxStep: nat, maxSpan: nat, i: nat, t: nat, p: Tick)
    requires BoundedRun(ss, steps, maxStep, maxSpan) && i < |steps|
    requires steps[i] == Call(Periodic(t, p)) && p >= 1
    ensures
      var b := Booking(t, Plus(ss[i].kernel.clock, p));
      Beating(ss[i + 1], b, p, maxSpan) && Left(ss[i + 1], b) == p
  {
    EveryRunSane(ss, steps, maxStep, maxSpan, i);
    assert Bounded(steps[i], maxStep, maxSpan);
    PeriodicStartsBeating(ss[i], t, p, maxSpan);
    assert ss[i + 1] == TNext(ss[i], steps[i]).0;
    hide Tracked, Beating, Left, Plus, Enqueue;
  }

  lemma {:induction false} StretchOf(ss: seq<Timers>, steps: seq<TStep>, maxStep: nat, maxSpan: nat, i: nat, j: nat, t: nat)
    requires BoundedRun(ss, steps, maxStep, maxSpan) && i < j < |steps|
    requires forall m :: i < m <= j ==> LeavesAlone(steps[m], t, maxSpan)
    ensures Stretch(ss[i + 1..j + 2], steps[i + 1..j + 1], t, maxSpan)
  {
    hide LeavesAlone, TNext, ShortPeriods, TLegal;
    var ss', steps' := ss[i + 1..j + 2], steps[i + 1..j + 1];
    forall m | 0 <= m < |steps'|
      ensures LeavesAlone(steps'[m], t, maxSpan) && TLegal(steps'[m])
      ensures ShortPeriods(ss'[m]) ==> ss'[m + 1] == TNext(ss'[m], steps'[m]).0
    {
      var n := i + 1 + m;
      assert steps'[m] == steps[n] && ss'[m] == ss[n] && ss'[m + 1] == ss[n + 1];
    }
  }

  // ---- one-shot timers ----

  /** Steps of any size that do not touch timer t. */
  predicate StepSpares(step: TStep, t: nat) {
    match step
    case Call(op) => op.t != t
    case Tick(_, script) => ScriptSpares(script, t)
  }

  /** Ticks that pass from state i to state j. */
  function Passed(steps: seq<TStep>, i: nat, j: nat): nat
    requires i <= j <= |steps|
    decreases j
  {
    if i == j then 0 else Passed(steps, i, j - 1) + if steps[j - 1].Tick? then steps[j - 1].n else 0
  }

  /** Not due yet; a span of 0 waits for the first tick. */
  predicate Waiting(passed: nat, span: nat) {
    passed < span || passed == 0
  }

  /** What is known of the timer after `passed` ticks. */
  ghost predicate OneshotAt(s: Timers, b: Booking, span: Tick, passed: nat) {
    if Waiting(passed, span) then Keeping(s, b, 0) && Left(s, b) == span - passed
    else !Booked(s.kernel, b.id)
  }

  lemma {:induction false} OneshotMoves(s: Timers, step: TStep, b: Booking, span: Tick, passed: nat, maxStep: nat, maxSpan: nat)
    requires Sane(s, maxSpan) && ShortPeriods(s) && TLegal(step) && Bounded(step, maxStep, maxSpan)
    requires HalfRange(maxStep, maxSpan) && StepSpares(step, b.id) && span <= maxSpan && OneshotAt(s, b, span, passed)
    ensures
      var (r, fired) := TNext(s, step);
      var after := passed + if step.Tick? then step.n else 0;
      OneshotAt(r, b, span, after) && (b.id in fired <==> Waiting(passed, span) && !Waiting(after, span))
  {
    hide Tracked;
    match step
    case Call(op) =>
      if Waiting(passed, span) { ApplyKeeps(s, op, b, 0); } else { ApplyCold(s, op, b.id); }
      hide TimersOk, Apply;
    case Tick(n, script) =>
      if n == 0 {
        StandStill(s, script);
      } else if Waiting(passed, span) {
        OneshotStep(s, n, script, b, maxSpan);
      } else {
        SparesArmsNot(script, b.id);
        StepCold(s, step, b.id);
      }
      hide TimersOk, TElapsed, Keeping;
  }

  lemma {:induction false} OneshotTracked(ss: seq<Timers>, steps: seq<TStep>, maxStep: nat, maxSpan: nat, i: nat, j: nat, t: nat, span: Tick)
    requires BoundedRun(ss, steps, maxStep, maxSpan) && i < j <= |steps| && steps[i] == Call(Oneshot(t, span))
    requires forall m :: i < m < j ==> StepSpares(steps[m], t)
    ensures OneshotAt(ss[j], Booking(t, Plus(ss[i].kernel.clock, span)), span, Passed(steps, i + 1, j))
    decreases j
  {
    if j == i + 1 {
      EveryRunSane(ss, steps, maxStep, maxSpan, i);
      assert Bounded(steps[i], maxStep, maxSpan);
      OneshotStarts(ss[i], t, span);
      assert ss[i + 1] == TNext(ss[i], steps[i]).0;
    } else {
      OneshotTracked(ss, steps, maxStep, maxSpan, i, j - 1, t, span);
      EveryRunSane(ss, steps, maxStep, maxSpan, j - 1);
      assert Bounded(steps[i], maxStep, maxSpan);
      hide Sane, OneshotAt, TNext, Plus, StepSpares;
      OneshotMoves(ss[j - 1], steps[j - 1], Booking(t, Plus(ss[i].kernel.clock, span)), span,
                   Passed(steps, i + 1, j - 1), maxStep, maxSpan);
      assert ss[j - 1 + 1] == TNext(ss[j - 1], steps[j - 1]).0;
    }
  }

  lemma {:induction false} OneshotStarts(s: Timers, t: nat, span: Tick)
    requires TimersOk(s, None) && span < HALF
    ensures OneshotAt(Apply(s, Oneshot(t, span)), Booking(t, Plus(s.kernel.clock, span)), span, 0)
  {
    ArmedAsAsked(s, t, span);
    EnqueueEffect(s.kernel, t, span);
    PlusDistance(s.kernel.clock, span);
    hide TimersOk, Enqueue, Plus, Diff, Keeping;
  }

  /** A one-shot timer armed by step i and left alone since fires in exactly the step
  in which the ticks since then reach its span, and never again. */
  lemma {:induction false} OneshotFiresIff(ss: seq<Timers>, steps: seq<TStep>, maxStep: nat, maxSpan: nat, i: nat, j: nat, t: nat, span: Tick)
    requires BoundedRun(ss, steps, maxStep, maxSpan) && i < j < |steps| && steps[i] == Call(Oneshot(t, span))
    requires forall m :: i < m <= j ==> StepSpares(steps[m], t)
    ensures ShortPeriods(ss[j])
    ensures t in TNext(ss[j], steps[j]).1 <==>
            Waiting(Passed(steps, i + 1, j), span) && !Waiting(Passed(steps, i + 1, j + 1), span)
  {
    OneshotTracked(ss, steps, maxStep, maxSpan, i, j, t, span);
    EveryRunSane(ss, steps, maxStep, maxSpan, j);
    assert Bounded(steps[i], maxStep, maxSpan);
    hide Sane, OneshotAt, TNext, Plus, StepSpares;
    OneshotMoves(ss[j], steps[j], Booking(t, Plus(ss[i].kernel.clock, span)), span, Passed(steps, i + 1, j), maxStep, maxSpan);
  }
}
