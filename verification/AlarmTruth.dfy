/** What the alarm is set for, in true time: a deadline that was asked for, not just
some moment before it. */
module AlarmTruth {
  import opened Lists
  import opened Ticks
  import opened TimeKernelSpec
  import opened TimeLedger
  import opened TimeRuns

  /** Ticket t is what the alarm was armed for, and it goes off then if that is still
  ahead. */
  ghost predicate ArmedFor(k: Kernel, a: Ledger, lo: nat, maxSpan: nat, t: nat) {
    && t < |a.book| && lo <= a.book[t].deadline <= a.now + maxSpan
    && k.armed == Wrap(a.book[t].deadline)
    && (a.book[t].deadline > a.now ==> k.port == Alarm(a.book[t].deadline - a.now))
  }

  ghost predicate ArmTrue(k: Kernel, a: Ledger, lo: nat, maxSpan: nat) {
    (k.armValid <==> k.port.Alarm?) && (k.armValid ==> exists t :: ArmedFor(k, a, lo, maxSpan, t))
  }

  /** The alarm goes off at the deadline of a booking that was made at some time, or at
  the next tick for one that is due already. */
  ghost predicate AlarmExact(k: Kernel, a: Ledger)
    requires Sound(a)
  {
    k.port.Alarm? ==>
      || (exists t :: 0 <= t < |a.book| && a.now + k.port.left == a.book[t].deadline > a.now)
      || (k.port.left == 1 && Due(a) != {})
  }

  lemma {:induction false} ArmedDistance(k: Kernel, a: Ledger, lo: nat, maxSpan: nat, t: nat)
    requires k.clock == Wrap(a.now) && lo <= a.now && HalfRange(a.now - lo, maxSpan) && ArmedFor(k, a, lo, maxSpan, t)
    ensures Diff(k.armed, k.clock) == a.book[t].deadline - a.now
  {
    DiffIsTrueIff(a.book[t].deadline, a.now);
  }

  lemma {:induction false} HeadDistance(k: Kernel, a: Ledger, lo: nat, maxSpan: nat)
    requires Sound(a) && Related(k, a, lo, maxSpan) && k.queue != []
    ensures
      var h := k.queue[0].id;
      && h in a.live && lo <= a.book[a.live[h]].deadline <= a.now + maxSpan && lo <= a.now
      && k.queue[0].deadline == Wrap(a.book[a.live[h]].deadline)
      && Diff(k.queue[0].deadline, k.clock) == a.book[a.live[h]].deadline - a.now
  {
    DiffIsTrueIff(a.book[a.live[k.queue[0].id]].deadline, a.now);
  }

  predicate KeepsAlarm(k: Kernel) {
    k.armValid && Diff(k.armed, k.clock) > 0 && UpdateAlarm(k) == k
  }

  function Rearmed(k: Kernel): Kernel
    requires k.queue != []
  {
    k.(port := Alarm(Max(1, Diff(k.queue[0].deadline, k.clock))), armed := k.queue[0].deadline, armValid := true)
  }

  /** An alarm still ahead may be kept; otherwise the head gets it. */
  lemma {:induction false} UpdateCases(k: Kernel)
    ensures k.queue != [] ==> KeepsAlarm(k) || UpdateAlarm(k) == Rearmed(k)
    ensures k.queue == [] ==> !UpdateAlarm(k).armValid && ((k.armValid <==> k.port.Alarm?) ==> !UpdateAlarm(k).port.Alarm?)
  {
  }

  /** Every re-arming is for the true deadline of the head. */
  lemma {:induction false} RearmedTrue(k: Kernel, a: Ledger, lo: nat, maxSpan: nat)
    requires Sound(a) && Related(k, a, lo, maxSpan) && k.queue != []
    ensures ArmTrue(Rearmed(k), a, lo, maxSpan) && AlarmExact(Rearmed(k), a)
  {
    HeadDistance(k, a, lo, maxSpan);
    var h := a.live[k.queue[0].id];
    hide Related, Diff;
    assert ArmedFor(Rearmed(k), a, lo, maxSpan, h);
    if a.book[h].deadline <= a.now { assert k.queue[0].id in Due(a); }
  }

  /** An alarm that is kept is still ahead, so it counts from now on. */
  lemma {:induction false} KeptTrue(k: Kernel, a: Ledger, lo: nat, from: nat, maxSpan: nat)
    requires Sound(a) && k.clock == Wrap(a.now) && lo <= a.now && HalfRange(a.now - lo, maxSpan) && from <= a.now
    requires ArmTrue(k, a, lo, maxSpan) && KeepsAlarm(k)
    ensures ArmTrue(k, a, from, maxSpan) && AlarmExact(k, a)
  {
    hide Diff, UpdateAlarm;
    var t :| ArmedFor(k, a, lo, maxSpan, t);
    ArmedDistance(k, a, lo, maxSpan, t);
    assert ArmedFor(k, a, from, maxSpan, t);
  }

  lemma {:induction false} OffTrue(k: Kernel, a: Ledger, lo: nat, maxSpan: nat)
    requires Sound(a) && !k.armValid && !k.port.Alarm?
    ensures ArmTrue(k, a, lo, maxSpan) && AlarmExact(k, a)
  {
  }

  lemma {:induction false} UpdateArmTrue(k: Kernel, a: Ledger, lo: nat, from: nat, maxSpan: nat)
    requires Sound(a) && Related(k, a, lo, maxSpan) && Related(k, a, from, maxSpan) && ArmTrue(k, a, lo, maxSpan)
    requires k.clock == Wrap(a.now) && lo <= a.now && HalfRange(a.now - lo, maxSpan) && from <= a.now
    ensures ArmTrue(UpdateAlarm(k), a, from, maxSpan) && AlarmExact(UpdateAlarm(k), a)
  {
    UpdateCases(k);
    assert k.armValid <==> k.port.Alarm?;
    hide UpdateAlarm, Related, ArmTrue, AlarmExact, Rearmed;
    if k.queue == [] {
      OffTrue(UpdateAlarm(k), a, from, maxSpan);
    } else if KeepsAlarm(k) {
      KeptTrue(k, a, lo, from, maxSpan);
    } else {
      RearmedTrue(k, a, from, maxSpan);
    }
  }

  /** Lazy, and exactly so: the hardware is left alone iff its alarm is still ahead and
  not later than the head; otherwise it is armed for the head. */
  lemma {:induction false} LeftAloneIff(k: Kernel, a: Ledger, maxSpan: nat, t: nat)
    requires Sound(a) && Aligned(k, a, maxSpan) && k.queue != [] && k.armValid && ArmedFor(k, a, a.now, maxSpan, t)
    ensures k.queue[0].id in a.live
    ensures UpdateAlarm(k) ==
            if a.now < a.book[t].deadline <= a.book[a.live[k.queue[0].id]].deadline then k else Rearmed(k)
  {
    HeadDistance(k, a, a.now, maxSpan);
    RelatedRange(k, a, a.now, maxSpan);
    ArmedDistance(k, a, a.now, maxSpan, t);
    DiffIsTrueIff(a.book[t].deadline, a.book[a.live[k.queue[0].id]].deadline);
    hide Diff, Related;
  }

  // ---- through every operation ----

  /** Bookings are never forgotten, so what the alarm was armed for stays on record. */
  lemma {:induction false} ArmStays(k: Kernel, a: Ledger, r: Kernel, b: Ledger, lo: nat, maxSpan: nat)
    requires ArmTrue(k, a, lo, maxSpan) && Extends(a, b) && b.now == a.now
    requires r.armed == k.armed && r.armValid == k.armValid && r.port == k.port
    ensures ArmTrue(r, b, lo, maxSpan)
  {
    if k.armValid {
      var t :| ArmedFor(k, a, lo, maxSpan, t);
      assert ArmedFor(r, b, lo, maxSpan, t);
    }
  }

  lemma {:induction false} DoArmTrue(k: Kernel, a: Ledger, op: Op, lo: nat, maxSpan: nat)
    requires Sound(a) && Related(k, a, lo, maxSpan) && (op.Book? ==> op.span <= maxSpan) && ArmTrue(k, a, lo, maxSpan)
    ensures ArmTrue(Do(k, op), LDo(a, op), lo, maxSpan) && AlarmExact(Do(k, op), LDo(a, op))
  {
    var q := match op
      case Book(w, span) => Insert(ByDeadline(), Drop(k.queue, Node(w)), Booking(w, Plus(k.clock, span)))
      case Cancel(w) => Drop(k.queue, Node(w));
    var k1, b := k.(queue := q), LDo(a, op);
    assert Do(k, op) == UpdateAlarm(k1);
    LDoExtends(a, op);
    hide ArmTrue, Extends, LDo, UpdateAlarm;
    ArmStays(k, a, k1, b, lo, maxSpan);
    QueueRelated(k, a, op, lo, maxSpan);
    assert lo <= a.now && HalfRange(a.now - lo, maxSpan) && k.clock == Wrap(a.now);
    hide Related;
    UpdateArmTrue(k1, b, lo, lo, maxSpan);
  }

  /** The queue is right before the alarm is looked at. */
  lemma {:induction false} QueueRelated(k: Kernel, a: Ledger, op: Op, lo: nat, maxSpan: nat)
    requires Sound(a) && Related(k, a, lo, maxSpan) && (op.Book? ==> op.span <= maxSpan)
    ensures
      var q := match op
        case Book(w, span) => Insert(ByDeadline(), Drop(k.queue, Node(w)), Booking(w, Plus(k.clock, span)))
        case Cancel(w) => Drop(k.queue, Node(w));
      Related(k.(queue := q), LDo(a, op), lo, maxSpan)
  {
    hide Matches, Within, Insert, Drop, Plus;
    DoRelated(k, a, op, lo, maxSpan);
    var q := match op
      case Book(w, span) => Insert(ByDeadline(), Drop(k.queue, Node(w)), Booking(w, Plus(k.clock, span)))
      case Cancel(w) => Drop(k.queue, Node(w));
    UpdateAlarmKeeps(k.(queue := q));
  }

  lemma {:induction false} DoAllArmTrue(k: Kernel, a: Ledger, ops: seq<Op>, lo: nat, maxSpan: nat)
    requires Sound(a) && Related(k, a, lo, maxSpan) && SpansUpTo(ops, maxSpan) && ArmTrue(k, a, lo, maxSpan)
    ensures ArmTrue(DoAll(k, ops), LDoAll(a, ops), lo, maxSpan)
    decreases ops
  {
    hide Related, ArmTrue, Sound, Do, LDo;
    if ops != [] {
      DoArmTrue(k, a, ops[0], lo, maxSpan);
      DoRelated(k, a, ops[0], lo, maxSpan);
      DoAllArmTrue(Do(k, ops[0]), LDo(a, ops[0]), ops[1..], lo, maxSpan);
    }
  }

  lemma {:induction false} FireArmTrue(k: Kernel, a: Ledger, prev: nat, ops: seq<Op>, lo: nat, maxSpan: nat)
    requires Sound(a) && Related(k, a, lo, maxSpan) && HeadDue(k) && SpansUpTo(ops, maxSpan) && ArmTrue(k, a, lo, maxSpan)
    ensures k.queue[0].id in a.live && ArmTrue(Fire(k, ops), LFire(a, k.queue[0].id, prev, ops), lo, maxSpan)
  {
    hide DoAll, LDoAll, Matches;
    PopRelated(k, a, prev, lo, maxSpan);
    var h := k.queue[0].id;
    var k1, b := k.(queue := k.queue[1..]), Close(a, h, Fired(prev, a.now)).(log := a.log + [a.live[h]]);
    assert Extends(a, b);
    hide ArmTrue, Extends;
    ArmStays(k, a, k1, b, lo, maxSpan);
    DoAllArmTrue(k1, b, ops, lo, maxSpan);
  }

  lemma {:induction false} DrainArmTrue(k: Kernel, a: Ledger, prev: nat, script: seq<seq<Op>>, lo: nat, maxSpan: nat)
    requires Sound(a) && Related(k, a, lo, maxSpan) && ScriptAhead(script) && ScriptUpTo(script, maxSpan)
    requires ArmTrue(k, a, lo, maxSpan)
    ensures ArmTrue(Drain(k, script).0, LDrain(a, prev, script), lo, maxSpan)
    decreases |Due(a)|
  {
    hide ArmTrue, Related, Sound, LFire, Fire;
    HeadIsNext(k, a, lo, maxSpan);
    if HeadDue(k) {
      var ops, w := First(script), Next(a);
      FireShrinks(k, ops);
      FireRelated(k, a, prev, ops, lo, maxSpan);
      LFireShrinks(a, w, prev, ops);
      FireArmTrue(k, a, prev, ops, lo, maxSpan);
      DrainArmTrue(Fire(k, ops), LFire(a, w, prev, ops), prev, Rest(script), lo, maxSpan);
    }
  }

  lemma {:induction false} AdvanceArmTrue(k: Kernel, a: Ledger, n: Tick, maxSpan: nat)
    requires ArmTrue(k, a, a.now, maxSpan)
    ensures ArmTrue(Advance(k, n), a.(now := a.now + n), a.now, maxSpan)
  {
    if k.armValid {
      var t :| ArmedFor(k, a, a.now, maxSpan, t);
      assert ArmedFor(Advance(k, n), a.(now := a.now + n), a.now, maxSpan, t);
    }
  }

  lemma {:induction false} OnElapsedArmTrue(k: Kernel, a: Ledger, n: Tick, script: seq<seq<Op>>, maxSpan: nat)
    requires Sound(a) && Aligned(k, a, maxSpan) && 0 < n && HalfRange(n, maxSpan)
    requires ScriptAhead(script) && ScriptUpTo(script, maxSpan) && ArmTrue(k, a, a.now, maxSpan)
    ensures
      var r, b := OnElapsed(k, n, script).0, LElapsed(a, n, script);
      ArmTrue(r, b, b.now, maxSpan) && AlarmExact(r, b)
  {
    hide Related, ArmTrue, AlarmExact, Drain, LDrain, UpdateAlarm;
    var k1, b := Advance(k, n), a.(now := a.now + n);
    AdvanceRelated(k, a, n, maxSpan);
    AdvanceArmTrue(k, a, n, maxSpan);
    DrainArmTrue(k1, b, a.now, script, a.now, maxSpan);
    DrainRelated(k1, b, a.now, script, a.now, maxSpan);
    var k2, r := Drain(k1, script).0, LDrain(b, a.now, script);
    NothingDueAligned(k2, r, a.now, maxSpan);
    RelatedRange(k2, r, a.now, maxSpan);
    UpdateArmTrue(k2, r, a.now, r.now, maxSpan);
  }

  lemma {:induction false} RelatedRange(k: Kernel, a: Ledger, lo: nat, maxSpan: nat)
    requires Related(k, a, lo, maxSpan)
    ensures k.clock == Wrap(a.now) && lo <= a.now && HalfRange(a.now - lo, maxSpan)
  {
  }

  // ---- every run ----

  lemma {:induction false} StartArmTrue(maxSpan: nat)
    ensures ArmTrue(Start(), Empty(), 0, maxSpan) && AlarmExact(Start(), Empty())
  {
  }

  lemma {:induction false} StepArmTrue(k: Kernel, a: Ledger, step: Step, maxStep: nat, maxSpan: nat)
    requires Sound(a) && Aligned(k, a, maxSpan) && Legal(step, maxStep, maxSpan) && HalfRange(maxStep, maxSpan)
    requires ArmTrue(k, a, a.now, maxSpan) && AlarmExact(k, a)
    ensures
      var r, b := KStep(k, step).0, LStep(a, step);
      ArmTrue(r, b, b.now, maxSpan) && AlarmExact(r, b)
  {
    hide Related, ArmTrue, AlarmExact, Do, LDo, Drain, LDrain;
    match step
    case Call(op) => DoArmTrue(k, a, op, a.now, maxSpan);
    case Elapsed(n, script) => if n > 0 { OnElapsedArmTrue(k, a, n, script, maxSpan); }
  }

  /** In every state of every run the alarm is set for a true deadline. */
  lemma {:induction false} EveryRunAlarm(ks: seq<Kernel>, ls: seq<Ledger>, steps: seq<Step>, maxStep: nat, maxSpan: nat, i: nat)
    requires IsRun(ks, ls, steps, maxStep, maxSpan) && HalfRange(maxStep, maxSpan) && i < |ks|
    ensures Sound(ls[i]) && ArmTrue(ks[i], ls[i], ls[i].now, maxSpan) && AlarmExact(ks[i], ls[i])
  {
    hide RunInv, Related, ArmTrue, AlarmExact, KStep, LStep, Sound, Aligned;
    if i == 0 {
      StartArmTrue(maxSpan);
      assert Sound(ls[0]) by { EmptySound(); }
    } else {
      EveryRunAlarm(ks, ls, steps, maxStep, maxSpan, i - 1);
      EveryRun(ks, ls, steps, maxStep, maxSpan, i - 1);
      InvAligned(ks[i - 1], ls[i - 1], maxSpan);
      assert ks[i - 1 + 1] == KStep(ks[i - 1], steps[i - 1]).0 && ls[i - 1 + 1] == LStep(ls[i - 1], steps[i - 1]);
      StepArmTrue(ks[i - 1], ls[i - 1], steps[i - 1], maxStep, maxSpan);
    }
  }

  lemma {:induction false} EmptySound()
    ensures Sound(Empty())
  {
  }

  lemma {:induction false} InvAligned(k: Kernel, a: Ledger, maxSpan: nat)
    requires RunInv(k, a, maxSpan)
    ensures Sound(a) && Aligned(k, a, maxSpan)
  {
  }

  function Max(x: int, y: int): int {
    if x < y then y else x
  }

  /** As long as no booking was cancelled or replaced, the alarm goes off exactly when
  the earliest one is due, or at the next tick if that is now: never earlier. */
  lemma {:induction false} AlarmForEarliest(ks: seq<Kernel>, ls: seq<Ledger>, steps: seq<Step>, maxStep: nat, maxSpan: nat, i: nat)
    requires IsRun(ks, ls, steps, maxStep, maxSpan) && HalfRange(maxStep, maxSpan) && i < |ks|
    requires forall t :: 0 <= t < |ls[i].book| ==> ls[i].book[t].status != Dropped
    ensures ks[i].port.Alarm? <==> ls[i].live != map[]
    ensures ks[i].port.Alarm? ==>
              && NextDueIn(ks[i]).Some? && ks[i].port.left == Max(1, NextDueIn(ks[i]).value)
  {
    EveryRun(ks, ls, steps, maxStep, maxSpan, i);
    EveryRunAlarm(ks, ls, steps, maxStep, maxSpan, i);
    var k, a := ks[i], ls[i];
    NextDueInIsTrue(k, a, maxSpan);
    if k.port.Alarm? {
      AheadIsLive(a);
      hide Related, Diff;
      assert Due(a) != {} ==> NextDueIn(k).value == 0 by {
        if Due(a) != {} {
          var w :| w in Due(a);
          assert a.now + NextDueIn(k).value <= a.book[a.live[w]].deadline;
        }
      }
    }
  }

  /** A booking ahead that was not dropped is live. */
  lemma {:induction false} AheadIsLive(a: Ledger)
    requires Sound(a) && GoodHistory(a)
    ensures forall t :: 0 <= t < |a.book| && a.book[t].status != Dropped && a.book[t].deadline > a.now ==>
              a.book[t].id in a.live && a.live[a.book[t].id] == t
  {
    hide LogOrdered;
  }
}
