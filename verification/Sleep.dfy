/** Sleeping: the scheduler and the time kernel together. `sleep_for` books the
alarm and blocks the caller inside one guard, so the whole of it is one step;
the alarm's reaction makes the sleeper ready again. Task User(i) owns alarm
node i. */
module Sleep {
  import opened Lists
  import opened SchedulerSpec
  import opened Ticks
  import T = TimeKernelSpec
  import opened TimeLedger
  import opened TimeRuns
  import opened TimerRuns

  datatype Machine = Machine(sched: Sched, time: T.Kernel)

  datatype SleepStep =
    | Join(t: Task, prio: nat)
    | SleepFor(span: Ticks.Tick)
    | TimePasses(n: Ticks.Tick)
    | Other(op: SchedulerSpec.Op)

  /** `wake_from_sleep` for each alarm that fired, in firing order. */
  function WakeAll(s: Sched, fired: seq<nat>): (r: Sched)
    requires |s.fifo| == LEVELS
    ensures |r.fifo| == LEVELS
    decreases fired
  {
    if fired == [] then s else WakeAll(MakeReady(s, User(fired[0])), fired[1..])
  }

  /** A letter or a bare wake goes to tasks that are not asleep, and the only
  blocking call is the sleep itself. */
  predicate Enabled(m: Machine, step: SleepStep, maxStep: nat, maxSpan: nat) {
    match step
    case Join(t, _) => t !in m.sched.tcb
    case SleepFor(span) => CurrentRunning(m.sched) && m.sched.current != Some(Idle) && span <= maxSpan
    case TimePasses(n) => n <= maxStep
    case Other(op) =>
      && Allowed(m.sched, op) && op != SchedulerSpec.Sleep
      && (op.Wake? || op.Letter? ==> op.t != Idle && (op.t in m.sched.tcb ==> m.sched.tcb[op.t].state != Blocked))
  }

  ghost function Step(m: Machine, step: SleepStep, maxStep: nat, maxSpan: nat): Machine
    requires Good(m.sched) && Enabled(m, step, maxStep, maxSpan)
  {
    match step
    case Join(t, prio) => m.(sched := Add(m.sched, t, prio))
    case SleepFor(span) =>
      var me := m.sched.current.value;
      Machine(Block(m.sched, me), T.Enqueue(m.time, me.id, span))
    case TimePasses(n) =>
      var (k, fired) := T.OnElapsed(m.time, n, []);
      Machine(WakeAll(m.sched, fired), k)
    case Other(op) => m.(sched := Apply(m.sched, op))
  }

  /** The same step in unbounded time. */
  ghost function LedgerStep(a: Ledger, m: Machine, step: SleepStep, maxStep: nat, maxSpan: nat): (r: Ledger)
    requires Sound(a) && Enabled(m, step, maxStep, maxSpan)
    ensures Sound(r)
  {
    match step
    case Join(_, _) => a
    case SleepFor(span) => LDo(a, T.Book(m.sched.current.value.id, span))
    case TimePasses(n) => LElapsed(a, n, [])
    case Other(_) => a
  }

  // ---- sleepers are exactly the booked tasks ----

  ghost predicate AsleepIffBooked(s: Sched, a: Ledger) {
    && (forall t :: t in s.tcb && t != Idle ==> (s.tcb[t].state == Blocked <==> t.id in a.live))
    && (forall i :: i in a.live ==> User(i) in s.tcb)
  }

  ghost predicate SleepInv(m: Machine, a: Ledger, maxSpan: nat) {
    Good(m.sched) && RunInv(m.time, a, maxSpan) && AsleepIffBooked(m.sched, a)
  }

  lemma {:induction false} MakeReadyEffect(s: Sched, t: Task)
    requires Good(s) && t != Idle
    ensures MakeReady(s, t).tcb ==
            if t in s.tcb && s.tcb[t].state == Blocked then s.tcb[t := s.tcb[t].(state := Ready)] else s.tcb
  {
  }

  lemma {:induction false} WakeAllEffect(s: Sched, fired: seq<nat>)
    requires Good(s)
    ensures Good(WakeAll(s, fired)) && WakeAll(s, fired).tcb.Keys == s.tcb.Keys
    ensures forall t :: t in s.tcb ==>
              WakeAll(s, fired).tcb[t].state ==
              if t != Idle && t.id in fired && s.tcb[t].state == Blocked then Ready else s.tcb[t].state
    decreases fired
  {
    if fired != [] {
      MakeReadyGood(s, User(fired[0]));
      MakeReadyEffect(s, User(fired[0]));
      var s1 := MakeReady(s, User(fired[0]));
      hide Good, MakeReady;
      WakeAllEffect(s1, fired[1..]);
      forall t | t in s.tcb
        ensures WakeAll(s, fired).tcb[t].state ==
                if t != Idle && t.id in fired && s.tcb[t].state == Blocked then Ready else s.tcb[t].state
      {
        assert t != Idle ==> (t.id in fired <==> t.id == fired[0] || t.id in fired[1..]);
        assert t != Idle ==> (t == User(fired[0]) <==> t.id == fired[0]);
      }
    }
  }

  /** A drain whose callbacks book nothing fires exactly what is due. */
  lemma {:induction false} PlainDrain(k: T.Kernel, a: Ledger, prev: nat, lo: nat, maxSpan: nat)
    requires Sound(a) && Related(k, a, lo, maxSpan)
    ensures forall w :: w in T.Drain(k, []).1 <==> w in Due(a)
    ensures
      var r := LDrain(a, prev, []);
      && r.live.Keys == a.live.Keys - Due(a)
      && (forall w :: w in r.live ==> r.live[w] == a.live[w] && a.live[w] < |r.book| && r.book[a.live[w]] == a.book[a.live[w]])
    decreases |Due(a)|
  {
    hide Related, LFire, T.Fire, IsNext;
    HeadIsNext(k, a, lo, maxSpan);
    if T.HeadDue(k) {
      var w := Next(a);
      T.FireShrinks(k, []);
      FireRelated(k, a, prev, [], lo, maxSpan);
      LFireShrinks(a, w, prev, []);
      NextIsDue(a);
      PlainFire(a, w, prev);
      assert T.Drain(k, []).1 == [w] + T.Drain(T.Fire(k, []), []).1;
      assert LDrain(a, prev, []) == LDrain(LFire(a, w, prev, []), prev, []);
      PlainDrain(T.Fire(k, []), LFire(a, w, prev, []), prev, lo, maxSpan);
    }
  }

  lemma {:induction false} NextIsDue(a: Ledger)
    requires Sound(a) && Due(a) != {}
    ensures Next(a) in Due(a) && Next(a) in a.live
  {
  }

  lemma {:induction false} PlainFire(a: Ledger, w: nat, prev: nat)
    requires Sound(a) && w in Due(a)
    ensures
      var r := LFire(a, w, prev, []);
      && r.live == a.live - {w} && Due(r) == Due(a) - {w} && |r.book| == |a.book|
      && (forall v :: v in r.live ==> r.book[a.live[v]] == a.book[a.live[v]])
  {
    CloseKeeps(a, w, Fired(prev, a.now));
  }

  lemma {:induction false} PlainElapsed(k: T.Kernel, a: Ledger, n: Ticks.Tick, maxSpan: nat)
    requires Sound(a) && Aligned(k, a, maxSpan) && HalfRange(n, maxSpan) && n > 0
    ensures
      var r, fired := LElapsed(a, n, []), T.OnElapsed(k, n, []).1;
      forall w :: w in a.live ==>
        && (w in fired <==> a.book[a.live[w]].deadline <= a.now + n)
        && (w in r.live <==> w !in fired)
        && (w in r.live ==> r.live[w] == a.live[w] && r.book[r.live[w]] == a.book[a.live[w]])
    ensures forall w :: w in LElapsed(a, n, []).live || w in T.OnElapsed(k, n, []).1 ==> w in a.live
  {
    hide Related, T.Drain, LDrain, T.UpdateAlarm;
    var b := a.(now := a.now + n);
    AdvanceRelated(k, a, n, maxSpan);
    PlainDrain(T.Advance(k, n), b, a.now, a.now, maxSpan);
    hide T.Advance;
    assert forall w :: w in Due(b) <==> w in a.live && a.book[a.live[w]].deadline <= a.now + n;
    hide Due, Sound;
  }

  lemma {:induction false} JoinInv(m: Machine, a: Ledger, t: Task, prio: nat, maxSpan: nat)
    requires SleepInv(m, a, maxSpan) && t !in m.sched.tcb
    ensures SleepInv(m.(sched := Add(m.sched, t, prio)), a, maxSpan)
  {
    hide RunInv, RingsExactBut, Urgent, Add, AsleepIffBooked;
    AddGood(m.sched, t, prio);
    AddTcb(m.sched, t, prio);
    AsleepAfterJoin(m.sched, Add(m.sched, t, prio), a, t, prio);
  }

  lemma {:induction false} AsleepAfterJoin(s: Sched, r: Sched, a: Ledger, t: Task, prio: nat)
    requires AsleepIffBooked(s, a) && t !in s.tcb && t != Idle
    requires r.tcb == s.tcb || r.tcb == s.tcb[t := TCB(prio, Ready, None)]
    ensures AsleepIffBooked(r, a)
  {
    assert t.id !in a.live by { assert t == User(t.id); }
  }

  lemma {:induction false} SleepForInv(m: Machine, a: Ledger, span: Ticks.Tick, maxSpan: nat)
    requires SleepInv(m, a, maxSpan) && Sound(a) && maxSpan < HALF
    requires CurrentRunning(m.sched) && m.sched.current != Some(Idle) && span <= maxSpan
    ensures
      var me := m.sched.current.value;
      && SleepInv(Machine(Block(m.sched, me), T.Enqueue(m.time, me.id, span)), LDo(a, T.Book(me.id, span)), maxSpan)
      && Extends(a, LDo(a, T.Book(me.id, span)))
  {
    hide RunInv, RingsExactBut, Urgent, T.Enqueue, Extends, LDo, Block, AsleepIffBooked, Sound;
    var me := m.sched.current.value;
    BlockCurrentGood(m.sched, me);
    CallInv(m.time, a, T.Book(me.id, span), maxSpan);
    SleeperBooked(m.sched, a, me, span);
  }

  lemma {:induction false} SleeperBooked(s: Sched, a: Ledger, me: Task, span: Ticks.Tick)
    requires AsleepIffBooked(s, a) && Sound(a) && me in s.tcb && me != Idle
    ensures AsleepIffBooked(Block(s, me), LDo(a, T.Book(me.id, span)))
  {
    assert me == User(me.id);
    assert LDo(a, T.Book(me.id, span)).live.Keys == a.live.Keys + {me.id};
    hide Sound, LDo;
  }

  lemma {:induction false} TimePassesInv(m: Machine, a: Ledger, n: Ticks.Tick, maxSpan: nat)
    requires SleepInv(m, a, maxSpan) && Sound(a) && HalfRange(n, maxSpan)
    ensures
      var (k, fired) := T.OnElapsed(m.time, n, []);
      SleepInv(Machine(WakeAll(m.sched, fired), k), LElapsed(a, n, []), maxSpan)
    ensures Extends(a, LElapsed(a, n, []))
  {
    hide RingsExactBut, Urgent, RunInv, Extends, AsleepIffBooked, WakeAll, T.Drain, LDrain, Sound;
    ElapsedInv(m.time, a, n, [], maxSpan);
    var fired := T.OnElapsed(m.time, n, []).1;
    WakeAllEffect(m.sched, fired);
    RunInvAligned(m.time, a, maxSpan);
    if n > 0 {
      PlainElapsed(m.time, a, n, maxSpan);
    }
    SleepersWoken(m.sched, WakeAll(m.sched, fired), a, LElapsed(a, n, []), fired);
  }

  lemma {:induction false} RunInvAligned(k: T.Kernel, a: Ledger, maxSpan: nat)
    requires RunInv(k, a, maxSpan)
    ensures Aligned(k, a, maxSpan)
  {
  }

  lemma {:induction false} SleepersWoken(s: Sched, r: Sched, a: Ledger, b: Ledger, fired: seq<nat>)
    requires AsleepIffBooked(s, a) && r.tcb.Keys == s.tcb.Keys
    requires forall t :: t in s.tcb ==>
               r.tcb[t].state ==
               if t != Idle && t.id in fired && s.tcb[t].state == Blocked then Ready else s.tcb[t].state
    requires forall w :: w in a.live ==> (w in b.live <==> w !in fired)
    requires forall w :: w in b.live ==> w in a.live
    ensures AsleepIffBooked(r, b)
  {
  }

  lemma {:induction false} OtherInv(m: Machine, a: Ledger, op: SchedulerSpec.Op, maxSpan: nat)
    requires SleepInv(m, a, maxSpan) && Good(m.sched) && Enabled(m, Other(op), 0, maxSpan)
    ensures SleepInv(m.(sched := Apply(m.sched, op)), a, maxSpan)
    ensures forall t :: t in m.sched.tcb && t != Idle ==>
              t in Apply(m.sched, op).tcb &&
              (Apply(m.sched, op).tcb[t].state == Blocked <==> m.sched.tcb[t].state == Blocked)
  {
    hide RingsExactBut, Urgent, RunInv, Apply;
    ApplyGood(m.sched, op);
    ApplyKeeps(m.sched, op);
    if (op.Wake? || op.Letter?) && op.t in m.sched.tcb { WokenNotBlocked(m.sched, op); }
  }

  lemma {:induction false} WokenNotBlocked(s: Sched, op: SchedulerSpec.Op)
    requires Good(s) && Allowed(s, op) && (op.Wake? || op.Letter?)
    requires op.t != Idle && op.t in s.tcb && s.tcb[op.t].state != Blocked
    ensures Apply(s, op).tcb[op.t].state != Blocked
  {
  }

  lemma {:induction false} SleepStepInv(m: Machine, a: Ledger, step: SleepStep, maxStep: nat, maxSpan: nat)
    requires SleepInv(m, a, maxSpan) && Good(m.sched) && Sound(a)
    requires Enabled(m, step, maxStep, maxSpan) && HalfRange(maxStep, maxSpan)
    ensures SleepInv(Step(m, step, maxStep, maxSpan), LedgerStep(a, m, step, maxStep, maxSpan), maxSpan)
    ensures Extends(a, LedgerStep(a, m, step, maxStep, maxSpan))
  {
    hide SleepInv, Good, Sound;
    match step
    case Join(t, prio) => JoinInv(m, a, t, prio, maxSpan);
    case SleepFor(span) => SleepForInv(m, a, span, maxSpan);
    case TimePasses(n) => TimePassesInv(m, a, n, maxSpan);
    case Other(op) => OtherInv(m, a, op, maxSpan);
  }

  ghost predicate IsSleepRun(ms: seq<Machine>, ls: seq<Ledger>, steps: seq<SleepStep>, maxStep: nat, maxSpan: nat) {
    && |ms| == |ls| == |steps| + 1 && ms[0] == Machine(Init(), T.Start()) && ls[0] == Empty()
    && (forall i :: 0 <= i < |steps| ==> Enabled(ms[i], steps[i], maxStep, maxSpan))
    && (forall i :: 0 <= i < |steps| && Good(ms[i].sched) && Sound(ls[i]) ==>
          && ms[i + 1] == Step(ms[i], steps[i], maxStep, maxSpan)
          && ls[i + 1] == LedgerStep(ls[i], ms[i], steps[i], maxStep, maxSpan))
  }

  /** In every run, at every guard boundary: a task is Blocked exactly while its
  alarm is booked, the booking being unique, and the scheduler promise holds. */
  lemma {:induction false} EverySleepRun(ms: seq<Machine>, ls: seq<Ledger>, steps: seq<SleepStep>, maxStep: nat, maxSpan: nat, i: nat)
    requires IsSleepRun(ms, ls, steps, maxStep, maxSpan) && HalfRange(maxStep, maxSpan) && i < |ms|
    ensures SleepInv(ms[i], ls[i], maxSpan) && Good(ms[i].sched) && Sound(ls[i])
  {
    if i == 0 {
      InitGood();
      StartInv(maxSpan);
    } else {
      hide SleepInv, Good, Sound;
      EverySleepRun(ms, ls, steps, maxStep, maxSpan, i - 1);
      SleepStepInv(ms[i - 1], ls[i - 1], steps[i - 1], maxStep, maxSpan);
      assert ms[i - 1 + 1] == ms[i] && ls[i - 1 + 1] == ls[i];
      SleepInvParts(ms[i], ls[i], maxSpan);
    }
  }

  lemma {:induction false} SleepInvParts(m: Machine, a: Ledger, maxSpan: nat)
    requires SleepInv(m, a, maxSpan)
    ensures Good(m.sched) && Sound(a) && Aligned(m.time, a, maxSpan) && AsleepIffBooked(m.sched, a)
  {
  }

  /** Falling asleep: Blocked, and due exactly span ticks from now. */
  lemma {:induction false} FallsAsleep(ms: seq<Machine>, ls: seq<Ledger>, steps: seq<SleepStep>, maxStep: nat, maxSpan: nat, i: nat)
    requires IsSleepRun(ms, ls, steps, maxStep, maxSpan) && HalfRange(maxStep, maxSpan) && i < |steps|
    requires steps[i].SleepFor?
    ensures
      var me, r := ms[i].sched.current.value, ls[i + 1];
      && me != Idle && me in ms[i + 1].sched.tcb && ms[i + 1].sched.tcb[me].state == Blocked
      && me.id in r.live && r.live[me.id] < |r.book|
      && r.book[r.live[me.id]].deadline == ls[i].now + steps[i].span
  {
    EverySleepRun(ms, ls, steps, maxStep, maxSpan, i);
    hide SleepInv;
  }

  /** Waking, neither early nor late nor never: a sleeper stays Blocked, with the
  same booking, through every step but the elapsed step that first reaches its
  deadline, and that one makes it Ready. */
  lemma {:induction false} WakesExactlyOnTime(ms: seq<Machine>, ls: seq<Ledger>, steps: seq<SleepStep>, maxStep: nat, maxSpan: nat, i: nat, t: Task)
    requires IsSleepRun(ms, ls, steps, maxStep, maxSpan) && HalfRange(maxStep, maxSpan) && i < |steps|
    requires t in ms[i].sched.tcb && t != Idle && ms[i].sched.tcb[t].state == Blocked
    ensures t.id in ls[i].live && ls[i].live[t.id] < |ls[i].book| && t in ms[i + 1].sched.tcb
    ensures
      var a, b := ls[i], ls[i + 1];
      var r := a.book[a.live[t.id]];
      && (a.now < r.deadline || a.now == r.deadline == r.bookedAt)
      && if steps[i].TimePasses? && steps[i].n > 0 && r.deadline <= a.now + steps[i].n then
           ms[i + 1].sched.tcb[t].state == Ready && t.id !in b.live
         else
           && ms[i + 1].sched.tcb[t].state == Blocked
           && t.id in b.live && b.live[t.id] < |b.book| && b.book[b.live[t.id]] == r
  {
    EverySleepRun(ms, ls, steps, maxStep, maxSpan, i);
    EverySleepRun(ms, ls, steps, maxStep, maxSpan, i + 1);
    StepWakes(ms[i], ls[i], steps[i], maxStep, maxSpan, t);
    hide SleepInv, Good;
  }

  lemma {:induction false} StepWakes(m: Machine, a: Ledger, step: SleepStep, maxStep: nat, maxSpan: nat, t: Task)
    requires SleepInv(m, a, maxSpan) && Good(m.sched) && Sound(a)
    requires Enabled(m, step, maxStep, maxSpan) && HalfRange(maxStep, maxSpan)
    requires t in m.sched.tcb && t != Idle && m.sched.tcb[t].state == Blocked
    ensures t.id in a.live
    ensures
      var m1, b := Step(m, step, maxStep, maxSpan), LedgerStep(a, m, step, maxStep, maxSpan);
      var r := a.book[a.live[t.id]];
      && t in m1.sched.tcb
      && (a.now < r.deadline || a.now == r.deadline == r.bookedAt)
      && if step.TimePasses? && step.n > 0 && r.deadline <= a.now + step.n then
           m1.sched.tcb[t].state == Ready && t.id !in b.live
         else
           && m1.sched.tcb[t].state == Blocked
           && t.id in b.live && b.book[b.live[t.id]] == r
  {
    assert Quiet(a) && Aligned(m.time, a, maxSpan);
    hide RingsExactBut, Urgent, RunInv, Apply, T.Drain, LDrain, T.Enqueue, Related, LDo, Add;
    assert t == User(t.id) && t.id in a.live;
    match step {
      case Join(u, prio) =>
        AddTcb(m.sched, u, prio);
      case SleepFor(span) =>
        OtherKept(a, m.sched.current.value.id, span, t.id);
        hide Quiet, AsleepIffBooked;
      case TimePasses(n) =>
        TimeWakes(m, a, n, maxSpan, t);
        hide LElapsed, T.OnElapsed, WakeAll;
      case Other(op) => OtherInv(m, a, op, maxSpan);
    }
  }

  lemma {:induction false} OtherKept(a: Ledger, me: nat, span: Ticks.Tick, w: nat)
    requires Sound(a) && w in a.live && w != me
    ensures
      var b := LDo(a, T.Book(me, span));
      w in b.live && b.book[b.live[w]] == a.book[a.live[w]]
  {
    CloseKeeps(a, me, Dropped);
  }

  lemma {:induction false} TimeWakes(m: Machine, a: Ledger, n: Ticks.Tick, maxSpan: nat, t: Task)
    requires Good(m.sched) && Sound(a) && Aligned(m.time, a, maxSpan) && HalfRange(n, maxSpan)
    requires t in m.sched.tcb && t != Idle && m.sched.tcb[t].state == Blocked && t.id in a.live
    ensures
      var s, b := WakeAll(m.sched, T.OnElapsed(m.time, n, []).1), LElapsed(a, n, []);
      var r := a.book[a.live[t.id]];
      && t in s.tcb
      && if n > 0 && r.deadline <= a.now + n then s.tcb[t].state == Ready && t.id !in b.live
         else s.tcb[t].state == Blocked && t.id in b.live && b.book[b.live[t.id]] == r
  {
    hide RingsExactBut, Urgent, T.Drain, LDrain, Related;
    WakeAllEffect(m.sched, T.OnElapsed(m.time, n, []).1);
    hide WakeAll;
    if n > 0 {
      PlainElapsed(m.time, a, n, maxSpan);
      hide LElapsed, T.OnElapsed;
    }
  }

  // ---- who wakes first queues first ----

  /** The sleepers of level p among those fired, in firing order. */
  function WokenAt(s: Sched, fired: seq<nat>, p: nat): seq<Task> {
    if fired == [] then []
    else
      var t := User(fired[0]);
      (if t in s.tcb && s.tcb[t].state == Blocked && s.tcb[t].prio == p then [t] else []) + WokenAt(s, fired[1..], p)
  }

  lemma {:induction false} WokenAlike(s: Sched, r: Sched, fired: seq<nat>, p: nat)
    requires forall w :: w in fired ==> (User(w) in s.tcb <==> User(w) in r.tcb)
    requires forall w :: w in fired && User(w) in s.tcb ==> r.tcb[User(w)] == s.tcb[User(w)]
    ensures WokenAt(r, fired, p) == WokenAt(s, fired, p)
    decreases fired
  {
    if fired != [] {
      assert fired[0] in fired;
      WokenAlike(s, r, fired[1..], p);
    }
  }

  /** Each ring grows by its sleepers in firing order, behind all that waited there. */
  lemma {:induction false} WakeOrder(s: Sched, fired: seq<nat>, p: nat)
    requires Good(s) && NoDup(fired) && p < LEVELS
    ensures WakeAll(s, fired).fifo[p] == s.fifo[p] + WokenAt(s, fired, p)
    decreases fired
  {
    hide RingsExactBut, Urgent, MakeReady, NoDup;
    if fired != [] {
      var t, rest := User(fired[0]), fired[1..];
      var s1 := MakeReady(s, t);
      MakeReadyGood(s, t);
      MakeReadyEffect(s, t);
      ReadyRing(s, t, p);
      RestDistinct(fired);
      WokenAlike(s, s1, rest, p);
      WakeOrder(s1, rest, p);
    }
  }

  lemma {:induction false} RestDistinct(fired: seq<nat>)
    requires NoDup(fired) && fired != []
    ensures NoDup(fired[1..]) && fired[0] !in fired[1..]
  {
  }

  lemma {:induction false} ReadyRing(s: Sched, t: Task, p: nat)
    requires Good(s) && t != Idle && p < LEVELS
    ensures MakeReady(s, t).fifo[p] ==
            s.fifo[p] + if t in s.tcb && s.tcb[t].state == Blocked && s.tcb[t].prio == p then [t] else []
  {
    hide RingsExactBut, Urgent;
  }

  /** So when time passes, sleepers of one level line up in the order in which their
  alarms fire: by deadline, the one booked first among equals. */
  lemma {:induction false} SleepersLineUp(m: Machine, a: Ledger, n: Ticks.Tick, maxSpan: nat, p: nat)
    requires Good(m.sched) && Sound(a) && Aligned(m.time, a, maxSpan) && HalfRange(n, maxSpan) && p < LEVELS
    ensures
      var fired := T.OnElapsed(m.time, n, []).1;
      && WakeAll(m.sched, fired).fifo[p] == m.sched.fifo[p] + WokenAt(m.sched, fired, p)
      && LogGrewBy(|a.log|, LElapsed(a, n, []), fired)
  {
    var fired := T.OnElapsed(m.time, n, []).1;
    OnElapsedRefines(m.time, a, n, [], maxSpan);
    AlignedOnce(m.time, a, maxSpan);
    if n > 0 { FiresOnce(T.Advance(m.time, n), [], {}); }
    hide Good, Aligned, LElapsed;
    WakeOrder(m.sched, fired, p);
  }

  lemma {:induction false} AlignedOnce(k: T.Kernel, a: Ledger, maxSpan: nat)
    requires Sound(a) && Aligned(k, a, maxSpan)
    ensures Once(k.queue)
  {
    forall i, j | 0 <= i < j < |k.queue|
      ensures k.queue[i].id != k.queue[j].id
    {
      QueuedOnce(k.queue, a, i, j);
    }
  }
}
