/** The scheduler as a transition system on values.

Every operation of `Scheduler` runs under one critical guard, so each is one
function from state to state. The presence bitmap is absent here on purpose:
the most urgent level is *defined* as the least non-empty ring, and
`Scheduler.dfy` proves that the bitmap finds exactly that level. */
module SchedulerSpec {
  import opened Lists

  const LEVELS: nat := 32
  const IDLE_PRIO: nat := 0xFF
  const SLICE_TICKS: nat := 10

  datatype Task = Idle | User(id: nat)

  datatype TaskState = Ready | Running | Blocked

  datatype TCB = TCB(prio: nat, state: TaskState, letter: Option<nat>)

  /** `tcb` holds idle and every task that was handed to `add`; `pending` is the
  PendSV bit that `request_switch` sets and the next pick consumes. */
  datatype Sched = Sched(
    current: Option<Task>,
    tcb: map<Task, TCB>,
    fifo: seq<seq<Task>>,
    served: nat,
    pending: bool)

  function Init(): Sched {
    Sched(None, map[Idle := TCB(IDLE_PRIO, Ready, None)], seq(LEVELS, _ => []), 0, false)
  }

  // ---- invariants ----

  /** Shape of the state: idle is known and stays at its own level, tasks keep
  a ring level, and only idle or a known task can be current. */
  ghost predicate WellTyped(s: Sched) {
    && |s.fifo| == LEVELS
    && Idle in s.tcb && s.tcb[Idle].prio == IDLE_PRIO
    && (forall t :: t in s.tcb && t != Idle ==> s.tcb[t].prio < LEVELS)
    && (s.current.Some? ==> s.current.value in s.tcb)
  }

  /** Ring p holds only Ready tasks of priority p, never idle or a task in `out`. */
  ghost predicate RingsHold(s: Sched, out: set<Task>)
    requires WellTyped(s)
  {
    forall p, t :: 0 <= p < LEVELS && t in s.fifo[p] ==>
      t in s.tcb && t != Idle && t !in out && s.tcb[t].prio == p && s.tcb[t].state == Ready
  }

  ghost predicate ReadyListed(s: Sched, out: set<Task>)
    requires WellTyped(s)
  {
    forall t :: t in s.tcb && t != Idle && t !in out && s.tcb[t].state == Ready ==>
      t in s.fifo[s.tcb[t].prio]
  }

  ghost predicate RingsOnce(s: Sched)
    requires WellTyped(s)
  {
    forall p :: 0 <= p < LEVELS ==> NoDup(s.fifo[p])
  }

  ghost predicate RunningIsCurrent(s: Sched, out: set<Task>) {
    forall t :: t in s.tcb && t != Idle && t !in out && s.tcb[t].state == Running ==> s.current == Some(t)
  }

  /** Leaving the tasks in `out` aside, ring p holds exactly the Ready tasks of
  priority p, each once and idle in none, and only the current task is Running.
  The tasks in `out` are in no ring. */
  ghost predicate RingsExactBut(s: Sched, out: set<Task>)
    requires WellTyped(s)
  {
    RingsHold(s, out) && ReadyListed(s, out) && RingsOnce(s) && RunningIsCurrent(s, out)
  }

  ghost predicate Consistent(s: Sched) {
    WellTyped(s) && RingsExactBut(s, {})
  }

  /** Nobody waiting in a ring is more urgent than the level p. */
  ghost predicate NoneAbove(s: Sched, p: nat) {
    forall q :: 0 <= q < p && q < |s.fifo| ==> s.fifo[q] == []
  }

  /** What must hold whenever interrupts are re-enabled: the current task is
  Running and nothing more urgent waits, or a switch is on its way. */
  ghost predicate Urgent(s: Sched) {
    s.pending ||
    (s.current.Some? && s.current.value in s.tcb ==>
       && s.tcb[s.current.value].state == Running
       && NoneAbove(s, s.tcb[s.current.value].prio))
  }

  ghost predicate Good(s: Sched) {
    Consistent(s) && Urgent(s)
  }

  predicate CurrentRunning(s: Sched) {
    s.current.Some? && s.current.value in s.tcb && s.tcb[s.current.value].state == Running
  }

  // ---- ring primitives ----

  function SetState(s: Sched, t: Task, st: TaskState): Sched
    requires t in s.tcb
  {
    s.(tcb := s.tcb[t := s.tcb[t].(state := st)])
  }

  /** A task whose priority has no ring is dropped silently, state untouched. */
  function PushBack(s: Sched, t: Task): Sched
    requires t in s.tcb && |s.fifo| == LEVELS
  {
    var p := s.tcb[t].prio;
    if p >= LEVELS then s
    else SetState(s, t, Ready).(fifo := s.fifo[p := s.fifo[p] + [t]])
  }

  function PushFront(s: Sched, t: Task): Sched
    requires t in s.tcb && |s.fifo| == LEVELS
  {
    var p := s.tcb[t].prio;
    if p >= LEVELS then s
    else SetState(s, t, Ready).(fifo := s.fifo[p := [t] + s.fifo[p]])
  }

  /** The least non-empty level at or above `from`, or the number of levels. */
  function Top(fifo: seq<seq<Task>>, from: nat): (p: nat)
    requires from <= |fifo|
    ensures from <= p <= |fifo|
    ensures forall q :: from <= q < p ==> fifo[q] == []
    ensures p < |fifo| ==> fifo[p] != []
    decreases |fifo| - from
  {
    if from == |fifo| || fifo[from] != [] then from else Top(fifo, from + 1)
  }

  function RequestIf(s: Sched, c: bool): Sched {
    if c then s.(pending := true) else s
  }

  predicate Preempts(s: Sched, t: Task)
    requires t in s.tcb
  {
    s.current.Some? && s.current.value in s.tcb && s.tcb[t].prio < s.tcb[s.current.value].prio
  }

  // ---- operations ----

  /** `add` of a task that is not scheduled yet. */
  function Add(s: Sched, t: Task, prio: nat): Sched
    requires t !in s.tcb && |s.fifo| == LEVELS
  {
    var s1 := s.(tcb := s.tcb[t := TCB(prio, Ready, None)]);
    var s2 := RequestIf(PushBack(s1, t), Preempts(s1, t));
    if prio < LEVELS then s2 else s2.(tcb := s.tcb)
  }

  function PushRunning(s: Sched): Sched
    requires |s.fifo| == LEVELS
  {
    if CurrentRunning(s) && s.current != Some(Idle) then PushFront(s, s.current.value) else s
  }

  function PickNext(s: Sched): Sched
    requires Idle in s.tcb && |s.fifo| == LEVELS
    requires forall p, t :: 0 <= p < LEVELS && t in s.fifo[p] ==> t in s.tcb
  {
    var s1 := PushRunning(s);
    var p := Top(s1.fifo, 0);
    var next := if p < LEVELS then s1.fifo[p][0] else Idle;
    var rings := if p < LEVELS then s1.fifo[p := s1.fifo[p][1..]] else s1.fifo;
    Dispatch(s1.(fifo := rings), next)
  }

  function Dispatch(s: Sched, next: Task): Sched
    requires next in s.tcb
  {
    SetState(s, next, Running).(current := Some(next), served := 0, pending := false)
  }

  function MakeReady(s: Sched, t: Task): Sched
    requires |s.fifo| == LEVELS
  {
    if t !in s.tcb || s.tcb[t].state != Blocked then s
    else RequestIf(PushBack(s, t), Preempts(s, t))
  }

  function Block(s: Sched, t: Task): Sched {
    if t !in s.tcb then s
    else RequestIf(SetState(s, t, Blocked), s.current == Some(t))
  }

  function Yield(s: Sched): Sched
    requires |s.fifo| == LEVELS && (s.current.Some? ==> s.current.value in s.tcb)
  {
    if s.current == None || s.current == Some(Idle) then s
    else PushBack(s, s.current.value).(pending := true)
  }

  function Reprioritize(s: Sched, t: Task, prio: nat): Sched
    requires t in s.tcb && |s.fifo| == LEVELS
    requires s.tcb[t].state == Ready ==> s.tcb[t].prio < LEVELS
  {
    var p := s.tcb[t].prio;
    var moved := s.(tcb := s.tcb[t := s.tcb[t].(prio := prio)]);
    if p == prio then s
    else if s.tcb[t].state == Ready then
      PushBack(moved.(fifo := s.fifo[p := Drop(s.fifo[p], Is(t))]), t)
    else moved
  }

  /** `notify`: the answer, and the state with the letter dropped. */
  function Notify(s: Sched, t: Task, value: nat): (Sched, bool)
    requires |s.fifo| == LEVELS
  {
    if t !in s.tcb || t == Idle then (s, false)
    else
      var s1 := s.(tcb := s.tcb[t := s.tcb[t].(letter := Some(value))]);
      (MakeReady(s1, t), true)
  }

  /** `wait_notify`: one probe of the current task's own mailbox. */
  function TakeLetter(s: Sched): (Sched, Option<nat>)
    requires s.current.Some? ==> s.current.value in s.tcb
  {
    if s.current.None? || s.tcb[s.current.value].letter.None? then (s, None)
    else
      var c := s.current.value;
      (s.(tcb := s.tcb[c := s.tcb[c].(letter := None)]), s.tcb[c].letter)
  }

  function OnTick(s: Sched): Sched
    requires |s.fifo| == LEVELS && (s.current.Some? ==> s.current.value in s.tcb)
    requires s.current.Some? && s.current != Some(Idle) ==> s.tcb[s.current.value].prio < LEVELS
  {
    if s.current == None || s.current == Some(Idle) then s
    else if s.served + 1 < SLICE_TICKS then s.(served := s.served + 1)
    else
      var c := s.current.value;
      var s1 := s.(served := 0);
      if s.fifo[s.tcb[c].prio] == [] then s1
      else SetState(PushBack(s1, c), c, Ready).(pending := true)
  }

  // ---- every operation keeps the ready structure ----

  lemma {:induction false} InitGood()
    ensures Good(Init())
  {
  }

  /** A task outside the rings that joins the ring of its level, anywhere in it. */
  lemma {:induction false} JoinConsistent(s: Sched, t: Task, ring: seq<Task>)
    requires WellTyped(s) && t in s.tcb && t != Idle && RingsExactBut(s, {t})
    requires NoDup(ring)
    requires forall u :: u in ring <==> u in s.fifo[s.tcb[t].prio] || u == t
    ensures Consistent(SetState(s, t, Ready).(fifo := s.fifo[s.tcb[t].prio := ring]))
  {
    var r := SetState(s, t, Ready).(fifo := s.fifo[s.tcb[t].prio := ring]);
    assert WellTyped(r) by { hide RingsExactBut, NoDup; }
    assert RingsHold(r, {}) by { hide ReadyListed, RingsOnce, RunningIsCurrent, NoDup; }
    assert ReadyListed(r, {}) by { hide RingsHold, RingsOnce, RunningIsCurrent, NoDup; }
    assert RingsOnce(r) by { hide RingsHold, ReadyListed, RunningIsCurrent, NoDup; }
    assert RunningIsCurrent(r, {}) by { hide RingsHold, ReadyListed, RingsOnce, NoDup; }
    hide RingsHold, ReadyListed, RingsOnce, RunningIsCurrent;
  }

  lemma {:induction false} PushConsistent(s: Sched, t: Task)
    requires WellTyped(s) && t in s.tcb && t != Idle && RingsExactBut(s, {t})
    ensures Consistent(PushBack(s, t)) && Consistent(PushFront(s, t))
  {
    var ring := s.fifo[s.tcb[t].prio];
    JoinConsistent(s, t, ring + [t]);
    JoinConsistent(s, t, [t] + ring);
  }

  /** The head of a ring leaves it. */
  lemma {:induction false} PopConsistent(s: Sched, p: nat)
    requires Consistent(s) && p < LEVELS && s.fifo[p] != []
    ensures s.fifo[p][0] in s.tcb && s.fifo[p][0] != Idle && s.tcb[s.fifo[p][0]].prio == p
    ensures
      var popped := s.(fifo := s.fifo[p := s.fifo[p][1..]]);
      WellTyped(popped) && RingsExactBut(popped, {s.fifo[p][0]})
  {
    var ring := s.fifo[p];
    var popped := s.(fifo := s.fifo[p := ring[1..]]);
    PopRing(ring);
    assert ring[0] in s.fifo[p];
    PopHolds(s, p);
    assert ReadyListed(popped, {ring[0]}) by { hide RingsHold, RingsOnce, RunningIsCurrent, NoDup; }
    assert RingsOnce(popped) by { hide RingsHold, ReadyListed, RunningIsCurrent, NoDup; }
  }

  lemma {:induction false} PopHolds(s: Sched, p: nat)
    requires WellTyped(s) && RingsHold(s, {}) && p < LEVELS && s.fifo[p] != [] && NoDup(s.fifo[p])
    ensures RingsHold(s.(fifo := s.fifo[p := s.fifo[p][1..]]), {s.fifo[p][0]})
  {
    var ring := s.fifo[p];
    var popped := s.(fifo := s.fifo[p := ring[1..]]);
    PopRing(ring);
    hide NoDup;
    assert ring[0] in s.fifo[p];
    forall q, t | 0 <= q < LEVELS && t in popped.fifo[q]
      ensures t in s.fifo[q] && t != ring[0]
    {
      if q == p { assert t in ring[1..]; } else { assert s.tcb[t].prio == q; }
    }
  }

  lemma {:induction false} PopRing(ring: seq<Task>)
    requires ring != [] && NoDup(ring)
    ensures NoDup(ring[1..]) && ring[0] !in ring[1..]
    ensures forall u :: u in ring <==> u == ring[0] || u in ring[1..]
  {
    assert ring == [ring[0]] + ring[1..];
  }

  lemma {:induction false} AddGood(s: Sched, t: Task, prio: nat)
    requires Good(s) && t !in s.tcb
    ensures Good(Add(s, t, prio))
  {
    hide RingsExactBut;
    if prio < LEVELS {
      NewcomerOutside(s, t, prio);
      PushConsistent(s.(tcb := s.tcb[t := TCB(prio, Ready, None)]), t);
      ConsistentPending(PushBack(s.(tcb := s.tcb[t := TCB(prio, Ready, None)]), t), true);
    } else {
      assert Add(s, t, prio).tcb == s.tcb;
      ConsistentPending(s, true);
    }
    AddUrgent(s, t, prio);
    hide Urgent, PushBack;
  }

  /** The ready structure does not depend on the pending bit or the slice count. */
  lemma {:induction false} ConsistentPending(s: Sched, pending: bool)
    requires Consistent(s)
    ensures Consistent(s.(pending := pending))
  {
  }

  lemma {:induction false} AddUrgent(s: Sched, t: Task, prio: nat)
    requires WellTyped(s) && Urgent(s) && t !in s.tcb
    ensures Urgent(Add(s, t, prio))
  {
  }

  lemma {:induction false} NewcomerOutside(s: Sched, t: Task, prio: nat)
    requires Consistent(s) && t !in s.tcb && prio < LEVELS
    ensures
      var s1 := s.(tcb := s.tcb[t := TCB(prio, Ready, None)]);
      WellTyped(s1) && RingsExactBut(s1, {t})
  {
    var s1 := s.(tcb := s.tcb[t := TCB(prio, Ready, None)]);
    assert RingsHold(s1, {t}) by { hide ReadyListed, RingsOnce, RunningIsCurrent, NoDup; }
    assert ReadyListed(s1, {t}) by { hide RingsHold, RingsOnce, RunningIsCurrent, NoDup; }
    assert RunningIsCurrent(s1, {t}) by { hide RingsHold, RingsOnce, ReadyListed, NoDup; }
  }

  lemma {:induction false} AddTcb(s: Sched, t: Task, prio: nat)
    requires WellTyped(s) && t !in s.tcb
    ensures Add(s, t, prio).tcb == if prio < LEVELS then s.tcb[t := TCB(prio, Ready, None)] else s.tcb
  {
  }

  /** The tasks a pick chooses among. */
  ghost predicate Runnable(s: Sched, t: Task) {
    t in s.tcb && t != Idle &&
    (s.tcb[t].state == Ready || (s.tcb[t].state == Running && s.current == Some(t)))
  }

  lemma {:induction false} PushRunningConsistent(s: Sched)
    requires Consistent(s)
    ensures Consistent(PushRunning(s))
    ensures forall t :: Runnable(PushRunning(s), t) <==> Runnable(s, t)
    ensures forall t :: Runnable(s, t) ==> PushRunning(s).tcb[t].prio == s.tcb[t].prio
  {
    if CurrentRunning(s) && s.current != Some(Idle) {
      PushConsistent(s, s.current.value);
    }
  }

  lemma {:induction false} NobodyRunning(s: Sched)
    requires Consistent(s)
    ensures forall t :: t in PushRunning(s).tcb && t != Idle ==> PushRunning(s).tcb[t].state != Running
  {
    hide RingsHold, ReadyListed, RingsOnce;
  }

  /** A task taken out of the rings gets the CPU. */
  lemma {:induction false} DispatchConsistent(s: Sched, next: Task)
    requires WellTyped(s) && next in s.tcb && next != Idle && RingsExactBut(s, {next})
    requires forall t :: t in s.tcb && t != Idle && t != next ==> s.tcb[t].state != Running
    ensures Consistent(Dispatch(s, next))
  {
    var r := Dispatch(s, next);
    assert RingsHold(r, {}) by { hide ReadyListed, RingsOnce, RunningIsCurrent, NoDup; }
    assert ReadyListed(r, {}) by { hide RingsHold, RingsOnce, RunningIsCurrent, NoDup; }
    assert RunningIsCurrent(r, {}) by { hide RingsHold, RingsOnce, ReadyListed, NoDup; }
  }

  lemma {:induction false} DispatchIdle(s: Sched)
    requires Consistent(s)
    requires forall t :: t in s.tcb && t != Idle ==> s.tcb[t].state != Running
    ensures Consistent(Dispatch(s, Idle))
  {
    var r := Dispatch(s, Idle);
    assert RingsHold(r, {}) by { hide ReadyListed, RingsOnce, RunningIsCurrent, NoDup; }
    assert ReadyListed(r, {}) by { hide RingsHold, RingsOnce, RunningIsCurrent, NoDup; }
    assert RunningIsCurrent(r, {}) by { hide RingsHold, RingsOnce, ReadyListed, NoDup; }
  }

  /** A pick restores the whole invariant from the ready structure alone. */
  lemma {:induction false} PickNextGood(s: Sched)
    requires Consistent(s)
    ensures Good(PickNext(s)) && CurrentRunning(PickNext(s)) && !PickNext(s).pending
  {
    hide RingsExactBut, PushRunning;
    PushRunningConsistent(s);
    NobodyRunning(s);
    var s1 := PushRunning(s);
    var p := Top(s1.fifo, 0);
    if p < LEVELS {
      PopConsistent(s1, p);
      var popped := s1.(fifo := s1.fifo[p := s1.fifo[p][1..]]);
      DispatchConsistent(popped, s1.fifo[p][0]);
      DispatchUrgent(popped, s1.fifo[p][0]);
    } else {
      DispatchIdle(s1);
      DispatchUrgent(s1, Idle);
    }
    hide Urgent, Dispatch, CurrentRunning, WellTyped;
  }

  lemma {:induction false} DispatchUrgent(s: Sched, next: Task)
    requires next in s.tcb && NoneAbove(s, s.tcb[next].prio)
    ensures Urgent(Dispatch(s, next)) && CurrentRunning(Dispatch(s, next)) && !Dispatch(s, next).pending
  {
  }

  /** The picked task has the least priority number of all runnable tasks, and
  idle is picked exactly when there is none. */
  lemma {:induction false} PickNextIsMostUrgent(s: Sched)
    requires Consistent(s)
    ensures
      var c := PickNext(s).current;
      && c.Some?
      && (c.value == Idle <==> forall t :: !Runnable(s, t))
      && (c.value != Idle ==> Runnable(s, c.value))
      && (forall t :: Runnable(s, t) ==> c.value in s.tcb && s.tcb[c.value].prio <= s.tcb[t].prio)
  {
    PushRunningConsistent(s);
    var s1 := PushRunning(s);
    var p := Top(s1.fifo, 0);
    forall t | Runnable(s, t)
      ensures p <= s.tcb[t].prio
    {
      assert s1.tcb[t].state == Ready;
      assert t in s1.fifo[s1.tcb[t].prio];
    }
    if p < LEVELS {
      assert s1.fifo[p][0] in s1.fifo[p];
      assert Runnable(s1, s1.fifo[p][0]);
    }
  }

  /** Among equals a still-Running task keeps the CPU; otherwise the ring head,
  the longest waiting task of that level, gets it. */
  lemma {:induction false} PickNextBreaksTies(s: Sched)
    requires Consistent(s)
    requires PickNext(s).current != Some(Idle)
    ensures
      var c := PickNext(s).current.value;
      c in s.tcb && s.tcb[c].prio < LEVELS &&
      if CurrentRunning(s) && s.tcb[s.current.value].prio == s.tcb[c].prio
      then c == s.current.value
      else s.fifo[s.tcb[c].prio] != [] && c == s.fifo[s.tcb[c].prio][0]
  {
    PushRunningConsistent(s);
    var s1 := PushRunning(s);
    var p := Top(s1.fifo, 0);
    assert s1.fifo[p][0] in s1.fifo[p];
  }

  /** Whoever becomes Ready by a wake, a new arrival or a change of level queues
  behind everybody already waiting there, and no other ring is touched. */
  lemma {:induction false} NewcomersQueueLast(s: Sched, t: Task, prio: nat)
    requires Consistent(s) && t != Idle && prio < LEVELS
    ensures t in s.tcb && s.tcb[t].state == Blocked ==>
              MakeReady(s, t).fifo == s.fifo[s.tcb[t].prio := s.fifo[s.tcb[t].prio] + [t]]
    ensures t !in s.tcb ==> Add(s, t, prio).fifo == s.fifo[prio := s.fifo[prio] + [t]]
    ensures t in s.tcb && s.tcb[t].state == Ready && s.tcb[t].prio != prio ==>
              && Reprioritize(s, t, prio).fifo[prio] == s.fifo[prio] + [t]
              && t !in Reprioritize(s, t, prio).fifo[s.tcb[t].prio]
              && forall p :: 0 <= p < LEVELS && p != prio && p != s.tcb[t].prio ==>
                   Reprioritize(s, t, prio).fifo[p] == s.fifo[p]
    ensures t in s.tcb && (s.tcb[t].state != Ready || s.tcb[t].prio == prio) ==> Reprioritize(s, t, prio).fifo == s.fifo
  {
    if t in s.tcb && s.tcb[t].state == Ready {
      DropUnique(s.fifo[s.tcb[t].prio], t);
    }
    hide RingsExactBut, Drop;
  }

  lemma {:induction false} BlockedOutside(s: Sched, t: Task)
    requires Consistent(s) && t in s.tcb && t != Idle && s.tcb[t].state == Blocked
    ensures RingsExactBut(s, {t})
  {
  }

  lemma {:induction false} MakeReadyConsistent(s: Sched, t: Task)
    requires Consistent(s) && t != Idle
    ensures Consistent(MakeReady(s, t))
  {
    hide RingsExactBut;
    if t in s.tcb && s.tcb[t].state == Blocked {
      BlockedOutside(s, t);
      PushConsistent(s, t);
      ConsistentPending(PushBack(s, t), true);
    }
  }

  lemma {:induction false} MakeReadyGood(s: Sched, t: Task)
    requires Good(s) && t != Idle
    ensures Good(MakeReady(s, t))
  {
    MakeReadyConsistent(s, t);
    hide RingsExactBut;
  }

  /** `block` is complete for the current task; a task sitting in a ring would
  stay there with the wrong state. */
  lemma {:induction false} BlockGoodIff(s: Sched, t: Task)
    requires Good(s) && t in s.tcb && t != Idle
    ensures Good(Block(s, t)) <==> s.tcb[t].state != Ready
  {
    var r := Block(s, t);
    if s.tcb[t].state == Ready {
      assert t in r.fifo[s.tcb[t].prio];
      assert r.tcb[t].state == Blocked;
      assert !RingsHold(r, {});
    } else {
      BlockConsistent(s, t);
      hide RingsExactBut;
    }
  }

  lemma {:induction false} BlockConsistent(s: Sched, t: Task)
    requires Consistent(s) && t in s.tcb && t != Idle && s.tcb[t].state != Ready
    ensures Consistent(Block(s, t))
  {
    BlockRings(s, t);
    BlockListed(s, t);
    hide RingsHold, ReadyListed, NoDup;
  }

  lemma {:induction false} BlockRings(s: Sched, t: Task)
    requires WellTyped(s) && RingsHold(s, {}) && t in s.tcb && t != Idle && s.tcb[t].state != Ready
    ensures WellTyped(Block(s, t)) && RingsHold(Block(s, t), {})
  {
  }

  lemma {:induction false} BlockListed(s: Sched, t: Task)
    requires WellTyped(s) && ReadyListed(s, {}) && t in s.tcb && t != Idle
    ensures WellTyped(Block(s, t)) && ReadyListed(Block(s, t), {})
  {
  }

  /** The current task may block from any state but Ready, and the switch this
  requests makes up for whatever was not urgent before. */
  lemma {:induction false} BlockCurrentGood(s: Sched, t: Task)
    requires Consistent(s) && s.current == Some(t) && t != Idle && s.tcb[t].state != Ready
    ensures Good(Block(s, t))
  {
    BlockConsistent(s, t);
    hide RingsExactBut;
  }

  ghost predicate WakesNobody(s: Sched, r: Sched) {
    forall t :: t in s.tcb && s.tcb[t].state == Blocked ==> t in r.tcb && r.tcb[t].state == Blocked
  }

  lemma {:induction false} PushTwiceBreaks(s: Sched, t: Task)
    requires Consistent(s) && t in s.tcb && t != Idle && s.tcb[t].state == Ready
    ensures !NoDup(PushBack(s, t).fifo[s.tcb[t].prio])
  {
    var p := s.tcb[t].prio;
    var k :| 0 <= k < |s.fifo[p]| && s.fifo[p][k] == t;
    var ring := PushBack(s, t).fifo[p];
    assert ring[k] == t && ring[|ring| - 1] == t;
  }

  /** `yield` pushes the current task without looking at its state: it is right
  exactly when that task is still Running. */
  lemma {:induction false} YieldGoodIff(s: Sched)
    requires Good(s) && s.current.Some? && s.current != Some(Idle)
    ensures Good(Yield(s)) && WakesNobody(s, Yield(s)) <==> CurrentRunning(s)
  {
    var c := s.current.value;
    if s.tcb[c].state == Ready {
      PushTwiceBreaks(s, c);
    } else {
      PushConsistent(s, c);
    }
  }

  /** The same holds for the tick that ends a slice while an equal is waiting. */
  lemma {:induction false} OnTickGoodIff(s: Sched)
    requires Good(s) && s.current.Some? && s.current != Some(Idle)
    ensures Good(OnTick(s)) && WakesNobody(s, OnTick(s)) <==>
            CurrentRunning(s) || s.served + 1 < SLICE_TICKS || s.fifo[s.tcb[s.current.value].prio] == []
  {
    hide RingsExactBut, Urgent, Yield;
    var c := s.current.value;
    if s.served + 1 >= SLICE_TICKS && s.fifo[s.tcb[c].prio] != [] {
      ServedIrrelevant(s, 0);
      OnTickRotates(s);
      YieldGoodIff(s.(served := 0));
    } else {
      assert OnTick(s).(served := s.served) == s;
      ServedIrrelevant(s, OnTick(s).served);
    }
  }

  lemma {:induction false} ServedIrrelevant(s: Sched, n: nat)
    requires Good(s)
    ensures Good(s.(served := n)) && WakesNobody(s, s.(served := n))
  {
  }

  /** The tick that ends a slice does what a yield would do. */
  lemma {:induction false} OnTickRotates(s: Sched)
    requires WellTyped(s) && s.current.Some? && s.current != Some(Idle)
    requires s.served + 1 >= SLICE_TICKS && s.fifo[s.tcb[s.current.value].prio] != []
    ensures OnTick(s) == Yield(s.(served := 0))
  {
    assert OnTick(s).tcb == Yield(s.(served := 0)).tcb;
  }

  /** Whatever its state, only the task's number changes outside the rings. */
  lemma {:induction false} ReprioritizeTcb(s: Sched, t: Task, prio: nat)
    requires Consistent(s) && t in s.tcb && t != Idle && prio < LEVELS
    ensures Reprioritize(s, t, prio).tcb == s.tcb[t := s.tcb[t].(prio := prio)]
  {
  }

  /** `reprioritize` keeps the rings exact, but requests no switch: a more urgent
  task may be left waiting until the caller asks for one. */
  lemma {:induction false} ReprioritizeConsistent(s: Sched, t: Task, prio: nat)
    requires Consistent(s) && t in s.tcb && t != Idle && prio < LEVELS
    ensures Consistent(Reprioritize(s, t, prio))
  {
    var p := s.tcb[t].prio;
    var ring := Drop(s.fifo[p], Is(t));
    if p == prio {
    } else if s.tcb[t].state == Ready {
      var out := s.(tcb := s.tcb[t := s.tcb[t].(prio := prio)], fifo := s.fifo[p := ring]);
      assert WellTyped(out) && RingsExactBut(out, {t}) by {
        DropUnique(s.fifo[p], t);
        DropConsistent(s, t, ring, prio);
      }
      assert Consistent(PushBack(out, t)) by {
        PushConsistent(out, t);
      }
      assert Reprioritize(s, t, prio) == PushBack(out, t);
    } else {
      RenumberConsistent(s, t, prio);
    }
  }

  lemma {:induction false} RenumberConsistent(s: Sched, t: Task, prio: nat)
    requires Consistent(s) && t in s.tcb && t != Idle && s.tcb[t].state != Ready && prio < LEVELS
    ensures Consistent(s.(tcb := s.tcb[t := s.tcb[t].(prio := prio)]))
  {
  }

  lemma {:induction false} DropConsistent(s: Sched, t: Task, ring: seq<Task>, prio: nat)
    requires Consistent(s) && t in s.tcb && t != Idle && s.tcb[t].state == Ready
    requires NoDup(ring) && forall u :: u in ring <==> u in s.fifo[s.tcb[t].prio] && u != t
    requires prio < LEVELS
    ensures
      var out := s.(tcb := s.tcb[t := s.tcb[t].(prio := prio)],
                    fifo := s.fifo[s.tcb[t].prio := ring]);
      WellTyped(out) && RingsExactBut(out, {t})
  {
  }

  // ---- what the operations leave alone ----

  /** No priority changes, and only the tasks in `who` may block or be woken. */
  ghost predicate Keeps(s: Sched, r: Sched, who: set<Task>) {
    && r.tcb.Keys == s.tcb.Keys
    && (forall t :: t in s.tcb ==> r.tcb[t].prio == s.tcb[t].prio)
    && (forall t :: t in s.tcb && t !in who ==> (r.tcb[t].state == Blocked <==> s.tcb[t].state == Blocked))
  }

  lemma {:induction false} PickNextKeeps(s: Sched)
    requires Consistent(s)
    ensures Keeps(s, PickNext(s), {Idle})
  {
    hide RingsExactBut;
    RingsKnown(s);
    PushRunningConsistent(s);
    PushRunningKeeps(s);
    hide PushRunning;
    var s1 := PushRunning(s);
    var p := Top(s1.fifo, 0);
    if p < LEVELS {
      PopConsistent(s1, p);
      RingHeadReady(s1, p);
      DispatchKeeps(s1.(fifo := s1.fifo[p := s1.fifo[p][1..]]), s1.fifo[p][0]);
    } else {
      DispatchKeeps(s1, Idle);
    }
    hide Dispatch;
    assert Keeps(s1, PickNext(s), {Idle});
  }

  lemma {:induction false} RingsKnown(s: Sched)
    requires Consistent(s)
    ensures forall p, t :: 0 <= p < LEVELS && t in s.fifo[p] ==> t in s.tcb
  {
  }

  lemma {:induction false} PushRunningKeeps(s: Sched)
    requires WellTyped(s)
    ensures Keeps(s, PushRunning(s), {Idle})
  {
  }

  lemma {:induction false} DispatchKeeps(s: Sched, next: Task)
    requires next in s.tcb && (next == Idle || s.tcb[next].state == Ready)
    ensures Keeps(s, Dispatch(s, next), {Idle})
  {
  }

  lemma {:induction false} RingHeadReady(s: Sched, p: nat)
    requires Consistent(s) && p < LEVELS && s.fifo[p] != []
    ensures s.fifo[p][0] in s.tcb && s.tcb[s.fifo[p][0]].state == Ready
  {
    assert s.fifo[p][0] in s.fifo[p];
  }

  lemma {:induction false} YieldKeeps(s: Sched)
    requires WellTyped(s) && (s.current.None? || CurrentRunning(s))
    ensures Keeps(s, Yield(s), {})
  {
  }

  lemma {:induction false} OnTickKeeps(s: Sched)
    requires WellTyped(s) && (s.current.None? || CurrentRunning(s))
    ensures Keeps(s, OnTick(s), {})
  {
    if s.current.Some? && s.current != Some(Idle) && s.served + 1 >= SLICE_TICKS
       && s.fifo[s.tcb[s.current.value].prio] != [] {
      OnTickRotates(s);
      YieldKeeps(s.(served := 0));
      hide OnTick, Yield;
      assert Keeps(s, Yield(s.(served := 0)), {});
    }
  }

  lemma {:induction false} MakeReadyKeeps(s: Sched, t: Task)
    requires WellTyped(s)
    ensures Keeps(s, MakeReady(s, t), {t})
  {
  }

  lemma {:induction false} NotifyKeeps(s: Sched, t: Task, value: nat)
    requires WellTyped(s)
    ensures Keeps(s, Notify(s, t, value).0, {t})
  {
    hide RequestIf;
    if t in s.tcb {
      MakeReadyKeeps(s.(tcb := s.tcb[t := s.tcb[t].(letter := Some(value))]), t);
      hide MakeReady;
    }
  }

  // ---- scheduler operations as events ----

  datatype Op =
    | Switch
    | Wake(t: Task)
    | Letter(t: Task, value: nat)
    | TakeMail
    | Sleep
    | GiveWay
    | Tick

  /** When an operation can come up: `block` is called by the running task for
  itself, and a yield or tick finds the current task, if any, still Running. */
  predicate Allowed(s: Sched, op: Op) {
    match op
    case Switch => true
    case Wake(t) => t != Idle
    case Letter(_, _) => true
    case TakeMail => true
    case Sleep => CurrentRunning(s) && s.current != Some(Idle)
    case GiveWay => s.current.None? || CurrentRunning(s)
    case Tick => s.current.None? || CurrentRunning(s)
  }

  ghost function Apply(s: Sched, op: Op): Sched
    requires Consistent(s) && Allowed(s, op)
  {
    match op
    case Switch => PickNext(s)
    case Wake(t) => MakeReady(s, t)
    case Letter(t, value) => Notify(s, t, value).0
    case TakeMail => TakeLetter(s).0
    case Sleep => Block(s, s.current.value)
    case GiveWay => Yield(s)
    case Tick => OnTick(s)
  }

  /** The tasks an operation may block or wake. */
  ghost function Touches(s: Sched, op: Op): set<Task> {
    match op
    case Switch => {Idle}
    case Wake(t) => {t}
    case Letter(t, value) => {t}
    case Sleep => if s.current.Some? then {s.current.value} else {}
    case TakeMail => {}
    case GiveWay => {}
    case Tick => {}
  }

  lemma {:induction false} ApplyGood(s: Sched, op: Op)
    requires Good(s) && Allowed(s, op)
    ensures Good(Apply(s, op))
  {
    match op
    case Switch => PickNextGood(s);
    case Wake(t) => MakeReadyGood(s, t);
    case Letter(t, value) => NotifyGood(s, t, value);
    case TakeMail =>
    case Sleep => BlockCurrentGood(s, s.current.value);
    case GiveWay => if s.current.Some? && s.current != Some(Idle) { YieldGoodIff(s); }
    case Tick => if s.current.Some? && s.current != Some(Idle) { OnTickGoodIff(s); }
  }

  lemma {:induction false} ApplyKeeps(s: Sched, op: Op)
    requires Consistent(s) && Allowed(s, op)
    ensures Keeps(s, Apply(s, op), Touches(s, op))
  {
    hide RingsExactBut, PickNext, MakeReady, Notify, Yield, OnTick;
    match op
    case Switch => PickNextKeeps(s);
    case Wake(t) => MakeReadyKeeps(s, t);
    case Letter(t, value) => NotifyKeeps(s, t, value);
    case TakeMail =>
    case Sleep =>
    case GiveWay => YieldKeeps(s);
    case Tick => OnTickKeeps(s);
  }

  /** When `reprioritize` alone keeps the urgency promise: a switch is pending anyway,
  nothing runs yet, the running task does not drop below anybody waiting, or the
  moved task, if it waits, does not rise above the running one. */
  lemma {:induction false} ReprioritizeUrgentIff(s: Sched, t: Task, prio: nat)
    requires Good(s) && t in s.tcb && t != Idle && prio < LEVELS
    ensures Urgent(Reprioritize(s, t, prio)) <==>
            || s.pending || s.current.None?
            || (if s.current == Some(t) then NoneAbove(s, prio)
                else s.tcb[t].state == Ready ==> s.tcb[s.current.value].prio <= prio)
  {
    ReprioritizeTcb(s, t, prio);
    var r := Reprioritize(s, t, prio);
    if s.tcb[t].state == Ready && s.tcb[t].prio != prio {
      NewcomersQueueLast(s, t, prio);
      assert t in r.fifo[prio];
      if s.current != Some(t) && !s.pending && s.current.Some? {
        RisenAboveIff(s, t, prio, r);
      }
    } else {
      assert r.fifo == s.fifo;
    }
    hide RingsExactBut;
  }

  lemma {:induction false} RisenAboveIff(s: Sched, t: Task, prio: nat, r: Sched)
    requires WellTyped(s) && s.current.Some? && t in s.tcb && t != Idle
    requires prio < LEVELS && s.tcb[t].prio != prio && |r.fifo| == LEVELS
    requires NoneAbove(s, s.tcb[s.current.value].prio) && t in s.fifo[s.tcb[t].prio]
    requires r.fifo[prio] == s.fifo[prio] + [t]
    requires forall p :: 0 <= p < LEVELS && p != prio && p != s.tcb[t].prio ==> r.fifo[p] == s.fifo[p]
    ensures NoneAbove(r, s.tcb[s.current.value].prio) <==> s.tcb[s.current.value].prio <= prio
  {
  }

  lemma {:induction false} ReprioritizeCanLeaveUrgencyBehind()
    ensures exists s: Sched, t: Task, p: nat ::
              Good(s) && t in s.tcb && t != Idle && p < LEVELS && !Urgent(Reprioritize(s, t, p))
  {
    var a, b := User(0), User(1);
    var tcb := map[Idle := TCB(IDLE_PRIO, Ready, None), a := TCB(2, Running, None), b := TCB(3, Ready, None)];
    var rings := Init().fifo[3 := [b]];
    var s := Sched(Some(a), tcb, rings, 0, false);
    assert forall p, t :: 0 <= p < LEVELS ==> (t in rings[p] <==> p == 3 && t == b);
    assert Consistent(s);
    assert Urgent(s);
    hide Consistent, Good;
    var r := Reprioritize(s, b, 1);
    assert r.fifo[1] == [b];
    assert !Urgent(r);
  }

  /** A letter reaches its task, replaces an unread one and, delivered or not,
  never disturbs the ready structure. */
  lemma {:induction false} NotifyGood(s: Sched, t: Task, value: nat)
    requires Good(s)
    ensures Good(Notify(s, t, value).0)
    ensures Notify(s, t, value).1 <==> t in s.tcb && t != Idle
    ensures Notify(s, t, value).1 ==>
              && Notify(s, t, value).0.tcb[t].letter == Some(value)
              && Notify(s, t, value).0.tcb[t].state != Blocked
  {
    if t in s.tcb && t != Idle {
      LetterIrrelevant(s, t, Some(value));
      var s1 := s.(tcb := s.tcb[t := s.tcb[t].(letter := Some(value))]);
      MakeReadyGood(s1, t);
      hide RingsExactBut, Urgent;
    }
  }

  lemma {:induction false} LetterIrrelevant(s: Sched, t: Task, letter: Option<nat>)
    requires Good(s) && t in s.tcb
    ensures Good(s.(tcb := s.tcb[t := s.tcb[t].(letter := letter)]))
  {
    var r := s.(tcb := s.tcb[t := s.tcb[t].(letter := letter)]);
    assert RingsHold(r, {}) by { hide ReadyListed, RingsOnce, RunningIsCurrent, NoDup; }
    assert ReadyListed(r, {}) by { hide RingsHold, RingsOnce, RunningIsCurrent, NoDup; }
    assert RunningIsCurrent(r, {}) by { hide RingsHold, RingsOnce, ReadyListed, NoDup; }
  }

  /** Mailbox round trip: the last of any letters is what the probe takes, once. */
  lemma {:induction false} LetterRoundTrip(s: Sched, t: Task, unread: nat, value: nat)
    requires Good(s) && s.current == Some(t) && t != Idle
    ensures
      var s1 := Notify(Notify(s, t, unread).0, t, value).0;
      && s1.current == Some(t) && t in s1.tcb
      && TakeLetter(s1).1 == Some(value)
      && TakeLetter(TakeLetter(s1).0).1 == None
  {
  }
}
