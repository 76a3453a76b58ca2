/** Time slices and switch requests over every run of scheduler operations. */
module Slices {
  import opened Lists
  import opened SchedulerSpec
  import opened RoundRobin

  /** Everything that can happen to the scheduler. */
  datatype Act = Do(op: Op) | Join(t: Task, prio: nat) | Renumber(t: Task, prio: nat)

  predicate CanAct(s: Sched, act: Act) {
    match act
    case Do(op) => Allowed(s, op)
    case Join(t, _) => t !in s.tcb
    case Renumber(t, prio) => t in s.tcb && t != Idle && prio < LEVELS
  }

  ghost function After(s: Sched, act: Act): Sched
    requires Consistent(s) && CanAct(s, act)
  {
    match act
    case Do(op) => Apply(s, op)
    case Join(t, prio) => Add(s, t, prio)
    case Renumber(t, prio) => Reprioritize(s, t, prio)
  }

  ghost predicate IsRun(run: seq<Sched>, acts: seq<Act>) {
    && |run| == |acts| + 1 && run[0] == Init()
    && (forall i :: 0 <= i < |acts| && Consistent(run[i]) ==> CanAct(run[i], acts[i]) && run[i + 1] == After(run[i], acts[i]))
  }

  /** The ticks among the first i acts that came after the last pick. */
  function TicksSincePick(acts: seq<Act>, i: nat): nat
    requires i <= |acts|
  {
    if i == 0 || acts[i - 1] == Do(Switch) then 0
    else TicksSincePick(acts, i - 1) + if acts[i - 1] == Do(Tick) then 1 else 0
  }

  // ---- rings stay exact without the urgency promise ----

  lemma {:induction false} LetterConsistent(s: Sched, t: Task, letter: Option<nat>)
    requires Consistent(s) && t in s.tcb
    ensures Consistent(s.(tcb := s.tcb[t := s.tcb[t].(letter := letter)]))
  {
    var r := s.(tcb := s.tcb[t := s.tcb[t].(letter := letter)]);
    var p := s.(pending := true);
    ConsistentPending(s, true);
    LetterIrrelevant(p, t, letter);
    ConsistentPending(p.(tcb := r.tcb), s.pending);
    assert p.(tcb := r.tcb).(pending := s.pending) == r;
    hide RingsExactBut;
  }

  /** A pending switch makes any consistent state good, so the lemmas on good states
  apply to all. */
  lemma {:induction false} ActConsistent(s: Sched, act: Act)
    requires Consistent(s) && CanAct(s, act)
    ensures Consistent(After(s, act))
  {
    hide RingsExactBut;
    var g := s.(pending := true);
    ConsistentPending(s, true);
    match act
    case Do(op) => OpConsistent(s, op);
    case Join(t, prio) =>
      AddGood(g, t, prio);
      ConsistentPending(Add(g, t, prio), Add(s, t, prio).pending);
      assert Add(g, t, prio).(pending := Add(s, t, prio).pending) == Add(s, t, prio);
    case Renumber(t, prio) => ReprioritizeConsistent(s, t, prio);
  }

  lemma {:induction false} OpConsistent(s: Sched, op: Op)
    requires Consistent(s) && Allowed(s, op)
    ensures Consistent(Apply(s, op))
  {
    hide RingsExactBut;
    var g := s.(pending := true);
    ConsistentPending(s, true);
    match op {
      case Switch => PickNextGood(s);
      case Wake(t) => MakeReadyConsistent(s, t);
      case Letter(t, value) =>
        if t in s.tcb && t != Idle {
          LetterConsistent(s, t, Some(value));
          MakeReadyConsistent(s.(tcb := s.tcb[t := s.tcb[t].(letter := Some(value))]), t);
        }
      case TakeMail =>
        if s.current.Some? && s.tcb[s.current.value].letter.Some? { LetterConsistent(s, s.current.value, None); }
      case Sleep => BlockConsistent(s, s.current.value);
      case GiveWay =>
        if s.current.Some? && s.current != Some(Idle) {
          YieldGoodIff(g);
          assert Yield(g) == Yield(s);
        }
      case Tick => TickConsistent(s);
    }
  }

  lemma {:induction false} TickConsistent(s: Sched)
    requires Consistent(s) && Allowed(s, Tick)
    ensures Consistent(OnTick(s))
  {
    hide RingsExactBut;
    if s.current.Some? && s.current != Some(Idle) {
      var g := s.(pending := true);
      ConsistentPending(s, true);
      OnTickGoodIff(g);
      ConsistentPending(OnTick(g), OnTick(s).pending);
      assert OnTick(g).(pending := OnTick(s).pending) == OnTick(s);
    }
  }

  // ---- the slice count is the ticks since the pick ----

  /** What the count must be. */
  ghost predicate SliceTrue(s: Sched, ticks: nat) {
    s.served == if s.current.None? || s.current == Some(Idle) then 0 else ticks % 10
  }

  lemma {:induction false} ActSlice(s: Sched, act: Act, ticks: nat)
    requires Consistent(s) && CanAct(s, act) && SliceTrue(s, ticks)
    ensures SliceTrue(After(s, act), if act == Do(Switch) then 0 else if act == Do(Tick) then ticks + 1 else ticks)
  {
    hide RingsExactBut;
    match act
    case Join(t, prio) =>
    case Renumber(t, prio) =>
    case Do(op) =>
      if op == Tick {
        TickSlice(s, ticks);
      } else if op != Switch {
        SliceUntouched(s, op);
      }
      hide Apply;
      assert op == Switch ==> After(s, act).served == 0 by { PickSlice(s); }
  }

  lemma {:induction false} PickSlice(s: Sched)
    requires Consistent(s)
    ensures Apply(s, Switch).served == 0
  {
  }

  lemma {:induction false} SliceUntouched(s: Sched, op: Op)
    requires Consistent(s) && Allowed(s, op) && op != Switch && op != Tick
    ensures Apply(s, op).served == s.served && Apply(s, op).current == s.current
  {
  }

  lemma {:induction false} TickSlice(s: Sched, ticks: nat)
    requires Consistent(s) && Allowed(s, Tick) && SliceTrue(s, ticks)
    ensures SliceTrue(Apply(s, Tick), ticks + 1)
  {
    hide RingsExactBut;
    assert OnTick(s).current == s.current;
  }

  /** In every run, whatever happens in between: the current task's slice count is
  the number of ticks since it was picked, modulo the slice; idle has none. */
  lemma {:induction false} SliceIsTicksSincePick(run: seq<Sched>, acts: seq<Act>, i: nat)
    requires IsRun(run, acts) && i < |run|
    ensures Consistent(run[i]) && SliceTrue(run[i], TicksSincePick(acts, i))
  {
    if i == 0 {
      InitGood();
    } else {
      SliceIsTicksSincePick(run, acts, i - 1);
      hide Consistent, SliceTrue, CanAct, After;
      ActConsistent(run[i - 1], acts[i - 1]);
      ActSlice(run[i - 1], acts[i - 1], TicksSincePick(acts, i - 1));
      assert run[i - 1 + 1] == After(run[i - 1], acts[i - 1]);
    }
  }

  // ---- a fresh pick is a whole slice ----

  lemma {:induction false} PickIsFresh(s: Sched)
    requires Consistent(s) && PickNext(s).current != Some(Idle)
    ensures
      var r := PickNext(s);
      && Good(r) && CurrentRunning(r) && !r.pending && r.served == 0 && Shaped(r)
      && r.current.value in r.tcb && r.tcb[r.current.value].prio < LEVELS
      && (r.fifo[r.tcb[r.current.value].prio] != [] ==> FreshSlice(r))
  {
    PickNextGood(s);
    RingsKnown(PickNext(s));
    hide RingsExactBut, PushRunning;
  }

  /** The running task has no equal waiting. */
  ghost predicate Alone(s: Sched, c: Task) {
    && Shaped(s) && s.current == Some(c) && c != Idle && CurrentRunning(s) && !s.pending
    && s.fifo[s.tcb[c].prio] == []
  }

  lemma {:induction false} AloneBeat(s: Sched, c: Task)
    requires Alone(s, c)
    ensures Alone(Beat(s), c)
  {
  }

  lemma {:induction false} AloneStays(states: seq<Sched>, c: Task, i: nat)
    requires states != [] && Alone(states[0], c) && OnlyTicks(states) && i < |states|
    ensures Alone(states[i], c)
  {
    if i > 0 {
      AloneStays(states, c, i - 1);
      AloneBeat(states[i - 1], c);
      assert Shaped(states[i - 1]);
      assert states[i - 1 + 1] == Beat(states[i - 1]);
      hide Alone, Beat;
    }
  }

  /** Whatever the count was before: with ticks and the switches they request and
  nothing else, a picked task keeps the CPU for 10 ticks, for good if no equal waits,
  and otherwise the longest waiting equal follows at the tenth. */
  lemma {:induction false} KeepsWholeSlice(s: Sched, states: seq<Sched>, i: nat)
    requires Consistent(s) && states != [] && states[0] == PickNext(s) && states[0].current != Some(Idle)
    requires OnlyTicks(states) && i < |states|
    ensures
      var r := states[0];
      && r.current.Some? && r.current.value in r.tcb && r.tcb[r.current.value].prio < |r.fifo|
      && var equals := r.fifo[r.tcb[r.current.value].prio];
         && (i < 10 || equals == [] ==> states[i].current == r.current)
         && (i == 10 && equals != [] ==> states[i].current == Some(equals[0]))
  {
    PickIsFresh(s);
    hide Good, Consistent, PickNext, OnTick;
    var r := states[0];
    var c, p := r.current.value, r.tcb[r.current.value].prio;
    if r.fifo[p] == [] {
      AloneStays(states, c, i);
    } else if i <= 10 {
      RoundRobinIsFair(states, i);
      assert |Order(r)| >= 2 && Order(r)[0] == c && Order(r)[1] == r.fifo[p][0];
    }
  }

  // ---- a switch is requested exactly when it changes something ----

  /** A running task keeps the CPU in a pick exactly when nothing above it waits. */
  lemma {:induction false} PickKeepsIff(s: Sched)
    requires Consistent(s) && CurrentRunning(s)
    ensures PickNext(s).current == s.current <==> NoneAbove(s, s.tcb[s.current.value].prio)
  {
    RingsKnown(s);
    var c := s.current.value;
    var p := s.tcb[c].prio;
    var s1 := PushRunning(s);
    var top := Top(s1.fifo, 0);
    assert s1.fifo == if c == Idle then s.fifo else s.fifo[p := [c] + s.fifo[p]];
    assert PickNext(s).current == Some(if top < LEVELS then s1.fifo[top][0] else Idle);
    if top < p && top < LEVELS {
      assert s.fifo[top] != [] && s1.fifo[top][0] in s.fifo[top];
      RingMember(s, top, s1.fifo[top][0]);
      assert !NoneAbove(s, p);
    } else {
      forall q | 0 <= q < p && q < |s.fifo|
        ensures s.fifo[q] == []
      {
        assert s.fifo[q] == s1.fifo[q];
      }
      assert c != Idle ==> top == p && s1.fifo[p][0] == c;
    }
  }

  lemma {:induction false} RingMember(s: Sched, p: nat, t: Task)
    requires Consistent(s) && p < LEVELS && t in s.fifo[p]
    ensures t in s.tcb && t != Idle && s.tcb[t].prio == p
  {
  }

  /** Waking raises the requested switch exactly if the woken task would be picked. */
  lemma {:induction false} WakeRequestsIff(s: Sched, t: Task)
    requires Good(s) && CurrentRunning(s) && !s.pending && t != Idle
    ensures MakeReady(s, t).pending <==> PickNext(MakeReady(s, t)).current != s.current
  {
    var r := MakeReady(s, t);
    MakeReadyConsistent(s, t);
    assert CurrentRunning(r) && r.current == s.current && r.tcb[s.current.value].prio == s.tcb[s.current.value].prio;
    PickKeepsIff(r);
    if t in s.tcb && s.tcb[t].state == Blocked { assert t in r.fifo[s.tcb[t].prio]; }
    hide RingsExactBut, PickNext;
  }

  lemma {:induction false} JoinRequestsIff(s: Sched, t: Task, prio: nat)
    requires Good(s) && CurrentRunning(s) && !s.pending && t !in s.tcb && prio < LEVELS
    ensures Add(s, t, prio).pending <==> PickNext(Add(s, t, prio)).current != s.current
  {
    var r := Add(s, t, prio);
    AddGood(s, t, prio);
    AddTcb(s, t, prio);
    NewcomersQueueLast(s, t, prio);
    PickKeepsIff(r);
    assert t in r.fifo[prio];
    hide RingsExactBut, PickNext;
  }

  lemma {:induction false} TickRequestsIff(s: Sched)
    requires Good(s) && CurrentRunning(s) && !s.pending
    ensures OnTick(s).pending <==> PickNext(OnTick(s)).current != s.current
  {
    hide RingsExactBut, PickNext;
    TickConsistent(s);
    var c, r := s.current.value, OnTick(s);
    if r.pending {
      RotatedAway(s);
    } else {
      assert CurrentRunning(r) && r.current == s.current && r.tcb == s.tcb && r.fifo == s.fifo;
      hide OnTick;
      PickKeepsIff(r);
    }
  }

  lemma {:induction false} RotatedAway(s: Sched)
    requires Good(s) && CurrentRunning(s) && !s.pending && OnTick(s).pending && Consistent(OnTick(s))
    ensures PickNext(OnTick(s)).current != s.current
  {
    var c, r := s.current.value, OnTick(s);
    var p := s.tcb[c].prio;
    assert r.fifo == s.fifo[p := s.fifo[p] + [c]] && r.tcb[c].state == Ready;
    assert s.fifo[p][0] in s.fifo[p];
    assert s.fifo[p][0] != c;
    RingsKnown(r);
    TopIs(r.fifo, p);
    hide RingsExactBut;
  }

  /** A task that blocks itself hands over; a letter requests what its wake does, and
  reading one's mail nothing. */
  lemma {:induction false} OthersRequest(s: Sched, t: Task, value: nat)
    requires Good(s) && CurrentRunning(s) && !s.pending && s.current != Some(Idle)
    ensures Block(s, s.current.value).pending && Consistent(Block(s, s.current.value))
    ensures PickNext(Block(s, s.current.value)).current != s.current
    ensures t in s.tcb && s.current != Some(t) ==> Block(s, t).pending == s.pending
    ensures t != Idle ==> Notify(s, t, value).0.pending == MakeReady(s, t).pending
    ensures !TakeLetter(s).0.pending
  {
    hide RingsExactBut, PickNext;
    BlockRequests(s);
    hide Block;
    if t in s.tcb && s.current != Some(t) { BlockOther(s, t); }
  }

  lemma {:induction false} BlockRequests(s: Sched)
    requires Good(s) && CurrentRunning(s) && s.current != Some(Idle)
    ensures Block(s, s.current.value).pending && Consistent(Block(s, s.current.value))
    ensures PickNext(Block(s, s.current.value)).current != s.current
  {
    hide RingsExactBut, PickNext;
    var c := s.current.value;
    BlockConsistent(s, c);
    PickNextIsMostUrgent(Block(s, c));
  }

  lemma {:induction false} BlockOther(s: Sched, t: Task)
    requires t in s.tcb && s.current != Some(t)
    ensures Block(s, t).pending == s.pending
  {
  }

  /** A task whose priority has no ring is not taken in. It can still request a switch,
  exactly when idle is running and it looks more urgent, and that switch changes
  nothing. */
  lemma {:induction false} UnfitTask(s: Sched, t: Task, prio: nat)
    requires Good(s) && CurrentRunning(s) && !s.pending && t !in s.tcb
    ensures t in Add(s, t, prio).tcb <==> prio < 32
    ensures prio >= 32 ==>
              && Add(s, t, prio).tcb == s.tcb && Add(s, t, prio).fifo == s.fifo
              && (Add(s, t, prio).pending <==> s.current == Some(Idle) && prio < 0xFF)
              && PickNext(Add(s, t, prio)).current == s.current
  {
    AddGood(s, t, prio);
    AddTcb(s, t, prio);
    if prio >= 32 { PickKeepsIff(Add(s, t, prio)); }
    hide RingsExactBut, PickNext;
  }
}
