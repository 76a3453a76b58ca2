/** Fairness of the time slice: equals take turns of exactly SLICE_TICKS ticks. */
module RoundRobin {
  import opened Lists
  import opened SchedulerSpec

  ghost predicate Shaped(s: Sched) {
    WellTyped(s) && forall p, t :: 0 <= p < LEVELS && t in s.fifo[p] ==> t in s.tcb
  }

  /** One tick, and the switch it may have requested. */
  ghost function Beat(s: Sched): Sched
    requires Shaped(s)
  {
    var t := OnTick(s);
    if t.pending then PickNext(t) else t
  }

  /** A runner at the start of its slice, with equals waiting and no switch due. */
  ghost predicate FreshSlice(s: Sched) {
    && Good(s) && CurrentRunning(s) && !s.pending && s.served == 0
    && s.current != Some(Idle) && s.fifo[s.tcb[s.current.value].prio] != []
  }

  /** The runner followed by its equals in the order they wait. */
  ghost function Order(s: Sched): seq<Task>
    requires FreshSlice(s)
  {
    [s.current.value] + s.fifo[s.tcb[s.current.value].prio]
  }

  /** What the rotation needs to know: q is the line of equals at level p, with
  nothing more urgent waiting. */
  ghost predicate Line(s: Sched, q: seq<Task>, p: nat) {
    && Shaped(s) && p < LEVELS && NoneAbove(s, p)
    && |q| >= 2 && NoDup(q)
    && (forall t :: t in q ==> t in s.tcb && t != Idle && s.tcb[t].prio == p)
  }

  lemma {:induction false} FreshSliceIsLine(s: Sched)
    requires FreshSlice(s)
    ensures Line(s, Order(s), s.tcb[s.current.value].prio)
    ensures Turn(s, Order(s), s.tcb[s.current.value].prio, 0, 0) == s
  {
    var q, p := Order(s), s.tcb[s.current.value].prio;
    assert q[0] !in s.fifo[p];
    assert q[1..] + q[..0] == s.fifo[p];
    var r := Turn(s, q, p, 0, 0);
    assert r.fifo == s.fifo;
    forall t | t in s.tcb
      ensures r.tcb[t] == s.tcb[t]
    {
      if t in q && t != q[0] { assert t in s.fifo[p]; }
    }
    assert r.tcb == s.tcb;
  }

  /** The j-th in line is running, `served` ticks into its slice, and the line
  continues behind it; everything else is as in s. */
  ghost function Turn(s: Sched, q: seq<Task>, p: nat, j: nat, served: nat): Sched
    requires j < |q| && p < |s.fifo|
  {
    Sched(
      Some(q[j]),
      map t | t in s.tcb ::
        if t == q[j] then s.tcb[t].(state := Running)
        else if t in q then s.tcb[t].(state := Ready)
        else s.tcb[t],
      s.fifo[p := q[j + 1..] + q[..j]],
      served,
      false)
  }

  lemma {:induction false} TurnShaped(s: Sched, q: seq<Task>, p: nat, j: nat, served: nat)
    requires Line(s, q, p) && j < |q|
    ensures Shaped(Turn(s, q, p, j, served))
  {
    assert q[j] in q;
    assert forall t :: t in q[j + 1..] + q[..j] ==> t in q;
  }

  lemma {:induction false} QuietBeat(s: Sched, q: seq<Task>, p: nat, j: nat, served: nat)
    requires Line(s, q, p) && j < |q| && served + 1 < SLICE_TICKS
    ensures Shaped(Turn(s, q, p, j, served))
    ensures Beat(Turn(s, q, p, j, served)) == Turn(s, q, p, j, served + 1)
  {
    assert q[j] in q;
    TurnShaped(s, q, p, j, served);
  }

  /** The last tick of a slice: the runner goes to the tail, the head runs. */
  lemma {:induction false} RotatingBeat(a: Sched, c: Task, ring: seq<Task>)
    requires Shaped(a) && a.current == Some(c) && c != Idle && !a.pending && a.served == SLICE_TICKS - 1
    requires a.fifo[a.tcb[c].prio] == ring && ring != [] && ring[0] != c
    requires NoneAbove(a, a.tcb[c].prio)
    ensures ring[0] in a.tcb
    ensures Beat(a) == Sched(Some(ring[0]), a.tcb[c := a.tcb[c].(state := Ready)][ring[0] := a.tcb[ring[0]].(state := Running)],
                             a.fifo[a.tcb[c].prio := ring[1..] + [c]], 0, false)
  {
    var p := a.tcb[c].prio;
    assert ring[0] in a.fifo[p];
    OnTickRotates(a);
    var b := OnTick(a);
    assert b.fifo == a.fifo[p := ring + [c]];
    TopIs(b.fifo, p);
    assert (ring + [c])[1..] == ring[1..] + [c];
  }

  lemma {:induction false} TopIs(fifo: seq<seq<Task>>, p: nat)
    requires p < |fifo| && fifo[p] != [] && forall q :: 0 <= q < p ==> fifo[q] == []
    ensures Top(fifo, 0) == p
  {
  }

  /** So the CPU passes to the next in line, and after the last to the first. */
  lemma {:induction false} TurningBeat(s: Sched, q: seq<Task>, p: nat, j: nat)
    requires Line(s, q, p) && j < |q|
    ensures Shaped(Turn(s, q, p, j, SLICE_TICKS - 1))
    ensures Beat(Turn(s, q, p, j, SLICE_TICKS - 1)) == Turn(s, q, p, if j + 1 < |q| then j + 1 else 0, 0)
  {
    var i := if j + 1 < |q| then j + 1 else 0;
    var a, r := Turn(s, q, p, j, SLICE_TICKS - 1), Turn(s, q, p, i, 0);
    TurnShaped(s, q, p, j, SLICE_TICKS - 1);
    var ring := q[j + 1..] + q[..j];
    assert q[i] in q && q[j] in q;
    assert ring[0] == q[i] && ring[1..] + [q[j]] == q[i + 1..] + q[..i];
    RotatingBeat(a, q[j], ring);
    TurnPasses(s, q, p, j, i, SLICE_TICKS - 1);
    hide Beat;
    assert Beat(a).fifo == r.fifo;
  }

  lemma {:induction false} TurnPasses(s: Sched, q: seq<Task>, p: nat, j: nat, i: nat, served: nat)
    requires j < |q| && i < |q| && i != j && p < |s.fifo| && NoDup(q) && q[i] in s.tcb && q[j] in s.tcb
    ensures
      var was := Turn(s, q, p, j, served).tcb;
      Turn(s, q, p, i, 0).tcb == was[q[j] := was[q[j]].(state := Ready)][q[i] := was[q[i]].(state := Running)]
  {
    assert q[j] != q[i] by { if i < j { assert q[i] != q[j]; } }
  }

  /** The state i ticks into the round. */
  ghost function After(s: Sched, q: seq<Task>, p: nat, i: nat): Sched
    requires p < |s.fifo| && q != [] && i <= |q| * SLICE_TICKS
  {
    if i < |q| * SLICE_TICKS then Turn(s, q, p, i / SLICE_TICKS, i % SLICE_TICKS) else Turn(s, q, p, 0, 0)
  }

  lemma {:induction false} NextBeat(s: Sched, q: seq<Task>, p: nat, i: nat)
    requires Line(s, q, p) && i < |q| * SLICE_TICKS
    ensures Shaped(After(s, q, p, i)) && Beat(After(s, q, p, i)) == After(s, q, p, i + 1)
  {
    var j, v := i / SLICE_TICKS, i % SLICE_TICKS;
    assert i == j * SLICE_TICKS + v && v < SLICE_TICKS;
    if v + 1 < SLICE_TICKS {
      assert (i + 1) / SLICE_TICKS == j && (i + 1) % SLICE_TICKS == v + 1;
      QuietBeat(s, q, p, j, v);
    } else {
      assert (i + 1) / SLICE_TICKS == j + 1 && (i + 1) % SLICE_TICKS == 0;
      TurningBeat(s, q, p, j);
    }
  }

  /** A stretch of time with ticks, the switches they request and nothing else. */
  ghost predicate OnlyTicks(states: seq<Sched>) {
    forall i :: 0 <= i < |states| - 1 ==> Shaped(states[i]) ==> states[i + 1] == Beat(states[i])
  }

  lemma {:induction false} RoundRobinIsFair(states: seq<Sched>, i: nat)
    requires states != [] && FreshSlice(states[0]) && OnlyTicks(states)
    requires i < |states| && i <= |Order(states[0])| * SLICE_TICKS
    ensures states[i] == After(states[0], Order(states[0]), states[0].tcb[states[0].current.value].prio, i)
  {
    FreshSliceIsLine(states[0]);
    if i > 0 {
      RoundRobinIsFair(states, i - 1);
      RoundRobinStep(states[0], Order(states[0]), states[0].tcb[states[0].current.value].prio, states, i - 1);
    }
  }

  lemma {:induction false} RoundRobinStep(s: Sched, q: seq<Task>, p: nat, states: seq<Sched>, i: nat)
    requires Line(s, q, p) && OnlyTicks(states) && i + 1 < |states| && i < |q| * SLICE_TICKS
    requires states[i] == After(s, q, p, i)
    ensures states[i + 1] == After(s, q, p, i + 1)
  {
    NextBeat(s, q, p, i);
  }

  /** Exactly fair: in one round of k slices each of the k equals has the CPU for
  SLICE_TICKS ticks, in order, and at its end the whole scheduler is back where
  it was. */
  lemma {:induction false} FullRound(states: seq<Sched>)
    requires states != [] && FreshSlice(states[0]) && OnlyTicks(states)
    requires |states| == |Order(states[0])| * SLICE_TICKS + 1
    ensures states[|states| - 1] == states[0]
    ensures forall i :: 0 <= i < |states| - 1 ==> states[i].current == Some(Order(states[0])[i / SLICE_TICKS])
  {
    FreshSliceIsLine(states[0]);
    forall i | 0 <= i < |states|
      ensures states[i] == After(states[0], Order(states[0]), states[0].tcb[states[0].current.value].prio, i)
    {
      RoundRobinIsFair(states, i);
    }
  }
}
