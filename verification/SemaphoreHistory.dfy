/** The semaphore's answers in terms of what callers asked for: the time-out runs
from the call, and only callers that set one can be timed out. */
module SemaphoreHistory {
  import opened Lists
  import opened Ticks
  import opened SemaphoreSpec

  /** The deadline that a call made at time `now` asks for. */
  function Asked(now: nat, span: Option<nat>): Option<nat> {
    if span.Some? then Some(now + span.value) else None
  }

  /** Task t is inside with this deadline. */
  predicate InsideUntil(s: Sem, t: nat, ddl: Option<nat>) {
    PcOf(s, t) != Out && s.pc[t].ddl == ddl
  }

  // ---- no step changes the deadline of a task that is inside ----

  lemma {:induction false} CallUntil(s: Sem, t: nat, ddl: Option<nat>, u: nat)
    ensures PcOf(Call(s, t, ddl), u) == if u == t then Turning(ddl, Arrived) else PcOf(s, u)
  {
  }

  lemma {:induction false} TurnUntil(s: Sem, t: nat, now: nat, u: nat, ddl: Option<nat>)
    requires PcOf(s, t).Turning?
    ensures InsideUntil(TakeTurn(s, t, now).0, u, ddl) <==>
            InsideUntil(s, u, ddl) && !(u == t && TakeTurn(s, t, now).1.Some?)
  {
    hide Drop, Expired;
  }

  lemma {:induction false} SignalUntil(s: Sem, u: nat, ddl: Option<nat>)
    ensures InsideUntil(Signal(s), u, ddl) <==> InsideUntil(s, u, ddl)
  {
  }

  lemma {:induction false} AlarmsUntil(s: Sem, now: nat, u: nat, ddl: Option<nat>)
    ensures InsideUntil(Alarms(s, now), u, ddl) <==> InsideUntil(s, u, ddl)
  {
  }

  // ---- runs ----

  /** The step in which t last called, before state i. */
  function LastCall(events: seq<Event>, t: nat, i: nat): (x: Option<nat>)
    requires i <= |events|
    ensures x.Some? ==> x.value < i && events[x.value].Enter? && events[x.value].t == t
  {
    if i == 0 then None
    else if events[i - 1].Enter? && events[i - 1].t == t then Some(i - 1)
    else LastCall(events, t, i - 1)
  }

  ghost predicate AsCalled(run: seq<State>, events: seq<Event>, t: nat, i: nat)
    requires |run| == |events| + 1 && i < |run|
  {
    PcOf(run[i].s, t) != Out ==>
      && LastCall(events, t, i).Some?
      && var x := LastCall(events, t, i).value;
         InsideUntil(run[i].s, t, Asked(run[x].now, events[x].span))
  }

  lemma {:induction false} StepUntil(st: State, e: Event, t: nat, ddl: Option<nat>)
    requires Enabled(st, e) && InsideUntil(Step(st, e).0.s, t, ddl)
    ensures if e.Enter? && e.t == t then ddl == Asked(st.now, e.span) else InsideUntil(st.s, t, ddl)
  {
    hide TakeTurn, Signal, Alarms;
    match e
    case Enter(u, span) => CallUntil(st.s, u, Asked(st.now, span), t);
    case Next(u) => TurnUntil(st.s, u, st.now, t, ddl);
    case Post => SignalUntil(st.s, t, ddl);
    case Elapsed(n) => AlarmsUntil(st.s, st.now + n, t, ddl);
  }

  /** In every state of every run a task inside waits until what its last call asked. */
  lemma {:induction false} WaitsAsCalled(run: seq<State>, events: seq<Event>, initial: nat, t: nat, i: nat)
    requires IsRun(run, events, initial) && i < |run|
    ensures AsCalled(run, events, t, i)
  {
    if i > 0 && PcOf(run[i].s, t) != Out {
      WaitsAsCalled(run, events, initial, t, i - 1);
      assert run[i - 1 + 1] == Step(run[i - 1], events[i - 1]).0;
      StepUntil(run[i - 1], events[i - 1], t, run[i].s.pc[t].ddl);
    }
  }

  /** Time is the sum of the elapsed steps. */
  function TimeAt(events: seq<Event>, i: nat): nat
    requires i <= |events|
  {
    if i == 0 then 0 else TimeAt(events, i - 1) + if events[i - 1].Elapsed? then events[i - 1].n else 0
  }

  lemma {:induction false} TimeIsElapsed(run: seq<State>, events: seq<Event>, initial: nat, i: nat)
    requires IsRun(run, events, initial) && i < |run|
    ensures run[i].now == TimeAt(events, i)
  {
    if i > 0 {
      TimeIsElapsed(run, events, initial, i - 1);
      assert run[i - 1 + 1] == Step(run[i - 1], events[i - 1]).0;
    }
  }

  /** The answer to a task's turn, from the history alone: Ok iff a unit is left of the
  initial ones and the releases after all acquires so far; TimedOut iff none is, the
  call set a time-out, and that many ticks have passed since; otherwise it sleeps. */
  lemma {:induction false} AnswerByHistory(run: seq<State>, events: seq<Event>, initial: nat, j: nat)
    requires IsRun(run, events, initial) && j < |events| && events[j].Next?
    ensures
      var t, verdict := events[j].t, Step(run[j], events[j]).1;
      var units := initial + Posts(events, j) - Verdicts(run, events, j);
      && LastCall(events, t, j).Some?
      && var x := LastCall(events, t, j).value;
         var up := events[x].span.Some? && TimeAt(events, j) >= TimeAt(events, x) + events[x].span.value;
         verdict == if units > 0 then Some(Ok) else if up then Some(TimedOut) else None
  {
    var t := events[j].t;
    AnswersAreTrue(run, events, initial, j);
    UnitsConserved(run, events, initial, j);
    WaitsAsCalled(run, events, initial, t, j);
    TimeIsElapsed(run, events, initial, j);
    TimeIsElapsed(run, events, initial, LastCall(events, t, j).value);
    hide Step, IsRun, Verdicts, Posts;
  }

  /** A task asleep in a timed wait has time left; untimed waits sleep without limit. */
  lemma {:induction false} SleepsWithinTimeout(run: seq<State>, events: seq<Event>, initial: nat, t: nat, j: nat)
    requires IsRun(run, events, initial) && j < |run| && PcOf(run[j].s, t).Parked?
    ensures
      && LastCall(events, t, j).Some?
      && var x := LastCall(events, t, j).value;
         events[x].span.Some? ==> TimeAt(events, j) < TimeAt(events, x) + events[x].span.value
  {
    EveryRun(run, events, initial, j);
    WaitsAsCalled(run, events, initial, t, j);
    TimeIsElapsed(run, events, initial, j);
    TimeIsElapsed(run, events, initial, LastCall(events, t, j).value);
  }
}
