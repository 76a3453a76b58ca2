/** The counting semaphore: its guarded regions, and the protocol that any number
of tasks run over them.

`acquire` loops over one guarded turn: take a unit, give up, or park. A release
puts the unit in the counter and wakes the head of the list, which must come
back and win the unit in a turn of its own. */
module SemaphoreSpec {
  import opened Lists
  import opened Ticks

  datatype SyncError = Ok | TimedOut

  datatype Semaphore = Semaphore(count: nat, waiters: seq<nat>)

  /** The signed distance the code computes; deadlines here are true times. */
  function TimeLeft(ddl: nat, now: nat): int {
    Diff(Wrap(ddl), Wrap(now))
  }

  predicate Expired(ddl: Option<nat>, now: nat) {
    ddl.Some? && TimeLeft(ddl.value, now) <= 0
  }

  /** One turn; no verdict means the caller parks (until `ddl`, if there is one). */
  function Turn(x: Semaphore, t: nat, ddl: Option<nat>, now: nat): (Semaphore, Option<SyncError>) {
    if x.count > 0 then (Semaphore(x.count - 1, Drop(x.waiters, Is(t))), Some(Ok))
    else if Expired(ddl, now) then (x.(waiters := Drop(x.waiters, Is(t))), Some(TimedOut))
    else (x.(waiters := x.waiters + [t]), None)
  }

  /** The counter is 32 bits wide. The head of the list, if any, is made ready. */
  function Release(x: Semaphore): (Semaphore, Option<nat>) {
    var c := (x.count + 1) % MODULUS;
    if x.waiters == [] then (Semaphore(c, []), None) else (Semaphore(c, x.waiters[1..]), Some(x.waiters[0]))
  }

  // ---- the protocol ----

  /** Why a task is at the head of its loop: it just called, a release popped it,
  or its alarm went off (and it may still be in the list). */
  datatype Why = Arrived | Popped | Alarmed

  datatype Pc = Out | Turning(ddl: Option<nat>, why: Why) | Parked(ddl: Option<nat>)

  datatype Sem = Sem(x: Semaphore, pc: map<nat, Pc>, initial: nat, released: nat, acquired: nat)

  function New(initial: nat): Sem {
    Sem(Semaphore(initial, []), map[], initial, 0, 0)
  }

  function PcOf(s: Sem, t: nat): Pc {
    if t in s.pc then s.pc[t] else Out
  }

  function Call(s: Sem, t: nat, ddl: Option<nat>): Sem {
    s.(pc := s.pc[t := Turning(ddl, Arrived)])
  }

  function TakeTurn(s: Sem, t: nat, now: nat): (Sem, Option<SyncError>)
    requires PcOf(s, t).Turning?
  {
    var ddl := s.pc[t].ddl;
    var (x, verdict) := Turn(s.x, t, ddl, now);
    (s.(x := x,
        pc := s.pc[t := if verdict.Some? then Out else Parked(ddl)],
        acquired := s.acquired + if verdict == Some(Ok) then 1 else 0), verdict)
  }

  /** `ready` has an effect on a parked task only; one that its alarm woke is on its
  way already. Either way it has now been popped. */
  function Signal(s: Sem): Sem {
    var (x, head) := Release(s.x);
    var pc := if head.Some? && head.value in s.pc && s.pc[head.value] != Out
              then s.pc[head.value := Turning(s.pc[head.value].ddl, Popped)] else s.pc;
    s.(x := x, pc := pc, released := s.released + 1)
  }

  /** Time reached `now`: every parked task whose deadline has come is woken. */
  function Alarms(s: Sem, now: nat): Sem {
    s.(pc := map t | t in s.pc :: AfterAlarm(s.pc[t], now))
  }

  function AfterAlarm(pc: Pc, now: nat): Pc {
    if pc.Parked? && pc.ddl.Some? && pc.ddl.value <= now then Turning(pc.ddl, Alarmed) else pc
  }

  // ---- the invariant ----

  ghost predicate Counted(s: Sem) {
    s.x.count + s.acquired == s.initial + s.released
  }

  /** In the list: parked tasks, and tasks their alarm woke that have not run yet. */
  ghost predicate ListOk(s: Sem) {
    && NoDup(s.x.waiters)
    && (forall t :: t in s.x.waiters ==>
          t in s.pc && (s.pc[t].Parked? || (s.pc[t].Turning? && s.pc[t].why == Alarmed)))
  }

  /** A parked task is in the list, and its deadline, if any, lies ahead. */
  ghost predicate ParkedOk(s: Sem, now: nat) {
    forall t :: t in s.pc && s.pc[t].Parked? ==>
      t in s.x.waiters && (s.pc[t].ddl.Some? ==> now < s.pc[t].ddl.value)
  }

  ghost predicate AlarmedOk(s: Sem, now: nat) {
    forall t :: t in s.pc && s.pc[t].Turning? && s.pc[t].why == Alarmed ==>
      s.pc[t].ddl.Some? && s.pc[t].ddl.value <= now
  }

  function PoppedSet(pc: map<nat, Pc>): set<nat> {
    set t | t in pc && pc[t].Turning? && pc[t].why == Popped
  }

  /** While anybody waits, every unit in the counter is matched by a task that a
  release popped and that has not re-checked yet. */
  ghost predicate NoLostWakeUp(s: Sem) {
    s.x.waiters != [] ==> s.x.count <= |PoppedSet(s.pc)|
  }

  ghost predicate Inv(s: Sem, now: nat) {
    Counted(s) && ListOk(s) && ParkedOk(s, now) && AlarmedOk(s, now) && NoLostWakeUp(s)
  }

  /** A woken task gets its turn within half a counter round of its deadline. */
  predicate TurnInTime(s: Sem, t: nat, now: nat) {
    && PcOf(s, t).Turning?
    && (s.pc[t].ddl.Some? ==> -HALF <= s.pc[t].ddl.value - now < HALF)
  }

  lemma {:induction false} NewInv(initial: nat, now: nat)
    ensures Inv(New(initial), now)
  {
  }

  lemma {:induction false} PoppedAfter(pc: map<nat, Pc>, t: nat, p: Pc)
    ensures PoppedSet(pc[t := p]) ==
            if p.Turning? && p.why == Popped then PoppedSet(pc) + {t} else PoppedSet(pc) - {t}
  {
  }

  lemma {:induction false} CallInv(s: Sem, t: nat, ddl: Option<nat>, now: nat)
    requires Inv(s, now) && PcOf(s, t) == Out
    ensures Inv(Call(s, t, ddl), now)
  {
    PoppedAfter(s.pc, t, Turning(ddl, Arrived));
    assert PoppedSet(s.pc) - {t} == PoppedSet(s.pc);
  }

  lemma {:induction false} ExpiredIsTrue(ddl: nat, now: nat)
    requires -HALF <= ddl - now < HALF
    ensures TimeLeft(ddl, now) == ddl - now
  {
    DiffIsTrueIff(ddl, now);
  }

  /** Leaving the list, whether or not one is in it. */
  lemma {:induction false} LeaveList(ws: seq<nat>, t: nat)
    requires NoDup(ws)
    ensures NoDup(Drop(ws, Is(t)))
    ensures forall u :: u in Drop(ws, Is(t)) <==> u in ws && u != t
  {
    if t in ws {
      DropUnique(ws, t);
    } else {
      assert Find(ws, Is(t)) == |ws|;
    }
  }

  /** The turn that ends in a verdict. */
  lemma {:induction false} LeavingInv(s: Sem, t: nat, now: nat)
    requires Inv(s, now) && PcOf(s, t).Turning? && TakeTurn(s, t, now).1.Some?
    ensures Inv(TakeTurn(s, t, now).0, now)
  {
    hide Drop, NoDup, Expired, PoppedSet;
    var r := TakeTurn(s, t, now).0;
    LeaveList(s.x.waiters, t);
    OneLessPopped(s.pc, t);
    assert NoLostWakeUp(r) by {
      if r.x.waiters != [] { assert r.x.waiters[0] in s.x.waiters; }
    }
    assert ListOk(r) && ParkedOk(r, now) && AlarmedOk(r, now);
  }

  lemma {:induction false} OneLessPopped(pc: map<nat, Pc>, t: nat)
    ensures |PoppedSet(pc)| - 1 <= |PoppedSet(pc[t := Out])|
  {
    PoppedAfter(pc, t, Out);
    var was := PoppedSet(pc);
    assert |was - {t}| == |was| - if t in was then 1 else 0;
  }

  /** The turn that parks. An alarmed task never gets here: its time is up. */
  lemma {:induction false} ParkingInv(s: Sem, t: nat, now: nat)
    requires Inv(s, now) && TurnInTime(s, t, now) && TakeTurn(s, t, now).1.None?
    ensures Inv(TakeTurn(s, t, now).0, now)
  {
    var ddl := s.pc[t].ddl;
    if ddl.Some? { ExpiredIsTrue(ddl.value, now); }
    assert ddl.Some? ==> now < ddl.value;
    hide TimeLeft, PoppedSet;
    assert t !in s.x.waiters;
  }

  lemma {:induction false} TurnInv(s: Sem, t: nat, now: nat)
    requires Inv(s, now) && TurnInTime(s, t, now)
    ensures Inv(TakeTurn(s, t, now).0, now)
  {
    hide Inv;
    if TakeTurn(s, t, now).1.Some? { LeavingInv(s, t, now); } else { ParkingInv(s, t, now); }
  }

  lemma {:induction false} SignalInv(s: Sem, now: nat)
    requires Inv(s, now) && s.x.count + 1 < MODULUS
    ensures Inv(Signal(s), now)
  {
    var r, ws := Signal(s), s.x.waiters;
    if ws != [] {
      var h := ws[0];
      assert h in ws;
      assert ws == [h] + ws[1..];
      PoppedAfter(s.pc, h, Turning(s.pc[h].ddl, Popped));
      assert h !in PoppedSet(s.pc);
      assert |PoppedSet(s.pc) + {h}| == |PoppedSet(s.pc)| + 1;
      assert forall t :: t in ws <==> t == h || t in ws[1..];
    }
    hide PoppedSet;
  }

  lemma {:induction false} AlarmsInv(s: Sem, now: nat, later: nat)
    requires Inv(s, now) && now <= later
    ensures Inv(Alarms(s, later), later)
  {
    assert PoppedSet(Alarms(s, later).pc) == PoppedSet(s.pc);
    hide PoppedSet;
  }

  // ---- runs ----

  datatype Event = Enter(t: nat, span: Option<nat>) | Next(t: nat) | Post | Elapsed(n: nat)

  datatype State = State(s: Sem, now: nat)

  predicate Enabled(st: State, e: Event) {
    match e
    case Enter(t, _) => PcOf(st.s, t) == Out
    case Next(t) => TurnInTime(st.s, t, st.now)
    case Post => st.s.x.count + 1 < MODULUS
    case Elapsed(_) => true
  }

  /** The state after an event, and the answer of `acquire`, if it returned. */
  function Step(st: State, e: Event): (State, Option<SyncError>)
    requires Enabled(st, e)
  {
    match e
    case Enter(t, span) => (st.(s := Call(st.s, t, if span.Some? then Some(st.now + span.value) else None)), None)
    case Next(t) =>
      var (s, verdict) := TakeTurn(st.s, t, st.now);
      (st.(s := s), verdict)
    case Post => (st.(s := Signal(st.s)), None)
    case Elapsed(n) => (State(Alarms(st.s, st.now + n), st.now + n), None)
  }

  lemma {:induction false} StepInv(st: State, e: Event)
    requires Inv(st.s, st.now) && Enabled(st, e)
    ensures Inv(Step(st, e).0.s, Step(st, e).0.now)
  {
    match e
    case Enter(t, span) => CallInv(st.s, t, if span.Some? then Some(st.now + span.value) else None, st.now);
    case Next(t) => TurnInv(st.s, t, st.now);
    case Post => SignalInv(st.s, st.now);
    case Elapsed(n) => AlarmsInv(st.s, st.now, st.now + n);
  }

  ghost predicate IsRun(run: seq<State>, events: seq<Event>, initial: nat) {
    && |run| == |events| + 1 && run[0] == State(New(initial), 0)
    && (forall i :: 0 <= i < |events| ==> Enabled(run[i], events[i]) && run[i + 1] == Step(run[i], events[i]).0)
  }

  /** Over every interleaving of callers, releases, barging, time-outs and alarms. */
  lemma {:induction false} EveryRun(run: seq<State>, events: seq<Event>, initial: nat, i: nat)
    requires IsRun(run, events, initial) && i < |run|
    ensures Inv(run[i].s, run[i].now)
  {
    hide Inv, Step, Enabled;
    if i == 0 {
      NewInv(initial, 0);
    } else {
      EveryRun(run, events, initial, i - 1);
      StepInv(run[i - 1], events[i - 1]);
      assert run[i - 1 + 1] == run[i];
    }
  }

  // ---- what that means ----

  function Verdicts(run: seq<State>, events: seq<Event>, i: nat): nat
    requires i <= |events| < |run| && forall j :: 0 <= j < |events| ==> Enabled(run[j], events[j])
  {
    if i == 0 then 0 else Verdicts(run, events, i - 1) + if Step(run[i - 1], events[i - 1]).1 == Some(Ok) then 1 else 0
  }

  function Posts(events: seq<Event>, i: nat): nat
    requires i <= |events|
  {
    if i == 0 then 0 else Posts(events, i - 1) + if events[i - 1].Post? then 1 else 0
  }

  /** Units are conserved: the counter is what was there, plus the releases so far,
  less the acquires that answered Ok so far. */
  lemma {:induction false} UnitsConserved(run: seq<State>, events: seq<Event>, initial: nat, i: nat)
    requires IsRun(run, events, initial) && i < |run|
    ensures run[i].s.x.count + Verdicts(run, events, i) == initial + Posts(events, i)
  {
    CountersTrue(run, events, initial, i);
    EveryRun(run, events, initial, i);
  }

  lemma {:induction false} CountersTrue(run: seq<State>, events: seq<Event>, initial: nat, i: nat)
    requires IsRun(run, events, initial) && i < |run|
    ensures run[i].s.acquired == Verdicts(run, events, i)
    ensures run[i].s.released == Posts(events, i) && run[i].s.initial == initial
  {
    if i > 0 {
      CountersTrue(run, events, initial, i - 1);
      assert run[i - 1 + 1] == Step(run[i - 1], events[i - 1]).0;
    }
  }

  /** When nobody is between waking and re-checking, a waiting task means an empty
  counter: no unit is ever left lying beside a sleeper. */
  lemma {:induction false} NoUnitBesideSleeper(run: seq<State>, events: seq<Event>, initial: nat, i: nat)
    requires IsRun(run, events, initial) && i < |run|
    requires forall t :: t in run[i].s.pc ==> !run[i].s.pc[t].Turning?
    requires exists t :: t in run[i].s.pc && run[i].s.pc[t].Parked?
    ensures run[i].s.x.count == 0
  {
    EveryRun(run, events, initial, i);
    var s := run[i].s;
    var t :| t in s.pc && s.pc[t].Parked?;
    assert t in s.x.waiters;
    assert PoppedSet(s.pc) == {};
  }

  /** One more than the index of the step in which t last parked, before state i. */
  function ParkStep(run: seq<State>, events: seq<Event>, t: nat, i: nat): (n: nat)
    requires i <= |events| < |run| && forall j :: 0 <= j < |events| ==> Enabled(run[j], events[j])
    ensures n <= i
  {
    if i == 0 then 0
    else if events[i - 1] == Next(t) && Step(run[i - 1], events[i - 1]).1.None? then i
    else ParkStep(run, events, t, i - 1)
  }

  ghost predicate InParkOrder(run: seq<State>, events: seq<Event>, i: nat)
    requires i <= |events| < |run| && forall j :: 0 <= j < |events| ==> Enabled(run[j], events[j])
  {
    var ws := run[i].s.x.waiters;
    forall a, b :: 0 <= a < b < |ws| ==> ParkStep(run, events, ws[a], i) < ParkStep(run, events, ws[b], i)
  }

  /** The list is in the order in which its members parked. */
  lemma {:induction false} ListInParkOrder(run: seq<State>, events: seq<Event>, initial: nat, i: nat)
    requires IsRun(run, events, initial) && i < |run|
    ensures InParkOrder(run, events, i)
  {
    if i > 0 {
      ListInParkOrder(run, events, initial, i - 1);
      EveryRun(run, events, initial, i - 1);
      hide Inv;
      assert run[i - 1 + 1] == Step(run[i - 1], events[i - 1]).0;
      ParkOrderStep(run, events, i - 1);
    }
  }

  lemma {:induction false} ParkOrderStep(run: seq<State>, events: seq<Event>, i: nat)
    requires i < |events| < |run| && forall j :: 0 <= j < |events| ==> Enabled(run[j], events[j])
    requires Inv(run[i].s, run[i].now) && run[i + 1] == Step(run[i], events[i]).0 && InParkOrder(run, events, i)
    ensures InParkOrder(run, events, i + 1)
  {
    hide Inv, InParkOrder, ParkStep;
    var ws, e := run[i].s.x.waiters, events[i];
    if e.Next? && Step(run[i], e).1.None? {
      ParkingIsUnlisted(run[i].s, e.t, run[i].now);
      assert run[i + 1].s.x.waiters == ws + [e.t];
      ParkOrderGrows(run, events, i);
    } else {
      ListShrinks(run[i], e);
      ParkOrderShrinks(run, events, i);
    }
  }

  lemma {:induction false} ParkOrderGrows(run: seq<State>, events: seq<Event>, i: nat)
    requires i < |events| < |run| && forall j :: 0 <= j < |events| ==> Enabled(run[j], events[j])
    requires events[i].Next? && Step(run[i], events[i]).1.None? && InParkOrder(run, events, i)
    requires events[i].t !in run[i].s.x.waiters && run[i + 1].s.x.waiters == run[i].s.x.waiters + [events[i].t]
    ensures InParkOrder(run, events, i + 1)
  {
    hide Step, Enabled;
    var ws, r, t := run[i].s.x.waiters, run[i + 1].s.x.waiters, events[i].t;
    forall a, b | 0 <= a < b < |r|
      ensures ParkStep(run, events, r[a], i + 1) < ParkStep(run, events, r[b], i + 1)
    {
      assert r[a] == ws[a] && ws[a] in ws;
      assert ParkStep(run, events, r[a], i + 1) == ParkStep(run, events, ws[a], i);
      if b < |ws| {
        assert r[b] == ws[b] && ws[b] in ws;
        assert ParkStep(run, events, r[b], i + 1) == ParkStep(run, events, ws[b], i);
      }
    }
  }

  lemma {:induction false} ParkOrderShrinks(run: seq<State>, events: seq<Event>, i: nat)
    requires i < |events| < |run| && forall j :: 0 <= j < |events| ==> Enabled(run[j], events[j])
    requires !(events[i].Next? && Step(run[i], events[i]).1.None?) && InParkOrder(run, events, i)
    requires
      var ws, r := run[i].s.x.waiters, run[i + 1].s.x.waiters;
      r == ws || exists k :: 0 <= k < |ws| && r == ws[..k] + ws[k + 1..]
    ensures InParkOrder(run, events, i + 1)
  {
    hide Step, Enabled;
    var ws, r := run[i].s.x.waiters, run[i + 1].s.x.waiters;
    assert forall t :: ParkStep(run, events, t, i + 1) == ParkStep(run, events, t, i);
    hide ParkStep;
    if r != ws {
      var k :| 0 <= k < |ws| && r == ws[..k] + ws[k + 1..];
      forall a, b | 0 <= a < b < |r|
        ensures ParkStep(run, events, r[a], i + 1) < ParkStep(run, events, r[b], i + 1)
      {
        var a', b' := if a < k then a else a + 1, if b < k then b else b + 1;
        assert r[a] == ws[a'] && r[b] == ws[b'];
      }
    }
  }

  lemma {:induction false} ParkingIsUnlisted(s: Sem, t: nat, now: nat)
    requires Inv(s, now) && TurnInTime(s, t, now) && TakeTurn(s, t, now).1.None?
    ensures t !in s.x.waiters
  {
    if s.pc[t].ddl.Some? { ExpiredIsTrue(s.pc[t].ddl.value, now); }
  }

  /** Any other step keeps the order of those it leaves in the list. */
  lemma {:induction false} ListShrinks(st: State, e: Event)
    requires Inv(st.s, st.now) && Enabled(st, e) && !(e.Next? && Step(st, e).1.None?)
    ensures
      var ws, r := st.s.x.waiters, Step(st, e).0.s.x.waiters;
      r == ws || exists k :: 0 <= k < |ws| && r == ws[..k] + ws[k + 1..]
  {
    var ws, r := st.s.x.waiters, Step(st, e).0.s.x.waiters;
    match e
    case Enter(t, span) =>
    case Elapsed(n) =>
    case Post => if ws != [] { assert ws[1..] == ws[..0] + ws[0 + 1..]; }
    case Next(t) =>
      var k := Find(ws, Is(t));
      assert r == Drop(ws, Is(t));
      if k < |ws| { assert r == ws[..k] + ws[k + 1..]; }
  }

  /** A release wakes the task that has been parked longest. */
  lemma {:induction false} WakesLongestParked(run: seq<State>, events: seq<Event>, initial: nat, i: nat)
    requires IsRun(run, events, initial) && i < |events| && events[i] == Post && run[i].s.x.waiters != []
    ensures
      exists h :: h in run[i].s.x.waiters && h !in run[i + 1].s.x.waiters
        && PcOf(run[i + 1].s, h).Turning? && run[i + 1].s.pc[h].why == Popped
        && forall u :: u in run[i].s.x.waiters && u != h ==>
             u in run[i + 1].s.x.waiters && ParkStep(run, events, h, i) < ParkStep(run, events, u, i)
  {
    EveryRun(run, events, initial, i);
    ListInParkOrder(run, events, initial, i);
    var ws := run[i].s.x.waiters;
    var h := ws[0];
    assert h in ws && ws == [h] + ws[1..];
    assert run[i + 1].s.x.waiters == ws[1..];
    forall u | u in ws && u != h
      ensures u in ws[1..] && ParkStep(run, events, h, i) < ParkStep(run, events, u, i)
    {
      var b :| 0 <= b < |ws| && ws[b] == u;
    }
  }

  /** The answers are true: Ok takes a unit that was there; TimedOut comes only at
  or after the deadline with none there. */
  lemma {:induction false} AnswersAreTrue(run: seq<State>, events: seq<Event>, initial: nat, i: nat)
    requires IsRun(run, events, initial) && i < |events| && events[i].Next?
    ensures
      var t, s, verdict := events[i].t, run[i].s, Step(run[i], events[i]).1;
      && t in s.pc && s.pc[t].Turning?
      && (verdict == Some(Ok) <==> s.x.count > 0)
      && (verdict == Some(TimedOut) <==> s.x.count == 0 && s.pc[t].ddl.Some? && s.pc[t].ddl.value <= run[i].now)
      && (verdict.Some? ==> t !in run[i + 1].s.x.waiters && PcOf(run[i + 1].s, t) == Out)
      && (verdict.None? ==> t in run[i + 1].s.x.waiters && PcOf(run[i + 1].s, t) == Parked(s.pc[t].ddl))
  {
    EveryRun(run, events, initial, i);
    var t, s := events[i].t, run[i].s;
    if s.pc[t].ddl.Some? { ExpiredIsTrue(s.pc[t].ddl.value, run[i].now); }
    LeaveList(s.x.waiters, t);
  }

  /** A parked task that something else wakes takes its turn while still linked.
  The list survives that exactly when the turn ends with a verdict: hence only a
  release or the task's own current deadline may wake it. */
  lemma {:induction false} StrayWakeKeepsListIff(x: Semaphore, t: nat, ddl: Option<nat>, now: nat)
    requires NoDup(x.waiters)
    ensures NoDup(Turn(x, t, ddl, now).0.waiters) <==> t !in x.waiters || x.count > 0 || Expired(ddl, now)
  {
    LeaveList(x.waiters, t);
    if t in x.waiters && x.count == 0 && !Expired(ddl, now) {
      var k :| 0 <= k < |x.waiters| && x.waiters[k] == t;
      var ws := x.waiters + [t];
      assert ws[k] == t && ws[|ws| - 1] == t;
    }
  }

  /** What goes wrong at the top of the 32-bit counter: a release empties it. */
  lemma {:induction false} FullCounterWraps(x: Semaphore)
    requires x.count < MODULUS
    ensures Release(x).0.count == x.count + 1 <==> x.count + 1 < MODULUS
  {
  }
}
