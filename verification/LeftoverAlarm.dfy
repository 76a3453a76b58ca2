/** A timed wait that the event wins returns without cancelling its alarm. What that
alarm does to the task's next wait. */
module LeftoverAlarm {
  import opened Lists
  import opened Ticks
  import opened SemaphoreSpec
  import T = TimeKernelSpec
  import L = TimeLedger
  import Sleep

  lemma {:induction false} DropAlone(t: nat)
    ensures Drop([t], Is(t)) == []
  {
    assert Is(t)(t);
    assert Find([t], Is(t)) == 0;
  }

  lemma {:induction false} OnlyBooking(t: nat, span: Tick)
    requires 1 <= span < HALF
    ensures T.Enqueue(T.Start(), t, span).queue == [T.Booking(t, span)]
    ensures T.OnElapsed(T.Enqueue(T.Start(), t, span), span, []).1 == [t]
  {
    var k := T.Enqueue(T.Start(), t, span);
    assert T.Start().queue == [];
    assert k.queue == [T.Booking(t, span)];
    var k1 := T.Advance(k, span);
    assert T.HeadDue(k1);
    T.FireShrinks(k1, []);
    assert T.Fire(k1, []).queue == [];
    assert T.Drain(T.Fire(k1, []), []) == (T.Fire(k1, []), []);
    assert T.Drain(k1, []).1 == [t] + [];
  }

  /** For every task and every time-out: it waits on one semaphore until `span`, a
  release wins the race, and it goes on to wait on another, empty one without a
  time-out. The old alarm is still booked, goes off, and the turn it causes links
  the task's node a second time. */
  lemma {:induction false} OldAlarmLinksTwice(t: nat, span: Tick)
    requires 1 <= span < HALF
    ensures
      var first := Semaphore(0, []);
      var (parked, v0) := Turn(first, t, Some(span), 0);
      var time := T.Enqueue(T.Start(), t, span);
      var (signalled, woken) := Release(parked);
      var (_, v1) := Turn(signalled, t, Some(span), 0);
      var (second, v2) := Turn(Semaphore(0, []), t, None, 0);
      var fired := T.OnElapsed(time, span, []).1;
      var (broken, v3) := Turn(second, t, None, span);
      && v0 == None && woken == Some(t) && v1 == Some(Ok)
      && T.Booked(time, t)
      && v2 == None && second.waiters == [t]
      && fired == [t]
      && v3 == None && broken.waiters == [t, t] && !NoDup(broken.waiters)
  {
    ExpiredIsTrue(span, 0);
    DropAlone(t);
    OnlyBooking(t, span);
    var time := T.Enqueue(T.Start(), t, span);
    assert T.Booking(t, span) in time.queue;
    assert [t, t][0] == [t, t][1];
  }

  /** With the alarm cancelled on the way out, nothing is left to go off. */
  lemma {:induction false} CancelledAlarmIsGone(t: nat, span: Tick)
    requires 1 <= span < HALF
    ensures
      var time := T.CancelBooking(T.Enqueue(T.Start(), t, span), t).0;
      !T.Booked(time, t) && T.OnElapsed(time, span, []).1 == []
  {
    OnlyBooking(t, span);
    var k := T.Enqueue(T.Start(), t, span);
    assert T.Node(t)(k.queue[0]);
    assert Find(k.queue, T.Node(t)) == 0;
    assert Drop(k.queue, T.Node(t)) == [];
  }

  // ---- when an alarm is left over ----

  /** What a semaphore step does to the alarms: parking with a deadline books one for
  the time left, and time passing fires what is due. Nothing else touches them. */
  ghost function Rung(st: State, e: Event, a: L.Ledger): (r: L.Ledger)
    requires Enabled(st, e) && L.Sound(a)
    ensures L.Sound(r)
  {
    match e
    case Next(t) =>
      if Step(st, e).1.None? && st.s.pc[t].ddl.Some?
      then L.LDo(a, T.Book(t, TimeLeft(st.s.pc[t].ddl.value, st.now))) else a
    case Elapsed(n) => L.LElapsed(a, n, [])
    case Enter(_, _) => a
    case Post => a
  }

  ghost predicate Clocked(run: seq<State>, events: seq<Event>, ls: seq<L.Ledger>, initial: nat) {
    && IsRun(run, events, initial) && |ls| == |run| && ls[0] == L.Empty()
    && (forall i :: 0 <= i < |events| && L.Sound(ls[i]) ==> ls[i + 1] == Rung(run[i], events[i], ls[i]))
  }

  /** Task t has an alarm, due at d. */
  ghost predicate HasAlarm(a: L.Ledger, t: nat, d: nat)
    requires L.Sound(a)
  {
    t in a.live && a.book[a.live[t]].deadline == d
  }

  lemma {:induction false} PlainDrain(a: L.Ledger, prev: nat, t: nat)
    requires L.Sound(a)
    ensures
      var r := L.LDrain(a, prev, []);
      && (t in r.live <==> t in a.live && t !in L.Due(a))
      && (t in r.live ==> r.book[r.live[t]] == a.book[a.live[t]])
    decreases |L.Due(a)|
  {
    if L.Due(a) != {} {
      var w := L.Next(a);
      L.LFireShrinks(a, w, prev, []);
      Sleep.NextIsDue(a);
      Sleep.PlainFire(a, w, prev);
      hide L.LFire, L.IsNext;
      PlainDrain(L.LFire(a, w, prev, []), prev, t);
      assert L.LDrain(a, prev, []) == L.LDrain(L.LFire(a, w, prev, []), prev, []);
    }
  }

  lemma {:induction false} TimePasses(a: L.Ledger, n: nat, t: nat, d: nat)
    requires L.Sound(a) && (t in a.live ==> HasAlarm(a, t, d) && a.now < d)
    ensures
      var r := L.LElapsed(a, n, []);
      && r.now == a.now + n
      && (t in r.live <==> t in a.live && a.now + n < d)
      && (t in r.live ==> HasAlarm(r, t, d))
  {
    hide L.LDrain;
    if n > 0 {
      var b := a.(now := a.now + n);
      PlainDrain(b, a.now, t);
      assert t in a.live ==> (t in L.Due(b) <==> d <= b.now);
      hide L.Due;
    }
  }

  lemma {:induction false} OthersBook(a: L.Ledger, u: nat, span: Tick, t: nat, d: nat)
    requires L.Sound(a)
    ensures
      var r := L.LDo(a, T.Book(u, span));
      && r.now == a.now
      && (u != t ==> (t in r.live <==> t in a.live) && (t in a.live && HasAlarm(a, t, d) ==> HasAlarm(r, t, d)))
      && (u == t && a.now + span == d ==> HasAlarm(r, t, d))
  {
    L.CloseKeeps(a, u, L.Dropped);
  }

  /** Did t park between steps i and m? */
  predicate HasParked(events: seq<Event>, t: nat, i: nat, m: nat)
    requires m <= |events|
  {
    exists x :: i < x < m && events[x] == Next(t)
  }

  /** During a timed wait of t that began in step i with deadline d. */
  ghost predicate Waits(st: State, a: L.Ledger, t: nat, d: nat, parked: bool) {
    && L.Sound(a) && a.now == st.now
    && PcOf(st.s, t) != Out && st.s.pc[t].ddl == Some(d)
    && (t in a.live <==> parked && a.now < d)
    && (t in a.live ==> HasAlarm(a, t, d))
  }

  lemma {:induction false} WaitStep(st: State, e: Event, a: L.Ledger, t: nat, d: nat, parked: bool)
    requires Enabled(st, e) && L.Sound(a) && Waits(st, a, t, d, parked)
    requires e == Next(t) ==> Step(st, e).1.None?
    ensures Waits(Step(st, e).0, Rung(st, e, a), t, d, parked || e == Next(t))
  {
    hide L.Sound, Drop;
    match e
    case Enter(u, span) =>
    case Post =>
    case Elapsed(n) =>
      TimePasses(a, n, t, d);
      hide L.LElapsed, HasAlarm;
    case Next(u) =>
      var ddl := st.s.pc[u].ddl;
      if Step(st, e).1.None? && ddl.Some? {
        ExpiredIsTrue(ddl.value, st.now);
        OthersBook(a, u, TimeLeft(ddl.value, st.now), t, d);
      }
      hide L.LDo, HasAlarm, TimeLeft;
  }

  lemma {:induction false} LedgersSound(run: seq<State>, events: seq<Event>, ls: seq<L.Ledger>, initial: nat, i: nat)
    requires Clocked(run, events, ls, initial) && i < |ls|
    ensures L.Sound(ls[i]) && ls[i].now == run[i].now
  {
    if i > 0 {
      LedgersSound(run, events, ls, initial, i - 1);
      assert ls[i - 1 + 1] == Rung(run[i - 1], events[i - 1], ls[i - 1]) && run[i - 1 + 1] == Step(run[i - 1], events[i - 1]).0;
    }
  }

  lemma {:induction false} WaitSoFar(run: seq<State>, events: seq<Event>, ls: seq<L.Ledger>, initial: nat, i: nat, m: nat, t: nat, span: nat)
    requires Clocked(run, events, ls, initial) && i < m <= |events|
    requires events[i] == Enter(t, Some(span)) && L.Sound(ls[i]) && t !in ls[i].live
    requires forall x :: i < x < m && events[x] == Next(t) ==> Step(run[x], events[x]).1.None?
    ensures Waits(run[m], ls[m], t, run[i].now + span, HasParked(events, t, i, m))
    decreases m
  {
    LedgersSound(run, events, ls, initial, m - 1);
    assert run[m - 1 + 1] == Step(run[m - 1], events[m - 1]).0 && ls[m - 1 + 1] == Rung(run[m - 1], events[m - 1], ls[m - 1]);
    if m == i + 1 {
      assert !HasParked(events, t, i, m);
    } else {
      WaitSoFar(run, events, ls, initial, i, m - 1, t, span);
      hide Waits, Step, Rung, Enabled;
      assert HasParked(events, t, i, m) <==> HasParked(events, t, i, m - 1) || events[m - 1] == Next(t);
      WaitStep(run[m - 1], events[m - 1], ls[m - 1], t, run[i].now + span, HasParked(events, t, i, m - 1));
    }
  }

  /** A timed wait that began without an alarm leaves one booked exactly when it
  parked and returned before its deadline: that is, when the event won. */
  lemma {:induction false} AlarmLeftIff(run: seq<State>, events: seq<Event>, ls: seq<L.Ledger>, initial: nat, i: nat, j: nat, t: nat, span: nat)
    requires Clocked(run, events, ls, initial) && i < j < |events|
    requires events[i] == Enter(t, Some(span)) && L.Sound(ls[i]) && t !in ls[i].live
    requires forall x :: i < x < j && events[x] == Next(t) ==> Step(run[x], events[x]).1.None?
    requires events[j] == Next(t) && Step(run[j], events[j]).1.Some?
    ensures t in ls[j + 1].live <==> HasParked(events, t, i, j) && run[j].now < run[i].now + span
    ensures t in ls[j + 1].live ==> Step(run[j], events[j]).1 == Some(Ok)
  {
    WaitSoFar(run, events, ls, initial, i, j, t, span);
    LedgersSound(run, events, ls, initial, j);
    assert ls[j + 1] == Rung(run[j], events[j], ls[j]);
    ExpiredIsTrue(run[i].now + span, run[j].now);
    hide Drop, TimeLeft, L.Sound;
  }

  /** Live in the ledger is booked in the kernel that is aligned with it. */
  lemma {:induction false} LiveIsBooked(k: T.Kernel, a: L.Ledger, maxSpan: nat, t: nat)
    requires L.Sound(a) && L.Aligned(k, a, maxSpan)
    ensures t in a.live <==> T.Booked(k, t)
  {
    if t in a.live {
      assert L.Has(k.queue, t);
      var i :| 0 <= i < |k.queue| && k.queue[i].id == t;
      assert k.queue[i] in k.queue;
    }
  }
}
