/** The half-range bound is exact: for steps and spans within it the wrapping kernel
fires what unbounded time says; for any step and span beyond it, there are bookings
it gets wrong. */
module TimeBound {
  import opened Lists
  import opened Ticks
  import opened TimeKernelSpec
  import opened TimeLedger

  /** For every aligned kernel and every behaviour of the callbacks, an elapsed step
  of n ticks fires what the ledger fires. */
  ghost predicate AlwaysRight(n: Tick, maxSpan: nat) {
    forall k, a, script ::
      Sound(a) && Aligned(k, a, maxSpan) && ScriptAhead(script) && ScriptUpTo(script, maxSpan) ==>
        LogGrewBy(|a.log|, LElapsed(a, n, script), OnElapsed(k, n, script).1)
  }

  // ---- two waiters booked for "now", and a callback that books one ahead ----

  function TwoBooked(): Kernel {
    Do(Do(Start(), Book(1, 0)), Book(2, 0))
  }

  ghost function TwoEntered(): (a: Ledger)
    ensures Sound(a)
  {
    LDo(LDo(Empty(), Book(1, 0)), Book(2, 0))
  }

  function BooksAhead(span: Tick): seq<seq<Op>> {
    [[Book(3, span)]]
  }

  lemma {:induction false} TwoAligned(maxSpan: nat)
    requires maxSpan < HALF
    ensures Aligned(TwoBooked(), TwoEntered(), maxSpan)
  {
    assert Related(Start(), Empty(), 0, maxSpan);
    DoRelated(Start(), Empty(), Book(1, 0), 0, maxSpan);
    DoRelated(Do(Start(), Book(1, 0)), LDo(Empty(), Book(1, 0)), Book(2, 0), 0, maxSpan);
  }

  lemma {:induction false} EnqueueIs(k: Kernel, w: nat, span: Tick)
    ensures Enqueue(k, w, span).clock == k.clock
    ensures Enqueue(k, w, span).queue ==
            Insert(ByDeadline(), Drop(k.queue, Node(w)), Booking(w, Plus(k.clock, span)))
  {
    hide Insert, Drop, Plus;
    UpdateAlarmKeeps(k.(queue := Insert(ByDeadline(), Drop(k.queue, Node(w)), Booking(w, Plus(k.clock, span)))));
    hide UpdateAlarm;
  }

  lemma {:induction false} Behind(x: Booking, y: Booking)
    requires x.id != y.id && !ByDeadline()(x, y)
    ensures Insert(ByDeadline(), Drop([y], Node(x.id)), x) == [y, x]
  {
    assert Find([y], Node(x.id)) == 1;
    assert Drop([y], Node(x.id)) == [y];
    assert Slot(ByDeadline(), [y], x) == 1;
  }

  lemma {:induction false} Alone(x: Booking)
    ensures Insert(ByDeadline(), Drop([], Node(x.id)), x) == [x]
  {
  }

  lemma {:induction false} TwoInQueue()
    ensures TwoBooked().clock == 0 && TwoBooked().queue == [Booking(1, 0), Booking(2, 0)]
  {
    hide Enqueue, Insert, Drop;
    EnqueueIs(Start(), 1, 0);
    Alone(Booking(1, 0));
    EnqueueIs(Do(Start(), Book(1, 0)), 2, 0);
    Behind(Booking(2, 0), Booking(1, 0));
  }

  /** The booking of the callback goes in front of waiter 2, which is overdue, and
  the drain stops there. */
  lemma {:induction false} KernelMissesTwo(n: Tick, span: Tick)
    requires 0 < n < HALF && 0 < span < HALF && n + span > HALF
    ensures ScriptAhead(BooksAhead(span)) && OnElapsed(TwoBooked(), n, BooksAhead(span)).1 == [1]
  {
    hide TwoBooked, Drain, UpdateAlarm;
    TwoInQueue();
    StopsAtThree(Advance(TwoBooked(), n), n, span);
  }

  lemma {:induction false} StopsAtThree(k: Kernel, n: Tick, span: Tick)
    requires 0 < n < HALF && 0 < span < HALF && n + span > HALF
    requires k.clock == n && k.queue == [Booking(1, 0), Booking(2, 0)]
    ensures ScriptAhead(BooksAhead(span)) && Drain(k, BooksAhead(span)).1 == [1]
  {
    var x, two := Booking(3, Plus(n, span)), Booking(2, 0);
    assert IsDue(0, n);
    MisorderedIff(0, n, span);
    assert ByDeadline()(x, two);
    PlusIsAhead(n, span);
    hide Plus, Diff, IsDue, Enqueue, Insert, Drop, Drain;
    var popped := k.(queue := k.queue[1..]);
    assert popped.queue == [two];
    EnqueueIs(popped, 3, span);
    InFront(popped, x, two);
    OneOp(popped, Book(3, span));
    assert First(BooksAhead(span)) == [Book(3, span)];
    DrainOnce(k, BooksAhead(span));
  }

  lemma {:induction false} OneOp(k: Kernel, op: Op)
    ensures DoAll(k, [op]) == Do(k, op)
  {
    hide Do;
    assert [op][1..] == [];
    assert DoAll(Do(k, op), []) == Do(k, op);
  }

  lemma {:induction false} InFront(k: Kernel, x: Booking, y: Booking)
    requires k.queue == [y] && x.id != y.id && ByDeadline()(x, y)
    ensures Insert(ByDeadline(), Drop(k.queue, Node(x.id)), x) == [x, y]
  {
    assert Find([y], Node(x.id)) == 1;
    assert Drop([y], Node(x.id)) == [y];
    assert Slot(ByDeadline(), [y], x) == 0;
  }

  lemma {:induction false} DrainOnce(k: Kernel, script: seq<seq<Op>>)
    requires ScriptAhead(script) && HeadDue(k) && !HeadDue(Fire(k, First(script)))
    ensures Drain(k, script).1 == [k.queue[0].id]
  {
    FireShrinks(k, First(script));
    assert Drain(Fire(k, First(script)), Rest(script)).1 == [];
  }

  lemma {:induction false} TwoLive()
    ensures
      var a := TwoEntered();
      && a.now == 0 && a.log == [] && a.live.Keys == {1, 2} && |a.book| == 2
      && a.book[0].deadline == 0 && a.book[1].deadline == 0
  {
  }

  lemma {:induction false} TwoDue(n: Tick)
    ensures
      var a := TwoEntered().(now := n);
      Sound(a) && Due(a) == {1, 2} && TwoEntered().now == 0
  {
    hide TwoEntered;
    TwoLive();
  }

  /** The ledger fires both. */
  lemma {:induction false} LedgerFiresTwo(n: Tick, span: Tick)
    requires 0 < n && 0 < span < HALF
    ensures ScriptAhead(BooksAhead(span)) && |LElapsed(TwoEntered(), n, BooksAhead(span)).log| >= 2
  {
    hide TwoEntered, LDrain, LFire, IsNext, Due;
    TwoDue(n);
    var a, ops := TwoEntered().(now := n), [Book(3, span)];
    assert First(BooksAhead(span)) == ops;
    var w := Next(a);
    NextDue(a);
    var v := if w == 1 then 2 else 1;
    LFireShrinks(a, w, 0, ops);
    LFireExtends(a, w, 0, ops);
    StillDue(a, w, v, span);
    OneMoreLogged(LFire(a, w, 0, ops), 0, Rest(BooksAhead(span)));
    DrainUnfolds(a, 0, BooksAhead(span));
  }

  lemma {:induction false} NextDue(a: Ledger)
    requires Sound(a) && Due(a) != {}
    ensures Next(a) in Due(a) && Next(a) in a.live
  {
  }

  lemma {:induction false} DrainUnfolds(a: Ledger, prev: nat, script: seq<seq<Op>>)
    requires Sound(a) && ScriptAhead(script) && Due(a) != {}
    ensures LDrain(a, prev, script) == LDrain(LFire(a, Next(a), prev, First(script)), prev, Rest(script))
  {
    LFireShrinks(a, Next(a), prev, First(script));
  }

  lemma {:induction false} StillDue(a: Ledger, w: nat, v: nat, span: Tick)
    requires Sound(a) && w in Due(a) && v in Due(a) && v != w && v != 3
    ensures v in Due(LFire(a, w, 0, [Book(3, span)]))
  {
    var c := Close(a, w, Fired(0, a.now)).(log := a.log + [a.live[w]]);
    CloseKeeps(a, w, Fired(0, a.now));
    var ops := [Book(3, span)];
    assert ops[1..] == [];
    assert LDoAll(LDo(c, ops[0]), []) == LDo(c, ops[0]);
    CloseKeeps(c, 3, Dropped);
  }

  lemma {:induction false} OneMoreLogged(a: Ledger, prev: nat, script: seq<seq<Op>>)
    requires Sound(a) && ScriptAhead(script) && Due(a) != {}
    ensures |LDrain(a, prev, script).log| > |a.log|
  {
    var w, ops := Next(a), First(script);
    LFireShrinks(a, w, prev, ops);
    LFireExtends(a, w, prev, ops);
    LDrainExtends(LFire(a, w, prev, ops), prev, Rest(script));
  }

  /** A step of half a round or more does not even see that the bookings are due. */
  lemma {:induction false} LongStepSeesNothing(n: Tick, span: Tick)
    requires HALF <= n && 0 < span < HALF
    ensures ScriptAhead(BooksAhead(span)) && OnElapsed(TwoBooked(), n, BooksAhead(span)).1 == []
  {
    hide TwoBooked, UpdateAlarm;
    TwoInQueue();
    assert !HeadDue(Advance(TwoBooked(), n));
  }

  /** Right in every case exactly within the half range. */
  lemma {:induction false} BoundIsExact(n: Tick, maxSpan: nat)
    requires 0 < maxSpan < HALF
    ensures AlwaysRight(n, maxSpan) <==> HalfRange(n, maxSpan)
  {
    hide OnElapsed, LElapsed, TwoBooked, TwoEntered, Aligned, Sound;
    if HalfRange(n, maxSpan) {
      forall k, a, script | Sound(a) && Aligned(k, a, maxSpan) && ScriptAhead(script) && ScriptUpTo(script, maxSpan)
        ensures LogGrewBy(|a.log|, LElapsed(a, n, script), OnElapsed(k, n, script).1)
      {
        OnElapsedRefines(k, a, n, script, maxSpan);
      }
    } else {
      BeyondIsWrong(n, maxSpan);
    }
  }

  lemma {:induction false} BeyondIsWrong(n: Tick, maxSpan: nat)
    requires 0 < maxSpan < HALF && !HalfRange(n, maxSpan)
    ensures !AlwaysRight(n, maxSpan)
  {
    hide OnElapsed, LElapsed, TwoBooked, TwoEntered, Aligned, Sound;
    var k, a, script := TwoBooked(), TwoEntered(), BooksAhead(maxSpan);
    TwoAligned(maxSpan);
    TwoLive();
    LedgerFiresTwo(n, maxSpan);
    if n < HALF { KernelMissesTwo(n, maxSpan); } else { LongStepSeesNothing(n, maxSpan); }
    assert ScriptUpTo(script, maxSpan);
    assert !LogGrewBy(|a.log|, LElapsed(a, n, script), OnElapsed(k, n, script).1);
  }
}
