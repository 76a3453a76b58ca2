/** The time kernel as transitions on values: a deadline queue over wrapping
ticks and a one-shot alarm that is re-armed lazily.

A callback may book and cancel while the queue is being drained. What the k-th
callback of a drain does is given by the k-th entry of a script, so a statement
about every script is a statement about every behaviour of the callbacks. */
module TimeKernelSpec {
  import opened Lists
  import opened Ticks

  datatype Booking = Booking(id: nat, deadline: Tick)

  /** The hardware alarm: off, or due to fire in `left` ticks. */
  datatype Port = Off | Alarm(left: int)

  datatype Kernel = Kernel(clock: Tick, queue: seq<Booking>, armed: Tick, armValid: bool, port: Port)

  datatype Op = Book(w: nat, span: Tick) | Cancel(w: nat)

  function Start(): Kernel {
    Kernel(0, [], 0, false, Off)
  }

  function ByDeadline(): (Booking, Booking) -> bool {
    (a: Booking, b: Booking) => Earlier(a.deadline, b.deadline)
  }

  function Node(w: nat): Booking -> bool {
    (b: Booking) => b.id == w
  }

  predicate Booked(k: Kernel, w: nat) {
    exists b :: b in k.queue && b.id == w
  }

  function UpdateAlarm(k: Kernel): Kernel {
    if k.queue == [] then
      if k.armValid then k.(port := Off, armValid := false) else k
    else
      var head := k.queue[0].deadline;
      var pending := k.armValid && Diff(k.armed, k.clock) > 0;
      var headEarlier := k.armValid && Diff(k.armed, head) > 0;
      if pending && !headEarlier then k
      else
        var remaining := Diff(head, k.clock);
        k.(port := Alarm(if remaining < 1 then 1 else remaining), armed := head, armValid := true)
  }

  function Enqueue(k: Kernel, w: nat, span: Tick): Kernel {
    var q := Drop(k.queue, Node(w));
    UpdateAlarm(k.(queue := Insert(ByDeadline(), q, Booking(w, Plus(k.clock, span)))))
  }

  function CancelBooking(k: Kernel, w: nat): (Kernel, bool) {
    (UpdateAlarm(k.(queue := Drop(k.queue, Node(w)))), Find(k.queue, Node(w)) < |k.queue|)
  }

  function NextDueIn(k: Kernel): Option<int> {
    if k.queue == [] then None
    else
      var remaining := Diff(k.queue[0].deadline, k.clock);
      Some(if remaining > 0 then remaining else 0)
  }

  function Do(k: Kernel, op: Op): Kernel {
    match op
    case Book(w, span) => Enqueue(k, w, span)
    case Cancel(w) => CancelBooking(k, w).0
  }

  function DoAll(k: Kernel, ops: seq<Op>): Kernel
    decreases ops
  {
    if ops == [] then k else DoAll(Do(k, ops[0]), ops[1..])
  }

  // ---- the drain ----

  function DueCount(q: seq<Booking>, now: Tick): nat {
    if q == [] then 0 else (if IsDue(q[0].deadline, now) then 1 else 0) + DueCount(q[1..], now)
  }

  /** Callbacks that book do so at least one tick ahead, within the half range. */
  predicate Ahead(ops: seq<Op>) {
    forall i :: 0 <= i < |ops| && ops[i].Book? ==> 1 <= ops[i].span < HALF
  }

  predicate ScriptAhead(script: seq<seq<Op>>) {
    forall i :: 0 <= i < |script| ==> Ahead(script[i])
  }

  function First(script: seq<seq<Op>>): seq<Op> {
    if script == [] then [] else script[0]
  }

  function Rest(script: seq<seq<Op>>): seq<seq<Op>> {
    if script == [] then [] else script[1..]
  }

  predicate HeadDue(k: Kernel) {
    k.queue != [] && IsDue(k.queue[0].deadline, k.clock)
  }

  /** Pops one due booking and runs its callback. */
  function Fire(k: Kernel, ops: seq<Op>): Kernel
    requires HeadDue(k)
  {
    DoAll(k.(queue := k.queue[1..]), ops)
  }

  /** The final kernel and the waiters fired, in order. */
  function Drain(k: Kernel, script: seq<seq<Op>>): (Kernel, seq<nat>)
    requires ScriptAhead(script)
    decreases DueCount(k.queue, k.clock)
  {
    if !HeadDue(k) then (k, [])
    else
      FireShrinks(k, First(script));
      var (r, fired) := Drain(Fire(k, First(script)), Rest(script));
      (r, [k.queue[0].id] + fired)
  }

  function Elapse(port: Port, n: Tick): Port {
    if port.Alarm? then Alarm(port.left - n) else Off
  }

  function Advance(k: Kernel, n: Tick): Kernel {
    k.(clock := Plus(k.clock, n), port := Elapse(k.port, n))
  }

  function OnElapsed(k: Kernel, n: Tick, script: seq<seq<Op>>): (Kernel, seq<nat>)
    requires ScriptAhead(script)
  {
    if n == 0 then (k, [])
    else
      var (r, fired) := Drain(Advance(k, n), script);
      (UpdateAlarm(r), fired)
  }

  // ---- the drain terminates: every firing leaves fewer due bookings ----

  lemma {:induction false} DueCountSplit(a: seq<Booking>, b: seq<Booking>, now: Tick)
    ensures DueCount(a + b, now) == DueCount(a, now) + DueCount(b, now)
  {
    if a == [] {
      assert a + b == b;
    } else {
      DueCountSplit(a[1..], b, now);
      assert (a + b)[1..] == a[1..] + b;
    }
  }

  lemma {:induction false} DueCountDrop(q: seq<Booking>, w: nat, now: Tick)
    ensures DueCount(Drop(q, Node(w)), now) <= DueCount(q, now)
  {
    var k := Find(q, Node(w));
    if k < |q| {
      DueCountSplit(q[..k], q[k + 1..], now);
      DueCountSplit(q[..k], [q[k]], now);
      DueCountSplit(q[..k] + [q[k]], q[k + 1..], now);
      assert q == q[..k] + [q[k]] + q[k + 1..];
    }
  }

  lemma {:induction false} DueCountInsert(q: seq<Booking>, b: Booking, now: Tick)
    requires !IsDue(b.deadline, now)
    ensures DueCount(Insert(ByDeadline(), q, b), now) == DueCount(q, now)
  {
    var k := Slot(ByDeadline(), q, b);
    DueCountSplit(q[..k], q[k..], now);
    DueCountSplit(q[..k], [b], now);
    DueCountSplit(q[..k] + [b], q[k..], now);
    assert q == q[..k] + q[k..];
  }

  lemma {:induction false} PlusIsAhead(now: Tick, span: Tick)
    ensures IsDue(Plus(now, span), now) <==> span == 0 || span > HALF
  {
  }

  lemma {:induction false} DoShrinks(k: Kernel, op: Op)
    requires op.Book? ==> 1 <= op.span < HALF
    ensures Do(k, op).clock == k.clock
    ensures DueCount(Do(k, op).queue, k.clock) <= DueCount(k.queue, k.clock)
  {
    DueCountDrop(k.queue, op.w, k.clock);
    match op {
      case Book(w, span) =>
        PlusIsAhead(k.clock, span);
        DueCountInsert(Drop(k.queue, Node(w)), Booking(w, Plus(k.clock, span)), k.clock);
      case Cancel(w) =>
    }
  }

  lemma {:induction false} DoAllShrinks(k: Kernel, ops: seq<Op>)
    requires Ahead(ops)
    ensures DoAll(k, ops).clock == k.clock
    ensures DueCount(DoAll(k, ops).queue, k.clock) <= DueCount(k.queue, k.clock)
    decreases ops
  {
    if ops != [] {
      DoShrinks(k, ops[0]);
      DoAllShrinks(Do(k, ops[0]), ops[1..]);
    }
  }

  lemma {:induction false} FireShrinks(k: Kernel, ops: seq<Op>)
    requires HeadDue(k) && Ahead(ops)
    ensures Fire(k, ops).clock == k.clock
    ensures DueCount(Fire(k, ops).queue, k.clock) < DueCount(k.queue, k.clock)
  {
    DoAllShrinks(k.(queue := k.queue[1..]), ops);
  }
}
