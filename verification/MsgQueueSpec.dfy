/** The bounded message queue: a ring guarded by two semaphores, run by any number
of senders and receivers.

A sender first wins a slot (`spaces`), then writes; a receiver first wins a unit
(`units`), then pops. Between winning and using, anything may happen. */
module MsgQueueSpec {
  import opened Lists
  import opened Ticks
  import opened BitOps
  import S = SemaphoreSpec

  datatype QueueError = Ok | Timeout | Full

  // ---- the ring ----

  datatype Ring<M> = Ring(slots: seq<M>, head: nat, count: nat)

  ghost predicate RingOk<M>(r: Ring<M>, k: nat) {
    |r.slots| == Pow2(k) && r.head < |r.slots| && r.count <= |r.slots|
  }

  /** Where the i-th message from the head lies. */
  function Place<M>(r: Ring<M>, i: nat): nat {
    if r.head + i < |r.slots| then r.head + i else r.head + i - |r.slots|
  }

  function Contents<M>(r: Ring<M>): seq<M>
    requires r.head < |r.slots| && r.count <= |r.slots|
  {
    seq(r.count, i requires 0 <= i < r.count => r.slots[Place(r, i)])
  }

  function Put<M>(r: Ring<M>, m: M): Ring<M>
    requires r.slots != [] && And(r.head + r.count, |r.slots| - 1) < |r.slots|
  {
    r.(slots := r.slots[And(r.head + r.count, |r.slots| - 1) := m], count := r.count + 1)
  }

  function Take<M>(r: Ring<M>): (Ring<M>, M)
    requires r.head < |r.slots| && r.count > 0
  {
    (r.(head := And(r.head + 1, |r.slots| - 1), count := r.count - 1), r.slots[r.head])
  }

  /** Masking with the power of two less one wraps an index that ran over. */
  lemma {:induction false} MaskIsPlace<M>(r: Ring<M>, k: nat, i: nat)
    requires RingOk(r, k) && i <= |r.slots|
    ensures And(r.head + i, |r.slots| - 1) == Place(r, i) < |r.slots|
  {
    var x := r.head + i;
    if x < Pow2(k) {
      MaskBelow(x, k);
    } else {
      MaskWraps(x - Pow2(k), k);
      MaskBelow(x - Pow2(k), k);
    }
  }

  lemma {:induction false} PutAppends<M>(r: Ring<M>, k: nat, m: M)
    requires RingOk(r, k) && r.count < |r.slots|
    ensures And(r.head + r.count, |r.slots| - 1) < |r.slots|
    ensures RingOk(Put(r, m), k) && Contents(Put(r, m)) == Contents(r) + [m]
  {
    MaskIsPlace(r, k, r.count);
    hide And;
    var q := Put(r, m);
    assert forall i :: 0 <= i <= r.count ==> Contents(q)[i] == (Contents(r) + [m])[i];
  }

  lemma {:induction false} TakeIsFirst<M>(r: Ring<M>, k: nat)
    requires RingOk(r, k) && r.count > 0
    ensures RingOk(Take(r).0, k) && Contents(r) == [Take(r).1] + Contents(Take(r).0)
  {
    MaskIsPlace(r, k, 1);
    hide And;
    var q := Take(r).0;
    assert forall i :: 0 <= i < q.count ==> Contents(r)[i + 1] == Contents(q)[i];
  }

  // ---- the protocol ----

  datatype Wish<M> = Wish(m: M, span: nat)

  /** `wants` holds what callers of `post_for` carry, `reserved` the senders that
  won a slot and have not written, `committed` the receivers that won a unit and
  have not popped. `written` and `popped` are the whole history. */
  datatype Pipe<M> = Pipe(
    ring: Ring<M>,
    units: S.Sem,
    spaces: S.Sem,
    wants: map<nat, Wish<M>>,
    reserved: map<nat, M>,
    committed: set<nat>,
    written: seq<M>,
    popped: seq<M>,
    now: nat)

  function New<M>(slots: seq<M>): Pipe<M> {
    Pipe(Ring(slots, 0, 0), S.New(0), S.New(|slots|), map[], map[], {}, [], [], 0)
  }

  datatype Event<M> =
    | Post(t: nat, m: M, span: nat)
    | SpaceTurn(t: nat)
    | Write(t: nat)
    | Receive(t: nat, timeout: Option<nat>)
    | UnitTurn(t: nat)
    | Pop(t: nat)
    | Elapsed(n: nat)

  datatype Answer<M> = Silent | Posted(e: QueueError) | Received(m: M) | GaveUp

  predicate Inside(s: S.Sem, t: nat) {
    S.PcOf(s, t) != S.Out
  }

  predicate Idle<M>(p: Pipe<M>, t: nat) {
    !Inside(p.units, t) && !Inside(p.spaces, t) && t !in p.reserved && t !in p.committed
  }

  predicate Enabled<M>(p: Pipe<M>, e: Event<M>) {
    match e
    case Post(t, _, _) => Idle(p, t)
    case SpaceTurn(t) => S.TurnInTime(p.spaces, t, p.now)
    case Write(t) => t in p.reserved
    case Receive(t, _) => Idle(p, t)
    case UnitTurn(t) => S.TurnInTime(p.units, t, p.now)
    case Pop(t) => t in p.committed
    case Elapsed(_) => true
  }

  function Step<M>(p: Pipe<M>, e: Event<M>, k: nat): (Pipe<M>, Answer<M>)
    requires Inv(p, k) && Enabled(p, e)
  {
    match e
    case Post(t, m, span) =>
      (p.(spaces := S.Call(p.spaces, t, Some(p.now + span)), wants := p.wants[t := Wish(m, span)]), Silent)
    case SpaceTurn(t) =>
      var (s, verdict) := S.TakeTurn(p.spaces, t, p.now);
      var q := p.(spaces := s);
      if verdict.None? then (q, Silent)
      else if verdict.value == S.Ok then (q.(reserved := p.reserved[t := p.wants[t].m]), Silent)
      else (q, Posted(if p.wants[t].span == 0 then Full else Timeout))
    case Write(t) =>
      WriteFits(p, t, k);
      var m := p.reserved[t];
      (p.(ring := Put(p.ring, m), units := S.Signal(p.units), reserved := p.reserved - {t}, written := p.written + [m]),
       Posted(Ok))
    case Receive(t, timeout) =>
      (p.(units := S.Call(p.units, t, if timeout.Some? then Some(p.now + timeout.value) else None)), Silent)
    case UnitTurn(t) =>
      var (s, verdict) := S.TakeTurn(p.units, t, p.now);
      var q := p.(units := s);
      if verdict.None? then (q, Silent)
      else if verdict.value == S.Ok then (q.(committed := p.committed + {t}), Silent)
      else (q, GaveUp)
    case Pop(t) =>
      PopFinds(p, t, k);
      var (ring, m) := Take(p.ring);
      (p.(ring := ring, spaces := S.Signal(p.spaces), committed := p.committed - {t}, popped := p.popped + [m]),
       Received(m))
    case Elapsed(n) =>
      (p.(units := S.Alarms(p.units, p.now + n), spaces := S.Alarms(p.spaces, p.now + n), now := p.now + n), Silent)
  }

  // ---- the invariant ----

  /** Every slot is free, promised to a sender, or holds a message; every message
  is on offer or promised to a receiver. */
  ghost predicate Balanced<M>(p: Pipe<M>) {
    && p.spaces.x.count + |p.reserved| + p.ring.count == |p.ring.slots|
    && p.units.x.count + |p.committed| == p.ring.count
  }

  ghost predicate OnePlace<M>(p: Pipe<M>) {
    && (forall t :: Inside(p.spaces, t) ==> t in p.wants && t !in p.reserved)
    && (forall t :: Inside(p.units, t) ==> t !in p.committed)
  }

  ghost predicate InOrder<M>(ring: Ring<M>, written: seq<M>, popped: seq<M>, k: nat) {
    RingOk(ring, k) && popped + Contents(ring) == written
  }

  /** The capacity is a power of two that fits the 32-bit counters. */
  ghost predicate Inv<M>(p: Pipe<M>, k: nat) {
    && k < 32 && Pow2(k) < MODULUS
    && InOrder(p.ring, p.written, p.popped, k) && Balanced(p) && OnePlace(p)
    && S.Inv(p.units, p.now) && S.Inv(p.spaces, p.now)
  }

  lemma {:induction false} WriteFits<M>(p: Pipe<M>, t: nat, k: nat)
    requires Inv(p, k) && t in p.reserved
    ensures p.ring.count < |p.ring.slots|
    ensures And(p.ring.head + p.ring.count, |p.ring.slots| - 1) < |p.ring.slots|
  {
    assert |p.reserved| > 0;
    MaskIsPlace(p.ring, k, p.ring.count);
  }

  lemma {:induction false} PopFinds<M>(p: Pipe<M>, t: nat, k: nat)
    requires Inv(p, k) && t in p.committed
    ensures p.ring.count > 0 && p.ring.head < |p.ring.slots|
  {
    assert |p.committed| > 0;
  }

  lemma {:induction false} CapacityFits(k: nat)
    requires k < 32
    ensures Pow2(k) < MODULUS
  {
    assert Pow2(32) == MODULUS by {
      assert Pow2(8) == 256;
      assert Pow2(16) == 65536;
      assert Pow2(24) == 0x100_0000;
    }
    Pow2Grows(k, 32);
  }

  lemma {:induction false} NewInv<M>(slots: seq<M>, k: nat)
    requires k < 32 && |slots| == Pow2(k)
    ensures Inv(New(slots), k)
  {
    hide S.Inv, Pow2;
    CapacityFits(k);
    S.NewInv(0, 0);
    S.NewInv(|slots|, 0);
    var p := New(slots);
    assert p.popped + Contents(p.ring) == p.written;
    assert InOrder(p.ring, p.written, p.popped, k);
    assert OnePlace(p) && Balanced(p);
  }

  // ---- what the semaphore steps mean for the balance ----

  lemma {:induction false} CallInside(s: S.Sem, t: nat, ddl: Option<nat>)
    ensures S.Call(s, t, ddl).x == s.x
    ensures forall u :: Inside(S.Call(s, t, ddl), u) <==> Inside(s, u) || u == t
  {
  }

  lemma {:induction false} TurnInside(s: S.Sem, t: nat, now: nat)
    requires S.PcOf(s, t).Turning?
    ensures
      var (r, verdict) := S.TakeTurn(s, t, now);
      && Inside(s, t)
      && (forall u :: Inside(r, u) <==> Inside(s, u) && !(u == t && verdict.Some?))
      && r.x.count == s.x.count - if verdict == Some(S.Ok) then 1 else 0
  {
    hide Drop, S.Expired;
  }

  lemma {:induction false} SignalInside(s: S.Sem)
    requires s.x.count + 1 < MODULUS
    ensures S.Signal(s).x.count == s.x.count + 1
    ensures forall u :: Inside(S.Signal(s), u) <==> Inside(s, u)
  {
  }

  lemma {:induction false} AlarmsInside(s: S.Sem, now: nat)
    ensures S.Alarms(s, now).x == s.x
    ensures forall u :: Inside(S.Alarms(s, now), u) <==> Inside(s, u)
  {
  }

  lemma {:induction false} PostInv<M>(p: Pipe<M>, t: nat, m: M, span: nat, k: nat)
    requires Inv(p, k) && Idle(p, t)
    ensures Inv(Step(p, Post(t, m, span), k).0, k)
  {
    hide S.Inv, S.Call, InOrder;
    S.CallInv(p.spaces, t, Some(p.now + span), p.now);
    CallInside(p.spaces, t, Some(p.now + span));
  }

  lemma {:induction false} ReceiveInv<M>(p: Pipe<M>, t: nat, span: Option<nat>, k: nat)
    requires Inv(p, k) && Idle(p, t)
    ensures Inv(Step(p, Receive(t, span), k).0, k)
  {
    hide S.Inv, S.Call, InOrder;
    var ddl := if span.Some? then Some(p.now + span.value) else None;
    S.CallInv(p.units, t, ddl, p.now);
    CallInside(p.units, t, ddl);
  }

  lemma {:induction false} SpaceTurnInv<M>(p: Pipe<M>, t: nat, k: nat)
    requires Inv(p, k) && S.TurnInTime(p.spaces, t, p.now)
    ensures Inv(Step(p, SpaceTurn(t), k).0, k)
  {
    hide S.Inv, S.TakeTurn, InOrder, Inside;
    S.TurnInv(p.spaces, t, p.now);
    TurnInside(p.spaces, t, p.now);
    assert |p.reserved[t := p.wants[t].m]| == |p.reserved| + 1;
  }

  lemma {:induction false} UnitTurnInv<M>(p: Pipe<M>, t: nat, k: nat)
    requires Inv(p, k) && S.TurnInTime(p.units, t, p.now)
    ensures Inv(Step(p, UnitTurn(t), k).0, k)
  {
    hide S.Inv, S.TakeTurn, InOrder, Inside;
    S.TurnInv(p.units, t, p.now);
    TurnInside(p.units, t, p.now);
    assert |p.committed + {t}| == |p.committed| + 1;
  }

  lemma {:induction false} WriteInv<M>(p: Pipe<M>, t: nat, k: nat)
    requires Inv(p, k) && t in p.reserved
    ensures Inv(Step(p, Write(t), k).0, k)
  {
    WriteFits(p, t, k);
    PutAppends(p.ring, k, p.reserved[t]);
    S.SignalInv(p.units, p.now);
    SignalInside(p.units);
    OneKeyLess(p.reserved, t);
    hide S.Inv, S.Signal, Inside, Contents, And, Pow2;
    var q := Step(p, Write(t), k).0;
    assert q.popped + Contents(q.ring) == (p.popped + Contents(p.ring)) + [p.reserved[t]];
  }

  lemma {:induction false} OneKeyLess<M>(held: map<nat, M>, t: nat)
    requires t in held
    ensures |held - {t}| == |held| - 1
  {
    assert (held - {t}).Keys == held.Keys - {t};
    assert |held.Keys - {t}| == |held.Keys| - 1;
    assert |held| == |held.Keys| && |held - {t}| == |(held - {t}).Keys|;
  }

  lemma {:induction false} PopInv<M>(p: Pipe<M>, t: nat, k: nat)
    requires Inv(p, k) && t in p.committed
    ensures Inv(Step(p, Pop(t), k).0, k)
  {
    PopFinds(p, t, k);
    TakeIsFirst(p.ring, k);
    S.SignalInv(p.spaces, p.now);
    SignalInside(p.spaces);
    assert |p.committed - {t}| == |p.committed| - 1;
    hide S.Inv, S.Signal, Inside, Contents, And, Pow2;
    var q := Step(p, Pop(t), k).0;
    assert q.popped + Contents(q.ring) == p.popped + ([Take(p.ring).1] + Contents(q.ring));
  }

  lemma {:induction false} ElapsedInv<M>(p: Pipe<M>, n: nat, k: nat)
    requires Inv(p, k)
    ensures Inv(Step(p, Elapsed(n), k).0, k)
  {
    hide S.Inv, S.Alarms, InOrder, Inside;
    S.AlarmsInv(p.units, p.now, p.now + n);
    S.AlarmsInv(p.spaces, p.now, p.now + n);
    AlarmsInside(p.units, p.now + n);
    AlarmsInside(p.spaces, p.now + n);
  }

  lemma {:induction false} StepInv<M>(p: Pipe<M>, e: Event<M>, k: nat)
    requires Inv(p, k) && Enabled(p, e)
    ensures Inv(Step(p, e, k).0, k)
  {
    hide Inv, Step;
    match e
    case Post(t, m, span) => PostInv(p, t, m, span, k);
    case SpaceTurn(t) => SpaceTurnInv(p, t, k);
    case Write(t) => WriteInv(p, t, k);
    case Receive(t, timeout) => ReceiveInv(p, t, timeout, k);
    case UnitTurn(t) => UnitTurnInv(p, t, k);
    case Pop(t) => PopInv(p, t, k);
    case Elapsed(n) => ElapsedInv(p, n, k);
  }

  // ---- every run ----

  ghost predicate Follows<M>(p: Pipe<M>, e: Event<M>, q: Pipe<M>, k: nat) {
    Inv(p, k) ==> Enabled(p, e) && q == Step(p, e, k).0
  }

  ghost predicate IsRun<M>(run: seq<Pipe<M>>, events: seq<Event<M>>, slots: seq<M>, k: nat) {
    && k < 32 && |slots| == Pow2(k)
    && |run| == |events| + 1 && run[0] == New(slots)
    && (forall i :: 0 <= i < |events| ==> Follows(run[i], events[i], run[i + 1], k))
  }

  /** For any interleaving of any number of senders and receivers: what was popped,
  followed by what is in the ring, is what was written, and slots and units are
  all accounted for. */
  lemma {:induction false} EveryRun<M>(run: seq<Pipe<M>>, events: seq<Event<M>>, slots: seq<M>, k: nat, i: nat)
    requires IsRun(run, events, slots, k) && i < |run|
    ensures Inv(run[i], k)
  {
    hide Inv, Step, Enabled, Pow2;
    if i == 0 {
      NewInv(slots, k);
    } else {
      EveryRun(run, events, slots, k, i - 1);
      assert Follows(run[i - 1], events[i - 1], run[i - 1 + 1], k);
      StepInv(run[i - 1], events[i - 1], k);
    }
  }

  /** No write overwrites and no pop reads an empty ring; a pop delivers the oldest
  message not yet delivered, and nothing else ever leaves or enters. */
  lemma {:induction false} FirstInFirstOut<M>(run: seq<Pipe<M>>, events: seq<Event<M>>, slots: seq<M>, k: nat, i: nat)
    requires IsRun(run, events, slots, k) && i < |events|
    ensures Inv(run[i], k) && Enabled(run[i], events[i])
    ensures
      var p, q, e := run[i], run[i + 1], events[i];
      && (e.Write? ==>
            && p.ring.count < |p.ring.slots|
            && q.written == p.written + [p.reserved[e.t]] && q.popped == p.popped)
      && (e.Pop? ==>
            && p.ring.count > 0 && |p.popped| < |p.written|
            && Step(p, e, k).1 == Received(p.written[|p.popped|])
            && q.popped == p.popped + [p.written[|p.popped|]] && q.written == p.written)
      && (!e.Write? && !e.Pop? ==> q.written == p.written && q.popped == p.popped)
  {
    EveryRun(run, events, slots, k, i);
    var p, e := run[i], events[i];
    assert Follows(p, e, run[i + 1], k);
    if e.Write? { WriteFits(p, e.t, k); }
    if e.Pop? {
      PopFinds(p, e.t, k);
      TakeIsFirst(p.ring, k);
      assert p.written[|p.popped|] == Contents(p.ring)[0];
    }
    hide S.Inv, S.Signal, S.TakeTurn, Contents, And, Pow2, Balanced, OnePlace;
  }

  /** With nobody on the way to re-check, a sender sleeps only when every slot is
  taken or promised, and a receiver only when every message is promised. */
  lemma {:induction false} SleepersHaveReason<M>(run: seq<Pipe<M>>, events: seq<Event<M>>, slots: seq<M>, k: nat, i: nat, t: nat)
    requires IsRun(run, events, slots, k) && i < |run|
    ensures
      var p := run[i];
      && (S.PcOf(p.spaces, t).Parked? && (forall u :: u in p.spaces.pc ==> !p.spaces.pc[u].Turning?) ==>
            p.ring.count + |p.reserved| == |p.ring.slots|)
      && (S.PcOf(p.units, t).Parked? && (forall u :: u in p.units.pc ==> !p.units.pc[u].Turning?) ==>
            p.ring.count == |p.committed|)
  {
    EveryRun(run, events, slots, k, i);
    ParkedMeansNone(run[i].spaces, run[i].now, t);
    ParkedMeansNone(run[i].units, run[i].now, t);
    hide S.Inv, InOrder;
  }

  lemma {:induction false} ParkedMeansNone(s: S.Sem, now: nat, t: nat)
    requires S.Inv(s, now)
    ensures S.PcOf(s, t).Parked? && (forall u :: u in s.pc ==> !s.pc[u].Turning?) ==> s.x.count == 0
  {
    if S.PcOf(s, t).Parked? && (forall u :: u in s.pc ==> !s.pc[u].Turning?) {
      assert t in s.x.waiters;
      assert S.PoppedSet(s.pc) == {};
    }
  }

  /** What callers are told. A post that gives up found no slot and its time over,
  and says Full exactly when it was not willing to wait at all; a receive that
  gives up found no unit and its time over. */
  lemma {:induction false} RefusalsAreTrue<M>(p: Pipe<M>, e: Event<M>, k: nat)
    requires Inv(p, k) && Enabled(p, e)
    ensures
      var reply := Step(p, e, k).1;
      && (reply == Posted(Full) <==> e.SpaceTurn? && OverAndOut(p.spaces, e.t, p.now) && p.wants[e.t].span == 0)
      && (reply == Posted(Timeout) <==> e.SpaceTurn? && OverAndOut(p.spaces, e.t, p.now) && p.wants[e.t].span != 0)
      && (reply == GaveUp <==> e.UnitTurn? && OverAndOut(p.units, e.t, p.now))
      && (reply == Posted(Ok) <==> e.Write?) && (reply.Received? <==> e.Pop?)
  {
    match e {
      case SpaceTurn(t) => OverIffTimedOut(p.spaces, t, p.now);
      case UnitTurn(t) => OverIffTimedOut(p.units, t, p.now);
      case _ =>
    }
    hide S.Inv, S.TakeTurn, S.Signal, S.Alarms, InOrder, Contents, And, Pow2;
  }

  ghost predicate OverAndOut(s: S.Sem, t: nat, now: nat)
    requires S.PcOf(s, t).Turning?
  {
    s.x.count == 0 && s.pc[t].ddl.Some? && s.pc[t].ddl.value <= now
  }

  lemma {:induction false} OverIffTimedOut(s: S.Sem, t: nat, now: nat)
    requires S.TurnInTime(s, t, now)
    ensures S.TakeTurn(s, t, now).1 == Some(S.TimedOut) <==> OverAndOut(s, t, now)
  {
    if s.pc[t].ddl.Some? { S.ExpiredIsTrue(s.pc[t].ddl.value, now); }
  }
}
