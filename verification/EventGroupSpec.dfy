/** The event group: a 32-bit word of events, and waiters that each ask for any or
all bits of a mask. `set` wakes everybody; each woken waiter judges for itself. */
module EventGroupSpec {
  import opened Lists
  import opened Ticks
  import opened BitOps
  import S = SemaphoreSpec

  const WIDTH: nat := 32

  datatype Group = Group(bits: nat, waiters: seq<nat>)

  datatype Condition = Condition(mask: nat, allOf: bool)

  /** The hit, if the condition holds now; an empty mask is never satisfied. */
  function SatisfiedOr(bits: nat, c: Condition): Option<nat> {
    var hit := And(bits, c.mask);
    if hit != 0 && (!c.allOf || hit == c.mask) then Some(hit) else None
  }

  datatype Answer = Hit(bits: nat) | TimedOut | Parks

  /** One turn of a wait loop. The untimed loop leaves no node behind when it
  returns: it can only be woken by `set`, which took its node out. */
  function Turn(g: Group, t: nat, c: Condition, ddl: Option<nat>, now: nat): (Group, Answer) {
    var hit := SatisfiedOr(g.bits, c);
    if hit.Some? then (if ddl.Some? then g.(waiters := Drop(g.waiters, Is(t))) else g, Hit(hit.value))
    else if S.Expired(ddl, now) then (g.(waiters := Drop(g.waiters, Is(t))), TimedOut)
    else (g.(waiters := g.waiters + [t]), Parks)
  }

  function Set(g: Group, bits: nat): Group {
    Group(Or(g.bits, bits), [])
  }

  function Clear(g: Group, bits: nat): Group
    requires bits < Pow2(WIDTH)
  {
    g.(bits := And(g.bits, Not(WIDTH, bits)))
  }

  // ---- bits ----

  /** Clearing bits satisfies nobody. */
  lemma {:induction false} ClearSatisfiesNobody(g: Group, bits: nat, c: Condition)
    requires bits < Pow2(WIDTH) && SatisfiedOr(g.bits, c).None?
    ensures SatisfiedOr(Clear(g, bits).bits, c).None?
  {
    var less := Clear(g, bits).bits;
    var before, after := And(g.bits, c.mask), And(less, c.mask);
    forall k: nat
      ensures Bit(after, k) ==> Bit(before, k)
    {
      AndBit(less, c.mask, k);
      AndBit(g.bits, c.mask, k);
      AndBit(g.bits, Not(WIDTH, bits), k);
    }
    if after != 0 {
      var k := SomeBit(after);
      if before == 0 { ZeroBit(k); }
      if c.allOf && after == c.mask {
        MaskReached(g.bits, c.mask, after);
      }
    }
  }

  lemma {:induction false} MaskReached(bits: nat, mask: nat, after: nat)
    requires after == mask && forall k: nat :: Bit(after, k) ==> Bit(And(bits, mask), k)
    ensures And(bits, mask) == mask
  {
    forall k: nat
      ensures Bit(And(bits, mask), k) <==> Bit(mask, k)
    {
      AndBit(bits, mask, k);
    }
    SameBits(And(bits, mask), mask);
  }

  /** A hit is a non-empty part of the mask, lit at that moment, and the whole mask
  when all of it was asked for. */
  lemma {:induction false} HitIsHonest(bits: nat, c: Condition)
    requires SatisfiedOr(bits, c).Some?
    ensures
      var hit := SatisfiedOr(bits, c).value;
      && hit != 0 && (c.allOf ==> hit == c.mask)
      && (forall k: nat :: Bit(hit, k) <==> Bit(bits, k) && Bit(c.mask, k))
      && (exists k: nat :: Bit(hit, k))
  {
    var hit := SatisfiedOr(bits, c).value;
    forall k: nat
      ensures Bit(hit, k) <==> Bit(bits, k) && Bit(c.mask, k)
    {
      AndBit(bits, c.mask, k);
    }
    var k := SomeBit(hit);
  }

  ghost predicate Touches(bits: nat, mask: nat) {
    exists k: nat :: Bit(bits, k) && Bit(mask, k)
  }

  ghost predicate Covers(bits: nat, mask: nat) {
    forall k: nat :: Bit(mask, k) ==> Bit(bits, k)
  }

  lemma {:induction false} HitIffTouches(bits: nat, mask: nat)
    ensures And(bits, mask) != 0 <==> Touches(bits, mask)
  {
    if And(bits, mask) != 0 {
      var k := SomeBit(And(bits, mask));
      AndBit(bits, mask, k);
    } else if Touches(bits, mask) {
      var k: nat :| Bit(bits, k) && Bit(mask, k);
      AndBit(bits, mask, k);
      ZeroBit(k);
    }
  }

  lemma {:induction false} WholeIffCovers(bits: nat, mask: nat)
    ensures And(bits, mask) == mask <==> Covers(bits, mask)
  {
    forall k: nat
      ensures Bit(And(bits, mask), k) <==> Bit(bits, k) && Bit(mask, k)
    {
      AndBit(bits, mask, k);
    }
    if Covers(bits, mask) { SameBits(And(bits, mask), mask); }
  }

  /** The condition holds exactly when some bit of the mask is lit and, if all are
  asked for, every one is. */
  lemma {:induction false} SatisfiedIff(bits: nat, c: Condition)
    ensures SatisfiedOr(bits, c).Some? <==> Touches(bits, c.mask) && (c.allOf ==> Covers(bits, c.mask))
  {
    HitIffTouches(bits, c.mask);
    WholeIffCovers(bits, c.mask);
  }

  // ---- the protocol ----

  datatype Pc =
    | Out
    | Turning(c: Condition, ddl: Option<nat>, alarmed: bool)
    | Parked(c: Condition, ddl: Option<nat>)

  datatype State = State(g: Group, pc: map<nat, Pc>, now: nat)

  datatype Event =
    | Wait(t: nat, c: Condition, span: Option<nat>)
    | Next(t: nat)
    | Light(bits: nat)
    | Dim(bits: nat)
    | Elapsed(n: nat)

  function PcOf(s: State, t: nat): Pc {
    if t in s.pc then s.pc[t] else Out
  }

  predicate Enabled(s: State, e: Event) {
    match e
    case Wait(t, _, _) => PcOf(s, t) == Out
    case Next(t) =>
      && PcOf(s, t).Turning?
      && (s.pc[t].ddl.Some? ==> -HALF <= s.pc[t].ddl.value - s.now < HALF)
    case Light(_) => true
    case Dim(bits) => bits < Pow2(WIDTH)
    case Elapsed(_) => true
  }

  /** `set` takes every node out of the list and makes its task ready. */
  function Woken(pc: Pc): Pc {
    match pc
    case Parked(c, ddl) => Turning(c, ddl, false)
    case Turning(c, ddl, _) => Turning(c, ddl, false)
    case Out => Out
  }

  function AfterAlarm(pc: Pc, now: nat): Pc {
    if pc.Parked? && pc.ddl.Some? && pc.ddl.value <= now then Turning(pc.c, pc.ddl, true) else pc
  }

  function Step(s: State, e: Event): (State, Option<Answer>)
    requires Enabled(s, e)
  {
    match e
    case Wait(t, c, span) =>
      (s.(pc := s.pc[t := Turning(c, if span.Some? then Some(s.now + span.value) else None, false)]), None)
    case Next(t) =>
      var me := s.pc[t];
      var (g, answer) := Turn(s.g, t, me.c, me.ddl, s.now);
      (s.(g := g, pc := s.pc[t := if answer == Parks then Parked(me.c, me.ddl) else Out]), Some(answer))
    case Light(bits) =>
      (s.(g := Set(s.g, bits), pc := map t | t in s.pc :: if t in s.g.waiters then Woken(s.pc[t]) else s.pc[t]), None)
    case Dim(bits) => (s.(g := Clear(s.g, bits)), None)
    case Elapsed(n) =>
      (State(s.g, map t | t in s.pc :: AfterAlarm(s.pc[t], s.now + n), s.now + n), None)
  }

  /** Listed tasks are parked, or woken by their alarm and not yet run. */
  ghost predicate ListOk(s: State) {
    && NoDup(s.g.waiters)
    && (forall t :: t in s.g.waiters ==> t in s.pc && (s.pc[t].Parked? || (s.pc[t].Turning? && s.pc[t].alarmed)))
  }

  ghost predicate ParkedOk(s: State) {
    forall t :: t in s.pc && s.pc[t].Parked? ==>
      t in s.g.waiters && (s.pc[t].ddl.Some? ==> s.now < s.pc[t].ddl.value)
  }

  ghost predicate AlarmedOk(s: State) {
    forall t :: t in s.pc && s.pc[t].Turning? && s.pc[t].alarmed ==>
      s.pc[t].ddl.Some? && s.pc[t].ddl.value <= s.now
  }

  /** Nobody in the list is satisfied by the bits as they are. */
  ghost predicate NobodyOverlooked(s: State) {
    forall t :: t in s.g.waiters && t in s.pc && s.pc[t] != Out ==> SatisfiedOr(s.g.bits, s.pc[t].c).None?
  }

  ghost predicate Inv(s: State) {
    ListOk(s) && ParkedOk(s) && AlarmedOk(s) && NobodyOverlooked(s)
  }

  lemma {:induction false} NextInv(s: State, t: nat)
    requires Inv(s) && Enabled(s, Next(t))
    ensures Inv(Step(s, Next(t)).0)
  {
    hide Drop, SatisfiedOr, S.TimeLeft, NoDup;
    var me := s.pc[t];
    if me.ddl.Some? { S.ExpiredIsTrue(me.ddl.value, s.now); }
    assert S.Expired(me.ddl, s.now) <==> me.ddl.Some? && me.ddl.value <= s.now;
    hide S.Expired;
    S.LeaveList(s.g.waiters, t);
    assert t in s.g.waiters ==> me.alarmed;
    var r := Step(s, Next(t)).0;
    assert ListOk(r) by {
      if Step(s, Next(t)).1 == Some(Parks) { AppendOnce(s.g.waiters, t); }
    }
    assert ParkedOk(r) && AlarmedOk(r);
    assert NobodyOverlooked(r);
  }

  lemma {:induction false} AppendOnce(ws: seq<nat>, t: nat)
    requires NoDup(ws) && t !in ws
    ensures NoDup(ws + [t])
  {
  }

  lemma {:induction false} DimInv(s: State, bits: nat)
    requires Inv(s) && bits < Pow2(WIDTH)
    ensures Inv(Step(s, Dim(bits)).0)
  {
    forall t | t in s.g.waiters && t in s.pc && s.pc[t] != Out
      ensures SatisfiedOr(Clear(s.g, bits).bits, s.pc[t].c).None?
    {
      ClearSatisfiesNobody(s.g, bits, s.pc[t].c);
    }
    hide SatisfiedOr, Pow2;
  }

  lemma {:induction false} StepInv(s: State, e: Event)
    requires Inv(s) && Enabled(s, e)
    ensures Inv(Step(s, e).0)
  {
    hide SatisfiedOr, Pow2, Turn, Clear;
    match e
    case Wait(t, c, span) =>
    case Next(t) => NextInv(s, t);
    case Light(bits) =>
    case Dim(bits) => DimInv(s, bits);
    case Elapsed(n) =>
  }

  ghost predicate IsRun(run: seq<State>, events: seq<Event>) {
    && |run| == |events| + 1 && run[0] == State(Group(0, []), map[], 0)
    && (forall i :: 0 <= i < |events| ==> Enabled(run[i], events[i]) && run[i + 1] == Step(run[i], events[i]).0)
  }

  /** However waits, sets, clears and time-outs interleave, the broadcast loses
  nothing: no listed waiter's condition holds, in any state of any run. */
  lemma {:induction false} EveryRun(run: seq<State>, events: seq<Event>, i: nat)
    requires IsRun(run, events) && i < |run|
    ensures Inv(run[i])
  {
    if i > 0 {
      hide Inv, Step, Enabled;
      EveryRun(run, events, i - 1);
      StepInv(run[i - 1], events[i - 1]);
      assert run[i - 1 + 1] == run[i];
    }
  }

  /** Said of sleepers: while a task is parked, its condition is false and its
  deadline has not come. */
  lemma {:induction false} SleepersAreUnsatisfied(run: seq<State>, events: seq<Event>, i: nat, t: nat)
    requires IsRun(run, events) && i < |run| && PcOf(run[i], t).Parked?
    ensures SatisfiedOr(run[i].g.bits, run[i].pc[t].c).None?
    ensures run[i].pc[t].ddl.Some? ==> run[i].now < run[i].pc[t].ddl.value
  {
    EveryRun(run, events, i);
  }

  /** A wait that returns is honest: bits that were lit and asked for, or a time-out
  at or after the deadline with the condition false. */
  lemma {:induction false} AnswersAreHonest(s: State, t: nat)
    requires Inv(s) && Enabled(s, Next(t))
    ensures
      var answer, me := Step(s, Next(t)).1.value, s.pc[t];
      && (answer.Hit? ==>
            && answer.bits != 0 && (me.c.allOf ==> answer.bits == me.c.mask)
            && (forall k: nat :: Bit(answer.bits, k) ==> Bit(me.c.mask, k) && Bit(s.g.bits, k)))
      && (answer.TimedOut? <==>
            SatisfiedOr(s.g.bits, me.c).None? && me.ddl.Some? && me.ddl.value <= s.now)
  {
    var me := s.pc[t];
    if SatisfiedOr(s.g.bits, me.c).Some? { HitIsHonest(s.g.bits, me.c); }
    if me.ddl.Some? { S.ExpiredIsTrue(me.ddl.value, s.now); }
    hide SatisfiedOr, Drop;
  }

  /** The bits are lit and cleared again before the woken task gets its turn. */
  ghost predicate MissesPulse(s: State, t: nat, bits: nat) {
    && Inv(s) && PcOf(s, t).Parked? && bits < Pow2(WIDTH)
    && var s1 := Step(s, Light(bits)).0;
       var s2 := Step(s1, Dim(bits)).0;
       && Enabled(s2, Next(t))
       && SatisfiedOr(s1.g.bits, s.pc[t].c).Some?
       && Step(s2, Next(t)).1 == Some(Parks)
  }

  /** What is not promised: a waiter woken for bits that are cleared again before
  its turn goes back to sleep, and the pulse is gone. A run of five events does it. */
  lemma {:induction false} PulseCanBeMissed()
    ensures exists run, events, t, bits ::
              && IsRun(run, events) && |events| == 5 && events[2..] == [Light(bits), Dim(bits), Next(t)]
              && MissesPulse(run[2], t, bits)
  {
    hide Inv, Pow2, Not;
    var c, s := Condition(1, false), OneSleeper();
    assert 1 < Pow2(WIDTH) by { Pow2Grows(0, WIDTH); OneIsPow2(); }
    OneSleeperInv();
    assert And(0, 1) == 0 && And(1, 1) == 1 && Or(0, 1) == 1;
    var s0 := State(Group(0, []), map[], 0);
    var calling := Step(s0, Wait(7, c, None)).0;
    assert calling == State(Group(0, []), map[7 := Turning(c, None, false)], 0);
    assert Step(calling, Next(7)).0 == s;
    var s1 := Step(s, Light(1)).0;
    assert s1 == State(Group(1, []), map[7 := Turning(c, None, false)], 0);
    var s2 := Step(s1, Dim(1)).0;
    assert s2 == State(Group(0, []), map[7 := Turning(c, None, false)], 0) by { DimOne(); }
    var s3 := Step(s2, Next(7)).0;
    hide And, Or;
    assert MissesPulse(s, 7, 1);
    FiveSteps(s0, calling, s, s1, s2, s3, c);
  }

  lemma {:induction false} FiveSteps(s0: State, calling: State, s: State, s1: State, s2: State, s3: State, c: Condition)
    requires 1 < Pow2(WIDTH) && s0 == State(Group(0, []), map[], 0) && MissesPulse(s, 7, 1)
    requires calling == Step(s0, Wait(7, c, None)).0 && Enabled(calling, Next(7)) && s == Step(calling, Next(7)).0
    requires s1 == Step(s, Light(1)).0 && s2 == Step(s1, Dim(1)).0 && Enabled(s2, Next(7)) && s3 == Step(s2, Next(7)).0
    ensures exists run, events, t, bits ::
              && IsRun(run, events) && |events| == 5 && events[2..] == [Light(bits), Dim(bits), Next(t)]
              && MissesPulse(run[2], t, bits)
  {
    hide Step, MissesPulse, Pow2;
    var run := [s0, calling, s, s1, s2, s3];
    var events := [Wait(7, c, None), Next(7), Light(1), Dim(1), Next(7)];
    assert Enabled(s0, Wait(7, c, None));
    assert IsRun(run, events);
    assert events[2..] == [Light(1), Dim(1), Next(7)] && run[2] == s;
  }

  function OneSleeper(): State {
    State(Group(0, [7]), map[7 := Parked(Condition(1, false), None)], 0)
  }

  lemma {:induction false} OneSleeperInv()
    ensures Inv(OneSleeper())
  {
    assert And(0, 1) == 0;
  }

  lemma {:induction false} OneIsPow2()
    ensures Pow2(0) == 1
  {
  }

  lemma {:induction false} DimOne()
    requires 1 < Pow2(WIDTH)
    ensures And(1, Not(WIDTH, 1)) == 0
  {
    if And(1, Not(WIDTH, 1)) != 0 {
      var k := SomeBit(And(1, Not(WIDTH, 1)));
      AndBit(1, Not(WIDTH, 1), k);
      Pow2Bit(0, k);
      NotBit(WIDTH, 1, 0);
    }
  }

  /** Bit k is lit when the woken task looks: it was lit, or is by the set, and the
  clear did not take it. */
  ghost predicate StillLit(was: nat, lit: nat, gone: nat, k: nat) {
    k < WIDTH && (Bit(was, k) || Bit(lit, k)) && !Bit(gone, k)
  }

  lemma {:induction false} StillLitIs(was: nat, lit: nat, gone: nat, k: nat)
    requires gone < Pow2(WIDTH)
    ensures Bit(And(Or(was, lit), Not(WIDTH, gone)), k) <==> StillLit(was, lit, gone, k)
  {
    AndBit(Or(was, lit), Not(WIDTH, gone), k);
    OrBit(was, lit, k);
    if k < WIDTH { NotBit(WIDTH, gone, k); } else { HighBit(WIDTH, Not(WIDTH, gone), k); }
  }

  /** A set followed by a clear is seen exactly when what the clear left over still
  meets the condition. */
  lemma {:induction false} PulseSeenIff(s: State, t: nat, lit: nat, gone: nat)
    requires Inv(s) && PcOf(s, t).Parked? && gone < Pow2(WIDTH)
    requires Enabled(Step(Step(s, Light(lit)).0, Dim(gone)).0, Next(t))
    ensures
      var s2 := Step(Step(s, Light(lit)).0, Dim(gone)).0;
      var c, was := s.pc[t].c, s.g.bits;
      Step(s2, Next(t)).1.value.Hit? <==>
        && (exists k: nat :: Bit(c.mask, k) && StillLit(was, lit, gone, k))
        && (c.allOf ==> forall k: nat :: Bit(c.mask, k) ==> StillLit(was, lit, gone, k))
  {
    var c, was := s.pc[t].c, s.g.bits;
    var left := And(Or(was, lit), Not(WIDTH, gone));
    forall k: nat
      ensures Bit(left, k) <==> StillLit(was, lit, gone, k)
    {
      StillLitIs(was, lit, gone, k);
    }
    SatisfiedIff(left, c);
    hide StillLit, And, Or, Not, Bit, Pow2, SatisfiedOr;
  }

  /** After a turn: nobody is linked twice, and who leaves is not linked. */
  ghost predicate SoundAfter(g: Group, t: nat, answer: Answer) {
    NoDup(g.waiters) && (answer != Parks ==> t !in g.waiters)
  }

  /** A turn taken while still linked (a stray wake) leaves the list sound exactly when
  the wait is timed and returns: the timed loop unlinks on both ways out, the
  untimed one never does. */
  lemma {:induction false} StrayWakeSoundIff(g: Group, t: nat, c: Condition, ddl: Option<nat>, now: nat)
    requires NoDup(g.waiters)
    ensures
      var (r, answer) := Turn(g, t, c, ddl, now);
      SoundAfter(r, t, answer) <==>
        t !in g.waiters || (ddl.Some? && (SatisfiedOr(g.bits, c).Some? || S.Expired(ddl, now)))
  {
    S.LeaveList(g.waiters, t);
    hide SatisfiedOr, S.TimeLeft, Drop;
    if t in g.waiters {
      var k :| 0 <= k < |g.waiters| && g.waiters[k] == t;
      var ws := g.waiters + [t];
      assert ws[k] == t && ws[|ws| - 1] == t;
    }
  }
}
