/** The event group in terms of the calls made: which bits are lit, and what a wait
answers. */
module EventHistory {
  import opened Lists
  import opened Ticks
  import opened BitOps
  import opened EventGroupSpec
  import S = SemaphoreSpec

  // ---- the bits are what was lit and not cleared since ----

  /** Some `set` of bit k came before state i, and no `clear` of it since. */
  predicate Lit(events: seq<Event>, k: nat, i: nat)
    requires i <= |events|
  {
    if i == 0 then false
    else
      match events[i - 1]
      case Light(bits) => Bit(bits, k) || Lit(events, k, i - 1)
      case Dim(bits) => !Bit(bits, k) && Lit(events, k, i - 1)
      case _ => Lit(events, k, i - 1)
  }

  lemma {:induction false} TurnKeepsBits(s: State, t: nat)
    requires Enabled(s, Next(t))
    ensures Step(s, Next(t)).0.g.bits == s.g.bits
  {
    hide SatisfiedOr, S.Expired, Drop;
  }

  lemma {:induction false} StepBits(s: State, e: Event, k: nat)
    requires Enabled(s, e) && k < WIDTH
    ensures Bit(Step(s, e).0.g.bits, k) <==>
            match e
            case Light(bits) => Bit(bits, k) || Bit(s.g.bits, k)
            case Dim(bits) => !Bit(bits, k) && Bit(s.g.bits, k)
            case _ => Bit(s.g.bits, k)
  {
    hide Bit, Turn, Pow2;
    match e
    case Light(bits) => OrBit(s.g.bits, bits, k);
    case Dim(bits) =>
      AndBit(s.g.bits, Not(WIDTH, bits), k);
      NotBit(WIDTH, bits, k);
    case Next(t) => TurnKeepsBits(s, t);
    case Wait(_, _, _) =>
    case Elapsed(_) =>
  }

  /** In every state of every run, waiters or not. */
  lemma {:induction false} BitsAreHistory(run: seq<State>, events: seq<Event>, k: nat, i: nat)
    requires IsRun(run, events) && k < WIDTH && i < |run|
    ensures Bit(run[i].g.bits, k) <==> Lit(events, k, i)
  {
    if i == 0 {
      ZeroBit(k);
    } else {
      BitsAreHistory(run, events, k, i - 1);
      assert run[i - 1 + 1] == Step(run[i - 1], events[i - 1]).0;
      hide Step, Bit, Enabled;
      StepBits(run[i - 1], events[i - 1], k);
    }
  }

  // ---- a wait is for what was asked ----

  function Asked(now: nat, span: Option<nat>): Option<nat> {
    if span.Some? then Some(now + span.value) else None
  }

  predicate WaitsFor(s: State, t: nat, c: Condition, ddl: Option<nat>) {
    PcOf(s, t) != Out && s.pc[t].c == c && s.pc[t].ddl == ddl
  }

  /** The step in which t last called `wait`, before state i. */
  function LastWait(events: seq<Event>, t: nat, i: nat): (x: Option<nat>)
    requires i <= |events|
    ensures x.Some? ==> x.value < i && events[x.value].Wait? && events[x.value].t == t
  {
    if i == 0 then None
    else if events[i - 1].Wait? && events[i - 1].t == t then Some(i - 1)
    else LastWait(events, t, i - 1)
  }

  lemma {:induction false} StepWaits(s: State, e: Event, t: nat, c: Condition, ddl: Option<nat>)
    requires Enabled(s, e) && WaitsFor(Step(s, e).0, t, c, ddl)
    ensures if e.Wait? && e.t == t then c == e.c && ddl == Asked(s.now, e.span) else WaitsFor(s, t, c, ddl)
  {
    hide SatisfiedOr, S.Expired, Drop, Pow2, Not, And, Or;
  }

  ghost predicate AsCalled(run: seq<State>, events: seq<Event>, t: nat, i: nat)
    requires |run| == |events| + 1 && i < |run|
  {
    PcOf(run[i], t) != Out ==>
      && LastWait(events, t, i).Some?
      && var x := LastWait(events, t, i).value;
         WaitsFor(run[i], t, events[x].c, Asked(run[x].now, events[x].span))
  }

  lemma {:induction false} WaitsAsCalled(run: seq<State>, events: seq<Event>, t: nat, i: nat)
    requires IsRun(run, events) && i < |run|
    ensures AsCalled(run, events, t, i)
  {
    if i > 0 && PcOf(run[i], t) != Out {
      WaitsAsCalled(run, events, t, i - 1);
      assert run[i - 1 + 1] == Step(run[i - 1], events[i - 1]).0;
      StepWaits(run[i - 1], events[i - 1], t, run[i].pc[t].c, run[i].pc[t].ddl);
      hide Step, Enabled;
    }
  }

  function TimeAt(events: seq<Event>, i: nat): nat
    requires i <= |events|
  {
    if i == 0 then 0 else TimeAt(events, i - 1) + if events[i - 1].Elapsed? then events[i - 1].n else 0
  }

  lemma {:induction false} TimeIsElapsed(run: seq<State>, events: seq<Event>, i: nat)
    requires IsRun(run, events) && i < |run|
    ensures run[i].now == TimeAt(events, i)
  {
    if i > 0 {
      TimeIsElapsed(run, events, i - 1);
      assert run[i - 1 + 1] == Step(run[i - 1], events[i - 1]).0;
      hide Turn, Set, Clear;
    }
  }

  /** Going by the calls: some bit of the mask is lit and, if asked for, all are. */
  ghost predicate LitEnough(events: seq<Event>, c: Condition, i: nat)
    requires i <= |events|
  {
    && (exists k: nat :: k < WIDTH && Bit(c.mask, k) && Lit(events, k, i))
    && (c.allOf ==> forall k: nat :: k < WIDTH && Bit(c.mask, k) ==> Lit(events, k, i))
  }

  lemma {:induction false} SatisfiedByHistory(run: seq<State>, events: seq<Event>, c: Condition, i: nat)
    requires IsRun(run, events) && i < |run| && c.mask < Pow2(WIDTH)
    ensures SatisfiedOr(run[i].g.bits, c).Some? <==> LitEnough(events, c, i)
    ensures SatisfiedOr(run[i].g.bits, c).Some? ==>
              forall k: nat :: Bit(SatisfiedOr(run[i].g.bits, c).value, k) <==> k < WIDTH && Bit(c.mask, k) && Lit(events, k, i)
  {
    var bits := run[i].g.bits;
    forall k: nat
      ensures k < WIDTH ==> (Bit(bits, k) <==> Lit(events, k, i))
      ensures k >= WIDTH ==> !Bit(c.mask, k)
    {
      if k < WIDTH { BitsAreHistory(run, events, k, i); } else { HighBit(WIDTH, c.mask, k); }
    }
    SatisfiedIff(bits, c);
    if SatisfiedOr(bits, c).Some? { HitIsHonest(bits, c); }
    hide SatisfiedOr, Bit, Lit, Pow2, IsRun;
  }

  /** What a wait answers, from the calls alone: the lit bits of its mask as soon as
  they are enough, however long ago they were set; a time-out iff they are not and
  the ticks since the call have reached its limit; otherwise it sleeps. */
  lemma {:induction false} AnswerByHistory(run: seq<State>, events: seq<Event>, j: nat)
    requires IsRun(run, events) && j < |events| && events[j].Next?
    ensures LastWait(events, events[j].t, j).Some?
    ensures
      var x, answer := LastWait(events, events[j].t, j).value, Step(run[j], events[j]).1;
      var c := events[x].c;
      var up := events[x].span.Some? && TimeAt(events, j) >= TimeAt(events, x) + events[x].span.value;
      c.mask < Pow2(WIDTH) ==>
        if LitEnough(events, c, j) then
          && answer.Some? && answer.value.Hit?
          && (forall k: nat :: Bit(answer.value.bits, k) <==> k < WIDTH && Bit(c.mask, k) && Lit(events, k, j))
          && (c.allOf ==> answer.value.bits == c.mask)
        else answer == Some(if up then TimedOut else Parks)
  {
    var t := events[j].t;
    WaitsAsCalled(run, events, t, j);
    var x := LastWait(events, t, j).value;
    var c := events[x].c;
    TimeIsElapsed(run, events, j);
    TimeIsElapsed(run, events, x);
    EveryRun(run, events, j);
    AnswersAreHonest(run[j], t);
    if c.mask < Pow2(WIDTH) { SatisfiedByHistory(run, events, c, j); }
    HitIffSatisfied(run[j], t);
    hide Step, Inv, Bit, Lit, LitEnough, SatisfiedOr, Pow2;
  }

  lemma {:induction false} HitIffSatisfied(s: State, t: nat)
    requires Enabled(s, Next(t))
    ensures
      var answer, hit := Step(s, Next(t)).1, SatisfiedOr(s.g.bits, s.pc[t].c);
      answer.Some? && (if hit.Some? then answer == Some(Hit(hit.value)) else !answer.value.Hit?)
  {
    hide SatisfiedOr, S.Expired, Drop;
  }

  /** A sleeping task has time left and not enough bits, going by the calls. */
  lemma {:induction false} SleepsForReason(run: seq<State>, events: seq<Event>, t: nat, j: nat)
    requires IsRun(run, events) && j < |run| && PcOf(run[j], t).Parked?
    ensures LastWait(events, t, j).Some?
    ensures
      var x := LastWait(events, t, j).value;
      && (events[x].span.Some? ==> TimeAt(events, j) < TimeAt(events, x) + events[x].span.value)
      && (events[x].c.mask < Pow2(WIDTH) ==> !LitEnough(events, events[x].c, j))
  {
    WaitsAsCalled(run, events, t, j);
    var x := LastWait(events, t, j).value;
    TimeIsElapsed(run, events, j);
    TimeIsElapsed(run, events, x);
    SleepersAreUnsatisfied(run, events, j, t);
    if events[x].c.mask < Pow2(WIDTH) { SatisfiedByHistory(run, events, events[x].c, j); }
    hide LitEnough, SatisfiedOr, Pow2, IsRun;
  }

  /** A set wakes everybody, satisfied or not: right after it nobody sleeps. */
  lemma {:induction false} SetWakesAll(run: seq<State>, events: seq<Event>, t: nat, j: nat)
    requires IsRun(run, events) && j < |events| && events[j].Light?
    ensures run[j + 1].g.waiters == [] && !PcOf(run[j + 1], t).Parked?
    ensures PcOf(run[j], t).Parked? ==> PcOf(run[j + 1], t).Turning?
  {
    EveryRun(run, events, j);
    assert run[j + 1] == Step(run[j], events[j]).0;
    hide SatisfiedOr, Turn, Or;
  }
}
