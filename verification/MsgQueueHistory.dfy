/** The message queue in terms of the calls made: what is written is what was posted,
once per post, and nobody is refused before the time it was willing to wait. */
module MsgQueueHistory {
  import opened Lists
  import opened Ticks
  import opened BitOps
  import opened MsgQueueSpec
  import S = SemaphoreSpec
  import H = SemaphoreHistory

  /** The step in which t last called `post_for`, before state i. */
  function LastPost<M>(events: seq<Event<M>>, t: nat, i: nat): (x: Option<nat>)
    requires i <= |events|
    ensures x.Some? ==> x.value < i && events[x.value].Post? && events[x.value].t == t
  {
    if i == 0 then None
    else if events[i - 1].Post? && events[i - 1].t == t then Some(i - 1)
    else LastPost(events, t, i - 1)
  }

  function LastReceive<M>(events: seq<Event<M>>, t: nat, i: nat): (x: Option<nat>)
    requires i <= |events|
    ensures x.Some? ==> x.value < i && events[x.value].Receive? && events[x.value].t == t
  {
    if i == 0 then None
    else if events[i - 1].Receive? && events[i - 1].t == t then Some(i - 1)
    else LastReceive(events, t, i - 1)
  }

  predicate Sending<M>(p: Pipe<M>, t: nat) {
    Inside(p.spaces, t) || t in p.reserved
  }

  /** A sender carries message m, willing to wait for span from time `at`. */
  ghost predicate Carries<M>(p: Pipe<M>, t: nat, m: M, span: nat, at: nat) {
    && (Inside(p.spaces, t) ==>
          t in p.wants && p.wants[t] == Wish(m, span) && H.InsideUntil(p.spaces, t, Some(at + span)))
    && (t in p.reserved ==> p.reserved[t] == m)
  }

  ghost predicate Expects<M>(p: Pipe<M>, t: nat, ddl: Option<nat>) {
    Inside(p.units, t) ==> H.InsideUntil(p.units, t, ddl)
  }

  // ---- one step ----

  lemma {:induction false} TurnKeeps(s: S.Sem, t: nat, now: nat, u: nat)
    requires S.PcOf(s, t).Turning?
    ensures Inside(S.TakeTurn(s, t, now).0, u) ==>
              Inside(s, u) && S.TakeTurn(s, t, now).0.pc[u].ddl == s.pc[u].ddl
    ensures u == t ==> (Inside(S.TakeTurn(s, t, now).0, u) <==> S.TakeTurn(s, t, now).1.None?)
  {
    hide Drop, S.Expired;
  }

  lemma {:induction false} SignalKeeps(s: S.Sem, u: nat)
    ensures Inside(S.Signal(s), u) ==> Inside(s, u) && S.Signal(s).pc[u].ddl == s.pc[u].ddl
  {
  }

  lemma {:induction false} AlarmsKeep(s: S.Sem, now: nat, u: nat)
    ensures Inside(S.Alarms(s, now), u) ==> Inside(s, u) && S.Alarms(s, now).pc[u].ddl == s.pc[u].ddl
  {
  }

  lemma {:induction false} StepCarries<M>(p: Pipe<M>, e: Event<M>, k: nat, t: nat, m: M, span: nat, at: nat)
    requires Inv(p, k) && Enabled(p, e) && Carries(p, t, m, span, at) && !(e.Post? && e.t == t)
    ensures Carries(Step(p, e, k).0, t, m, span, at)
    ensures Sending(Step(p, e, k).0, t) ==> Sending(p, t) && e != Write(t)
  {
    assert OnePlace(p);
    hide S.Inv, InOrder, Balanced, S.TakeTurn, S.Signal, S.Alarms, And, Contents, Pow2;
    match e {
      case Post(u, _, _) => H.CallUntil(p.spaces, u, Some(p.now + e.span), t);
      case SpaceTurn(u) => TurnKeeps(p.spaces, u, p.now, t);
      case Write(u) => WriteFits(p, u, k);
      case Receive(u, _) =>
      case UnitTurn(u) =>
      case Pop(u) => SignalKeeps(p.spaces, t); PopFinds(p, u, k);
      case Elapsed(n) => AlarmsKeep(p.spaces, p.now + n, t);
    }
  }

  lemma {:induction false} PostCarries<M>(p: Pipe<M>, e: Event<M>, k: nat)
    requires Inv(p, k) && Enabled(p, e) && e.Post?
    ensures Carries(Step(p, e, k).0, e.t, e.m, e.span, p.now)
  {
    hide S.Inv, InOrder, Balanced, OnePlace;
  }

  lemma {:induction false} StepExpects<M>(p: Pipe<M>, e: Event<M>, k: nat, t: nat, ddl: Option<nat>)
    requires Inv(p, k) && Enabled(p, e) && Expects(p, t, ddl) && !(e.Receive? && e.t == t)
    ensures Expects(Step(p, e, k).0, t, ddl) && (Inside(Step(p, e, k).0.units, t) ==> Inside(p.units, t))
  {
    hide S.Inv, InOrder, Balanced, OnePlace, S.TakeTurn, S.Signal, S.Alarms, And, Contents, Pow2;
    match e {
      case Post(u, _, _) =>
      case SpaceTurn(u) =>
      case Write(u) => SignalKeeps(p.units, t); WriteFits(p, u, k);
      case Receive(u, timeout) => H.CallUntil(p.units, u, H.Asked(p.now, timeout), t);
      case UnitTurn(u) => TurnKeeps(p.units, u, p.now, t);
      case Pop(u) => PopFinds(p, u, k);
      case Elapsed(n) => AlarmsKeep(p.units, p.now + n, t);
    }
  }

  lemma {:induction false} ReceiveExpects<M>(p: Pipe<M>, e: Event<M>, k: nat)
    requires Inv(p, k) && Enabled(p, e) && e.Receive?
    ensures Expects(Step(p, e, k).0, e.t, H.Asked(p.now, e.timeout))
  {
    hide S.Inv, InOrder, Balanced, OnePlace;
  }

  // ---- every run ----

  /** Post x has not been written before state i. */
  predicate Unwritten<M>(events: seq<Event<M>>, t: nat, x: nat, i: nat)
    requires i <= |events|
  {
    forall y :: x < y < i ==> events[y] != Write(t)
  }

  ghost predicate AsPosted<M>(run: seq<Pipe<M>>, events: seq<Event<M>>, t: nat, i: nat)
    requires |run| == |events| + 1 && i < |run|
  {
    var x := LastPost(events, t, i);
    && (x.None? ==> !Sending(run[i], t))
    && (x.Some? ==>
          && Carries(run[i], t, events[x.value].m, events[x.value].span, run[x.value].now)
          && (Sending(run[i], t) ==> Unwritten(events, t, x.value, i)))
  }

  lemma {:induction false} CarriesWhatWasPosted<M>(run: seq<Pipe<M>>, events: seq<Event<M>>, slots: seq<M>, k: nat, t: nat, i: nat)
    requires IsRun(run, events, slots, k) && i < |run|
    ensures AsPosted(run, events, t, i)
  {
    if i > 0 {
      CarriesWhatWasPosted(run, events, slots, k, t, i - 1);
      EveryRun(run, events, slots, k, i - 1);
      assert Follows(run[i - 1], events[i - 1], run[i - 1 + 1], k);
      var p, e, q := run[i - 1], events[i - 1], run[i];
      var x := LastPost(events, t, i - 1);
      hide Inv, Step, Enabled, IsRun;
      if e.Post? && e.t == t {
        PostCarries(p, e, k);
      } else if x.Some? {
        StepCarries(p, e, k, t, events[x.value].m, events[x.value].span, run[x.value].now);
        hide Carries, Sending;
      } else {
        NobodySends(p, e, k, t);
        hide Carries, Sending;
      }
    }
  }

  lemma {:induction false} NobodySends<M>(p: Pipe<M>, e: Event<M>, k: nat, t: nat)
    requires Inv(p, k) && Enabled(p, e) && !Sending(p, t) && !(e.Post? && e.t == t)
    ensures !Sending(Step(p, e, k).0, t)
  {
    hide S.Inv, InOrder, Balanced, S.TakeTurn, S.Signal, S.Alarms, And, Contents, Pow2;
    match e {
      case Post(u, _, _) => H.CallUntil(p.spaces, u, Some(p.now + e.span), t);
      case SpaceTurn(u) => TurnKeeps(p.spaces, u, p.now, t);
      case Write(u) => WriteFits(p, u, k);
      case Receive(u, _) =>
      case UnitTurn(u) =>
      case Pop(u) => SignalKeeps(p.spaces, t); PopFinds(p, u, k);
      case Elapsed(n) => AlarmsKeep(p.spaces, p.now + n, t);
    }
  }

  /** A write appends the message of the sender's last post, and that post has not been
  written before: every message is written as posted, once. */
  lemma {:induction false} WritesWhatWasPosted<M>(run: seq<Pipe<M>>, events: seq<Event<M>>, slots: seq<M>, k: nat, j: nat)
    requires IsRun(run, events, slots, k) && j < |events| && events[j].Write?
    ensures
      var x := LastPost(events, events[j].t, j);
      && x.Some? && run[j + 1].written == run[j].written + [events[x.value].m]
      && Unwritten(events, events[j].t, x.value, j)
  {
    CarriesWhatWasPosted(run, events, slots, k, events[j].t, j);
    FirstInFirstOut(run, events, slots, k, j);
    hide Inv, Step, IsRun;
  }

  ghost predicate AsExpected<M>(run: seq<Pipe<M>>, events: seq<Event<M>>, t: nat, i: nat)
    requires |run| == |events| + 1 && i < |run|
  {
    var y := LastReceive(events, t, i);
    && (y.None? ==> !Inside(run[i].units, t))
    && (y.Some? ==> Expects(run[i], t, H.Asked(run[y.value].now, events[y.value].timeout)))
  }

  lemma {:induction false} ExpectsAsCalled<M>(run: seq<Pipe<M>>, events: seq<Event<M>>, slots: seq<M>, k: nat, t: nat, i: nat)
    requires IsRun(run, events, slots, k) && i < |run|
    ensures AsExpected(run, events, t, i)
  {
    if i > 0 {
      ExpectsAsCalled(run, events, slots, k, t, i - 1);
      EveryRun(run, events, slots, k, i - 1);
      assert Follows(run[i - 1], events[i - 1], run[i - 1 + 1], k);
      var p, e := run[i - 1], events[i - 1];
      var y := LastReceive(events, t, i - 1);
      hide Inv, Step, Enabled, IsRun;
      if e.Receive? && e.t == t {
        ReceiveExpects(p, e, k);
      } else {
        var ddl := if y.Some? then H.Asked(run[y.value].now, events[y.value].timeout) else None;
        StepExpects(p, e, k, t, ddl);
      }
    }
  }

  /** Time is the sum of the elapsed steps. */
  function TimeAt<M>(events: seq<Event<M>>, i: nat): nat
    requires i <= |events|
  {
    if i == 0 then 0 else TimeAt(events, i - 1) + if events[i - 1].Elapsed? then events[i - 1].n else 0
  }

  lemma {:induction false} TimeIsElapsed<M>(run: seq<Pipe<M>>, events: seq<Event<M>>, slots: seq<M>, k: nat, i: nat)
    requires IsRun(run, events, slots, k) && i < |run|
    ensures run[i].now == TimeAt(events, i)
  {
    if i > 0 {
      TimeIsElapsed(run, events, slots, k, i - 1);
      EveryRun(run, events, slots, k, i - 1);
      assert Follows(run[i - 1], events[i - 1], run[i - 1 + 1], k);
      StepTime(run[i - 1], events[i - 1], k);
      hide Inv, Step, Enabled, IsRun;
    }
  }

  lemma {:induction false} StepTime<M>(p: Pipe<M>, e: Event<M>, k: nat)
    requires Inv(p, k) && Enabled(p, e)
    ensures Step(p, e, k).0.now == p.now + if e.Elapsed? then e.n else 0
  {
    hide S.Inv, InOrder, Balanced, OnePlace, S.TakeTurn, S.Signal, S.Alarms, And, Contents, Pow2;
  }

  /** A post gives up exactly when no slot is left and the ticks since its call have
  reached what it was willing to wait, Full for a post that would not wait at all. */
  lemma {:induction false} PostRefusedIff<M>(run: seq<Pipe<M>>, events: seq<Event<M>>, slots: seq<M>, k: nat, j: nat)
    requires IsRun(run, events, slots, k) && j < |events| && events[j].SpaceTurn?
    ensures Inv(run[j], k) && Enabled(run[j], events[j]) && LastPost(events, events[j].t, j).Some?
    ensures
      var x, reply := LastPost(events, events[j].t, j).value, Step(run[j], events[j], k).1;
      var over := run[j].spaces.x.count == 0 && TimeAt(events, j) >= TimeAt(events, x) + events[x].span;
      reply == if over then Posted(if events[x].span == 0 then Full else Timeout) else Silent
  {
    var t := events[j].t;
    EveryRun(run, events, slots, k, j);
    assert Follows(run[j], events[j], run[j + 1], k);
    CarriesWhatWasPosted(run, events, slots, k, t, j);
    assert Inside(run[j].spaces, t);
    var x := LastPost(events, t, j).value;
    TimeIsElapsed(run, events, slots, k, j);
    TimeIsElapsed(run, events, slots, k, x);
    RefusalsAreTrue(run[j], events[j], k);
    SpaceReplies(run[j], t, k);
    hide Inv, Step, IsRun;
  }

  lemma {:induction false} SpaceReplies<M>(p: Pipe<M>, t: nat, k: nat)
    requires Inv(p, k) && Enabled(p, SpaceTurn(t))
    ensures Step(p, SpaceTurn(t), k).1 in {Silent, Posted(Full), Posted(Timeout)}
  {
    hide S.Inv, InOrder, Balanced, OnePlace, S.TakeTurn;
  }

  /** The same for a receiver; one without a time-out never gives up. */
  lemma {:induction false} ReceiveRefusedIff<M>(run: seq<Pipe<M>>, events: seq<Event<M>>, slots: seq<M>, k: nat, j: nat)
    requires IsRun(run, events, slots, k) && j < |events| && events[j].UnitTurn?
    ensures Inv(run[j], k) && Enabled(run[j], events[j]) && LastReceive(events, events[j].t, j).Some?
    ensures
      var y, reply := LastReceive(events, events[j].t, j).value, Step(run[j], events[j], k).1;
      reply == GaveUp <==>
        && run[j].units.x.count == 0 && events[y].timeout.Some?
        && TimeAt(events, j) >= TimeAt(events, y) + events[y].timeout.value
  {
    var t := events[j].t;
    EveryRun(run, events, slots, k, j);
    assert Follows(run[j], events[j], run[j + 1], k);
    ExpectsAsCalled(run, events, slots, k, t, j);
    assert Inside(run[j].units, t);
    TimeIsElapsed(run, events, slots, k, j);
    TimeIsElapsed(run, events, slots, k, LastReceive(events, t, j).value);
    RefusalsAreTrue(run[j], events[j], k);
    hide Inv, Step, IsRun;
  }
}
