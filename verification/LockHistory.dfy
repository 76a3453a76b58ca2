/** What the answers of `lock` and `unlock` mean over a run: from them alone a task
knows which mutexes it holds. */
module LockHistory {
  import opened Lists
  import opened SchedulerSpec
  import opened MutexSpec
  import opened Inheritance

  /** The answers given in a run, event by event. */
  ghost predicate Answered(run: seq<System>, events: seq<Event>, answers: seq<Option<MutexError>>) {
    && |run| == |events| + 1 == |answers| + 1
    && (forall i :: 0 <= i < |events| ==>
          Inv(run[i]) && Enabled(run[i], events[i]) ==> answers[i] == Next(run[i], events[i]).1)
  }

  predicate Gains(s: System, e: Event, answer: Option<MutexError>, t: Task, m: nat) {
    e == Turn(m) && s.k.current == Some(t) && answer == Some(Ok)
  }

  predicate Loses(s: System, e: Event, answer: Option<MutexError>, t: Task, m: nat) {
    e == Release(m) && s.k.current == Some(t) && answer == Some(Ok)
  }

  /** Task t was told Ok by `lock` on mutex m, and not by `unlock` since. */
  predicate Holds(run: seq<System>, events: seq<Event>, answers: seq<Option<MutexError>>, t: Task, m: nat, i: nat)
    requires |run| == |events| + 1 == |answers| + 1 && i < |run|
  {
    if i == 0 then false
    else if Gains(run[i - 1], events[i - 1], answers[i - 1], t, m) then true
    else if Loses(run[i - 1], events[i - 1], answers[i - 1], t, m) then false
    else Holds(run, events, answers, t, m, i - 1)
  }

  /** Owner, and not on the way in. */
  predicate HeldNow(s: System, t: Task, m: nat) {
    m < |s.mx| && s.mx[m].owner == Some(t) && t in s.pc && s.pc[t] == Free
  }

  ghost predicate HeldAsTold(s: System, e: Event, t: Task, m: nat)
    requires Inv(s) && Enabled(s, e)
  {
    var (r, answer) := Next(s, e);
    HeldNow(r, t, m) <==> Gains(s, e, answer, t, m) || (HeldNow(s, t, m) && !Loses(s, e, answer, t, m))
  }

  lemma {:induction false} SpawnHeld(s: System, t: Task, m: nat, e: Event)
    requires Inv(s) && Enabled(s, e) && (e.Spawn? || e.Kernel?)
    ensures HeldAsTold(s, e, t, m)
  {
    hide RingsExactBut, Urgent, QueueOk, OwnerOk, AtBase, LockersOk, OneEach, Add, Apply;
    OwnersKnown(s);
    assert m < |s.mx| && s.mx[m].owner == Some(t) ==> Owns(s, t);
  }

  lemma {:induction false} DoorHeld(s: System, t: Task, m: nat, at: nat)
    requires Inv(s) && Enabled(s, Door(at))
    ensures HeldAsTold(s, Door(at), t, m)
  {
    hide RingsExactBut, Urgent, QueueOk, OwnerOk, AtBase, LockersOk, OneEach;
  }

  lemma {:induction false} TakeHeld(s: System, t: Task, m: nat, at: nat)
    requires Inv(s) && Enabled(s, Turn(at)) && s.mx[at].owner in {None, s.k.current}
    ensures HeldAsTold(s, Turn(at), t, m)
  {
    hide RingsExactBut, Urgent, QueueOk, OwnerOk, AtBase, LockersOk, OneEach, Next;
    TakeNext(s, at);
    OwnsOnlyHere(s, at, s.k.current.value);
  }

  lemma {:induction false} ParkHeld(s: System, t: Task, m: nat, at: nat)
    requires Inv(s) && Enabled(s, Turn(at)) && s.mx[at].owner !in {None, s.k.current}
    ensures HeldAsTold(s, Turn(at), t, m)
  {
    hide RingsExactBut, Urgent, QueueOk, AtBase, LockersOk, OneEach;
    var c := s.k.current.value;
    ParkSchedules(s, at);
    var (k, x) := Park(s.k, s.mx[at], Waiter(c, s.pc[c].prio, s.tickets));
    assert x.owner == s.mx[at].owner;
    assert OwnerOk(s, at);
    hide Park, IsParked, OwnerOk;
    assert Next(s, Turn(at)) == (Swap(s, at, k, x, s.tickets + 1), None);
  }

  lemma {:induction false} ReleaseHeld(s: System, t: Task, m: nat, at: nat)
    requires Inv(s) && Enabled(s, Release(at))
    ensures HeldAsTold(s, Release(at), t, m)
  {
    hide RingsExactBut, Urgent, QueueOk, OwnerOk, AtBase, LockersOk, OneEach;
    if s.mx[at].owner != s.k.current {
      assert s.mx[at := s.mx[at]] == s.mx;
    } else if s.mx[at].waiters != [] {
      HeadWaits(s, at);
      HandOverSchedules(s, at);
      hide Released;
    }
  }

  lemma {:induction false} StepHeld(s: System, e: Event, t: Task, m: nat)
    requires Inv(s) && Enabled(s, e)
    ensures HeldAsTold(s, e, t, m)
  {
    hide Inv, HeldAsTold;
    match e
    case Spawn(_, _) => SpawnHeld(s, t, m, e);
    case Kernel(_) => SpawnHeld(s, t, m, e);
    case Door(at) => DoorHeld(s, t, m, at);
    case Turn(at) => if s.mx[at].owner in {None, s.k.current} { TakeHeld(s, t, m, at); } else { ParkHeld(s, t, m, at); }
    case Release(at) => ReleaseHeld(s, t, m, at);
  }

  lemma {:induction false} NothingHeld(mutexes: nat, t: Task, m: nat)
    ensures !HeldNow(Start(mutexes), t, m)
  {
  }

  /** In every run a task owns a mutex and is past `lock` exactly when the answers it
  got say so. */
  lemma {:induction false} HoldsWhatItWasTold(run: seq<System>, events: seq<Event>, answers: seq<Option<MutexError>>, mutexes: nat, t: Task, m: nat, i: nat)
    requires IsRun(run, events, mutexes) && Answered(run, events, answers) && i < |run|
    ensures HeldNow(run[i], t, m) <==> Holds(run, events, answers, t, m, i)
  {
    hide Inv, Next, Enabled, HeldNow;
    if i == 0 {
      NothingHeld(mutexes, t, m);
    } else {
      HoldsWhatItWasTold(run, events, answers, mutexes, t, m, i - 1);
      RunInv(run, events, mutexes, i - 1);
      assert Follows(run[i - 1], events[i - 1], run[i - 1 + 1]);
      StepHeld(run[i - 1], events[i - 1], t, m);
    }
  }

  /** `lock` refuses with SelfLocked exactly when the caller was given this mutex and
  has not given it back. */
  lemma {:induction false} SelfLockedIffHeld(run: seq<System>, events: seq<Event>, answers: seq<Option<MutexError>>, mutexes: nat, i: nat)
    requires IsRun(run, events, mutexes) && Answered(run, events, answers) && i < |events| && events[i].Door?
    ensures run[i].k.current.Some?
    ensures answers[i] == Some(SelfLocked) <==> Holds(run, events, answers, run[i].k.current.value, events[i].m, i)
  {
    RunInv(run, events, mutexes, i);
    assert Follows(run[i], events[i], run[i + 1]);
    hide Inv, Holds;
    HoldsWhatItWasTold(run, events, answers, mutexes, run[i].k.current.value, events[i].m, i);
  }

  /** `unlock` answers Ok exactly to a task that was given the mutex and has not given
  it back. */
  lemma {:induction false} UnlockOkIffHeld(run: seq<System>, events: seq<Event>, answers: seq<Option<MutexError>>, mutexes: nat, i: nat)
    requires IsRun(run, events, mutexes) && Answered(run, events, answers) && i < |events| && events[i].Release?
    ensures run[i].k.current.Some?
    ensures answers[i] == Some(Ok) <==> Holds(run, events, answers, run[i].k.current.value, events[i].m, i)
    ensures answers[i] == Some(NotYourLock) <==> answers[i] != Some(Ok)
  {
    RunInv(run, events, mutexes, i);
    assert Follows(run[i], events[i], run[i + 1]);
    HoldsWhatItWasTold(run, events, answers, mutexes, run[i].k.current.value, events[i].m, i);
    UnlockAnswer(run[i], events[i].m);
    hide Inv, Holds, Next;
  }

  lemma {:induction false} UnlockAnswer(s: System, m: nat)
    requires Inv(s) && Enabled(s, Release(m))
    ensures Next(s, Release(m)).1 == Some(if s.mx[m].owner == s.k.current then Ok else NotYourLock)
  {
    hide RingsExactBut, Urgent, QueueOk, OwnerOk, AtBase, LockersOk, OneEach;
    if s.mx[m].owner == s.k.current && s.mx[m].waiters != [] { HandOverSchedules(s, m); }
  }

  /** Mutual exclusion in the callers' terms: no two tasks hold the same mutex, and no
  task holds two. */
  lemma {:induction false} MutualExclusion(run: seq<System>, events: seq<Event>, answers: seq<Option<MutexError>>, mutexes: nat, i: nat, t: Task, u: Task, m: nat, n: nat)
    requires IsRun(run, events, mutexes) && Answered(run, events, answers) && i < |run|
    requires Holds(run, events, answers, t, m, i) && Holds(run, events, answers, u, n, i)
    ensures m == n <==> t == u
  {
    hide Holds;
    HoldsWhatItWasTold(run, events, answers, mutexes, t, m, i);
    HoldsWhatItWasTold(run, events, answers, mutexes, u, n, i);
    RunInv(run, events, mutexes, i);
    assert OneEach(run[i].mx);
    hide Inv;
  }
}
