/** Priority inheritance over whole runs: any number of tasks and mutexes, any
interleaving of guarded regions.

The enabling conditions are what the kernel relies on: task code runs only for
a Running current task, a parked locker is woken only by the hand-over, and a
task holds at most one mutex and does not lock while holding one. */
module Inheritance {
  import opened Lists
  import opened SchedulerSpec
  import opened MutexSpec

  /** Where a task stands in `lock`: outside, or past the door of mutex `m` with
  the waiter record that carries its priority. */
  datatype Pc = Free | Locking(m: nat, prio: nat)

  datatype System = System(
    k: Sched,
    mx: seq<Mutex>,
    base: map<Task, nat>,
    pc: map<Task, Pc>,
    tickets: nat)

  function Start(mutexes: nat): System {
    System(SchedulerSpec.Init(), seq(mutexes, _ => Fresh()), map[], map[], 0)
  }

  datatype Event =
    | Spawn(t: Task, prio: nat)
    | Kernel(op: Op)
    | Door(m: nat)
    | Turn(m: nat)
    | Release(m: nat)

  // ---- the invariant ----

  /** The priority an owner of base priority b must run at. */
  function Lent(x: Mutex, b: nat): nat {
    if x.waiters == [] then b else Min(b, x.waiters[0].prio)
  }

  ghost predicate Before(a: Waiter, b: Waiter) {
    a.prio < b.prio || (a.prio == b.prio && a.ticket < b.ticket)
  }

  ghost predicate Ordered(ws: seq<Waiter>) {
    forall i, j :: 0 <= i < j < |ws| ==> Before(ws[i], ws[j])
  }

  ghost predicate Names(s: System) {
    && s.base.Keys == s.pc.Keys == s.k.tcb.Keys - {Idle}
    && (forall t :: t in s.base ==> s.base[t] < LEVELS)
  }

  /** The waiters of mutex m: in order, blocked, and at their own priority. */
  ghost predicate QueueOk(s: System, m: nat)
    requires Names(s) && m < |s.mx|
  {
    && Ordered(s.mx[m].waiters)
    && (forall w :: w in s.mx[m].waiters ==>
          && w.task in s.base && w.ticket < s.tickets
          && s.k.tcb[w.task].state == Blocked
          && w.prio == s.base[w.task]
          && s.pc[w.task] == Locking(m, w.prio))
    && (forall i, j :: 0 <= i < j < |s.mx[m].waiters| ==>
          s.mx[m].waiters[i].task != s.mx[m].waiters[j].task)
    && (s.mx[m].owner.None? ==> s.mx[m].waiters == [])
  }

  /** The owner of mutex m runs at exactly the lent priority, and the bookkeeping
  remembers the base whenever the two differ. */
  ghost predicate OwnerOk(s: System, m: nat)
    requires Names(s) && m < |s.mx|
  {
    var x := s.mx[m];
    && (x.owner.None? ==> !x.boosted)
    && (x.owner.Some? ==>
      var o := x.owner.value;
      && o in s.base
      && s.k.tcb[o].prio == Lent(x, s.base[o])
      && (x.boosted <==> s.k.tcb[o].prio != s.base[o])
      && (x.boosted ==> x.saved == s.base[o])
      && (s.pc[o] == Free || s.pc[o] == Locking(m, s.base[o]))
      && (s.pc[o].Locking? ==> s.k.tcb[o].state != Blocked))
  }

  ghost predicate Owns(s: System, t: Task) {
    exists m :: 0 <= m < |s.mx| && s.mx[m].owner == Some(t)
  }

  ghost predicate OneEach(mx: seq<Mutex>) {
    forall m, n :: 0 <= m < n < |mx| && mx[m].owner.Some? ==> mx[m].owner != mx[n].owner
  }

  ghost predicate AtBase(s: System)
    requires Names(s)
  {
    forall t :: t in s.base && !Owns(s, t) ==> s.k.tcb[t].prio == s.base[t]
  }

  /** Nobody is left blocked inside `lock` without being queued. */
  ghost predicate LockersOk(s: System)
    requires Names(s)
  {
    forall t :: t in s.base && s.pc[t].Locking? ==>
      && s.pc[t].m < |s.mx| && s.pc[t].prio == s.base[t]
      && (s.k.tcb[t].state == Blocked ==> Queued(s.mx[s.pc[t].m], t))
  }

  ghost predicate Queued(x: Mutex, t: Task) {
    exists w :: w in x.waiters && w.task == t
  }

  ghost predicate LocksOk(s: System) {
    && Names(s) && OneEach(s.mx) && AtBase(s) && LockersOk(s)
    && (forall m :: 0 <= m < |s.mx| ==> QueueOk(s, m) && OwnerOk(s, m))
  }

  ghost predicate Inv(s: System) {
    Good(s.k) && LocksOk(s)
  }

  // ---- the transitions ----

  predicate Runs(s: System) {
    CurrentRunning(s.k) && s.k.current != Some(Idle) && s.k.current.value in s.pc
  }

  ghost predicate Enabled(s: System, e: Event) {
    match e
    case Spawn(t, prio) => t !in s.k.tcb
    case Kernel(op) =>
      && Allowed(s.k, op)
      && (forall t :: t in Touches(s.k, op) && t in s.pc && s.pc[t].Locking? ==>
            t in s.k.tcb && s.k.tcb[t].state != Blocked && op.Letter?)
    case Door(m) =>
      && m < |s.mx| && Runs(s) && s.pc[s.k.current.value] == Free
      && (forall n :: 0 <= n < |s.mx| && n != m ==> s.mx[n].owner != s.k.current)
    case Turn(m) => m < |s.mx| && Runs(s) && s.pc[s.k.current.value].Locking? && s.pc[s.k.current.value].m == m
    case Release(m) => m < |s.mx| && Runs(s) && s.pc[s.k.current.value] == Free
  }

  /** The state after an event, and what `lock` or `unlock` answered, if it did. */
  ghost function Next(s: System, e: Event): (System, Option<MutexError>)
    requires Inv(s) && Enabled(s, e)
  {
    match e
    case Spawn(t, prio) =>
      var k1 := Add(s.k, t, prio);
      if prio < LEVELS then (s.(k := k1, base := s.base[t := prio], pc := s.pc[t := Free]), None)
      else (s.(k := k1), None)
    case Kernel(op) => (s.(k := Apply(s.k, op)), None)
    case Door(m) =>
      var c := s.k.current.value;
      if s.mx[m].owner == Some(c) then (s, Some(SelfLocked))
      else (s.(pc := s.pc[c := Locking(m, s.k.tcb[c].prio)]), None)
    case Turn(m) =>
      var c := s.k.current.value;
      assert OwnerOk(s, m);
      var me := Waiter(c, s.pc[c].prio, s.tickets);
      var (k1, x1, verdict) := LockTurn(s.k, s.mx[m], me);
      (s.(k := k1, mx := s.mx[m := x1], tickets := s.tickets + 1,
          pc := if verdict.Some? then s.pc[c := Free] else s.pc), verdict)
    case Release(m) =>
      var (k1, x1, verdict) := Released(s, m);
      (s.(k := k1, mx := s.mx[m := x1]), Some(verdict))
  }

  ghost function Released(s: System, m: nat): (Sched, Mutex, MutexError)
    requires Inv(s) && m < |s.mx| && Runs(s)
  {
    UnlockReady(s, m);
    Unlock(s.k, s.mx[m])
  }

  lemma {:induction false} UnlockReady(s: System, m: nat)
    requires Inv(s) && m < |s.mx| && Runs(s)
    ensures s.mx[m].owner == s.k.current && s.mx[m].boosted ==> s.mx[m].saved < LEVELS
    ensures s.mx[m].waiters != [] ==> s.mx[m].waiters[0].task in s.k.tcb && s.mx[m].waiters[0].task != Idle
  {
    assert QueueOk(s, m) && OwnerOk(s, m);
    if s.mx[m].waiters != [] {
      assert s.mx[m].waiters[0] in s.mx[m].waiters;
    }
  }

  // ---- scheduler events leave the mutexes alone ----

  lemma {:induction false} OwnersKnown(s: System)
    requires LocksOk(s)
    ensures forall t :: Owns(s, t) ==> t in s.base
  {
    forall m | 0 <= m < |s.mx|
      ensures s.mx[m].owner.Some? ==> s.mx[m].owner.value in s.base
    {
      assert OwnerOk(s, m);
    }
  }

  /** Nothing that mutexes look at changed for task t. */
  ghost predicate Untouched(s: System, r: System, t: Task)
    requires Names(s) && Names(r)
  {
    t in s.base ==>
      && t in r.base && r.base[t] == s.base[t] && r.pc[t] == s.pc[t]
      && r.k.tcb[t].prio == s.k.tcb[t].prio
      && (s.pc[t].Locking? ==> (r.k.tcb[t].state == Blocked <==> s.k.tcb[t].state == Blocked))
  }

  lemma {:induction false} MutexKept(s: System, r: System, m: nat)
    requires Names(s) && Names(r) && m < |s.mx| == |r.mx| && r.mx[m] == s.mx[m] && r.tickets >= s.tickets
    requires QueueOk(s, m) && OwnerOk(s, m)
    requires s.mx[m].owner.Some? ==> Untouched(s, r, s.mx[m].owner.value)
    requires forall w :: w in s.mx[m].waiters ==> Untouched(s, r, w.task)
    ensures QueueOk(r, m) && OwnerOk(r, m)
  {
  }

  /** New tasks may appear, but no old one changed. */
  lemma {:induction false} ExtendLocks(s: System, r: System)
    requires LocksOk(s) && Names(r) && r.mx == s.mx && r.tickets == s.tickets
    requires forall t :: t in s.base ==> Untouched(s, r, t)
    requires forall t :: t in r.base && t !in s.base ==> r.pc[t] == Free && r.k.tcb[t].prio == r.base[t]
    ensures LocksOk(r)
  {
    forall m | 0 <= m < |s.mx|
      ensures QueueOk(r, m) && OwnerOk(r, m)
    {
      assert QueueOk(s, m) && OwnerOk(s, m);
      MutexKept(s, r, m);
    }
    assert forall t :: Owns(r, t) <==> Owns(s, t);
    OwnersKnown(s);
  }

  lemma {:induction false} FrameLocks(s: System, k: Sched, who: set<Task>)
    requires LocksOk(s) && Keeps(s.k, k, who)
    requires forall t :: t in who && t in s.pc && s.pc[t].Locking? ==>
               (k.tcb[t].state == Blocked <==> s.k.tcb[t].state == Blocked)
    ensures LocksOk(s.(k := k))
  {
    ExtendLocks(s, s.(k := k));
  }

  lemma {:induction false} SpawnLocks(s: System, k: Sched, t: Task, prio: nat)
    requires LocksOk(s) && t !in s.k.tcb && t != Idle && prio < LEVELS
    requires k.tcb == s.k.tcb[t := TCB(prio, Ready, None)]
    ensures LocksOk(s.(k := k, base := s.base[t := prio], pc := s.pc[t := Free]))
  {
    ExtendLocks(s, s.(k := k, base := s.base[t := prio], pc := s.pc[t := Free]));
  }

  lemma {:induction false} SpawnInv(s: System, t: Task, prio: nat)
    requires Inv(s) && t !in s.k.tcb
    ensures Inv(Next(s, Spawn(t, prio)).0)
  {
    AddGood(s.k, t, prio);
    AddTcb(s.k, t, prio);
    if prio < LEVELS {
      SpawnLocks(s, Add(s.k, t, prio), t, prio);
    } else {
      FrameLocks(s, Add(s.k, t, prio), {});
    }
  }

  /** A letter to a task inside `lock` finds it awake and leaves it awake. */
  lemma {:induction false} TouchedAlike(s: System, op: Op)
    requires Good(s.k) && Names(s) && Enabled(s, Kernel(op))
    ensures Apply(s.k, op).tcb.Keys == s.k.tcb.Keys
    ensures forall t :: t in Touches(s.k, op) && t in s.pc && s.pc[t].Locking? ==>
              (Apply(s.k, op).tcb[t].state == Blocked <==> s.k.tcb[t].state == Blocked)
  {
    ApplyKeeps(s.k, op);
    if op.Letter? {
      hide RingsExactBut, Urgent;
    } else {
      hide RingsExactBut, Urgent, Apply;
    }
  }

  lemma {:induction false} KernelInv(s: System, op: Op)
    requires Inv(s) && Enabled(s, Kernel(op))
    ensures Inv(Next(s, Kernel(op)).0)
  {
    hide RingsExactBut, Urgent, Keeps, Apply, QueueOk, OwnerOk, AtBase, LockersOk, OneEach;
    ApplyGood(s.k, op);
    ApplyKeeps(s.k, op);
    TouchedAlike(s, op);
    FrameLocks(s, Apply(s.k, op), Touches(s.k, op));
  }

  // ---- lock and unlock ----

  lemma {:induction false} DoorLocks(s: System, m: nat, c: Task)
    requires LocksOk(s) && m < |s.mx| && c in s.pc && s.pc[c] == Free && !Owns(s, c)
    requires s.k.tcb[c].state == Running
    ensures LocksOk(s.(pc := s.pc[c := Locking(m, s.k.tcb[c].prio)]))
  {
    var r := s.(pc := s.pc[c := Locking(m, s.k.tcb[c].prio)]);
    forall n | 0 <= n < |s.mx|
      ensures QueueOk(r, n) && OwnerOk(r, n)
    {
      assert QueueOk(s, n) && OwnerOk(s, n);
      assert s.mx[n].owner != Some(c);
      MutexKept(s, r, n);
    }
    assert forall t :: Owns(r, t) <==> Owns(s, t);
  }

  /** A running task is in no wait list, so the belt-and-braces removal is idle. */
  lemma {:induction false} NotQueued(s: System, m: nat, c: Task)
    requires LocksOk(s) && m < |s.mx| && c in s.base && s.k.tcb[c].state != Blocked
    ensures forall w :: w in s.mx[m].waiters ==> w.task != c
    ensures Drop(s.mx[m].waiters, Of(c)) == s.mx[m].waiters
  {
    assert QueueOk(s, m);
  }

  /** Handing mutex m to a task that owns no other. */
  lemma {:induction false} NewOwner(s: System, m: nat, x: Mutex)
    requires LocksOk(s) && m < |s.mx|
    requires x.owner.Some? ==> forall n :: 0 <= n < |s.mx| && n != m ==> s.mx[n].owner != x.owner
    ensures OneEach(s.mx[m := x])
  {
  }

  lemma {:induction false} OthersKept(s: System, r: System, m: nat, who: set<Task>)
    requires LocksOk(s) && Names(r) && m < |s.mx| == |r.mx| && r.tickets >= s.tickets
    requires forall n :: 0 <= n < |s.mx| && n != m ==> r.mx[n] == s.mx[n]
    requires forall t :: t in s.base && t !in who ==> Untouched(s, r, t)
    requires forall t :: t in who && t in s.base ==>
               && (s.pc[t].Locking? ==> s.pc[t].m == m)
               && (forall n :: 0 <= n < |s.mx| && n != m ==> s.mx[n].owner != Some(t))
    ensures forall n :: 0 <= n < |s.mx| && n != m ==> QueueOk(r, n) && OwnerOk(r, n)
  {
    forall n | 0 <= n < |s.mx| && n != m
      ensures QueueOk(r, n) && OwnerOk(r, n)
    {
      assert QueueOk(s, n) && OwnerOk(s, n);
      MutexKept(s, r, n);
    }
  }

  lemma {:induction false} OwnsKept(s: System, r: System, m: nat, t: Task)
    requires m < |s.mx| == |r.mx| && Owns(s, t) && s.mx[m].owner != Some(t)
    requires forall n :: 0 <= n < |s.mx| && n != m ==> r.mx[n].owner == s.mx[n].owner
    ensures Owns(r, t)
  {
    var n :| 0 <= n < |s.mx| && s.mx[n].owner == Some(t);
    assert r.mx[n].owner == Some(t);
  }

  lemma {:induction false} AtBaseKept(s: System, r: System, m: nat)
    requires Names(s) && Names(r) && r.base == s.base && AtBase(s) && m < |s.mx| == |r.mx|
    requires forall n :: 0 <= n < |s.mx| && n != m ==> r.mx[n].owner == s.mx[n].owner
    requires forall t :: t in s.base && s.mx[m].owner != Some(t) && r.mx[m].owner != Some(t) ==>
               r.k.tcb[t].prio == s.k.tcb[t].prio
    requires s.mx[m].owner.Some? && s.mx[m].owner.value in s.base && r.mx[m].owner != s.mx[m].owner ==>
               r.k.tcb[s.mx[m].owner.value].prio == s.base[s.mx[m].owner.value]
    ensures AtBase(r)
  {
    forall t | t in s.base && Owns(s, t) && s.mx[m].owner != Some(t)
      ensures Owns(r, t)
    {
      OwnsKept(s, r, m, t);
    }
    assert r.mx[m].owner.Some? ==> Owns(r, r.mx[m].owner.value);
  }

  lemma {:induction false} OwnsOnlyHere(s: System, m: nat, c: Task)
    requires LocksOk(s) && m < |s.mx| && c in s.pc
    requires (s.pc[c].Locking? && s.pc[c].m == m) || s.mx[m].owner == Some(c)
    ensures forall n :: 0 <= n < |s.mx| && n != m ==> s.mx[n].owner != Some(c)
  {
    forall n | 0 <= n < |s.mx| && n != m
      ensures s.mx[n].owner != Some(c)
    {
      assert OwnerOk(s, n);
    }
  }

  /** A turn that finds the lock free, or its own by hand-over. */
  lemma {:induction false} TakeLocks(s: System, m: nat, c: Task)
    requires LocksOk(s) && m < |s.mx| && c in s.pc && s.pc[c].Locking? && s.pc[c].m == m
    requires s.k.tcb[c].state == Running
    requires s.mx[m].owner == None || s.mx[m].owner == Some(c)
    ensures LocksOk(s.(mx := s.mx[m := s.mx[m].(owner := Some(c))], tickets := s.tickets + 1, pc := s.pc[c := Free]))
  {
    var x := s.mx[m].(owner := Some(c));
    var r := s.(mx := s.mx[m := x], tickets := s.tickets + 1, pc := s.pc[c := Free]);
    OwnsOnlyHere(s, m, c);
    NewOwner(s, m, x);
    OthersKept(s, r, m, {c});
    MutexAt(s, m);
    if s.mx[m].owner == None { assert !Owns(s, c); }
    TakeHere(s, m, c, r);
    AtBaseKept(s, r, m);
    TakeLockers(s, m, c, r);
    hide QueueOk, OwnerOk, AtBase, LockersOk, OneEach;
  }

  lemma {:induction false} TakeHere(s: System, m: nat, c: Task, r: System)
    requires Names(s) && Names(r) && m < |s.mx| == |r.mx| && QueueOk(s, m) && OwnerOk(s, m)
    requires c in s.pc && s.k.tcb[c].state == Running && s.pc[c].Locking?
    requires s.mx[m].owner == Some(c) || (s.mx[m].owner == None && s.k.tcb[c].prio == s.base[c])
    requires r.k == s.k && r.base == s.base && r.tickets >= s.tickets && r.pc == s.pc[c := Free]
    requires r.mx[m] == s.mx[m].(owner := Some(c))
    ensures QueueOk(r, m) && OwnerOk(r, m)
  {
  }

  lemma {:induction false} TakeLockers(s: System, m: nat, c: Task, r: System)
    requires Names(s) && Names(r) && m < |s.mx| == |r.mx| && LockersOk(s) && c in s.pc
    requires r.k == s.k && r.base == s.base && r.pc == s.pc[c := Free]
    requires forall n :: 0 <= n < |s.mx| ==> r.mx[n].waiters == s.mx[n].waiters
    ensures LockersOk(r)
  {
    assert forall n, t :: 0 <= n < |s.mx| && Queued(s.mx[n], t) ==> Queued(r.mx[n], t);
  }

  lemma {:induction false} InsertOrdered(ws: seq<Waiter>, me: Waiter)
    requires Ordered(ws) && forall i :: 0 <= i < |ws| ==> ws[i].ticket < me.ticket
    ensures Ordered(Insert(ByPrio(), ws, me))
    ensures Insert(ByPrio(), ws, me)[0].prio == if ws == [] then me.prio else Min(ws[0].prio, me.prio)
  {
    InsertShape(ByPrio(), ws, me);
    var k := Slot(ByPrio(), ws, me);
    forall i | k <= i < |ws|
      ensures me.prio < ws[i].prio
    {
      assert ByPrio()(me, ws[k]);
      assert i != k ==> Before(ws[k], ws[i]);
    }
    assert forall i :: 0 <= i < k ==> !ByPrio()(me, ws[i]);
  }

  /** The state after task c parked behind owner o, who ends at the lower of the
  two priority numbers. */
  ghost predicate IsParked(s: System, m: nat, c: Task, k: Sched, x: Mutex)
    requires Names(s) && m < |s.mx| && c in s.pc && s.pc[c].Locking?
  {
    s.mx[m].owner.Some? && s.mx[m].owner.value in s.base &&
    var was, o := s.mx[m], s.mx[m].owner.value;
    var lends := s.k.tcb[o].prio > s.k.tcb[c].prio;
    && k.tcb == s.k.tcb[o := s.k.tcb[o].(prio := Min(s.k.tcb[o].prio, s.k.tcb[c].prio))]
                     [c := s.k.tcb[c].(state := Blocked)]
    && x.owner == was.owner
    && x.waiters == Insert(ByPrio(), was.waiters, Waiter(c, s.pc[c].prio, s.tickets))
    && x.boosted == (was.boosted || lends)
    && x.saved == if lends && !was.boosted then s.k.tcb[o].prio else was.saved
  }

  ghost predicate CanPark(s: System, m: nat, c: Task, k: Sched, x: Mutex) {
    && LocksOk(s) && m < |s.mx| && c in s.pc && s.pc[c].Locking? && s.pc[c].m == m
    && s.k.tcb[c].state == Running && s.mx[m].owner != Some(c) && IsParked(s, m, c, k, x)
  }

  ghost function Swap(s: System, m: nat, k: Sched, x: Mutex, tickets: nat): System
    requires m < |s.mx|
  {
    s.(k := k, mx := s.mx[m := x], tickets := tickets)
  }

  lemma {:induction false} ParkOthers(s: System, m: nat, c: Task, k: Sched, x: Mutex)
    requires CanPark(s, m, c, k, x)
    ensures
      var r := Swap(s, m, k, x, s.tickets + 1);
      Names(r) && forall n :: 0 <= n < |s.mx| && n != m ==> QueueOk(r, n) && OwnerOk(r, n)
  {
    var o := s.mx[m].owner.value;
    OwnsOnlyHere(s, m, c);
    OwnsOnlyHere(s, m, o);
    assert OwnerOk(s, m);
    OthersKept(s, Swap(s, m, k, x, s.tickets + 1), m, {c, o});
  }

  lemma {:induction false} ParkHere(s: System, m: nat, c: Task, k: Sched, x: Mutex)
    requires CanPark(s, m, c, k, x)
    ensures
      var r := Swap(s, m, k, x, s.tickets + 1);
      Names(r) && QueueOk(r, m) && OwnerOk(r, m)
  {
    hide OneEach, Lent;
    assert QueueOk(s, m) && OwnerOk(s, m);
    OwnsOnlyHere(s, m, c);
    assert !Owns(s, c);
    QueueAfterPark(s, m, c, Swap(s, m, k, x, s.tickets + 1));
    OwnerAfterPark(s, m, c, k, x);
  }

  lemma {:induction false} ParkTasks(s: System, m: nat, c: Task, k: Sched, x: Mutex)
    requires CanPark(s, m, c, k, x)
    ensures
      var r := Swap(s, m, k, x, s.tickets + 1);
      Names(r) && OneEach(r.mx) && AtBase(r) && LockersOk(r)
  {
    var r := Swap(s, m, k, x, s.tickets + 1);
    OwnsOnlyHere(s, m, s.mx[m].owner.value);
    NewOwner(s, m, x);
    AtBaseKept(s, r, m);
    LockersAfterPark(s, m, c, r);
  }

  lemma {:induction false} OwnerAfterPark(s: System, m: nat, c: Task, k: Sched, x: Mutex)
    requires Names(s) && m < |s.mx| && c in s.pc && s.pc[c] == Locking(m, s.base[c])
    requires QueueOk(s, m) && OwnerOk(s, m) && s.mx[m].owner != Some(c) && IsParked(s, m, c, k, x)
    requires s.k.tcb[c].prio == s.base[c]
    ensures
      var r := Swap(s, m, k, x, s.tickets + 1);
      Names(r) && OwnerOk(r, m)
  {
    var ws := s.mx[m].waiters;
    assert forall i :: 0 <= i < |ws| ==> ws[i] in ws;
    InsertOrdered(ws, Waiter(c, s.pc[c].prio, s.tickets));
  }

  lemma {:induction false} QueueAfterPark(s: System, m: nat, c: Task, r: System)
    requires Names(s) && Names(r) && m < |s.mx| && QueueOk(s, m) && c in s.pc && s.pc[c] == Locking(m, s.base[c])
    requires r.base == s.base && r.pc == s.pc && |r.mx| == |s.mx| && r.tickets == s.tickets + 1
    requires forall t :: t in s.base && t != c ==> r.k.tcb[t].state == s.k.tcb[t].state
    requires s.k.tcb[c].state != Blocked && r.k.tcb[c].state == Blocked
    requires r.mx[m].owner.Some?
    requires r.mx[m].waiters == Insert(ByPrio(), s.mx[m].waiters, Waiter(c, s.pc[c].prio, s.tickets))
    ensures QueueOk(r, m)
  {
    var ws := s.mx[m].waiters;
    var me := Waiter(c, s.pc[c].prio, s.tickets);
    assert forall i :: 0 <= i < |ws| ==> ws[i] in ws;
    InsertOrdered(ws, me);
    InsertShape(ByPrio(), ws, me);
    DistinctAfter(ws, me, Slot(ByPrio(), ws, me));
    hide Insert, Slot, Ordered;
  }

  lemma {:induction false} DistinctAfter(ws: seq<Waiter>, me: Waiter, k: nat)
    requires k <= |ws| && forall i :: 0 <= i < |ws| ==> ws[i].task != me.task
    requires forall i, j :: 0 <= i < j < |ws| ==> ws[i].task != ws[j].task
    ensures
      var r := ws[..k] + [me] + ws[k..];
      forall i, j :: 0 <= i < j < |r| ==> r[i].task != r[j].task
  {
  }

  lemma {:induction false} LockersAfterPark(s: System, m: nat, c: Task, r: System)
    requires Names(s) && Names(r) && LockersOk(s) && m < |s.mx| && c in s.pc && s.pc[c] == Locking(m, s.base[c])
    requires r.base == s.base && r.pc == s.pc && |r.mx| == |s.mx|
    requires forall n :: 0 <= n < |s.mx| && n != m ==> r.mx[n] == s.mx[n]
    requires forall t :: t in s.base && t != c ==> r.k.tcb[t].state == s.k.tcb[t].state
    requires r.mx[m].waiters == Insert(ByPrio(), s.mx[m].waiters, Waiter(c, s.pc[c].prio, s.tickets))
    ensures LockersOk(r)
  {
    var me := Waiter(c, s.pc[c].prio, s.tickets);
    InsertShape(ByPrio(), s.mx[m].waiters, me);
    assert me in r.mx[m].waiters;
    assert Queued(r.mx[m], c);
    assert forall n, t :: 0 <= n < |s.mx| && Queued(s.mx[n], t) ==> Queued(r.mx[n], t);
  }

  /** The owner lets go of an uncontended mutex. */
  lemma {:induction false} DropLocks(s: System, m: nat, c: Task)
    requires LocksOk(s) && m < |s.mx| && c in s.pc && s.pc[c] == Free && s.mx[m].owner == Some(c)
    requires s.mx[m].waiters == []
    ensures !s.mx[m].boosted
    ensures LocksOk(s.(mx := s.mx[m := s.mx[m].(owner := None)]))
  {
    var x := s.mx[m].(owner := None);
    var r := s.(mx := s.mx[m := x]);
    assert QueueOk(s, m) && OwnerOk(s, m);
    OthersKept(s, r, m, {c});
    assert forall t :: t != c && Owns(s, t) ==> Owns(r, t);
  }

  /** The state after the owner handed the mutex to the head of the list and got
  its own base priority back. */
  ghost predicate IsHandedOver(s: System, m: nat, c: Task, k: Sched, x: Mutex)
    requires Names(s) && m < |s.mx| && c in s.base && s.mx[m].waiters != []
  {
    var was, h := s.mx[m], s.mx[m].waiters[0].task;
    && h in s.base
    && k.tcb == s.k.tcb[c := s.k.tcb[c].(prio := s.base[c])][h := s.k.tcb[h].(state := Ready)]
    && x == Mutex(Some(h), was.saved, false, was.waiters[1..])
  }

  ghost predicate CanHandOver(s: System, m: nat, c: Task, k: Sched, x: Mutex) {
    && LocksOk(s) && m < |s.mx| && c in s.pc && s.pc[c] == Free && s.mx[m].owner == Some(c)
    && s.mx[m].waiters != [] && IsHandedOver(s, m, c, k, x)
  }

  lemma {:induction false} HeadWaits(s: System, m: nat)
    requires LocksOk(s) && m < |s.mx| && s.mx[m].waiters != []
    ensures
      var h := s.mx[m].waiters[0].task;
      && h in s.base && s.k.tcb[h].state == Blocked
      && s.pc[h] == Locking(m, s.base[h]) && s.mx[m].waiters[0].prio == s.base[h]
      && s.mx[m].owner != Some(h)
      && s.k.tcb[h].prio == s.base[h]
      && (forall n :: 0 <= n < |s.mx| && n != m ==> s.mx[n].owner != Some(h))
  {
    assert QueueOk(s, m) && OwnerOk(s, m);
    var h := s.mx[m].waiters[0];
    assert h in s.mx[m].waiters;
    OwnsOnlyHere(s, m, h.task);
    assert !Owns(s, h.task);
  }

  lemma {:induction false} HandOverOthers(s: System, m: nat, c: Task, k: Sched, x: Mutex)
    requires CanHandOver(s, m, c, k, x)
    ensures
      var r := Swap(s, m, k, x, s.tickets);
      Names(r) && forall n :: 0 <= n < |s.mx| && n != m ==> QueueOk(r, n) && OwnerOk(r, n)
  {
    HeadWaits(s, m);
    OwnsOnlyHere(s, m, c);
    OthersKept(s, Swap(s, m, k, x, s.tickets), m, {c, s.mx[m].waiters[0].task});
  }

  lemma {:induction false} HandOverHere(s: System, m: nat, c: Task, k: Sched, x: Mutex)
    requires CanHandOver(s, m, c, k, x)
    ensures
      var r := Swap(s, m, k, x, s.tickets);
      Names(r) && QueueOk(r, m) && OwnerOk(r, m)
  {
    hide AtBase, LockersOk, OneEach;
    HeadWaits(s, m);
    var ws := s.mx[m].waiters;
    assert QueueOk(s, m);
    assert forall i :: 0 <= i < |ws| ==> ws[i] in ws;
    assert forall w :: w in ws[1..] ==> w in ws;
    assert |ws| > 1 ==> Before(ws[0], ws[1]);
  }

  lemma {:induction false} HandOverTasks(s: System, m: nat, c: Task, k: Sched, x: Mutex)
    requires CanHandOver(s, m, c, k, x)
    ensures
      var r := Swap(s, m, k, x, s.tickets);
      Names(r) && OneEach(r.mx) && AtBase(r) && LockersOk(r)
  {
    hide QueueOk, OwnerOk, NoDup;
    var r := Swap(s, m, k, x, s.tickets);
    HeadWaits(s, m);
    NewOwner(s, m, x);
    AtBaseKept(s, r, m);
    LockersAfterHandOver(s, m, r);
  }

  lemma {:induction false} LockersAfterHandOver(s: System, m: nat, r: System)
    requires Names(s) && Names(r) && LockersOk(s) && m < |s.mx| && s.mx[m].waiters != []
    requires r.base == s.base && r.pc == s.pc && |r.mx| == |s.mx|
    requires forall n :: 0 <= n < |s.mx| && n != m ==> r.mx[n] == s.mx[n]
    requires forall t :: t in s.base && t != s.mx[m].waiters[0].task ==> r.k.tcb[t].state == s.k.tcb[t].state
    requires s.mx[m].waiters[0].task in s.base && r.k.tcb[s.mx[m].waiters[0].task].state == Ready
    requires r.mx[m].waiters == s.mx[m].waiters[1..]
    ensures LockersOk(r)
  {
    var ws := s.mx[m].waiters;
    assert forall w :: w in ws && w.task != ws[0].task ==> w in ws[1..];
    assert forall n, t :: 0 <= n < |s.mx| && Queued(s.mx[n], t) && t != ws[0].task ==> Queued(r.mx[n], t);
  }

  // ---- the scheduler's part of parking and handing over ----

  lemma {:induction false} ParkSchedules(s: System, m: nat)
    requires Inv(s) && Enabled(s, Turn(m)) && s.mx[m].owner.Some? && s.mx[m].owner != s.k.current
    ensures
      var c := s.k.current.value;
      && s.mx[m].owner.value in s.base
      && var (k, x) := Park(s.k, s.mx[m], Waiter(c, s.pc[c].prio, s.tickets));
      Good(k) && IsParked(s, m, c, k, x)
  {
    var c := s.k.current.value;
    assert OwnerOk(s, m);
    ParkGood(s.k, s.mx[m], Waiter(c, s.pc[c].prio, s.tickets));
  }

  /** `unlock` restores the owner's base priority, finds that the new owner needs
  no boost of its own, and whoever should run next has been asked for. */
  lemma {:induction false} HandOverSchedules(s: System, m: nat)
    requires Inv(s) && Enabled(s, Release(m)) && s.mx[m].owner == s.k.current && s.mx[m].waiters != []
    ensures
      var (k, x, verdict) := Released(s, m);
      verdict == Ok && Good(k) && IsHandedOver(s, m, s.k.current.value, k, x)
  {
    hide RingsExactBut, Urgent, AtBase, LockersOk, OneEach, QueueOk, OwnerOk, Reprioritize, Reboost, MakeReady;
    UnlockReady(s, m);
    HeadWaits(s, m);
    Restored(s, m);
    var c, x := s.k.current.value, s.mx[m];
    var k1 := if x.boosted then Reprioritize(s.k, c, x.saved) else s.k;
    NoReboost(s, m, k1);
    RestoredUrgent(s, m, k1);
  }

  /** The owner is back at its base, and that is all that changed. */
  lemma {:induction false} Restored(s: System, m: nat)
    requires Inv(s) && m < |s.mx| && Runs(s) && s.mx[m].owner == s.k.current
    ensures
      var c, x := s.k.current.value, s.mx[m];
      && c in s.base && (x.boosted ==> x.saved < LEVELS)
      && var k1 := if x.boosted then Reprioritize(s.k, c, x.saved) else s.k;
         && Consistent(k1) && k1.current == s.k.current
         && k1.tcb == s.k.tcb[c := s.k.tcb[c].(prio := s.base[c])]
  {
    hide RingsExactBut, Urgent, AtBase, LockersOk, OneEach, QueueOk;
    var c, x := s.k.current.value, s.mx[m];
    assert OwnerOk(s, m);
    if x.boosted {
      ReprioritizeConsistent(s.k, c, x.saved);
      ReprioritizeTcb(s.k, c, x.saved);
    }
  }

  lemma {:induction false} NoReboost(s: System, m: nat, k: Sched)
    requires LocksOk(s) && m < |s.mx| && s.mx[m].waiters != []
    requires Consistent(k) && s.mx[m].waiters[0].task in k.tcb && s.mx[m].waiters[0].task != Idle
    requires k.tcb[s.mx[m].waiters[0].task].prio == s.mx[m].waiters[0].prio
    ensures
      var x := s.mx[m].(boosted := false, owner := Some(s.mx[m].waiters[0].task), waiters := s.mx[m].waiters[1..]);
      Reboost(k, x) == (k, x)
  {
    assert QueueOk(s, m);
    var ws := s.mx[m].waiters;
    assert |ws| > 1 ==> Before(ws[0], ws[1]);
  }

  /** A boosted owner dropping back to its base may leave more urgent tasks in the
  rings; waking the waiter it was boosted for requests the switch. */
  lemma {:induction false} RestoredUrgent(s: System, m: nat, k: Sched)
    requires Inv(s) && m < |s.mx| && Runs(s) && s.mx[m].owner == s.k.current && s.mx[m].waiters != []
    requires Consistent(k) && k.current == s.k.current
    requires k.tcb == s.k.tcb[s.k.current.value := s.k.tcb[s.k.current.value].(prio := s.base[s.k.current.value])]
    requires s.mx[m].boosted || k == s.k
    ensures Good(MakeReady(k, s.mx[m].waiters[0].task))
    ensures s.mx[m].waiters[0].task in k.tcb
    ensures MakeReady(k, s.mx[m].waiters[0].task).tcb ==
            k.tcb[s.mx[m].waiters[0].task := k.tcb[s.mx[m].waiters[0].task].(state := Ready)]
  {
    hide RingsExactBut, LocksOk, Urgent;
    HeadWaits(s, m);
    MutexAt(s, m);
    var h := s.mx[m].waiters[0].task;
    if s.mx[m].boosted {
      MakeReadyConsistent(k, h);
      WakePreempts(k, h);
    } else {
      MakeReadyGood(s.k, h);
    }
  }

  lemma {:induction false} WakePreempts(k: Sched, h: Task)
    requires WellTyped(k) && h in k.tcb && k.tcb[h].state == Blocked && Preempts(k, h)
    ensures Urgent(MakeReady(k, h))
  {
  }

  lemma {:induction false} MutexAt(s: System, m: nat)
    requires LocksOk(s) && m < |s.mx|
    ensures Names(s) && QueueOk(s, m) && OwnerOk(s, m)
  {
  }

  // ---- every run ----

  lemma {:induction false} StepInv(s: System, e: Event)
    requires Inv(s) && Enabled(s, e)
    ensures Inv(Next(s, e).0)
  {
    match e
    case Spawn(t, prio) => SpawnInv(s, t, prio);
    case Kernel(op) => KernelInv(s, op);
    case Door(m) => DoorInv(s, m);
    case Turn(m) => if s.mx[m].owner in {None, s.k.current} { TakeInv(s, m); } else { ParkInv(s, m); }
    case Release(m) => ReleaseInv(s, m);
  }

  lemma {:induction false} DoorInv(s: System, m: nat)
    requires Inv(s) && Enabled(s, Door(m))
    ensures Inv(Next(s, Door(m)).0)
  {
    if s.mx[m].owner != s.k.current {
      assert !Owns(s, s.k.current.value);
      DoorLocks(s, m, s.k.current.value);
    }
  }

  lemma {:induction false} TakeInv(s: System, m: nat)
    requires Inv(s) && Enabled(s, Turn(m))
    requires s.mx[m].owner == None || s.mx[m].owner == s.k.current
    ensures Inv(Next(s, Turn(m)).0)
  {
    TakeNext(s, m);
    TakeLocks(s, m, s.k.current.value);
  }

  lemma {:induction false} TakeNext(s: System, m: nat)
    requires Inv(s) && Enabled(s, Turn(m))
    requires s.mx[m].owner == None || s.mx[m].owner == s.k.current
    ensures
      var c := s.k.current.value;
      Next(s, Turn(m)) ==
      (s.(mx := s.mx[m := s.mx[m].(owner := Some(c))], tickets := s.tickets + 1, pc := s.pc[c := Free]), Some(Ok))
  {
    hide RingsExactBut, Urgent, QueueOk, AtBase, LockersOk, OneEach;
    var c := s.k.current.value;
    NotQueued(s, m, c);
    assert OwnerOk(s, m);
    TakeTurn(s.k, s.mx[m], Waiter(c, s.pc[c].prio, s.tickets));
    hide OwnerOk, LockTurn;
  }

  lemma {:induction false} ParkInv(s: System, m: nat)
    requires Inv(s) && Enabled(s, Turn(m))
    requires s.mx[m].owner.Some? && s.mx[m].owner != s.k.current
    ensures Inv(Next(s, Turn(m)).0)
  {
    hide RingsExactBut, Urgent, QueueOk, AtBase, LockersOk, OneEach, IsParked;
    var c := s.k.current.value;
    ParkSchedules(s, m);
    var (k, x) := Park(s.k, s.mx[m], Waiter(c, s.pc[c].prio, s.tickets));
    ParkLocks(s, m, c, k, x);
    assert OwnerOk(s, m);
    hide Park, LocksOk, OwnerOk;
    assert Next(s, Turn(m)).0 == Swap(s, m, k, x, s.tickets + 1);
  }

  lemma {:induction false} ParkLocks(s: System, m: nat, c: Task, k: Sched, x: Mutex)
    requires CanPark(s, m, c, k, x)
    ensures LocksOk(Swap(s, m, k, x, s.tickets + 1))
  {
    ParkOthers(s, m, c, k, x);
    ParkHere(s, m, c, k, x);
    ParkTasks(s, m, c, k, x);
    hide QueueOk, OwnerOk, AtBase, LockersOk, OneEach, IsParked, Names;
  }

  lemma {:induction false} HandOverLocks(s: System, m: nat, c: Task, k: Sched, x: Mutex)
    requires CanHandOver(s, m, c, k, x)
    ensures LocksOk(Swap(s, m, k, x, s.tickets))
  {
    HandOverOthers(s, m, c, k, x);
    HandOverHere(s, m, c, k, x);
    HandOverTasks(s, m, c, k, x);
    hide QueueOk, OwnerOk, AtBase, LockersOk, OneEach, IsHandedOver, Names;
  }

  lemma {:induction false} ReleaseInv(s: System, m: nat)
    requires Inv(s) && Enabled(s, Release(m))
    ensures Inv(Next(s, Release(m)).0)
  {
    hide RingsExactBut, Urgent, QueueOk, OwnerOk, AtBase, LockersOk, OneEach, IsHandedOver;
    var c := s.k.current.value;
    if s.mx[m].owner != Some(c) {
      assert s.mx[m := s.mx[m]] == s.mx;
    } else if s.mx[m].waiters == [] {
      DropLocks(s, m, c);
    } else {
      HandOverSchedules(s, m);
      var (k, x, _) := Released(s, m);
      HandOverLocks(s, m, c, k, x);
      hide Released, LocksOk;
    }
  }

  lemma {:induction false} StartInv(mutexes: nat)
    ensures Inv(Start(mutexes))
  {
    InitGood();
  }

  ghost predicate Follows(s: System, e: Event, r: System) {
    Inv(s) ==> Enabled(s, e) && r == Next(s, e).0
  }

  /** A run: any sequence of enabled events from the start, with its states. */
  ghost predicate IsRun(run: seq<System>, events: seq<Event>, mutexes: nat) {
    && |run| == |events| + 1 && run[0] == Start(mutexes)
    && (forall i :: 0 <= i < |events| ==> Follows(run[i], events[i], run[i + 1]))
  }

  lemma {:induction false} RunInv(run: seq<System>, events: seq<Event>, mutexes: nat, i: nat)
    requires IsRun(run, events, mutexes) && i < |run|
    ensures Inv(run[i])
  {
    hide Inv, Next, Enabled;
    if i == 0 {
      StartInv(mutexes);
    } else {
      RunInv(run, events, mutexes, i - 1);
      assert Follows(run[i - 1], events[i - 1], run[i]);
      StepInv(run[i - 1], events[i - 1]);
    }
  }

  // ---- what that means ----

  /** Whenever a guard is released anywhere in a run, the running task is the most
  urgent one or a switch is pending; the rings are exact throughout. */
  lemma {:induction false} AlwaysUrgent(run: seq<System>, events: seq<Event>, mutexes: nat, i: nat)
    requires IsRun(run, events, mutexes) && i < |run|
    ensures Consistent(run[i].k) && Urgent(run[i].k)
  {
    RunInv(run, events, mutexes, i);
  }

  /** Inheritance is exact at every moment of a run: an owner's priority is the
  least of its base and its waiters' bases, `boosted` and `saved` remember the
  base exactly when they differ, and everybody else is at base. */
  lemma {:induction false} InheritanceExact(run: seq<System>, events: seq<Event>, mutexes: nat, i: nat)
    requires IsRun(run, events, mutexes) && i < |run|
    ensures
      var s := run[i];
      && Names(s)
      && (forall t :: t in s.base && !Owns(s, t) ==> s.k.tcb[t].prio == s.base[t])
      && (forall m :: 0 <= m < |s.mx| && s.mx[m].owner.Some? ==> OwnerExact(s, m))
  {
    RunInv(run, events, mutexes, i);
    forall m | 0 <= m < |run[i].mx| && run[i].mx[m].owner.Some?
      ensures OwnerExact(run[i], m)
    {
      OwnerIsExact(run[i], m);
    }
  }

  ghost predicate OwnerExact(s: System, m: nat)
    requires Names(s) && m < |s.mx| && s.mx[m].owner.Some?
  {
    var x, o := s.mx[m], s.mx[m].owner.value;
    && o in s.base && s.k.tcb[o].prio <= s.base[o]
    && (forall w :: w in x.waiters ==>
          w.task in s.base && s.k.tcb[w.task].state == Blocked && s.k.tcb[o].prio <= s.base[w.task])
    && (s.k.tcb[o].prio == s.base[o] ||
        (exists w :: w in x.waiters && w.task in s.base && s.k.tcb[o].prio == s.base[w.task]))
    && (x.boosted <==> s.k.tcb[o].prio != s.base[o])
    && (x.boosted ==> x.saved == s.base[o])
  }

  lemma {:induction false} OwnerIsExact(s: System, m: nat)
    requires LocksOk(s) && m < |s.mx| && s.mx[m].owner.Some?
    ensures OwnerExact(s, m)
  {
    assert QueueOk(s, m) && OwnerOk(s, m);
    var ws := s.mx[m].waiters;
    forall w | w in ws
      ensures ws[0].prio <= w.prio
    {
      var j :| 0 <= j < |ws| && ws[j] == w;
      assert j > 0 ==> Before(ws[0], ws[j]);
    }
    if ws != [] {
      assert ws[0] in ws;
    }
  }

  /** `lock` answers Ok only to the task that then owns the mutex, and nobody else
  owns it or anything the owner holds; `unlock` answers Ok only to the owner. */
  lemma {:induction false} OkMeansOwner(s: System, e: Event)
    requires Inv(s) && Enabled(s, e) && (e.Turn? || e.Release?)
    ensures
      var (r, verdict) := Next(s, e);
      var c := s.k.current;
      && |r.mx| == |s.mx|
      && (e.Turn? && verdict == Some(Ok) ==>
            r.mx[e.m].owner == c && forall n :: 0 <= n < |r.mx| && r.mx[n].owner == c ==> n == e.m)
      && (e.Turn? && verdict == None ==> r.mx[e.m].owner != c && Queued(r.mx[e.m], c.value))
      && (e.Release? ==> (verdict == Some(Ok) <==> s.mx[e.m].owner == c))
      && (e.Release? ==> r.mx[e.m].owner != c)
  {
    StepInv(s, e);
    if e.Turn? {
      if s.mx[e.m].owner in {None, s.k.current} {
        TakeNext(s, e.m);
      } else {
        ParkSchedules(s, e.m);
        ParkedIsQueued(s, e.m);
      }
    } else if s.mx[e.m].waiters != [] && s.mx[e.m].owner == s.k.current {
      HeadWaits(s, e.m);
      HandOverSchedules(s, e.m);
    }
  }

  lemma {:induction false} ParkedIsQueued(s: System, m: nat)
    requires Inv(s) && Enabled(s, Turn(m)) && s.mx[m].owner !in {None, s.k.current}
    ensures Next(s, Turn(m)).1 == None && Queued(Next(s, Turn(m)).0.mx[m], s.k.current.value)
  {
    var c := s.k.current.value;
    ParkSchedules(s, m);
    var me := Waiter(c, s.pc[c].prio, s.tickets);
    InsertShape(ByPrio(), s.mx[m].waiters, me);
    assert me in Park(s.k, s.mx[m], me).1.waiters;
  }

  /** Unlocking a contended mutex undoes the owner's boost, hands the lock to the
  most urgent waiter, the earliest among equals, and makes it runnable. */
  lemma {:induction false} HandOverIsFair(s: System, m: nat)
    requires Inv(s) && Enabled(s, Release(m)) && s.mx[m].owner == s.k.current && s.mx[m].waiters != []
    ensures
      var r, c := Next(s, Release(m)).0, s.k.current.value;
      && c in s.base && c in r.k.tcb && r.k.tcb[c].prio == s.base[c]
      && exists w ::
           && w in s.mx[m].waiters && r.mx[m].owner == Some(w.task)
           && (forall v :: v in s.mx[m].waiters && v != w ==> Before(w, v))
           && w.task in r.k.tcb && r.k.tcb[w.task].state == Ready
  {
    hide RingsExactBut, Urgent, QueueOk, OwnerOk, AtBase, LockersOk, OneEach, Released, Before, WellTyped;
    HandOverSchedules(s, m);
    HeadWaits(s, m);
    HeadIsFirst(s, m);
    var w := s.mx[m].waiters[0];
    assert w in s.mx[m].waiters && Next(s, Release(m)).0.mx[m].owner == Some(w.task);
  }

  lemma {:induction false} HeadIsFirst(s: System, m: nat)
    requires LocksOk(s) && m < |s.mx| && s.mx[m].waiters != []
    ensures
      var ws := s.mx[m].waiters;
      forall v :: v in ws && v != ws[0] ==> Before(ws[0], v)
  {
    assert QueueOk(s, m);
    var ws := s.mx[m].waiters;
    forall v | v in ws && v != ws[0]
      ensures Before(ws[0], v)
    {
      var j :| 0 <= j < |ws| && ws[j] == v;
    }
  }

  /** Nobody sleeps in `lock` unseen: a blocked locker is queued on its mutex,
  whose owner exists and is not itself waiting for a mutex. */
  lemma {:induction false} NoStrandedLocker(run: seq<System>, events: seq<Event>, mutexes: nat, i: nat, t: Task)
    requires IsRun(run, events, mutexes) && i < |run|
    requires t in run[i].pc && run[i].pc[t].Locking? && t in run[i].k.tcb && run[i].k.tcb[t].state == Blocked
    ensures
      var s, m := run[i], run[i].pc[t].m;
      && m < |s.mx| && Queued(s.mx[m], t)
      && s.mx[m].owner.Some? && s.mx[m].owner.value in s.k.tcb && s.mx[m].owner.value in s.pc
      && !(s.pc[s.mx[m].owner.value].Locking? && s.k.tcb[s.mx[m].owner.value].state == Blocked)
  {
    RunInv(run, events, mutexes, i);
    var m := run[i].pc[t].m;
    assert t in run[i].base;
    assert QueueOk(run[i], m) && OwnerOk(run[i], m);
  }
}
