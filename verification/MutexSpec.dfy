/** The priority-inheriting mutex, one function per guarded region.

`lock` is a loop of guarded turns: each turn takes a free or handed-over lock,
or parks the caller and lends its priority to the owner. */
module MutexSpec {
  import opened Lists
  import opened SchedulerSpec

  datatype MutexError = Ok | NotYourLock | SelfLocked

  /** `ticket` numbers the arrivals; it exists to state the FIFO order. */
  datatype Waiter = Waiter(task: Task, prio: nat, ticket: nat)

  datatype Mutex = Mutex(owner: Option<Task>, saved: nat, boosted: bool, waiters: seq<Waiter>)

  function Fresh(): Mutex {
    Mutex(None, 0, false, [])
  }

  function ByPrio(): (Waiter, Waiter) -> bool {
    (arriving: Waiter, parked: Waiter) => arriving.prio < parked.prio
  }

  function Of(t: Task): Waiter -> bool {
    (w: Waiter) => w.task == t
  }

  /** Parking behind an owner: join the list, lend the priority, block. */
  function Park(k: Sched, x: Mutex, me: Waiter): (Sched, Mutex)
    requires Consistent(k) && me.task in k.tcb
    requires x.owner.Some? && x.owner.value in k.tcb && x.owner != Some(Idle)
  {
    var o := x.owner.value;
    var x1 := x.(waiters := Insert(ByPrio(), x.waiters, me));
    if k.tcb[o].prio > k.tcb[me.task].prio then
      var x2 := if x.boosted then x1 else x1.(saved := k.tcb[o].prio, boosted := true);
      (Block(Reprioritize(k, o, k.tcb[me.task].prio), me.task), x2)
    else
      (Block(k, me.task), x1)
  }

  /** One turn of the `lock` loop; no verdict means the caller is parked. */
  function LockTurn(k: Sched, x: Mutex, me: Waiter): (Sched, Mutex, Option<MutexError>)
    requires Consistent(k) && me.task in k.tcb
    requires x.owner.Some? ==> x.owner.value in k.tcb && x.owner != Some(Idle)
  {
    if x.owner == Some(me.task) then
      (k, x.(waiters := Drop(x.waiters, Of(me.task))), Some(Ok))
    else if x.owner.None? then
      (k, x.(owner := Some(me.task), waiters := Drop(x.waiters, Of(me.task))), Some(Ok))
    else
      var (k1, x1) := Park(k, x, me);
      (k1, x1, None)
  }

  /** The new owner inherits from whoever now heads the list. */
  function Reboost(k: Sched, x: Mutex): (r: (Sched, Mutex))
    requires Consistent(k) && x.owner.Some? && x.owner.value in k.tcb && x.owner != Some(Idle)
    ensures |r.0.fifo| == LEVELS
  {
    var o := x.owner.value;
    if x.waiters != [] && x.waiters[0].prio < k.tcb[o].prio then
      (Reprioritize(k, o, x.waiters[0].prio), x.(saved := k.tcb[o].prio, boosted := true))
    else (k, x)
  }

  function Unlock(k: Sched, x: Mutex): (Sched, Mutex, MutexError)
    requires Consistent(k) && k.current.Some?
    requires x.owner == k.current ==> k.current != Some(Idle)
    requires x.owner == k.current && x.boosted ==> x.saved < LEVELS
    requires x.waiters != [] ==> x.waiters[0].task in k.tcb && x.waiters[0].task != Idle
  {
    if x.owner != k.current then (k, x, NotYourLock)
    else
      var c := k.current.value;
      var k1 := if x.boosted then Reprioritize(k, c, x.saved) else k;
      var x1 := x.(boosted := false);
      assert Consistent(k1) by {
        if x.boosted { ReprioritizeConsistent(k, c, x.saved); }
      }
      assert k1.tcb.Keys == k.tcb.Keys by {
        if x.boosted { ReprioritizeTcb(k, c, x.saved); }
      }
      if x.waiters == [] then (k1, x1.(owner := None), Ok)
      else
        var head := x.waiters[0];
        var (k2, x2) := Reboost(k1, x1.(owner := Some(head.task), waiters := x.waiters[1..]));
        (MakeReady(k2, head.task), x2, Ok)
  }

  function Min(a: nat, b: nat): nat { if a < b then a else b }

  /** Parking the running task keeps every scheduler promise: lending may raise a
  waiting owner past the caller, but the caller's own block asks for the switch. */
  lemma {:induction false} ParkGood(k: Sched, x: Mutex, me: Waiter)
    requires Consistent(k) && k.current == Some(me.task) && CurrentRunning(k) && me.task != Idle
    requires x.owner.Some? && x.owner.value in k.tcb && x.owner != Some(Idle) && x.owner != Some(me.task)
    ensures Good(Park(k, x, me).0)
    ensures
      var o, p := x.owner.value, k.tcb[me.task].prio;
      Park(k, x, me).0.tcb == k.tcb[o := k.tcb[o].(prio := Min(k.tcb[o].prio, p))]
                                   [me.task := k.tcb[me.task].(state := Blocked)]
  {
    var o, p := x.owner.value, k.tcb[me.task].prio;
    if k.tcb[o].prio > p {
      ReprioritizeConsistent(k, o, p);
      ReprioritizeTcb(k, o, p);
      BlockCurrentGood(Reprioritize(k, o, p), me.task);
    } else {
      BlockCurrentGood(k, me.task);
      assert k.tcb[o := k.tcb[o].(prio := Min(k.tcb[o].prio, p))] == k.tcb;
    }
  }

  lemma {:induction false} TakeTurn(k: Sched, x: Mutex, me: Waiter)
    requires Consistent(k) && me.task in k.tcb && me.task != Idle
    requires x.owner in {None, Some(me.task)} && Drop(x.waiters, Of(me.task)) == x.waiters
    ensures LockTurn(k, x, me) == (k, x.(owner := Some(me.task)), Some(Ok))
  {
  }

  ghost predicate OncePerTask(ws: seq<Waiter>) {
    forall i, j :: 0 <= i < j < |ws| ==> ws[i].task != ws[j].task
  }

  /** A lock turn taken while still linked (a stray wake) keeps the wait list sound
  exactly when the mutex is free or already handed to the caller. */
  lemma {:induction false} StrayWakeKeepsListIff(k: Sched, x: Mutex, me: Waiter)
    requires Consistent(k) && me.task in k.tcb && OncePerTask(x.waiters)
    requires x.owner.Some? ==> x.owner.value in k.tcb && x.owner != Some(Idle)
    ensures OncePerTask(LockTurn(k, x, me).1.waiters) <==>
            (forall w :: w in x.waiters ==> w.task != me.task) || x.owner in {None, Some(me.task)}
  {
    hide RingsExactBut, Reprioritize, Block;
    if x.owner in {None, Some(me.task)} {
      DropKeepsOnce(x.waiters, me.task);
    } else {
      InsertOnceIff(x.waiters, me);
      hide Insert, OncePerTask;
    }
  }

  lemma {:induction false} DropKeepsOnce(ws: seq<Waiter>, t: Task)
    requires OncePerTask(ws)
    ensures OncePerTask(Drop(ws, Of(t)))
  {
    if Find(ws, Of(t)) < |ws| { DropShape(ws, Of(t)); }
  }

  lemma {:induction false} InsertOnceIff(ws: seq<Waiter>, me: Waiter)
    requires OncePerTask(ws)
    ensures OncePerTask(Insert(ByPrio(), ws, me)) <==> forall w :: w in ws ==> w.task != me.task
  {
    var k, r := Slot(ByPrio(), ws, me), Insert(ByPrio(), ws, me);
    PasteOnceIff(ws, me, k);
  }

  lemma {:induction false} PasteOnceIff(ws: seq<Waiter>, me: Waiter, k: nat)
    requires OncePerTask(ws) && k <= |ws|
    ensures OncePerTask(ws[..k] + [me] + ws[k..]) <==> forall w :: w in ws ==> w.task != me.task
  {
    var r := ws[..k] + [me] + ws[k..];
    assert r[k] == me;
    if w :| w in ws && w.task == me.task {
      var i :| 0 <= i < |ws| && ws[i] == w;
      if i < k { assert r[i] == w; } else { assert r[i + 1] == w; }
    }
  }
}
