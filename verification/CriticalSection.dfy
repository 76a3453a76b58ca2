/** Nested critical sections over one BASEPRI register. Scheduler, clock and system
each own a section object, and their guards nest in each other. */
module CriticalSections {
  import opened Lists

  const MASK: nat := 0x40
  const WIDTH: int := 0x1_0000_0000

  datatype Section = Section(nest: nat, saved: nat)

  /** The register and every section object; objects start all zero. */
  datatype Cpu = Cpu(basepri: nat, sections: map<nat, Section>)

  function At(s: Cpu, i: nat): Section {
    if i in s.sections then s.sections[i] else Section(0, 0)
  }

  /** The counter is 32 bits wide, both ways. */
  function Lock(s: Cpu, i: nat): Cpu {
    var x := At(s, i);
    var n := (x.nest + 1) % WIDTH;
    if x.nest == 0 then Cpu(MASK, s.sections[i := Section(n, s.basepri)])
    else s.(sections := s.sections[i := x.(nest := n)])
  }

  function Unlock(s: Cpu, i: nat): Cpu {
    var x := At(s, i);
    var n := (x.nest - 1) % WIDTH;
    Cpu(if n == 0 then x.saved else s.basepri, s.sections[i := x.(nest := n)])
  }

  predicate Held(s: Cpu, i: nat) {
    At(s, i).nest > 0
  }

  /** Masked exactly while somebody holds a section. */
  ghost predicate Exact(s: Cpu, start: nat) {
    s.basepri == if exists i :: Held(s, i) then MASK else start
  }

  /** One holder, the keeper, remembers the level from before; all others saved the
  mask itself. */
  ghost predicate Kept(s: Cpu, start: nat, keeper: nat) {
    && ((exists i :: Held(s, i)) ==> Held(s, keeper) && At(s, keeper).saved == start)
    && (forall i :: Held(s, i) && i != keeper ==> At(s, i).saved == MASK)
  }

  lemma {:induction false} LockKeeps(s: Cpu, start: nat, keeper: nat, i: nat)
    requires Exact(s, start) && Kept(s, start, keeper) && At(s, i).nest + 1 < WIDTH
    ensures
      var r := Lock(s, i);
      Exact(r, start) && Kept(r, start, if exists j :: Held(s, j) then keeper else i)
  {
    var r := Lock(s, i);
    assert Held(r, i);
    assert forall j :: j != i ==> At(r, j) == At(s, j);
    assert forall j :: j != i ==> (Held(r, j) <==> Held(s, j));
  }

  /** When an unlock is right: unless the keeper leaves for good while somebody else
  still holds a section. */
  lemma {:induction false} UnlockExactIff(s: Cpu, start: nat, keeper: nat, i: nat)
    requires Exact(s, start) && Kept(s, start, keeper) && Held(s, i) && At(s, i).nest < WIDTH && start != MASK
    ensures Exact(Unlock(s, i), start) <==> At(s, i).nest > 1 || i != keeper || (forall j :: Held(s, j) ==> j == i)
  {
    var r := Unlock(s, i);
    assert At(r, i).nest == At(s, i).nest - 1;
    assert forall j :: j != i ==> (Held(r, j) <==> Held(s, j));
    if At(s, i).nest > 1 {
      assert Held(r, i);
    } else if i != keeper {
      assert Held(r, keeper);
    } else if forall j :: Held(s, j) ==> j == i {
      assert forall j :: !Held(r, j);
    } else {
      var j :| Held(s, j) && j != i;
      assert Held(r, j);
    }
  }

  lemma {:induction false} UnlockKeeps(s: Cpu, start: nat, keeper: nat, i: nat)
    requires Exact(s, start) && Kept(s, start, keeper) && Held(s, i) && At(s, i).nest < WIDTH
    requires At(s, i).nest > 1 || i != keeper || (forall j :: Held(s, j) ==> j == i)
    ensures Exact(Unlock(s, i), start) && Kept(Unlock(s, i), start, keeper)
  {
    var r := Unlock(s, i);
    assert At(r, i).nest == At(s, i).nest - 1;
    assert forall j :: j != i ==> At(r, j) == At(s, j);
    assert forall j :: j != i ==> (Held(r, j) <==> Held(s, j));
    if At(s, i).nest > 1 {
      assert Held(r, i);
    } else if i != keeper {
      assert Held(r, keeper);
    } else {
      assert forall j :: !Held(r, j);
    }
  }

  // ---- guards nest ----

  datatype Event = Enter(i: nat) | Leave(i: nat)

  /** How often object i is on the stack of open guards. */
  function Depth(stack: seq<nat>, i: nat): nat {
    if stack == [] then 0 else Depth(stack[..|stack| - 1], i) + if stack[|stack| - 1] == i then 1 else 0
  }

  /** Guards are destroyed in the reverse order of their construction. */
  predicate Allowed(stack: seq<nat>, e: Event) {
    match e
    case Enter(_) => |stack| + 1 < WIDTH
    case Leave(i) => stack != [] && stack[|stack| - 1] == i
  }

  function Stack(stack: seq<nat>, e: Event): seq<nat>
    requires Allowed(stack, e)
  {
    if e.Enter? then stack + [e.i] else stack[..|stack| - 1]
  }

  function Step(s: Cpu, e: Event): Cpu {
    if e.Enter? then Lock(s, e.i) else Unlock(s, e.i)
  }

  ghost predicate Inv(s: Cpu, stack: seq<nat>, start: nat) {
    && |stack| < WIDTH && Exact(s, start)
    && (forall i: nat :: At(s, i).nest == Depth(stack, i))
    && (if stack == [] then Kept(s, start, 0) else Kept(s, start, stack[0]))
  }

  lemma {:induction false} DepthBound(stack: seq<nat>, i: nat)
    ensures Depth(stack, i) <= |stack|
    ensures Depth(stack, i) > 0 <==> i in stack
  {
    if stack != [] {
      DepthBound(stack[..|stack| - 1], i);
      assert stack == stack[..|stack| - 1] + [stack[|stack| - 1]];
    }
  }

  lemma {:induction false} HeldIsOpen(s: Cpu, stack: seq<nat>, start: nat)
    requires Inv(s, stack, start)
    ensures forall i: nat :: Held(s, i) <==> i in stack
  {
    forall i: nat ensures Held(s, i) <==> i in stack { DepthBound(stack, i); }
  }

  lemma {:induction false} LockNest(s: Cpu, i: nat)
    requires At(s, i).nest + 1 < WIDTH
    ensures forall j: nat :: At(Lock(s, i), j).nest == At(s, j).nest + if i == j then 1 else 0
  {
  }

  lemma {:induction false} UnlockNest(s: Cpu, i: nat)
    requires 0 < At(s, i).nest < WIDTH
    ensures forall j: nat :: At(Unlock(s, i), j).nest == At(s, j).nest - if i == j then 1 else 0
  {
  }

  lemma {:induction false} DepthPush(stack: seq<nat>, i: nat, j: nat)
    ensures Depth(stack + [i], j) == Depth(stack, j) + if i == j then 1 else 0
  {
    assert (stack + [i])[..|stack|] == stack;
  }

  lemma {:induction false} EnterInv(s: Cpu, stack: seq<nat>, start: nat, i: nat)
    requires Inv(s, stack, start) && |stack| + 1 < WIDTH
    ensures Inv(Lock(s, i), stack + [i], start)
  {
    hide Depth, Lock, Exact, Kept, At;
    HeldIsOpen(s, stack, start);
    DepthBound(stack, i);
    LockNest(s, i);
    assert stack != [] ==> Held(s, stack[0]) by { if stack != [] { assert stack[0] in stack; } }
    LockKeeps(s, start, if stack == [] then 0 else stack[0], i);
    forall j: nat
      ensures At(Lock(s, i), j).nest == Depth(stack + [i], j)
    {
      DepthPush(stack, i, j);
    }
  }

  /** Only the last guard open on the keeper closes it for good. */
  lemma {:induction false} BottomIsLast(stack: seq<nat>, i: nat)
    requires stack != [] && stack[|stack| - 1] == i == stack[0] && Depth(stack, i) == 1
    ensures stack == [i]
  {
    var rest := stack[..|stack| - 1];
    assert stack == rest + [i];
    DepthPush(rest, i, i);
    DepthBound(rest, i);
  }

  lemma {:induction false} LeaveInv(s: Cpu, stack: seq<nat>, start: nat, i: nat)
    requires Inv(s, stack, start) && stack != [] && stack[|stack| - 1] == i
    ensures Inv(Unlock(s, i), stack[..|stack| - 1], start)
  {
    hide Depth, Unlock, Exact, Kept, At;
    HeldIsOpen(s, stack, start);
    DepthBound(stack, i);
    UnlockNest(s, i);
    if At(s, i).nest == 1 && i == stack[0] { BottomIsLast(stack, i); }
    UnlockKeeps(s, start, stack[0], i);
    var r, rest := Unlock(s, i), stack[..|stack| - 1];
    assert stack == rest + [i];
    forall j: nat
      ensures At(r, j).nest == Depth(rest, j)
    {
      DepthPush(rest, i, j);
    }
    if rest == [] {
      forall j: nat ensures !Held(r, j) { DepthBound(rest, j); }
      NobodyKept(r, start);
    }
  }

  lemma {:induction false} NobodyKept(s: Cpu, start: nat)
    requires forall i: nat :: !Held(s, i)
    ensures Kept(s, start, 0)
  {
  }

  ghost predicate IsRun(run: seq<Cpu>, stacks: seq<seq<nat>>, events: seq<Event>, start: nat) {
    && |run| == |stacks| == |events| + 1 && run[0] == Cpu(start, map[]) && stacks[0] == []
    && (forall n :: 0 <= n < |events| ==>
          Allowed(stacks[n], events[n]) && stacks[n + 1] == Stack(stacks[n], events[n]) && run[n + 1] == Step(run[n], events[n]))
  }

  lemma {:induction false} RunInv(run: seq<Cpu>, stacks: seq<seq<nat>>, events: seq<Event>, start: nat, n: nat)
    requires IsRun(run, stacks, events, start) && n < |run|
    ensures Inv(run[n], stacks[n], start)
  {
    if n > 0 {
      hide Inv;
      RunInv(run, stacks, events, start, n - 1);
      var s, stack, e := run[n - 1], stacks[n - 1], events[n - 1];
      assert run[n - 1 + 1] == Step(s, e) && stacks[n - 1 + 1] == Stack(stack, e);
      InvDepth(s, stack, start);
      match e
      case Enter(i) => EnterInv(s, stack, start, i);
      case Leave(i) => LeaveInv(s, stack, start, i);
    }
  }

  lemma {:induction false} InvDepth(s: Cpu, stack: seq<nat>, start: nat)
    requires Inv(s, stack, start)
    ensures |stack| < WIDTH
  {
  }

  /** For every well-nested run over any number of objects, entered again or into
  each other: interrupts are masked exactly while some guard is open, and the
  register is back where it started whenever none is. */
  lemma {:induction false} MaskedExactlyWhileHeld(run: seq<Cpu>, stacks: seq<seq<nat>>, events: seq<Event>, start: nat, n: nat)
    requires IsRun(run, stacks, events, start) && n < |run|
    ensures run[n].basepri == if stacks[n] == [] then start else 0x40
    ensures forall i: nat :: Held(run[n], i) <==> i in stacks[n]
  {
    RunInv(run, stacks, events, start, n);
    HeldIsOpen(run[n], stacks[n], start);
    if stacks[n] != [] { assert Held(run[n], stacks[n][0]); }
  }

  /** Without nesting the mask leaks: A and B locked, A released first. The register
  is open while B is held and masked after both are gone. */
  lemma {:induction false} OverlapLeaksMask(a: nat, b: nat)
    requires a != b
    ensures
      var held := Unlock(Lock(Lock(Cpu(0, map[]), a), b), a);
      && Held(held, b) && held.basepri == 0
      && !Held(Unlock(held, b), a) && !Held(Unlock(held, b), b) && Unlock(held, b).basepri == MASK
  {
  }

  // ---- the objects ----

  class Register {
    var basepri: nat

    constructor (value: nat)
      ensures basepri == value
    {
      basepri := value;
    }
  }

  class CriticalSection {
    var nest: nat
    var saved: nat

    constructor ()
      ensures nest == 0 && saved == 0
    {
      nest, saved := 0, 0;
    }

    ghost function View(cpu: Register): Cpu
      reads this, cpu
    {
      Cpu(cpu.basepri, map[0 := Section(nest, saved)])
    }

    method LockIt(cpu: Register)
      modifies this, cpu
      ensures View(cpu) == Lock(old(View(cpu)), 0)
    {
      var first := nest == 0;
      nest := (nest + 1) % WIDTH;
      if first {
        saved := cpu.basepri;
        cpu.basepri := MASK;
      }
    }

    method UnlockIt(cpu: Register)
      modifies this, cpu
      ensures View(cpu) == Unlock(old(View(cpu)), 0)
    {
      nest := (nest - 1) % WIDTH;
      if nest == 0 {
        cpu.basepri := saved;
      }
    }
  }
}
