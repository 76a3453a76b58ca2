/** Tickless idling: one-shot SysTick periods that skip whole stretches of ticks,
split to fit the 24-bit reload register, and settled on the time kernel when they
expire.

SysTick with reload value R expires R + 1 cycles after its restart, and never if R
is 0 (SysTick, section B3.3 of the ARMv7-M Architecture Reference Manual). The
register keeps the low 24 bits of what is written. */
module Tickless {
  import opened Lists
  import opened Ticks
  import opened Arith
  import opened TimeKernelSpec
  import opened TimeLedger
  import opened TimeRuns

  const RELOAD_MAX: nat := 0xFF_FFFF
  const THRESHOLD: nat := 2

  /** `owed` is one_shot_ticks_: what the expiry will settle, 0 for a plain tick. */
  datatype Shot = Shot(owed: nat, written: nat)

  /** What `idle_sleep` leaves in the timer when the head is due in `due` ticks. */
  function Plan(due: nat, cycles: nat): Shot
    requires cycles > 0
  {
    if due > THRESHOLD then
      var most := RELOAD_MAX / cycles;
      var n := if due > most then most else due;
      Shot(n, (n * cycles - 1) % MODULUS)
    else Shot(0, (cycles - 1) % MODULUS)
  }

  function Reload(shot: Shot): nat {
    shot.written % (RELOAD_MAX + 1)
  }

  predicate Expires(shot: Shot) {
    Reload(shot) != 0
  }

  /** The ticks `SysTick_Handler` reports on expiry. */
  function Settled(shot: Shot): nat {
    if shot.owed != 0 then shot.owed else 1
  }

  /** Time is reported truly: as many ticks as the cycles that passed are worth. */
  predicate Honest(shot: Shot, cycles: nat) {
    Expires(shot) && Reload(shot) + 1 == Settled(shot) * cycles
  }

  /** A one-shot fits the field, its product does not overflow, and it ends no later
  than the head is due, whenever one tick itself fits the field. */
  lemma {:induction false} OneShotFits(due: nat, cycles: nat)
    requires 1 <= cycles <= RELOAD_MAX && due > THRESHOLD
    ensures
      var n := Plan(due, cycles).owed;
      && 1 <= n <= due && n * cycles <= RELOAD_MAX
      && Plan(due, cycles).written == n * cycles - 1 == Reload(Plan(due, cycles))
      && (n == due || (n + 1) * cycles > RELOAD_MAX)
      && (cycles == 1 ==> n >= 2)
  {
    var most := RELOAD_MAX / cycles;
    Split(RELOAD_MAX, cycles, 0);
    assert most >= 1;
    var n := if due > most then most else due;
    assert n * cycles <= most * cycles by {
      assert (most - n) * cycles >= 0;
      assert most * cycles == n * cycles + (most - n) * cycles;
    }
    Multiple(n, cycles);
    assert (most + 1) * cycles == most * cycles + cycles;
    SmallMod(n * cycles - 1);
  }

  /** Up to two ticks away the periodic tick is left in place. */
  lemma {:induction false} ShortWaitsTick(due: nat, cycles: nat)
    requires 1 <= cycles <= RELOAD_MAX
    ensures Plan(due, cycles).owed == 0 <==> due <= 2
    ensures due <= 2 ==> Reload(Plan(due, cycles)) == cycles - 1 && Settled(Plan(due, cycles)) == 1
  {
    if due > THRESHOLD { OneShotFits(due, cycles); } else { SmallMod(cycles - 1); }
  }

  /** With nothing booked the counter is stopped: no plan at all. */
  function Arm(due: Option<nat>, cycles: nat): Option<Shot>
    requires cycles > 0
  {
    if due.None? then None else Some(Plan(due.value, cycles))
  }

  /** The counter stops exactly when no booking is pending, so nothing is missed. */
  lemma {:induction false} StopsIffNothingPending(k: Kernel, a: Ledger, cycles: nat, maxSpan: nat)
    requires Sound(a) && Aligned(k, a, maxSpan) && cycles > 0
    ensures NextDueIn(k).Some? ==> NextDueIn(k).value >= 0
    ensures
      var due := if NextDueIn(k).Some? then Some(NextDueIn(k).value as nat) else None;
      Arm(due, cycles) == None <==> forall t :: 0 <= t < |a.book| ==> a.book[t].status != Pending
  {
    NextDueInIsTrue(k, a, maxSpan);
    hide Related, Aligned;
    if a.live != map[] {
      var w :| w in a.live;
      assert a.book[a.live[w]].status == Pending;
    }
  }

  lemma {:induction false} SmallMod(x: nat)
    requires x <= RELOAD_MAX
    ensures x % MODULUS == x && x % (RELOAD_MAX + 1) == x
  {
  }

  /** Every plan is honest exactly when a tick takes 2 to 2^24 cycles. One cycle per
  tick leaves reload value 0, which never expires; at exactly 2^24 the clamp is 0
  and the wrapped register happens to give one full tick; beyond, ticks are lost. */
  lemma {:induction false} HonestIff(cycles: nat)
    requires 0 < cycles < MODULUS
    ensures (forall due: nat :: due > 0 ==> Honest(Plan(due, cycles), cycles)) <==> 2 <= cycles <= 0x100_0000
  {
    if 2 <= cycles <= RELOAD_MAX + 1 {
      forall due: nat | due > 0
        ensures Honest(Plan(due, cycles), cycles)
      {
        PlanHonest(due, cycles);
      }
    } else {
      PlainTickLies(cycles);
      assert !Honest(Plan(1, cycles), cycles);
    }
  }

  lemma {:induction false} PlainTickLies(cycles: nat)
    requires 0 < cycles < MODULUS && !(2 <= cycles <= RELOAD_MAX + 1)
    ensures !Honest(Plan(1, cycles), cycles)
  {
  }

  lemma {:induction false} PlanHonest(due: nat, cycles: nat)
    requires due > 0 && 2 <= cycles <= RELOAD_MAX + 1
    ensures Honest(Plan(due, cycles), cycles)
    ensures 1 <= Settled(Plan(due, cycles)) <= due && Settled(Plan(due, cycles)) <= RELOAD_MAX
  {
    if due <= THRESHOLD {
      SmallMod(cycles - 1);
    } else if cycles <= RELOAD_MAX {
      OneShotFits(due, cycles);
      var n := Plan(due, cycles).owed;
      hide Plan;
      if n == 1 { assert n * cycles == cycles; } else { Multiple(n, cycles); }
      Larger(n, cycles);
    } else {
      assert RELOAD_MAX / cycles == 0;
      assert Plan(due, cycles) == Shot(0, (0 * cycles - 1) % MODULUS);
      assert (-1) % MODULUS == MODULUS - 1;
    }
  }

  lemma {:induction false} Larger(n: nat, cycles: nat)
    requires cycles >= 1
    ensures n <= n * cycles
  {
    assert n * (cycles - 1) >= 0;
    assert n * cycles == n + n * (cycles - 1);
  }

  // ---- with the time kernel ----

  /** Nothing else is going on: the kernel is aligned with a ledger, something is
  booked ahead, and every stretch the timer can skip keeps the half-range rule. */
  ghost predicate Idling(k: Kernel, a: Ledger, maxSpan: nat) {
    && Sound(a) && Aligned(k, a, maxSpan) && HalfRange(RELOAD_MAX, maxSpan)
    && k.queue != [] && Due(a) == {}
  }

  /** How far the head is ahead, in true time. */
  ghost function HeadDistance(k: Kernel, a: Ledger): int
    requires Sound(a) && k.queue != [] && k.queue[0].id in a.live
  {
    a.book[a.live[k.queue[0].id]].deadline - a.now
  }

  lemma {:induction false} HeadAhead(k: Kernel, a: Ledger, maxSpan: nat)
    requires Idling(k, a, maxSpan)
    ensures k.queue[0].id in a.live && NextDueIn(k) == Some(HeadDistance(k, a)) && 1 <= HeadDistance(k, a) <= maxSpan
  {
    var h := k.queue[0].id;
    assert h in a.live && h !in Due(a);
    DiffIsTrueIff(a.book[a.live[h]].deadline, a.now);
  }

  /** Settling n ticks, no more than the head is ahead: short of it nothing fires
  and the head is n closer; on it the head fires. */
  lemma {:induction false} SettleShot(k: Kernel, a: Ledger, n: Tick, maxSpan: nat)
    requires Idling(k, a, maxSpan) && 1 <= n <= RELOAD_MAX && k.queue[0].id in a.live && n <= HeadDistance(k, a)
    ensures
      var (r, fired) := OnElapsed(k, n, []);
      var b := LElapsed(a, n, []);
      && b.now == a.now + n && Aligned(r, b, maxSpan)
      && (n < HeadDistance(k, a) ==>
            && fired == [] && Idling(r, b, maxSpan) && r.queue == k.queue
            && k.queue[0].id in b.live && HeadDistance(r, b) == HeadDistance(k, a) - n)
      && (n == HeadDistance(k, a) ==> fired != [] && fired[0] == k.queue[0].id)
  {
    OnElapsedRefines(k, a, n, [], maxSpan);
    var k1, a1 := Advance(k, n), a.(now := a.now + n);
    AdvanceRelated(k, a, n, maxSpan);
    HeadIsNext(k1, a1, a.now, maxSpan);
    HeadDueWhen(k, a, n, maxSpan);
    hide Aligned, Related;
    if n < HeadDistance(k, a) {
      assert Drain(k1, []) == (k1, []);
      assert LElapsed(a, n, []) == LDrain(a1, a.now, []) == a1;
    }
  }

  lemma {:induction false} HeadDueWhen(k: Kernel, a: Ledger, n: Tick, maxSpan: nat)
    requires Idling(k, a, maxSpan) && 1 <= n <= RELOAD_MAX && k.queue[0].id in a.live && n <= HeadDistance(k, a)
    ensures HeadDue(Advance(k, n)) <==> n == HeadDistance(k, a)
  {
    PlusIsTrue(a.now, n);
    DiffIsTrueIff(a.now + n, a.book[a.live[k.queue[0].id]].deadline);
  }

  /** One round of the idle loop: the ticks it settles. */
  function Round(k: Kernel, cycles: nat): nat
    requires NextDueIn(k).Some? && NextDueIn(k).value >= 0 && cycles > 0
  {
    Settled(Plan(NextDueIn(k).value, cycles))
  }

  ghost predicate CanIdle(k: Kernel, a: Ledger, cycles: nat, maxSpan: nat) {
    && Idling(k, a, maxSpan) && 2 <= cycles <= RELOAD_MAX + 1
    && k.queue[0].id in a.live && NextDueIn(k) == Some(HeadDistance(k, a)) && HeadDistance(k, a) >= 1
  }

  lemma {:induction false} IdleStep(k: Kernel, a: Ledger, cycles: nat, maxSpan: nat)
    requires CanIdle(k, a, cycles, maxSpan)
    ensures
      var n := Round(k, cycles);
      && 1 <= n <= HeadDistance(k, a) && n <= RELOAD_MAX
      && var (r, fired) := OnElapsed(k, n, []);
         var b := LElapsed(a, n, []);
         && b.now == a.now + n
         && Reload(Plan(HeadDistance(k, a), cycles)) + 1 == n * cycles
         && (fired == [] ==> CanIdle(r, b, cycles, maxSpan) && r.queue == k.queue && HeadDistance(r, b) == HeadDistance(k, a) - n)
         && (fired != [] ==> fired[0] == k.queue[0].id && n == HeadDistance(k, a))
  {
    hide OnElapsed, LElapsed, Plan, Aligned;
    PlanHonest(HeadDistance(k, a), cycles);
    var n := Round(k, cycles);
    SettleShot(k, a, n, maxSpan);
    if n < HeadDistance(k, a) { HeadAhead(OnElapsed(k, n, []).0, LElapsed(a, n, []), maxSpan); }
  }

  /** Idle until something fires: consult, sleep through one shot, settle, repeat.
  The result: kernel, ledger, what fired, and the cycles that went by. */
  ghost function IdleUntilDue(k: Kernel, a: Ledger, cycles: nat, maxSpan: nat): (Kernel, Ledger, seq<nat>, nat)
    requires CanIdle(k, a, cycles, maxSpan)
    decreases HeadDistance(k, a)
  {
    IdleStep(k, a, cycles, maxSpan);
    var n := Round(k, cycles);
    var took := Reload(Plan(NextDueIn(k).value, cycles)) + 1;
    var (r, fired) := OnElapsed(k, n, []);
    var b := LElapsed(a, n, []);
    if fired != [] then (r, b, fired, took)
    else
      var (k2, c, late, rest) := IdleUntilDue(r, b, cycles, maxSpan);
      (k2, c, late, took + rest)
  }

  lemma {:induction false} Shares(n: nat, d: nat, cycles: nat)
    requires n <= d
    ensures n * cycles + (d - n) * cycles == d * cycles
  {
  }

  lemma {:induction false} IdleAddsUp(k: Kernel, a: Ledger, cycles: nat, maxSpan: nat)
    requires CanIdle(k, a, cycles, maxSpan)
    ensures
      var (r, b, fired, took) := IdleUntilDue(k, a, cycles, maxSpan);
      && b.now == a.now + HeadDistance(k, a)
      && fired != [] && fired[0] == k.queue[0].id
      && took == HeadDistance(k, a) * cycles
    decreases HeadDistance(k, a)
  {
    hide OnElapsed, LElapsed, Round, Plan, Aligned;
    IdleStep(k, a, cycles, maxSpan);
    var n := Round(k, cycles);
    var (r, fired) := OnElapsed(k, n, []);
    if fired == [] {
      IdleAddsUp(r, LElapsed(a, n, []), cycles, maxSpan);
      Shares(n, HeadDistance(k, a), cycles);
    }
  }

  /** However far away the head is, the shots add up: it fires at exactly its true
  deadline, after exactly that many ticks' worth of cycles, and nothing fires
  before. */
  lemma {:induction false} TicklessIsExact(k: Kernel, a: Ledger, cycles: nat, maxSpan: nat)
    requires Idling(k, a, maxSpan) && 2 <= cycles <= RELOAD_MAX + 1
    ensures CanIdle(k, a, cycles, maxSpan)
    ensures
      var (r, b, fired, took) := IdleUntilDue(k, a, cycles, maxSpan);
      && b.now == a.book[a.live[k.queue[0].id]].deadline
      && fired != [] && fired[0] == k.queue[0].id
      && took == (b.now - a.now) * cycles
  {
    HeadAhead(k, a, maxSpan);
    hide IdleUntilDue, Aligned;
    IdleAddsUp(k, a, cycles, maxSpan);
  }
}
