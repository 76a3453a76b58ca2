/** Wrapping 32-bit ticks and the signed half-range comparison. */
module Ticks {

  const MODULUS: int := 0x1_0000_0000
  const HALF: int := 0x8000_0000

  type Tick = x: nat | x < MODULUS

  /** The counter value of true time x. */
  function Wrap(x: nat): Tick {
    x % MODULUS
  }

  /** a - b in unsigned 32-bit arithmetic, read as a signed 32-bit number. */
  function Diff(a: Tick, b: Tick): int {
    var d := (a - b) % MODULUS;
    if d < HALF then d else d - MODULUS
  }

  function Plus(a: Tick, span: Tick): Tick {
    (a + span) % MODULUS
  }

  /** `deadline.is_after(now)`: despite the name, the deadline has been reached. */
  predicate IsDue(deadline: Tick, now: Tick) {
    Diff(now, deadline) >= 0
  }

  /** `DeadLineOrder`: strictly earlier. */
  predicate Earlier(a: Tick, b: Tick) {
    Diff(b, a) > 0
  }

  /** Steps and spans that the signed comparison can tell apart: a booking `span`
  ahead of now and one overdue by `step` are at most half a counter round away from
  each other. */
  predicate HalfRange(step: nat, span: nat) {
    step < HALF && span < HALF && step + span <= HALF
  }

  /** The half-range rule: the signed difference of two counters is the true
  difference exactly when that lies in [-2^31, 2^31). */
  lemma {:induction false} DiffIsTrueIff(a: nat, b: nat)
    ensures Diff(Wrap(a), Wrap(b)) == a - b <==> -HALF <= a - b < HALF
  {
    WrapCancels(a, b);
  }

  lemma {:induction false} WrapCancels(a: nat, b: nat)
    ensures (Wrap(a) - Wrap(b)) % MODULUS == (a - b) % MODULUS
  {
    var qa, qb := a / MODULUS, b / MODULUS;
    assert Wrap(a) - Wrap(b) == (a - b) - (qa - qb) * MODULUS;
    ModShift(a - b, qb - qa);
  }

  /** A booking more than half a round behind looks ahead by the rest of the round. */
  lemma {:induction false} DiffBehind(a: nat, b: nat)
    requires -MODULUS <= a - b < -HALF
    ensures Diff(Wrap(a), Wrap(b)) == a - b + MODULUS
  {
    WrapCancels(a, b);
    ModShift(a - b, 1);
  }

  lemma {:induction false} ModShift(x: int, k: int)
    ensures (x + k * MODULUS) % MODULUS == x % MODULUS
  {
  }

  lemma {:induction false} PlusIsTrue(a: nat, span: Tick)
    ensures Plus(Wrap(a), span) == Wrap(a + span)
  {
  }

  /** A timeout of 2^31 ticks or more has already run out when it is asked for:
  the deadline lands in the past half of the counter. */
  lemma {:induction false} LongTimeoutIsImmediate(now: Tick, span: Tick)
    ensures Diff(Plus(now, span), now) <= 0 <==> span == 0 || span >= 0x8000_0000
  {
  }
}
