/** The meaning of the time kernel in unbounded time.

The ledger numbers every booking with a ticket and records its true deadline and
its fate. It has no queue, no wrap-around and no comparison trick: an elapsed
step simply fires, again and again, the due booking with the least deadline, the
oldest among equals. The wrapping kernel is proved to do the same. */
module TimeLedger {
  import opened Lists
  import opened Ticks
  import opened TimeKernelSpec

  /** `prev` and `now` are the true times before and in the step that fired it. */
  datatype Status = Pending | Fired(prev: nat, now: nat) | Dropped

  datatype Record = Record(id: nat, deadline: nat, bookedAt: nat, status: Status)

  /** `book` is indexed by ticket, `live` gives each waiter's pending ticket, and
  `log` lists the tickets in the order they fired. */
  datatype Ledger = Ledger(now: nat, live: map<nat, nat>, book: seq<Record>, log: seq<nat>)

  function Empty(): Ledger {
    Ledger(0, map[], [], [])
  }

  ghost predicate Sound(a: Ledger) {
    && (forall w :: w in a.live ==>
          a.live[w] < |a.book| && a.book[a.live[w]].id == w && a.book[a.live[w]].status == Pending)
    && (forall t :: 0 <= t < |a.book| && a.book[t].status == Pending ==>
          a.book[t].id in a.live && a.live[a.book[t].id] == t)
  }

  function Close(a: Ledger, w: nat, status: Status): Ledger
    requires w in a.live ==> a.live[w] < |a.book|
  {
    if w !in a.live then a
    else a.(live := a.live - {w}, book := a.book[a.live[w] := a.book[a.live[w]].(status := status)])
  }

  function Enter(a: Ledger, w: nat, span: nat): Ledger {
    a.(live := a.live[w := |a.book|], book := a.book + [Record(w, a.now + span, a.now, Pending)])
  }

  ghost function LDo(a: Ledger, op: Op): (r: Ledger)
    requires Sound(a)
    ensures Sound(r) && r.now == a.now
  {
    match op
    case Book(w, span) => Enter(Close(a, w, Dropped), w, span)
    case Cancel(w) => Close(a, w, Dropped)
  }

  ghost function LDoAll(a: Ledger, ops: seq<Op>): (r: Ledger)
    requires Sound(a)
    ensures Sound(r) && r.now == a.now
    decreases ops
  {
    if ops == [] then a else LDoAll(LDo(a, ops[0]), ops[1..])
  }

  /** Deadline order, ties in booking order. */
  ghost predicate Sooner(a: Ledger, t: nat, u: nat)
    requires t < |a.book| && u < |a.book|
  {
    a.book[t].deadline < a.book[u].deadline || (a.book[t].deadline == a.book[u].deadline && t < u)
  }

  ghost function Due(a: Ledger): set<nat>
    requires Sound(a)
  {
    set w | w in a.live && a.book[a.live[w]].deadline <= a.now
  }

  ghost predicate IsNext(a: Ledger, w: nat)
    requires Sound(a)
  {
    w in Due(a) && forall v :: v in Due(a) && v != w ==> Sooner(a, a.live[w], a.live[v])
  }

  lemma {:induction false} NextUnique(a: Ledger, v: nat, w: nat)
    requires Sound(a) && IsNext(a, v) && IsNext(a, w)
    ensures v == w
  {
  }

  lemma {:induction false} NextExists(a: Ledger, s: set<nat>) returns (w: nat)
    requires Sound(a) && s <= Due(a) && s != {}
    ensures w in s && forall v :: v in s && v != w ==> Sooner(a, a.live[w], a.live[v])
    decreases |s|
  {
    w :| w in s;
    if s != {w} {
      var u := NextExists(a, s - {w});
      if Sooner(a, a.live[u], a.live[w]) { w := u; }
    }
  }

  ghost function Next(a: Ledger): (w: nat)
    requires Sound(a) && Due(a) != {}
    ensures IsNext(a, w)
  {
    assert exists w :: IsNext(a, w) by {
      var w := NextExists(a, Due(a));
      assert IsNext(a, w);
    }
    var w :| IsNext(a, w);
    w
  }

  ghost function LFire(a: Ledger, w: nat, prev: nat, ops: seq<Op>): (r: Ledger)
    requires Sound(a) && w in a.live
    ensures Sound(r) && r.now == a.now
  {
    LDoAll(Close(a, w, Fired(prev, a.now)).(log := a.log + [a.live[w]]), ops)
  }

  /** The reference drain. */
  ghost function LDrain(a: Ledger, prev: nat, script: seq<seq<Op>>): (r: Ledger)
    requires Sound(a) && ScriptAhead(script)
    ensures Sound(r) && r.now == a.now && Due(r) == {}
    decreases |Due(a)|
  {
    if Due(a) == {} then a
    else
      LFireShrinks(a, Next(a), prev, First(script));
      LDrain(LFire(a, Next(a), prev, First(script)), prev, Rest(script))
  }

  ghost function LElapsed(a: Ledger, n: nat, script: seq<seq<Op>>): (r: Ledger)
    requires Sound(a) && ScriptAhead(script)
    ensures Sound(r) && r.now == a.now + n
    ensures n > 0 ==> Due(r) == {}
  {
    if n == 0 then a else LDrain(a.(now := a.now + n), a.now, script)
  }

  lemma {:induction false} LDoAllDue(a: Ledger, ops: seq<Op>)
    requires Sound(a) && Ahead(ops)
    ensures Due(LDoAll(a, ops)) <= Due(a)
    decreases ops
  {
    if ops != [] {
      assert Due(LDo(a, ops[0])) <= Due(a);
      LDoAllDue(LDo(a, ops[0]), ops[1..]);
    }
  }

  lemma {:induction false} LFireShrinks(a: Ledger, w: nat, prev: nat, ops: seq<Op>)
    requires Sound(a) && w in Due(a) && Ahead(ops)
    ensures Due(LFire(a, w, prev, ops)) < Due(a)
    ensures |Due(LFire(a, w, prev, ops))| < |Due(a)|
  {
    var b := Close(a, w, Fired(prev, a.now)).(log := a.log + [a.live[w]]);
    LDoAllDue(b, ops);
    assert Due(b) <= Due(a) - {w};
    SmallerSet(Due(LFire(a, w, prev, ops)), Due(a), w);
  }

  lemma {:induction false} SmallerSet(s: set<nat>, t: set<nat>, w: nat)
    requires s <= t - {w} && w in t
    ensures |s| < |t|
    decreases s
  {
    if s != {} {
      var x :| x in s;
      SmallerSet(s - {x}, t - {x}, w);
    }
  }

  // ---- the wrapping kernel refines the ledger ----

  /** Waiter v fires before waiter w. */
  ghost predicate Ahead2(a: Ledger, v: nat, w: nat)
    requires Sound(a) && v in a.live && w in a.live
  {
    Sooner(a, a.live[v], a.live[w])
  }

  /** The queue holds the live waiters with their wrapped deadlines, ... */
  ghost predicate Holds(q: seq<Booking>, a: Ledger)
    requires Sound(a)
  {
    forall i :: 0 <= i < |q| ==>
      q[i].id in a.live && q[i].deadline == Wrap(a.book[a.live[q[i].id]].deadline)
  }

  /** ... in firing order, ... */
  ghost predicate InOrder(q: seq<Booking>, a: Ledger)
    requires Sound(a) && Holds(q, a)
  {
    forall i, j :: 0 <= i < j < |q| ==> Ahead2(a, q[i].id, q[j].id)
  }

  /** ... and all of them. */
  ghost predicate Covers(q: seq<Booking>, a: Ledger) {
    forall w :: w in a.live ==> Has(q, w)
  }

  ghost predicate Has(q: seq<Booking>, w: nat) {
    exists i :: 0 <= i < |q| && q[i].id == w
  }

  ghost predicate Matches(q: seq<Booking>, a: Ledger)
    requires Sound(a)
  {
    Holds(q, a) && InOrder(q, a) && Covers(q, a)
  }

  /** Every pending deadline lies in [lo, now + maxSpan]. */
  ghost predicate Within(a: Ledger, lo: nat, maxSpan: nat)
    requires Sound(a)
  {
    lo <= a.now && forall w :: w in a.live ==> lo <= a.book[a.live[w]].deadline <= a.now + maxSpan
  }

  ghost predicate Related(k: Kernel, a: Ledger, lo: nat, maxSpan: nat) {
    && Sound(a) && Within(a, lo, maxSpan)
    && k.clock == Wrap(a.now) && Matches(k.queue, a)
    && HalfRange(a.now - lo, maxSpan)
  }

  lemma {:induction false} CloseKeeps(a: Ledger, w: nat, status: Status)
    requires Sound(a) && status != Pending
    ensures Sound(Close(a, w, status))
    ensures forall v :: v in Close(a, w, status).live <==> v in a.live && v != w
    ensures forall v :: v in a.live && v != w ==>
              && Close(a, w, status).live[v] == a.live[v]
              && Close(a, w, status).book[a.live[v]] == a.book[a.live[v]]
  {
  }

  lemma {:induction false} DropMatches(q: seq<Booking>, a: Ledger, w: nat, status: Status)
    requires Sound(a) && Matches(q, a) && status != Pending
    ensures Sound(Close(a, w, status)) && Matches(Drop(q, Node(w)), Close(a, w, status))
    ensures Find(q, Node(w)) < |q| <==> w in a.live
  {
    var k := Find(q, Node(w));
    if k < |q| {
      assert Node(w)(q[k]);
      DropFound(q, a, w, status);
    } else {
      assert !Has(q, w) by {
        forall i | 0 <= i < |q| ensures q[i].id != w { assert !Node(w)(q[i]); }
      }
    }
  }

  /** A waiter is queued at most once. */
  lemma {:induction false} QueuedOnce(q: seq<Booking>, a: Ledger, i: nat, j: nat)
    requires Sound(a) && Holds(q, a) && InOrder(q, a) && i < |q| && j < |q| && i != j
    ensures q[i].id != q[j].id
  {
    var x, y := if i < j then i else j, if i < j then j else i;
    assert Ahead2(a, q[x].id, q[y].id);
  }

  lemma {:induction false} DropCuts(q: seq<Booking>, w: nat)
    requires Find(q, Node(w)) < |q|
    ensures Cut(q, Drop(q, Node(w)), Find(q, Node(w)))
  {
    DropShape(q, Node(w));
  }

  lemma {:induction false} DropFound(q: seq<Booking>, a: Ledger, w: nat, status: Status)
    requires Sound(a) && Matches(q, a) && status != Pending
    requires Find(q, Node(w)) < |q| && q[Find(q, Node(w))].id == w
    ensures Sound(Close(a, w, status)) && Matches(Drop(q, Node(w)), Close(a, w, status))
  {
    hide Find, Drop, InOrder, Covers, Close;
    var k := Find(q, Node(w));
    CloseKeeps(a, w, status);
    DropCuts(q, w);
    forall i | 0 <= i < |q| && i != k
      ensures q[i].id != w
    {
      QueuedOnce(q, a, i, k);
    }
    CutMatches(q, Drop(q, Node(w)), k, a, Close(a, w, status));
  }

  ghost predicate Cut(q: seq<Booking>, r: seq<Booking>, k: nat) {
    |r| + 1 == |q| && k < |q| && forall i :: 0 <= i < |r| ==> r[i] == q[if i < k then i else i + 1]
  }

  /** b agrees with a on the waiters it still has. */
  ghost predicate Restricts(a: Ledger, b: Ledger)
    requires Sound(a) && Sound(b)
  {
    forall v :: v in b.live ==> v in a.live && b.live[v] == a.live[v] && b.book[a.live[v]] == a.book[a.live[v]]
  }

  lemma {:induction false} CutMatches(q: seq<Booking>, r: seq<Booking>, k: nat, a: Ledger, b: Ledger)
    requires Sound(a) && Sound(b) && Matches(q, a) && Cut(q, r, k) && Restricts(a, b)
    requires forall i :: 0 <= i < |q| && i != k ==> q[i].id in b.live
    requires q[k].id !in b.live
    ensures Matches(r, b)
  {
    assert Holds(r, b);
    forall i, j | 0 <= i < j < |r|
      ensures Ahead2(b, r[i].id, r[j].id)
    {
      var i', j' := if i < k then i else i + 1, if j < k then j else j + 1;
      assert Ahead2(a, q[i'].id, q[j'].id);
    }
    forall v | v in b.live
      ensures Has(r, v)
    {
      assert Has(q, v);
      var i :| 0 <= i < |q| && q[i].id == v;
      assert r[if i < k then i else i - 1].id == v;
    }
  }

  lemma {:induction false} EnterKeeps(a: Ledger, w: nat, span: nat)
    requires Sound(a) && w !in a.live
    ensures
      var b := Enter(a, w, span);
      && Sound(b) && w in b.live && b.live[w] == |a.book| && b.book[|a.book|].deadline == a.now + span
      && (forall v :: v in b.live <==> v in a.live || v == w)
      && (forall v :: v in a.live ==> b.live[v] == a.live[v] && b.book[a.live[v]] == a.book[a.live[v]])
  {
  }

  /** Where the walk stops: everything before fires first, the rest after. */
  lemma {:induction false} SlotIsRight(q: seq<Booking>, a: Ledger, x: Booking, w: nat, span: Tick, lo: nat, maxSpan: nat)
    requires Sound(a) && Matches(q, a) && Within(a, lo, maxSpan) && w !in a.live
    requires span <= maxSpan && HalfRange(a.now - lo, maxSpan)
    requires x == Booking(w, Wrap(a.now + span))
    ensures
      var k := Slot(ByDeadline(), q, x);
      forall i :: 0 <= i < |q| ==>
        if i < k then a.book[a.live[q[i].id]].deadline <= a.now + span
        else a.now + span < a.book[a.live[q[i].id]].deadline
  {
    var k := Slot(ByDeadline(), q, x);
    forall i | 0 <= i < |q|
      ensures ByDeadline()(x, q[i]) <==> a.now + span < a.book[a.live[q[i].id]].deadline
    {
      DiffIsTrueIff(a.book[a.live[q[i].id]].deadline, a.now + span);
    }
    forall i | k < i < |q|
      ensures a.now + span < a.book[a.live[q[i].id]].deadline
    {
      assert Ahead2(a, q[k].id, q[i].id);
    }
  }

  ghost predicate Paste(q: seq<Booking>, r: seq<Booking>, k: nat, x: Booking) {
    && |r| == |q| + 1 && k <= |q| && r[k] == x
    && (forall i :: 0 <= i < k ==> r[i] == q[i])
    && (forall i :: k < i < |r| ==> r[i] == q[i - 1])
  }

  lemma {:induction false} PasteInOrder(q: seq<Booking>, r: seq<Booking>, k: nat, a: Ledger, b: Ledger, x: Booking)
    requires Sound(a) && Sound(b) && Holds(q, a) && InOrder(q, a) && Restricts(b, a) && x.id in b.live
    requires Paste(q, r, k, x) && x.deadline == Wrap(b.book[b.live[x.id]].deadline)
    requires forall i :: 0 <= i < |q| ==> if i < k then Ahead2(b, q[i].id, x.id) else Ahead2(b, x.id, q[i].id)
    ensures Holds(r, b) && InOrder(r, b)
  {
    assert Holds(r, b);
    forall i, j | 0 <= i < j < |r|
      ensures Ahead2(b, r[i].id, r[j].id)
    {
      var i', j' := if i < k then i else i - 1, if j < k then j else j - 1;
      if i != k && j != k {
        assert r[i] == q[i'] && r[j] == q[j'];
        assert Ahead2(a, q[i'].id, q[j'].id);
      }
    }
  }

  lemma {:induction false} InsertPastes(q: seq<Booking>, x: Booking)
    ensures Paste(q, Insert(ByDeadline(), q, x), Slot(ByDeadline(), q, x), x)
  {
    InsertShape(ByDeadline(), q, x);
  }

  lemma {:induction false} InsertCovers(q: seq<Booking>, x: Booking, w: nat)
    requires w == x.id || Has(q, w)
    ensures Has(Insert(ByDeadline(), q, x), w)
  {
    InsertPastes(q, x);
    hide Insert, Slot;
    var k, r := Slot(ByDeadline(), q, x), Insert(ByDeadline(), q, x);
    if w == x.id {
      assert r[k].id == w;
    } else {
      var i :| 0 <= i < |q| && q[i].id == w;
      assert r[if i < k then i else i + 1].id == w;
    }
  }

  lemma {:induction false} InsertMatches(q: seq<Booking>, a: Ledger, w: nat, span: Tick, lo: nat, maxSpan: nat)
    requires Sound(a) && Matches(q, a) && Within(a, lo, maxSpan) && w !in a.live
    requires span <= maxSpan && HalfRange(a.now - lo, maxSpan)
    ensures Sound(Enter(a, w, span)) && Within(Enter(a, w, span), lo, maxSpan)
    ensures Matches(Insert(ByDeadline(), q, Booking(w, Wrap(a.now + span))), Enter(a, w, span))
  {
    hide Insert, Slot, Enter, InOrder;
    var x, b := Booking(w, Wrap(a.now + span)), Enter(a, w, span);
    EnterKeeps(a, w, span);
    assert b.now == a.now by { EnterNow(a, w, span); }
    SlotIsRight(q, a, x, w, span, lo, maxSpan);
    InsertPastes(q, x);
    PasteInOrder(q, Insert(ByDeadline(), q, x), Slot(ByDeadline(), q, x), a, b, x);
    forall v | v in b.live
      ensures Has(Insert(ByDeadline(), q, x), v)
    {
      InsertCovers(q, x, v);
    }
  }

  lemma {:induction false} EnterNow(a: Ledger, w: nat, span: nat)
    ensures Enter(a, w, span).now == a.now
  {
  }

  lemma {:induction false} UpdateAlarmKeeps(k: Kernel)
    ensures UpdateAlarm(k).clock == k.clock && UpdateAlarm(k).queue == k.queue
  {
  }

  lemma {:induction false} CancelRelated(k: Kernel, a: Ledger, w: nat, lo: nat, maxSpan: nat)
    requires Related(k, a, lo, maxSpan)
    ensures Related(k.(queue := Drop(k.queue, Node(w))), Close(a, w, Dropped), lo, maxSpan)
    ensures CancelBooking(k, w).1 <==> w in a.live
  {
    DropMatches(k.queue, a, w, Dropped);
    CloseKeeps(a, w, Dropped);
  }

  lemma {:induction false} BookRelated(k: Kernel, a: Ledger, w: nat, span: Tick, lo: nat, maxSpan: nat)
    requires Related(k, a, lo, maxSpan) && w !in a.live && span <= maxSpan
    ensures Related(k.(queue := Insert(ByDeadline(), k.queue, Booking(w, Plus(k.clock, span)))),
                    Enter(a, w, span), lo, maxSpan)
  {
    PlusIsTrue(a.now, span);
    InsertMatches(k.queue, a, w, span, lo, maxSpan);
  }

  lemma {:induction false} DoRelated(k: Kernel, a: Ledger, op: Op, lo: nat, maxSpan: nat)
    requires Related(k, a, lo, maxSpan) && (op.Book? ==> op.span <= maxSpan)
    ensures Related(Do(k, op), LDo(a, op), lo, maxSpan)
  {
    var w := op.w;
    CancelRelated(k, a, w, lo, maxSpan);
    var k1, b := k.(queue := Drop(k.queue, Node(w))), Close(a, w, Dropped);
    match op {
      case Book(_, span) =>
        CloseKeeps(a, w, Dropped);
        BookRelated(k1, b, w, span, lo, maxSpan);
        AlarmRelated(k1.(queue := Insert(ByDeadline(), k1.queue, Booking(w, Plus(k.clock, span)))),
                     Enter(b, w, span), lo, maxSpan);
      case Cancel(_) =>
        AlarmRelated(k1, b, lo, maxSpan);
    }
  }

  lemma {:induction false} AlarmRelated(k: Kernel, a: Ledger, lo: nat, maxSpan: nat)
    requires Related(k, a, lo, maxSpan)
    ensures Related(UpdateAlarm(k), a, lo, maxSpan)
  {
    UpdateAlarmKeeps(k);
  }

  predicate SpansUpTo(ops: seq<Op>, maxSpan: nat) {
    forall i :: 0 <= i < |ops| && ops[i].Book? ==> ops[i].span <= maxSpan
  }

  predicate ScriptUpTo(script: seq<seq<Op>>, maxSpan: nat) {
    forall i :: 0 <= i < |script| ==> SpansUpTo(script[i], maxSpan)
  }

  lemma {:induction false} DoAllRelated(k: Kernel, a: Ledger, ops: seq<Op>, lo: nat, maxSpan: nat)
    requires Related(k, a, lo, maxSpan) && SpansUpTo(ops, maxSpan)
    ensures Related(DoAll(k, ops), LDoAll(a, ops), lo, maxSpan)
    decreases ops
  {
    if ops != [] {
      DoRelated(k, a, ops[0], lo, maxSpan);
      DoAllRelated(Do(k, ops[0]), LDo(a, ops[0]), ops[1..], lo, maxSpan);
    }
  }

  /** The head is due exactly when something is, and then it is the next to fire. */
  lemma {:induction false} HeadIsNext(k: Kernel, a: Ledger, lo: nat, maxSpan: nat)
    requires Related(k, a, lo, maxSpan)
    ensures HeadDue(k) <==> Due(a) != {}
    ensures HeadDue(k) ==> IsNext(a, k.queue[0].id)
  {
    if k.queue != [] {
      var h := k.queue[0].id;
      DiffIsTrueIff(a.now, a.book[a.live[h]].deadline);
      assert HeadDue(k) <==> a.book[a.live[h]].deadline <= a.now;
      forall v | v in a.live && v != h
        ensures Sooner(a, a.live[h], a.live[v])
      {
        assert Has(k.queue, v);
        var i :| 0 <= i < |k.queue| && k.queue[i].id == v;
        assert Ahead2(a, k.queue[0].id, k.queue[i].id);
      }
      assert HeadDue(k) ==> h in Due(a);
    }
  }

  lemma {:induction false} FireRelated(k: Kernel, a: Ledger, prev: nat, ops: seq<Op>, lo: nat, maxSpan: nat)
    requires Related(k, a, lo, maxSpan) && HeadDue(k) && SpansUpTo(ops, maxSpan)
    ensures Due(a) != {} && Next(a) == k.queue[0].id
    ensures Related(Fire(k, ops), LFire(a, Next(a), prev, ops), lo, maxSpan)
  {
    HeadIsNext(k, a, lo, maxSpan);
    var h := k.queue[0].id;
    NextUnique(a, Next(a), h);
    PopRelated(k, a, prev, lo, maxSpan);
    var b := Close(a, h, Fired(prev, a.now)).(log := a.log + [a.live[h]]);
    DoAllRelated(k.(queue := k.queue[1..]), b, ops, lo, maxSpan);
  }

  lemma {:induction false} PopRelated(k: Kernel, a: Ledger, prev: nat, lo: nat, maxSpan: nat)
    requires Related(k, a, lo, maxSpan) && k.queue != []
    ensures
      var h := k.queue[0].id;
      && h in a.live
      && Related(k.(queue := k.queue[1..]),
                 Close(a, h, Fired(prev, a.now)).(log := a.log + [a.live[h]]), lo, maxSpan)
  {
    var h := k.queue[0].id;
    assert Node(h)(k.queue[0]);
    assert Drop(k.queue, Node(h)) == k.queue[1..];
    DropMatches(k.queue, a, h, Fired(prev, a.now));
    CloseKeeps(a, h, Fired(prev, a.now));
    var b, c := Close(a, h, Fired(prev, a.now)), Close(a, h, Fired(prev, a.now)).(log := a.log + [a.live[h]]);
    assert InOrder(k.queue[1..], c) by {
      forall i, j | 0 <= i < j < |k.queue[1..]|
        ensures Ahead2(c, k.queue[1..][i].id, k.queue[1..][j].id)
      {
        assert Ahead2(b, k.queue[1..][i].id, k.queue[1..][j].id);
      }
    }
  }

  // ---- fates are final ----

  /** Bookings are never forgotten or rewritten, and a settled fate stays. */
  ghost predicate Extends(a: Ledger, b: Ledger) {
    && |a.book| <= |b.book|
    && (forall t :: 0 <= t < |a.book| ==>
          && b.book[t] == a.book[t].(status := b.book[t].status)
          && (a.book[t].status != Pending ==> b.book[t].status == a.book[t].status))
    && |a.log| <= |b.log| && b.log[..|a.log|] == a.log
  }

  lemma {:induction false} ExtendsTrans(a: Ledger, b: Ledger, c: Ledger)
    requires Extends(a, b) && Extends(b, c)
    ensures Extends(a, c)
  {
    assert c.log[..|a.log|] == b.log[..|a.log|];
  }

  lemma {:induction false} LDoExtends(a: Ledger, op: Op)
    requires Sound(a)
    ensures Extends(a, LDo(a, op)) && LDo(a, op).log == a.log
  {
  }

  lemma {:induction false} LDoAllExtends(a: Ledger, ops: seq<Op>)
    requires Sound(a)
    ensures Extends(a, LDoAll(a, ops)) && LDoAll(a, ops).log == a.log
    decreases ops
  {
    if ops != [] {
      LDoExtends(a, ops[0]);
      LDoAllExtends(LDo(a, ops[0]), ops[1..]);
      ExtendsTrans(a, LDo(a, ops[0]), LDoAll(a, ops));
    }
  }

  lemma {:induction false} LFireExtends(a: Ledger, w: nat, prev: nat, ops: seq<Op>)
    requires Sound(a) && w in a.live
    ensures Extends(a, LFire(a, w, prev, ops))
    ensures LFire(a, w, prev, ops).log == a.log + [a.live[w]]
    ensures a.live[w] < |LFire(a, w, prev, ops).book| && LFire(a, w, prev, ops).book[a.live[w]].status == Fired(prev, a.now)
  {
    var b := Close(a, w, Fired(prev, a.now)).(log := a.log + [a.live[w]]);
    LDoAllExtends(b, ops);
    assert Extends(a, b);
    ExtendsTrans(a, b, LFire(a, w, prev, ops));
  }

  lemma {:induction false} LDrainExtends(a: Ledger, prev: nat, script: seq<seq<Op>>)
    requires Sound(a) && ScriptAhead(script)
    ensures Extends(a, LDrain(a, prev, script))
    decreases |Due(a)|
  {
    if Due(a) != {} {
      var w := Next(a);
      var b := LFire(a, w, prev, First(script));
      LFireShrinks(a, w, prev, First(script));
      LFireExtends(a, w, prev, First(script));
      LDrainExtends(b, prev, Rest(script));
      ExtendsTrans(a, b, LDrain(b, prev, Rest(script)));
    }
  }

  // ---- the drain, in lock step ----

  /** Past its first n entries the log lists exactly the waiters in `fired`. */
  ghost predicate LogGrewBy(n: nat, b: Ledger, fired: seq<nat>) {
    && |b.log| == n + |fired|
    && (forall i :: n <= i < |b.log| ==> b.log[i] < |b.book| && b.book[b.log[i]].id == fired[i - n])
  }

  lemma {:induction false} DrainRelated(k: Kernel, a: Ledger, prev: nat, script: seq<seq<Op>>, lo: nat, maxSpan: nat)
    requires Sound(a)
    requires Related(k, a, lo, maxSpan) && ScriptAhead(script) && ScriptUpTo(script, maxSpan)
    ensures Related(Drain(k, script).0, LDrain(a, prev, script), lo, maxSpan)
    ensures LogGrewBy(|a.log|, LDrain(a, prev, script), Drain(k, script).1)
    decreases |Due(a)|
  {
    hide Related, Sound, LFire, Fire, Extends;
    HeadIsNext(k, a, lo, maxSpan);
    if HeadDue(k) {
      var ops := First(script);
      var w := Next(a);
      FireShrinks(k, ops);
      FireRelated(k, a, prev, ops, lo, maxSpan);
      LFireShrinks(a, w, prev, ops);
      LFireExtends(a, w, prev, ops);
      var k1, b := Fire(k, ops), LFire(a, w, prev, ops);
      DrainRelated(k1, b, prev, Rest(script), lo, maxSpan);
      var r := LDrain(b, prev, Rest(script));
      LDrainExtends(b, prev, Rest(script));
      LogConcat(a, b, r, w, Drain(k1, Rest(script)).1);
    }
  }

  lemma {:induction false} LogConcat(a: Ledger, b: Ledger, r: Ledger, w: nat, fired: seq<nat>)
    requires Sound(a) && w in a.live && b.log == a.log + [a.live[w]]
    requires Extends(a, b) && Extends(b, r) && LogGrewBy(|b.log|, r, fired)
    ensures LogGrewBy(|a.log|, r, [w] + fired)
  {
    var n := |a.log|;
    assert r.log[n] == r.log[..|b.log|][n] == a.live[w];
    forall i | n <= i < |r.log|
      ensures r.log[i] < |r.book| && r.book[r.log[i]].id == ([w] + fired)[i - n]
    {
    }
  }

  /** Between steps nothing is overdue: the lower bound of deadlines is now. */
  ghost predicate Aligned(k: Kernel, a: Ledger, maxSpan: nat) {
    Related(k, a, a.now, maxSpan)
  }

  /** One elapsed step of the wrapping kernel fires the very waiters, in the very
  order, that the unbounded ledger fires, whatever the callbacks book or cancel
  meanwhile, as long as step plus span stays below 2^31. */
  lemma {:induction false} OnElapsedRefines(k: Kernel, a: Ledger, n: Tick, script: seq<seq<Op>>, maxSpan: nat)
    requires Sound(a) && Aligned(k, a, maxSpan) && HalfRange(n, maxSpan)
    requires ScriptAhead(script) && ScriptUpTo(script, maxSpan)
    ensures Aligned(OnElapsed(k, n, script).0, LElapsed(a, n, script), maxSpan)
    ensures LogGrewBy(|a.log|, LElapsed(a, n, script), OnElapsed(k, n, script).1)
  {
    if n > 0 {
      hide Related, Drain, LDrain, UpdateAlarm;
      var k1, b := Advance(k, n), a.(now := a.now + n);
      AdvanceRelated(k, a, n, maxSpan);
      DrainRelated(k1, b, a.now, script, a.now, maxSpan);
      var k2, r := Drain(k1, script).0, LDrain(b, a.now, script);
      AlarmRelated(k2, r, a.now, maxSpan);
      NothingDueAligned(UpdateAlarm(k2), r, a.now, maxSpan);
    }
  }

  lemma {:induction false} NothingDueAligned(k: Kernel, a: Ledger, lo: nat, maxSpan: nat)
    requires Related(k, a, lo, maxSpan) && Due(a) == {}
    ensures Aligned(k, a, maxSpan)
  {
    forall w | w in a.live
      ensures a.now <= a.book[a.live[w]].deadline
    {
      assert w !in Due(a);
    }
  }

  lemma {:induction false} AdvanceRelated(k: Kernel, a: Ledger, n: Tick, maxSpan: nat)
    requires Aligned(k, a, maxSpan) && HalfRange(n, maxSpan)
    ensures Related(Advance(k, n), a.(now := a.now + n), a.now, maxSpan)
  {
    PlusIsTrue(a.now, n);
    var b := a.(now := a.now + n);
    assert InOrder(k.queue, b) by {
      forall i, j | 0 <= i < j < |k.queue|
        ensures Ahead2(b, k.queue[i].id, k.queue[j].id)
      {
        assert Ahead2(a, k.queue[i].id, k.queue[j].id);
      }
    }
  }

  // ---- the bound is exact ----

  /** Exactly when the walk takes a booking made now for earlier than an overdue one. */
  lemma {:induction false} MisorderedIff(d: nat, now: nat, span: Tick)
    requires d <= now && now - d < HALF && 0 < span < HALF
    ensures Earlier(Plus(Wrap(now), span), Wrap(d)) <==> (now - d) + span > HALF
  {
    PlusIsTrue(now, span);
    hide Wrap, Diff;
    if (now - d) + span > HALF { DiffBehind(d, now + span); } else { DiffIsTrueIff(d, now + span); }
  }
}
