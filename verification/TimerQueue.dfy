/** The deadline queue on the heap: waiter nodes in an intrusive list ordered by
deadline. Its contents are the sequence that `TimeKernelSpec` calls the queue, and
its operations are the ones the kernel uses on it. */
module TimerQueues {
  import opened Lists
  import opened Ticks
  import opened TimeKernelSpec
  import opened SelfLists

  /** A waiter is a node that carries its name and its deadline. */
  type Waiter = SelfLists.Node<Booking>

  ghost predicate Named(nodes: seq<Waiter>)
    reads nodes`data
  {
    forall i, j :: 0 <= i < j < |nodes| ==> nodes[i].data.id != nodes[j].data.id
  }

  lemma {:induction false} FindAlike(nodes: seq<Waiter>, w: Waiter)
    requires forall x :: x in nodes && x.data.id == w.data.id ==> x == w
    ensures Find(Values(nodes), TimeKernelSpec.Node(w.data.id)) == Find(nodes, Is(w))
  {
    var k, hit := Find(nodes, Is(w)), TimeKernelSpec.Node(w.data.id);
    forall i | 0 <= i < |nodes|
      ensures hit(Values(nodes)[i]) <==> Is(w)(nodes[i])
    {
      assert nodes[i] in nodes;
    }
    assert Find(Values(nodes), hit) == k;
  }

  lemma {:induction false} DropAlike(nodes: seq<Waiter>, w: Waiter)
    requires forall x :: x in nodes && x.data.id == w.data.id ==> x == w
    ensures Values(Drop(nodes, Is(w))) == Drop(Values(nodes), TimeKernelSpec.Node(w.data.id))
  {
    FindAlike(nodes, w);
    var k := Find(nodes, Is(w));
    if k < |nodes| { CutValues(nodes, k); }
  }

  lemma {:induction false} CutValues(nodes: seq<Waiter>, k: nat)
    requires k < |nodes|
    ensures Values(nodes[..k] + nodes[k + 1..]) == Values(nodes)[..k] + Values(nodes)[k + 1..]
  {
  }

  class TimerQueue {
    const list: SelfList<Booking>

    ghost predicate Valid()
      reads list, list.nodes
    {
      list.Valid() && list.less == ByDeadline() && Named(list.nodes)
    }

    ghost function Contents(): seq<Booking>
      reads list, list.nodes
    {
      Values(list.nodes)
    }

    constructor ()
      ensures Valid() && Contents() == [] && fresh(list)
    {
      list := new SelfList<Booking>(ByDeadline());
    }

    method Insert(w: Waiter)
      requires Valid() && forall x :: x in list.nodes ==> x.data.id != w.data.id
      modifies list, list.nodes`next, w`next
      ensures Valid() && (forall x :: x in list.nodes <==> x in old(list.nodes) || x == w)
      ensures Contents() == Lists.Insert(ByDeadline(), old(Contents()), w.data)
    {
      hide Values, Linked, Slot, Lists.Insert, Named;
      ghost var was := list.nodes;
      ghost var k := Slot(ByDeadline(), Values(was), w.data);
      assert k <= |was| by { SlotFits(was, w.data); }
      NamedPaste(was, w, k);
      list.Insert(w);
    }

    /** Removal by identity is removal by name, because every waiter has its own. */
    method Remove(w: Waiter) returns (found: bool)
      requires Valid() && forall x :: x in list.nodes && x.data.id == w.data.id ==> x == w
      modifies list, list.nodes`next
      ensures Valid() && w !in list.nodes && (forall x :: x in list.nodes ==> x in old(list.nodes) && x != w)
      ensures Contents() == Drop(old(Contents()), TimeKernelSpec.Node(w.data.id))
      ensures found <==> Find(old(Contents()), TimeKernelSpec.Node(w.data.id)) < |old(Contents())|
    {
      hide Linked, Values, Named;
      ghost var was := list.nodes;
      FindAlike(was, w);
      DropAlike(was, w);
      NamedCut(was, w);
      assert w in was <==> Find(was, Is(w)) < |was| by { FoundIff(was, w); }
      hide Drop, Find;
      found := list.Remove(w);
    }

    method Head() returns (h: Option<Booking>)
      requires Valid()
      ensures h == if Contents() == [] then None else Some(Contents()[0])
    {
      h := if list.head == null then None else Some(list.head.data);
    }

    /** Pops the head if its deadline has been reached. */
    method PopDue(now: Tick) returns (due: SelfLists.Node?<Booking>)
      requires Valid()
      modifies list, list.nodes`next
      ensures Valid()
      ensures due != null <==> old(Contents()) != [] && IsDue(old(Contents())[0].deadline, now)
      ensures due != null ==> due.data == old(Contents())[0] && due !in list.nodes && Contents() == old(Contents())[1..]
      ensures due == null ==> Contents() == old(Contents())
    {
      hide Linked, Values, Named, IsDue;
      HeadIsFirst(list.head, list.tail, list.nodes);
      due := null;
      if list.head != null && IsDue(list.head.data.deadline, now) {
        PopAlike(list.nodes);
        due := list.PopHead();
      }
    }

    /** The queue's part of a booking: out, new deadline, in. */
    method Rebook(w: Waiter, deadline: Tick)
      requires Valid() && forall x :: x in list.nodes && x.data.id == w.data.id ==> x == w
      modifies list, list.nodes, w
      ensures Valid() && w.data == Booking(old(w.data).id, deadline)
      ensures Contents() == Lists.Insert(ByDeadline(), Drop(old(Contents()), TimeKernelSpec.Node(old(w.data).id)), w.data)
    {
      hide Lists.Insert, Drop, Linked, Values, Named;
      var _ := Remove(w);
      w.data := Booking(w.data.id, deadline);
      assert forall i :: 0 <= i < |list.nodes| ==> list.nodes[i] in old(list.nodes) by {
        forall i | 0 <= i < |list.nodes| ensures list.nodes[i] in old(list.nodes) { assert list.nodes[i] in list.nodes; }
      }
      Insert(w);
    }
  }

  lemma {:induction false} HeadIsFirst(head: SelfLists.Node?<Booking>, tail: SelfLists.Node?<Booking>, nodes: seq<Waiter>)
    requires Linked(head, tail, nodes)
    ensures NoDup(nodes) && (head == null <==> nodes == []) && |Values(nodes)| == |nodes|
    ensures nodes != [] ==> head == nodes[0] && Values(nodes)[0] == nodes[0].data
  {
  }

  lemma {:induction false} PopAlike(nodes: seq<Waiter>)
    requires nodes != [] && Named(nodes) && NoDup(nodes)
    ensures Named(nodes[1..]) && nodes[0] !in nodes[1..] && Values(nodes[1..]) == Values(nodes)[1..]
  {
  }

  lemma {:induction false} SlotFits(nodes: seq<Waiter>, b: Booking)
    ensures Slot(ByDeadline(), Values(nodes), b) <= |nodes|
  {
  }

  lemma {:induction false} FoundIff(nodes: seq<Waiter>, w: Waiter)
    ensures w in nodes <==> Find(nodes, Is(w)) < |nodes|
  {
  }

  lemma {:induction false} NamedPaste(was: seq<Waiter>, w: Waiter, k: nat)
    requires Named(was) && k <= |was| && forall x :: x in was ==> x.data.id != w.data.id
    ensures Named(was[..k] + [w] + was[k..])
    ensures forall x :: x in was[..k] + [w] + was[k..] <==> x in was || x == w
  {
    assert was == was[..k] + was[k..];
  }

  lemma {:induction false} NamedCut(was: seq<Waiter>, w: Waiter)
    requires Named(was)
    ensures Named(Drop(was, Is(w))) && forall x :: x in Drop(was, Is(w)) ==> x in was && x != w
  {
    var k := Find(was, Is(w));
    if k < |was| {
      assert Is(w)(was[k]);
      assert was == was[..k] + [w] + was[k + 1..];
    }
  }
}
