/** The intrusive list on the heap: nodes that carry their own link, a head and a
tail pointer. Its ghost view is the sequence of nodes from head to tail, and its
operations are proved to be the sequence operations of `Lists`. */
module SelfLists {
  import opened Lists

  class Node<T> {
    var next: Node?<T>
    var data: T

    constructor (data: T)
      ensures next == null && this.data == data
    {
      this.data := data;
      next := null;
    }
  }

  /** The chain from head to tail visits exactly s, each node once, and ends. */
  ghost predicate Linked<T>(head: Node?<T>, tail: Node?<T>, s: seq<Node<T>>)
    reads s`next
  {
    && NoDup(s)
    && (if s == [] then head == null && tail == null
        else head == s[0] && tail == s[|s| - 1] && s[|s| - 1].next == null)
    && (forall i :: 0 <= i < |s| - 1 ==> s[i].next == s[i + 1])
  }

  function Values<T>(s: seq<Node<T>>): (r: seq<T>)
    reads s`data
    ensures |r| == |s| && forall i :: 0 <= i < |s| ==> r[i] == s[i].data
  {
    if s == [] then [] else [s[0].data] + Values(s[1..])
  }

  lemma {:induction false} SlotIs<T>(less: (T, T) -> bool, s: seq<T>, x: T, k: nat)
    requires k <= |s| && (forall i :: 0 <= i < k ==> !less(x, s[i])) && (k < |s| ==> less(x, s[k]))
    ensures Slot(less, s, x) == k
  {
  }

  class SelfList<T> {
    const less: (T, T) -> bool
    var head: Node?<T>
    var tail: Node?<T>
    ghost var nodes: seq<Node<T>>

    ghost predicate Valid()
      reads this, nodes
    {
      Linked(head, tail, nodes)
    }

    constructor (less: (T, T) -> bool)
      ensures Valid() && nodes == [] && this.less == less
    {
      this.less := less;
      head, tail, nodes := null, null, [];
    }

    /** The walk: the node before the slot (null for the head itself), the node in
    the slot, and the slot's place in the list. */
    method Walk(n: Node<T>) returns (prev: Node?<T>, cur: Node?<T>, ghost k: nat)
      requires Valid()
      ensures k == Slot(less, Values(nodes), n.data) <= |nodes|
      ensures prev == if k == 0 then null else nodes[k - 1]
      ensures cur == if k < |nodes| then nodes[k] else null
    {
      prev, cur, k := null, head, 0;
      while cur != null && !less(n.data, cur.data)
        invariant k <= |nodes|
        invariant prev == if k == 0 then null else nodes[k - 1]
        invariant cur == if k < |nodes| then nodes[k] else null
        invariant forall i :: 0 <= i < k ==> !less(n.data, Values(nodes)[i])
        decreases |nodes| - k
      {
        prev := cur;
        cur := cur.next;
        k := k + 1;
      }
      SlotIs(less, Values(nodes), n.data, k);
    }

    /** Stable sorted insertion of a node that is not linked. */
    method Insert(n: Node<T>)
      requires Valid() && n !in nodes
      modifies this`head, this`tail, this`nodes, nodes`next, n`next
      ensures Valid()
      ensures
        var k := Slot(less, old(Values(nodes)), n.data);
        nodes == old(nodes)[..k] + [n] + old(nodes)[k..]
      ensures Values(nodes) == Lists.Insert(less, old(Values(nodes)), n.data)
    {
      hide Linked, Values, Slot;
      ghost var was, values := nodes, Values(nodes);
      var prev, cur, k := Walk(n);
      Hook(n, prev, cur, k);
      PasteValues(was, n, k);
      InsertAt(less, values, n.data, k);
    }

    /** Writes the slot: the link of `prev`, or the head. */
    method Hook(n: Node<T>, prev: Node?<T>, cur: Node?<T>, ghost k: nat)
      requires Valid() && n !in nodes && k <= |nodes|
      requires prev == if k == 0 then null else nodes[k - 1]
      requires cur == if k < |nodes| then nodes[k] else null
      modifies this`head, this`tail, this`nodes, nodes`next, n`next
      ensures Valid() && nodes == old(nodes)[..k] + [n] + old(nodes)[k..]
    {
      n.next := cur;
      if prev == null {
        head := n;
      } else {
        prev.next := n;
      }
      if n.next == null {
        tail := n;
      }
      PasteLinked(head, tail, nodes, n, k);
      nodes := nodes[..k] + [n] + nodes[k..];
    }

    method PushBack(n: Node<T>)
      requires Valid() && n !in nodes
      modifies this`head, this`tail, this`nodes, nodes`next, n`next
      ensures Valid() && nodes == old(nodes) + [n]
    {
      n.next := null;
      if tail == null {
        head := n;
      } else {
        tail.next := n;
      }
      tail := n;
      nodes := nodes + [n];
    }

    method PushFront(n: Node<T>)
      requires Valid() && n !in nodes
      modifies this`head, this`tail, this`nodes, n`next
      ensures Valid() && nodes == [n] + old(nodes)
    {
      n.next := head;
      head := n;
      if tail == null {
        tail := n;
      }
      nodes := [n] + nodes;
    }

    /** The popped node is detached; every other node keeps its link. */
    method PopHead() returns (out: Node?<T>)
      requires Valid()
      modifies this`head, this`tail, this`nodes, nodes`next
      ensures Valid()
      ensures old(nodes) == [] ==> out == null && nodes == []
      ensures old(nodes) != [] ==> out == old(nodes)[0] && nodes == old(nodes)[1..] && out.next == null
      ensures forall x :: x in nodes ==> x.next == old(x.next)
    {
      out := head;
      if out != null {
        head := out.next;
        if head == null {
          tail := null;
        }
        out.next := null;
        nodes := nodes[1..];
      }
    }

    /** Removal by identity. A node that is not in the list is left alone. */
    method Remove(w: Node<T>) returns (found: bool)
      requires Valid()
      modifies this`head, this`tail, this`nodes, nodes`next
      ensures Valid() && (found <==> w in old(nodes)) && nodes == Drop(old(nodes), Is(w))
      ensures found ==> w.next == null && w !in nodes
    {
      var prev: Node?<T>, cur := null, head;
      ghost var k := 0;
      found := false;
      while cur != null && cur != w
        invariant k <= |nodes|
        invariant prev == if k == 0 then null else nodes[k - 1]
        invariant cur == if k < |nodes| then nodes[k] else null
        invariant forall i :: 0 <= i < k ==> nodes[i] != w
        decreases |nodes| - k
      {
        prev := cur;
        cur := cur.next;
        k := k + 1;
      }
      FindIs(nodes, w, k);
      if cur != null {
        found := true;
        Unhook(w, prev, k);
      }
    }

    method Unhook(w: Node<T>, prev: Node?<T>, ghost k: nat)
      requires Valid() && k < |nodes| && nodes[k] == w
      requires prev == if k == 0 then null else nodes[k - 1]
      modifies this`head, this`tail, this`nodes, nodes`next
      ensures Valid() && nodes == old(nodes)[..k] + old(nodes)[k + 1..]
      ensures w.next == null && w !in nodes
    {
      if prev == null {
        head := w.next;
      } else {
        prev.next := w.next;
      }
      if w == tail {
        tail := prev;
      }
      w.next := null;
      CutLinked(head, tail, nodes, k);
      nodes := nodes[..k] + nodes[k + 1..];
    }

    method Empty() returns (empty: bool)
      requires Valid()
      ensures empty <==> nodes == []
    {
      empty := head == null;
    }

    /** What the code does when the node is linked already, for any order in which
    the node does not go before itself: no chain through all the nodes remains. */
    method InsertLinked(n: Node<T>)
      requires Valid() && n in nodes && !less(n.data, n.data)
      modifies this`head, this`tail, nodes`next
      ensures forall s: seq<Node<T>> :: Linked(head, tail, s) ==> exists x :: x in nodes && x !in s
    {
      hide Linked, Values;
      var prev, cur, k := Walk(n);
      ghost var i :| 0 <= i < |nodes| && nodes[i] == n;
      assert k != i;
      HookLinked(n, prev, cur, i, k);
      forall s: seq<Node<T>> | Linked(head, tail, s)
        ensures exists x :: x in nodes && x !in s
      {
        BrokenChain(head, tail, nodes, i, k, s);
      }
    }

    /** The same writes as `Hook`, for a node that sits at place i. */
    method HookLinked(n: Node<T>, prev: Node?<T>, cur: Node?<T>, ghost i: nat, ghost k: nat)
      requires Valid() && i < |nodes| && nodes[i] == n && k <= |nodes| && k != i
      requires prev == if k == 0 then null else nodes[k - 1]
      requires cur == if k < |nodes| then nodes[k] else null
      modifies this`head, this`tail, nodes`next
      ensures Relinked(head, nodes, i, k)
    {
      n.next := cur;
      if prev == null {
        head := n;
      } else {
        prev.next := n;
      }
      if n.next == null {
        tail := n;
      }
    }
  }

  /** The links after the node at place i was inserted again at place k: what comes
  after it there, and the node before that place points to it. */
  ghost predicate Relinked<T>(head: Node?<T>, nodes: seq<Node<T>>, i: nat, k: nat)
    requires i < |nodes| && k <= |nodes|
    reads nodes`next
  {
    && NoDup(nodes) && head == (if k == 0 then nodes[i] else nodes[0])
    && (k > 0 ==> nodes[k - 1].next == nodes[i])
    && (k != i + 1 ==> nodes[i].next == if k < |nodes| then nodes[k] else null)
    && (forall j :: 0 <= j < |nodes| - 1 && j != i && j != k - 1 ==> nodes[j].next == nodes[j + 1])
    && (i != |nodes| - 1 && k != |nodes| ==> nodes[|nodes| - 1].next == null)
  }

  lemma {:induction false} InsertAt<T>(less: (T, T) -> bool, s: seq<T>, x: T, k: nat)
    requires k == Slot(less, s, x) <= |s|
    ensures Lists.Insert(less, s, x) == s[..k] + [x] + s[k..]
  {
  }

  /** The links after n was hooked in at place k. */
  lemma {:induction false} PasteLinked<T>(head: Node?<T>, tail: Node?<T>, was: seq<Node<T>>, n: Node<T>, k: nat)
    requires k <= |was| && NoDup(was) && n !in was
    requires head == (if k == 0 then n else was[0])
    requires tail == (if k == |was| then n else was[|was| - 1])
    requires n.next == if k < |was| then was[k] else null
    requires k > 0 ==> was[k - 1].next == n
    requires forall i :: 0 <= i < |was| - 1 && i + 1 != k ==> was[i].next == was[i + 1]
    requires k < |was| ==> was[|was| - 1].next == null
    ensures Linked(head, tail, was[..k] + [n] + was[k..])
  {
    var s := was[..k] + [n] + was[k..];
    assert forall i :: 0 <= i < k ==> s[i] == was[i];
    assert forall i :: k < i < |s| ==> s[i] == was[i - 1];
    assert NoDup(s);
    forall i | 0 <= i < |s| - 1
      ensures s[i].next == s[i + 1]
    {
      if i > k { assert was[i - 1].next == was[i - 1 + 1]; }
    }
  }

  lemma {:induction false} PasteValues<T>(was: seq<Node<T>>, n: Node<T>, k: nat)
    requires k <= |was|
    ensures Values(was[..k] + [n] + was[k..]) == Values(was)[..k] + [n.data] + Values(was)[k..]
  {
  }

  /** The links after the node at place k was unhooked. */
  lemma {:induction false} CutLinked<T>(head: Node?<T>, tail: Node?<T>, was: seq<Node<T>>, k: nat)
    requires k < |was| && NoDup(was)
    requires head == if k > 0 then was[0] else if |was| > 1 then was[1] else null
    requires tail == if k < |was| - 1 then was[|was| - 1] else if k > 0 then was[k - 1] else null
    requires k > 0 ==> was[k - 1].next == if k + 1 < |was| then was[k + 1] else null
    requires forall i :: 0 <= i < |was| - 1 && i != k && i + 1 != k ==> was[i].next == was[i + 1]
    requires k < |was| - 1 ==> was[|was| - 1].next == null
    ensures Linked(head, tail, was[..k] + was[k + 1..])
  {
    var s := was[..k] + was[k + 1..];
    assert forall i :: 0 <= i < k ==> s[i] == was[i];
    assert forall i :: k <= i < |s| ==> s[i] == was[i + 1];
    assert NoDup(s);
    forall i | 0 <= i < |s| - 1
      ensures s[i].next == s[i + 1]
    {
      if i + 1 < k { assert was[i].next == was[i + 1]; }
      if i >= k { assert was[i + 1].next == was[i + 1 + 1]; }
    }
  }

  lemma {:induction false} FindIs<T>(s: seq<Node<T>>, w: Node<T>, k: nat)
    requires k <= |s| && (forall i :: 0 <= i < k ==> s[i] != w) && (k < |s| ==> s[k] == w)
    ensures Find(s, Is(w)) == k && (w in s <==> k < |s|)
  {
  }

  /** A way along the links, from the head. */
  ghost predicate Path<T>(head: Node?<T>, p: seq<Node<T>>)
    reads p`next
  {
    p != [] && head == p[0] && forall j :: 0 <= j < |p| - 1 ==> p[j].next == p[j + 1]
  }

  /** Every chain starts with every path. */
  lemma {:induction false} ChainFollows<T>(head: Node?<T>, tail: Node?<T>, s: seq<Node<T>>, p: seq<Node<T>>, j: nat)
    requires Linked(head, tail, s) && Path(head, p) && j < |p|
    ensures j < |s| && s[j] == p[j]
  {
    if j > 0 {
      ChainFollows(head, tail, s, p, j - 1);
      assert p[j - 1].next == p[j - 1 + 1];
    }
  }

  /** A path that meets a node twice rules out every chain. */
  lemma {:induction false} LoopIsNoChain<T>(head: Node?<T>, tail: Node?<T>, s: seq<Node<T>>, p: seq<Node<T>>, a: nat, b: nat)
    requires Path(head, p) && a < b < |p| && p[a] == p[b]
    ensures !Linked(head, tail, s)
  {
    if Linked(head, tail, s) {
      ChainFollows(head, tail, s, p, a);
      ChainFollows(head, tail, s, p, b);
    }
  }

  /** A path that ends is the whole chain. */
  lemma {:induction false} EndIsAll<T>(head: Node?<T>, tail: Node?<T>, s: seq<Node<T>>, p: seq<Node<T>>)
    requires Linked(head, tail, s) && Path(head, p) && p[|p| - 1].next == null
    ensures s == p
  {
    forall j | 0 <= j < |p|
      ensures j < |s| && s[j] == p[j]
    {
      ChainFollows(head, tail, s, p, j);
    }
    OnlyLastEnds(head, tail, s, |p| - 1);
  }

  lemma {:induction false} OnlyLastEnds<T>(head: Node?<T>, tail: Node?<T>, s: seq<Node<T>>, j: nat)
    requires Linked(head, tail, s) && j < |s|
    ensures s[j].next == null ==> j == |s| - 1
  {
    if j < |s| - 1 { assert s[j].next == s[j + 1]; }
  }

  /** Inserted before itself, right behind itself, or further down: a loop, a loop,
  or everything between the two places is cut off. */
  lemma {:induction false} BrokenChain<T>(head: Node?<T>, tail: Node?<T>, nodes: seq<Node<T>>, i: nat, k: nat, s: seq<Node<T>>)
    requires i < |nodes| && k <= |nodes| && k != i && Relinked(head, nodes, i, k) && Linked(head, tail, s)
    ensures i + 1 < k && nodes[i + 1] !in s
  {
    if k < i {
      LoopBefore(head, tail, nodes, i, k, s);
    } else if k == i + 1 {
      LoopHere(head, tail, nodes, i, s);
    } else {
      CutOff(head, tail, nodes, i, k, s);
    }
  }

  lemma {:induction false} LoopBefore<T>(head: Node?<T>, tail: Node?<T>, nodes: seq<Node<T>>, i: nat, k: nat, s: seq<Node<T>>)
    requires k < i < |nodes| && Relinked(head, nodes, i, k)
    ensures !Linked(head, tail, s)
  {
    var p := nodes[..k] + [nodes[i]] + nodes[k..i] + [nodes[i]];
    forall j | 0 <= j < |p| - 1
      ensures p[j].next == p[j + 1]
    {
      if j < k { assert p[j] == nodes[j]; } else if j > k { assert p[j] == nodes[j - 1]; }
    }
    LoopIsNoChain(head, tail, s, p, k, i + 1);
  }

  lemma {:induction false} LoopHere<T>(head: Node?<T>, tail: Node?<T>, nodes: seq<Node<T>>, i: nat, s: seq<Node<T>>)
    requires i < |nodes| && Relinked(head, nodes, i, i + 1)
    ensures !Linked(head, tail, s)
  {
    var p := nodes[..i + 1] + [nodes[i]];
    LoopIsNoChain(head, tail, s, p, i, i + 1);
  }

  lemma {:induction false} CutOff<T>(head: Node?<T>, tail: Node?<T>, nodes: seq<Node<T>>, i: nat, k: nat, s: seq<Node<T>>)
    requires i + 1 < k <= |nodes| && Relinked(head, nodes, i, k) && Linked(head, tail, s)
    ensures nodes[i + 1] !in s
  {
    var p := nodes[..i + 1] + nodes[k..];
    forall j | 0 <= j < |p| - 1
      ensures p[j].next == p[j + 1]
    {
      if j > i { assert p[j] == nodes[j - i - 1 + k] && p[j + 1] == nodes[j - i - 1 + k + 1]; }
    }
    EndIsAll(head, tail, s, p);
    forall j | 0 <= j < |p|
      ensures p[j] != nodes[i + 1]
    {
      if j > i { assert p[j] == nodes[j - i - 1 + k]; }
    }
  }

  /** With a comparator that never says "less", insertion appends. */
  lemma {:induction false} UnorderedAppends<T>(less: (T, T) -> bool, s: seq<T>, x: T)
    requires forall a, b :: !less(a, b)
    ensures Lists.Insert(less, s, x) == s + [x]
  {
    SlotIs(less, s, x, |s|);
    assert s[|s|..] == [] && s[..|s|] == s;
  }
}
