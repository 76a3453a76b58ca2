/** Sequence-level meaning of the kernel's intrusive list.

The scheduler rings, the wait lists and the deadline queue are all the same
structure, `SelfList`. This module gives its operations on mathematical
sequences; `SelfList.dfy` proves that the pointer code computes them. */
module Lists {

  datatype Option<+T> = None | Some(value: T)

  /** Where the sorted walk stops: the first element the new one goes before. */
  function Slot<T>(less: (T, T) -> bool, s: seq<T>, x: T): (k: nat)
    ensures k <= |s|
    ensures forall i :: 0 <= i < k ==> !less(x, s[i])
    ensures k < |s| ==> less(x, s[k])
  {
    if s == [] || less(x, s[0]) then 0 else 1 + Slot(less, s[1..], x)
  }

  function Insert<T>(less: (T, T) -> bool, s: seq<T>, x: T): (r: seq<T>)
    ensures |r| == |s| + 1
    ensures multiset(r) == multiset(s) + multiset{x}
  {
    var k := Slot(less, s, x);
    assert s == s[..k] + s[k..];
    s[..k] + [x] + s[k..]
  }

  lemma {:induction false} InsertShape<T>(less: (T, T) -> bool, s: seq<T>, x: T)
    ensures forall i :: 0 <= i <= |s| ==>
              Insert(less, s, x)[i] ==
              if i < Slot(less, s, x) then s[i] else if i == Slot(less, s, x) then x else s[i - 1]
    ensures forall y :: y in Insert(less, s, x) <==> y in s || y == x
  {
    forall y
      ensures y in Insert(less, s, x) <==> y in s || y == x
    {
      assert y in multiset(Insert(less, s, x)) <==> y in multiset(s) || y == x;
    }
  }

  /** Position of the first element picked out by `hit`, or the length. */
  function Find<T>(s: seq<T>, hit: T -> bool): (k: nat)
    ensures k <= |s|
    ensures forall i :: 0 <= i < k ==> !hit(s[i])
    ensures k < |s| ==> hit(s[k])
  {
    if s == [] || hit(s[0]) then 0 else 1 + Find(s[1..], hit)
  }

  function Drop<T>(s: seq<T>, hit: T -> bool): (r: seq<T>)
  {
    var k := Find(s, hit);
    if k < |s| then s[..k] + s[k + 1..] else s
  }

  lemma {:induction false} DropShape<T>(s: seq<T>, hit: T -> bool)
    requires Find(s, hit) < |s|
    ensures |Drop(s, hit)| == |s| - 1
    ensures forall i :: 0 <= i < |s| - 1 ==> Drop(s, hit)[i] == if i < Find(s, hit) then s[i] else s[i + 1]
  {
    var k := Find(s, hit);
    var r := Drop(s, hit);
    assert r == s[..k] + s[k + 1..];
    hide Find, Drop;
    assert forall i :: 0 <= i < k ==> r[i] == s[i];
    assert forall i :: k <= i < |s| - 1 ==> r[i] == s[k + 1..][i - k];
  }

  function Is<T(==)>(x: T): T -> bool {
    y => y == x
  }

  lemma {:induction false} DropUnique<T>(s: seq<T>, x: T)
    requires NoDup(s) && x in s
    ensures NoDup(Drop(s, Is(x)))
    ensures forall y :: y in Drop(s, Is(x)) <==> y in s && y != x
  {
    var k := Find(s, Is(x));
    assert k < |s| by {
      var i :| 0 <= i < |s| && s[i] == x;
    }
    assert s == s[..k] + [x] + s[k + 1..];
  }

  ghost predicate NoDup<T>(s: seq<T>) {
    forall i, j :: 0 <= i < j < |s| ==> s[i] != s[j]
  }
}
