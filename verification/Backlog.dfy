/** The backlog of QueueBlockingLimiter (limiter/queue_blocking.go:37-142): a list of waiting
    elements, newest first, numbered by arrival. */
module Backlog {
  import opened Basics

  /** QueueOrdering is a string; a value that is neither constant makes peek find nothing. */
  datatype Ordering = FIFO | LIFO | Unrecognised

  /** Newest first: each element arrived after the one behind it. */
  ghost predicate Ordered(list: seq<nat>) {
    forall i, j :: 0 <= i < j < |list| ==> list[i] > list[j]
  }

  function Peeked(ordering: Ordering, list: seq<nat>): Option<nat> {
    if list == [] || ordering.Unrecognised? then None
    else if ordering.FIFO? then Some(list[|list| - 1])
    else Some(list[0])
  }

  /** pushWithCapacity: the new element in front, unless the list is full. */
  function Pushed(list: seq<nat>, e: nat, capacity: nat): Option<seq<nat>> {
    if |list| >= capacity then None else Some([e] + list)
  }

  /** The list without `e`; removing an element that has already left changes nothing. */
  function Removed(list: seq<nat>, e: nat): (r: seq<nat>)
    ensures forall x :: x in r <==> x in list && x != e
    ensures |r| <= |list|
  {
    if list == [] then [] else
      (if list[0] == e then [] else [list[0]]) + Removed(list[1..], e)
  }

  lemma PushedIsOrdered(e: nat, list: seq<nat>)
    requires Ordered(list) && forall x :: x in list ==> x < e
    ensures Ordered([e] + list)
  {
    var pushed := [e] + list;
    forall i, j | 0 <= i < j < |pushed| ensures pushed[i] > pushed[j] {
      assert pushed[j] == list[j - 1] && list[j - 1] in list;
    }
  }

  lemma RestIsOrdered(list: seq<nat>)
    requires Ordered(list) && list != []
    ensures Ordered(list[1..]) && forall x :: x in list[1..] ==> x < list[0]
  {
    var rest := list[1..];
    assert forall i :: 0 <= i < |rest| ==> rest[i] == list[i + 1];
  }

  lemma {:induction false} RemovedKeepsOrder(list: seq<nat>, e: nat)
    requires Ordered(list)
    ensures Ordered(Removed(list, e))
  {
    if list != [] {
      var first, rest := list[0], list[1..];
      RestIsOrdered(list);
      RemovedKeepsOrder(rest, e);
      if first == e {
        assert Removed(list, e) == Removed(rest, e);
      } else {
        PushedIsOrdered(first, Removed(rest, e));
      }
    }
  }

  lemma {:induction false} RemovedIfAbsent(list: seq<nat>, e: nat)
    requires e !in list
    ensures Removed(list, e) == list
  {
    if list != [] {
      RemovedIfAbsent(list[1..], e);
    }
  }

  /** An element occurs once, so removing it shortens the list by one. */
  lemma {:induction false} RemovedIfPresent(list: seq<nat>, e: nat)
    requires Ordered(list) && e in list
    ensures |Removed(list, e)| == |list| - 1
  {
    RestIsOrdered(list);
    if list[0] == e {
      RemovedIfAbsent(list[1..], e);
    } else {
      RemovedIfPresent(list[1..], e);
    }
  }

  /** In an ordered list, FIFO peeks at the oldest element and LIFO at the newest. */
  lemma PeekedIsExtreme(ordering: Ordering, list: seq<nat>)
    requires Ordered(list)
    ensures Peeked(ordering, list).Some? <==> list != [] && !ordering.Unrecognised?
    ensures Peeked(ordering, list).Some? ==>
              var e := Peeked(ordering, list).value;
              && e in list
              && (ordering.FIFO? ==> forall x :: x in list ==> e <= x)
              && (ordering.LIFO? ==> forall x :: x in list ==> x <= e)
  {
    if list != [] {
      forall x | x in list ensures list[|list| - 1] <= x <= list[0] {
        var i :| 0 <= i < |list| && list[i] == x;
      }
    }
  }

  /** The queue object; each method is one region of its mutex. */
  class Queue {
    var list: seq<nat>          // Front() first
    var arrivals: nat           // number given to the next element
    const ordering: Ordering

    ghost predicate Valid() reads this {
      Ordered(list) && forall e :: e in list ==> e < arrivals
    }

    constructor (ordering: Ordering)
      ensures Valid() && list == [] && arrivals == 0 && this.ordering == ordering
    {
      this.ordering := ordering;
      list, arrivals := [], 0;
    }

    /** Refuses exactly when the backlog is full; otherwise the new element is the newest. */
    method PushWithCapacity(maxCapacity: nat) returns (e: Option<nat>)
      requires Valid()
      modifies this
      ensures Valid()
      ensures e.None? <==> Pushed(old(list), old(arrivals), maxCapacity).None?
      ensures e.None? <==> old(|list|) >= maxCapacity
      ensures e.None? ==> list == old(list) && arrivals == old(arrivals)
      ensures e.Some? ==> e.value == old(arrivals) && list == [e.value] + old(list)
                          && arrivals == old(arrivals) + 1
                          && |list| <= maxCapacity && forall x :: x in old(list) ==> x < e.value
    {
      if |list| >= maxCapacity {
        return None;
      }
      e := Some(arrivals);
      PushedIsOrdered(arrivals, list);
      list := [arrivals] + list;
      arrivals := arrivals + 1;
    }

    method Peek() returns (e: Option<nat>)
      requires Valid()
      ensures e == Peeked(ordering, list)
    {
      e := None;
      match ordering {
        case FIFO => if |list| > 0 { e := Some(list[|list| - 1]); }
        case LIFO => if |list| > 0 { e := Some(list[0]); }
        case Unrecognised =>
      }
    }

    /** The closure returned by evictionFunc. */
    method Evict(e: nat)
      requires Valid()
      modifies this
      ensures Valid() && arrivals == old(arrivals)
      ensures list == Removed(old(list), e)
    {
      RemovedKeepsOrder(list, e);
      list := Removed(list, e);
    }

    /** Takes the oldest element in FIFO order, the newest in LIFO order. */
    method Pop() returns (e: Option<nat>)
      requires Valid()
      modifies this
      ensures Valid() && arrivals == old(arrivals)
      ensures e == Peeked(ordering, old(list))
      ensures e.None? ==> list == old(list)
      ensures e.Some? ==> e.value in old(list) && list == Removed(old(list), e.value)
                          && |list| == old(|list|) - 1
    {
      e := Peek();
      if e.Some? {
        PeekedIsExtreme(ordering, list);
        RemovedIfPresent(list, e.value);
        Evict(e.value);
      }
    }
  }
}
