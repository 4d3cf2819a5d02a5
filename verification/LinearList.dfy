/**
 The generic list of list.h and list.c: a fixed buffer used as a ring, described by the slot of its front
 element and its size. `Contents` is the sequence the list stands for.
 */
module LinearLists {
  import opened Sequences

  lemma ModWrap(a: nat, cap: nat)
    requires 0 < cap && a < 2 * cap
    ensures a % cap == if a < cap then a else a - cap
  {
    if a >= cap {
      assert a == (a - cap) + 1 * cap;
    }
  }

  /** Slot of the element at position `i`, counted from the slot `start`. */
  function Slot(start: nat, i: nat, cap: nat): (slot: nat)
    requires start < cap && i <= cap
    ensures slot < cap
    ensures slot == if start + i < cap then start + i else start + i - cap
  {
    ModWrap(start + i, cap);
    (start + i) % cap
  }

  /** The sequence held in a ring buffer. */
  function Unroll<T>(values: seq<T>, start: nat, size: nat): (s: seq<T>)
    requires start < |values| && size <= |values|
    ensures |s| == size
    ensures forall i :: 0 <= i < size ==> s[i] == values[Slot(start, i, |values|)]
  {
    seq(size, i requires 0 <= i < size => values[Slot(start, i, |values|)])
  }

  /** The front element, and the rest from the next slot on. */
  lemma UnrollFirst<T>(values: seq<T>, start: nat, size: nat, next: nat)
    requires start < |values| && 0 < size <= |values| && next == (start + 1) % |values|
    ensures next < |values| && Unroll(values, start, size) == [values[start]] + Unroll(values, next, size - 1)
  {
    ModWrap(start + 1, |values|);
    forall i | 0 <= i < size - 1 ensures Slot(next, i, |values|) == Slot(start, i + 1, |values|) {
    }
  }

  /** Going one slot back and one slot forward again. */
  lemma SlotBefore(start: nat, cap: nat)
    requires start < cap
    ensures var slot := (start + cap - 1) % cap;
            && 0 <= slot < cap && (slot + 1) % cap == start
            && forall i :: 0 <= i < cap - 1 ==> Slot(start, i, cap) != slot
  {
    ModWrap(start + cap - 1, cap);
    ModWrap((start + cap - 1) % cap + 1, cap);
  }

  lemma UnrollWrite<T>(values: seq<T>, start: nat, size: nat, slot: nat, x: T)
    requires start < |values| && size <= |values| && slot < |values|
    requires forall i :: 0 <= i < size ==> Slot(start, i, |values|) != slot
    ensures Unroll(values[slot := x], start, size) == Unroll(values, start, size)
  {
  }

  class LinearList<T(==)> {
    var start: nat
    var size: nat
    const values: array<T>

    ghost predicate Valid()
      reads this
    {
      start < values.Length && size <= values.Length
    }

    ghost function Contents(): seq<T>
      requires Valid()
      reads this, values
    {
      Unroll(values[..], start, size)
    }

    /** A zero-initialised list is empty. */
    constructor (capacity: nat, zero: T)
      requires 0 < capacity
      ensures Valid() && Contents() == []
      ensures values.Length == capacity
      ensures fresh(values)
    {
      values := new T[capacity](_ => zero);
      start, size := 0, 0;
    }

    method PushFront(x: T)
      requires Valid() && |Contents()| < values.Length
      modifies this, values
      ensures Valid() && Contents() == [x] + old(Contents())
    {
      ghost var was, front := values[..], start;
      SlotBefore(start, values.Length);
      size := size + 1;
      start := (start + values.Length - 1) % values.Length;
      values[start] := x;
      assert values[..] == was[start := x];
      UnrollWrite(was, front, size - 1, start, x);
      UnrollFirst(values[..], start, size, front);
    }

    method PushBack(x: T)
      requires Valid() && |Contents()| < values.Length
      modifies this, values
      ensures Valid() && Contents() == old(Contents()) + [x]
      ensures start == old(start)
    {
      var slot := Slot(start, size, values.Length);
      size := size + 1;
      values[slot] := x;
    }

    method PopFront() returns (x: T)
      requires Valid() && Contents() != []
      modifies this
      ensures Valid() && [x] + Contents() == old(Contents())
    {
      UnrollFirst(values[..], start, size, (start + 1) % values.Length);
      x := values[start];
      size := size - 1;
      start := (start + 1) % values.Length;
    }

    method Front() returns (x: T)
      requires Valid() && Contents() != []
      ensures x == Contents()[0]
    {
      x := values[start];
    }

    /** LL_AT_, the access on which LL_FOREACH is built. */
    method At(i: nat) returns (x: T)
      requires Valid() && i < |Contents()|
      ensures x == Contents()[i]
    {
      x := values[Slot(start, i, values.Length)];
    }

    /** LL_SIZE(list) = 0. */
    method Clear()
      requires Valid()
      modifies this
      ensures Valid() && Contents() == []
    {
      size := 0;
    }

    /** LL_REMOVE: compaction in place, across the wrap. */
    method Remove(v: T)
      requires Valid()
      modifies this, values
      ensures Valid() && Contents() == Without(old(Contents()), v)
    {
      ghost var before := Contents();
      var cap := values.Length;
      var dst, src := 0, 0;
      while src != size
        invariant 0 <= dst <= src <= size
        invariant start == old(start) && size == old(size) && cap == values.Length
        invariant Unroll(values[..], start, dst) == Without(before[..src], v)
        invariant forall i :: src <= i < size ==> values[Slot(start, i, cap)] == before[i]
        decreases size - src
      {
        assert before[..src + 1][..src] == before[..src];
        var x := values[Slot(start, src, cap)];
        if x != v {
          ghost var done := Unroll(values[..], start, dst);
          values[Slot(start, dst, cap)] := x;
          assert Unroll(values[..], start, dst + 1) == done + [x];
          dst := dst + 1;
        }
        src := src + 1;
      }
      assert before[..size] == before;
      size := dst;
    }

    /** LL_BACK reads the slot after the last element. */
    method Back() returns (x: T)
      requires Valid()
      ensures x == values[Slot(start, size, values.Length)]
    {
      x := values[Slot(start, size, values.Length)];
    }

    /** LL_POP_BACK drops the last element but hands out the slot after it. */
    method PopBack() returns (x: T)
      requires Valid() && Contents() != []
      modifies this
      ensures Valid() && Contents() == old(Contents())[..|old(Contents())| - 1]
      ensures x == old(values[Slot(start, size, values.Length)])
    {
      x := values[Slot(start, size, values.Length)];
      size := size - 1;
      assert forall i :: 0 <= i < size ==> Contents()[i] == old(Contents())[i];
    }
  }

  /**
   What LL_BACK and LL_POP_BACK hand out is the last element, whatever the buffer holds, exactly when the
   capacity is one: a full list yields its front element instead, any other list a slot outside it.
   */
  lemma BackIsLastOnlyAtCapacityOne(start: nat, size: nat, cap: nat)
    requires start < cap && 0 < size <= cap
    ensures cap == 1 <==>
            forall values: seq<int> :: |values| == cap ==>
                                         values[Slot(start, size, cap)] == Unroll(values, start, size)[size - 1]
    ensures size == cap <==> Slot(start, size, cap) == start
    ensures size < cap ==> forall i :: 0 <= i < size ==> Slot(start, size, cap) != Slot(start, i, cap)
  {
    var numbered := seq(cap, i => i);
    assert |numbered| == cap;
    assert numbered[Slot(start, size, cap)] == Slot(start, size, cap);
    assert Unroll(numbered, start, size)[size - 1] == Slot(start, size - 1, cap);
  }

  /** LL_DECLARE(lists[n], T, capacity): an array of lists, each with a buffer of its own. */
  class ListArray<T(==)> {
    const lists: seq<LinearList<T>>
    const capacity: nat
    ghost const Repr: set<object>

    ghost predicate Valid()
      reads this, Repr
    {
      && (forall i :: 0 <= i < |lists| ==> lists[i] in Repr && lists[i].values in Repr)
      && (forall i :: 0 <= i < |lists| ==> lists[i].Valid() && lists[i].values.Length == capacity)
      && (forall i, j :: 0 <= i < j < |lists| ==> lists[i] != lists[j] && lists[i].values != lists[j].values)
    }

    ghost function Contents(): (q: seq<seq<T>>)
      requires Valid()
      reads this, Repr
      ensures |q| == |lists|
      ensures forall i :: 0 <= i < |q| ==> q[i] == lists[i].Contents()
    {
      seq(|lists|, i requires 0 <= i < |lists| && Valid() reads this, Repr => lists[i].Contents())
    }

    constructor (n: nat, cap: nat, zero: T)
      requires 0 < cap
      ensures Valid() && fresh(Repr)
      ensures |lists| == n && capacity == cap
      ensures Contents() == seq(n, _ => [])
    {
      capacity := cap;
      var made: seq<LinearList<T>> := [];
      ghost var owned: set<object> := {};
      for k := 0 to n
        invariant |made| == k && fresh(owned)
        invariant forall i :: 0 <= i < k ==> made[i] in owned && made[i].values in owned
        invariant forall i :: 0 <= i < k ==> made[i].Valid() && made[i].values.Length == cap && made[i].Contents() == []
        invariant forall i, j :: 0 <= i < j < k ==> made[i] != made[j] && made[i].values != made[j].values
      {
        var list := new LinearList<T>(cap, zero);
        made := made + [list];
        owned := owned + {list, list.values};
      }
      lists := made;
      Repr := owned;
    }

    method PushBack(i: nat, x: T)
      requires Valid() && i < |lists| && |Contents()[i]| < capacity
      modifies Repr
      ensures Valid() && Contents() == old(Contents())[i := old(Contents())[i] + [x]]
    {
      lists[i].PushBack(x);
    }

    method PopFront(i: nat) returns (x: T)
      requires Valid() && i < |lists| && Contents()[i] != []
      modifies Repr
      ensures Valid() && x == old(Contents())[i][0] && Contents() == old(Contents())[i := old(Contents())[i][1..]]
    {
      x := lists[i].PopFront();
      assert Contents()[i] == old(Contents())[i][1..];
    }

    method Remove(i: nat, x: T)
      requires Valid() && i < |lists|
      modifies Repr
      ensures Valid() && Contents() == old(Contents())[i := Without(old(Contents())[i], x)]
    {
      lists[i].Remove(x);
    }

    method Clear(i: nat)
      requires Valid() && i < |lists|
      modifies Repr
      ensures Valid() && Contents() == old(Contents())[i := []]
    {
      lists[i].Clear();
    }
  }
}
