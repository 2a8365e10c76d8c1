/** The bus's bounded queue: a list with a head index that is compacted now and then. */
module BoundedQueue {
  import opened WorkflowNode

  datatype OverflowPolicy = DropOldest | RejectNewest

  const COMPACT_THRESHOLD: nat := 512

  /** What a push does to a first-in first-out list of bounded length, and what it gives back. */
  function FifoPush<T>(contents: seq<T>, capacity: nat, policy: OverflowPolicy, item: T): (r: (seq<T>, Option<T>))
    requires 0 < capacity
  {
    if |contents| < capacity then (contents + [item], None)
    else if policy == RejectNewest then (contents, Some(item))
    else (contents[1..] + [item], Some(contents[0]))
  }

  /** Whether the list is compacted once this many slots at its front are given up. */
  predicate Compacts(givenUp: nat, length: nat) {
    givenUp >= COMPACT_THRESHOLD && 2 * givenUp >= length
  }

  class BoundedQueue<T> {
    /** A slot before the head has been given up and holds nothing. */
    var items: seq<Option<T>>
    var head: nat
    var overflowCount: nat
    const capacity: nat
    const policy: OverflowPolicy

    /** Elements moved by compaction, and elements shifted out or dropped, so far. */
    ghost var copied: nat
    ghost var removed: nat

    /** The backing list outgrows the capacity by less than the threshold or by less than a factor of two, and
        compaction never moves more elements than have left. */
    ghost predicate Valid()
      reads this
      ensures Valid() ==> |items| <= capacity + COMPACT_THRESHOLD - 1 || |items| <= 2 * capacity - 1
      ensures Valid() ==> copied <= removed
    {
      && 0 < capacity
      && head <= |items|
      && (forall i :: 0 <= i < |items| ==> (items[i].None? <==> i < head))
      && |items| - head <= capacity
      && (head < COMPACT_THRESHOLD || 2 * head < |items|)
      && copied + head <= removed
    }

    ghost function Contents(): (r: seq<T>)
      requires Valid()
      reads this
      ensures |r| == |items| - head
      ensures forall i :: 0 <= i < |r| ==> items[head + i] == Some(r[i])
    {
      seq(|items| - head, i requires 0 <= i < |items| - head && Valid() reads this => items[head + i].value)
    }

    constructor (capacity: int, policy: OverflowPolicy)
      ensures Valid() && Contents() == [] && overflowCount == 0 && copied == 0 && removed == 0
      ensures this.capacity == (if capacity < 1 then 1 else capacity) && this.policy == policy
    {
      this.capacity := if capacity < 1 then 1 else capacity;
      this.policy := policy;
      items, head, overflowCount, copied, removed := [], 0, 0, 0, 0;
    }

    function Length(): nat
      requires Valid()
      reads this
    {
      |items| - head
    }

    /** Gives up the head slot, then compacts when half of a long list is given up. */
    method Advance()
      requires head < |items| && items[head].Some?
      requires 0 < capacity && |items| - head - 1 <= capacity && copied + head <= removed
      requires forall i :: 0 <= i < |items| ==> (items[i].None? <==> i < head)
      modifies this`items, this`head, this`copied, this`removed
      ensures Valid()
      ensures |Contents()| == |old(items)| - old(head) - 1
      ensures forall i :: 0 <= i < |Contents()| ==> Some(Contents()[i]) == old(items)[old(head) + 1 + i]
      ensures removed == old(removed) + 1
      ensures copied == old(copied) + if Compacts(old(head) + 1, |old(items)|) then |Contents()| else 0
    {
      items := items[head := None];
      head, removed := head + 1, removed + 1;
      if Compacts(head, |items|) {
        copied := copied + |items| - head;
        items := items[head..];
        head := 0;
      }
    }

    /** Gives up the oldest element for a new one. */
    method Replace(item: T)
      requires Valid() && |items| - head == capacity
      modifies this`items, this`head, this`copied, this`removed
      ensures Valid() && Contents() == old(Contents())[1..] + [item]
      ensures removed == old(removed) + 1
      ensures copied == old(copied) + if Compacts(old(head) + 1, |old(items)| + 1) then |Contents()| else 0
    {
      items := items + [Some(item)];
      Advance();
    }

    method Push(item: T) returns (dropped: Option<T>)
      requires Valid()
      modifies this`items, this`head, this`overflowCount, this`copied, this`removed
      ensures Valid()
      ensures (Contents(), dropped) == FifoPush(old(Contents()), capacity, policy, item)
      ensures overflowCount == old(overflowCount) + if dropped.Some? then 1 else 0
      ensures
        var leaves := dropped.Some? && policy == DropOldest;
        && removed == old(removed) + (if leaves then 1 else 0)
        && copied == old(copied) + if leaves && Compacts(old(head) + 1, |old(items)| + 1) then |Contents()| else 0
    {
      if Length() >= capacity {
        overflowCount := overflowCount + 1;
        assert Contents() == old(Contents());
        if policy == RejectNewest {
          return Some(item);
        }
        dropped := items[head];
        assert dropped == Some(Contents()[0]);
        Replace(item);
        return;
      }
      items := items + [Some(item)];
      assert Contents() == old(Contents()) + [item];
      return None;
    }

    method Shift() returns (item: Option<T>)
      requires Valid()
      modifies this`items, this`head, this`copied, this`removed
      ensures Valid()
      ensures old(Contents()) == [] ==> item == None && Contents() == []
      ensures old(Contents()) != [] ==> item == Some(old(Contents())[0]) && Contents() == old(Contents())[1..]
      ensures removed == old(removed) + if item.Some? then 1 else 0
      ensures copied == old(copied) + if item.Some? && Compacts(old(head) + 1, |old(items)|) then |Contents()| else 0
    {
      if head >= |items| {
        return None;
      }
      item := items[head];
      Advance();
      assert Contents() == old(Contents())[1..];
    }

    method Clear() returns (count: nat)
      requires Valid()
      modifies this`items, this`head
      ensures Valid() && Contents() == [] && count == |old(Contents())|
      ensures copied == old(copied) && removed == old(removed)
    {
      count := Length();
      items, head := [], 0;
    }
  }
}
