/** Facts about remainders that the ring indices and the round robin need. */
module ModArithmetic {

  lemma NoMultipleBetween(m: int, d: int)
    requires -m < m * d < m
    ensures d == 0
  {}

  /** Quotient and remainder are unique. */
  lemma DivModUnique(x: int, m: nat, q: int, r: nat)
    requires r < m && x == m * q + r
    ensures x / m == q && x % m == r
  {
    var d := x / m - q;
    assert m * d == m * (x / m) - m * q;
    NoMultipleBetween(m, d);
  }

  lemma ModAddOnce(x: int, m: nat)
    requires 0 < m
    ensures (x + m) % m == x % m
  {
    assert m * (x / m + 1) == m * (x / m) + m;
    DivModUnique(x + m, m, x / m + 1, x % m);
  }

  lemma ModSmall(x: nat, m: nat)
    requires x < m
    ensures x % m == x
  {}
}

/** Index arithmetic of a circular array. */
module RingIndex {
  import opened ModArithmetic

  /** The slot that holds the item at the given distance behind the front. */
  function Slot(front: nat, offset: nat, capacity: nat): nat
    requires 0 < capacity
  {
    (front + offset) % capacity
  }

  lemma SlotUnfolds(front: nat, offset: nat, capacity: nat)
    requires front < capacity && offset <= capacity
    ensures Slot(front, offset, capacity)
         == if front + offset < capacity then front + offset else front + offset - capacity
  {
    if front + offset < capacity {
      ModSmall(front + offset, capacity);
    } else {
      ModAddOnce(front + offset - capacity, capacity);
      ModSmall(front + offset - capacity, capacity);
    }
  }

  /** Stepping an index is stepping the offset. */
  lemma SlotStep(front: nat, offset: nat, capacity: nat)
    requires front < capacity && offset < capacity
    ensures (Slot(front, offset, capacity) + 1) % capacity == Slot(front, offset + 1, capacity)
    ensures Slot((front + 1) % capacity, offset, capacity) == Slot(front, offset + 1, capacity)
  {
    SlotUnfolds(front, offset, capacity);
    SlotUnfolds(front, offset + 1, capacity);
    SlotUnfolds(Slot(front, offset, capacity), 1, capacity);
    SlotUnfolds(front, 1, capacity);
    SlotUnfolds((front + 1) % capacity, offset, capacity);
  }

  /** Different offsets below the capacity name different slots. */
  lemma SlotsDistinct(front: nat, i: nat, j: nat, capacity: nat)
    requires front < capacity && i < capacity && j < capacity && i != j
    ensures Slot(front, i, capacity) != Slot(front, j, capacity)
  {
    SlotUnfolds(front, i, capacity);
    SlotUnfolds(front, j, capacity);
  }

  /** How front, rear and size of a ring of n slots belong together. */
  ghost predicate RingIndices(front: nat, rear: nat, size: nat, n: nat) {
    && (n == 0 ==> front == rear == 0)
    && (0 < n ==> front < n && rear == Slot(front, size, n))
  }

  lemma AppendMovesRear(front: nat, rear: nat, size: nat, n: nat)
    requires RingIndices(front, rear, size, n) && size < n
    ensures rear < n && RingIndices(front, (rear + 1) % n, size + 1, n)
  {
    SlotStep(front, size, n);
  }

  lemma DropMovesFront(front: nat, rear: nat, size: nat, n: nat)
    requires RingIndices(front, rear, size, n) && 0 < size <= n
    ensures RingIndices((front + 1) % n, rear, size - 1, n)
  {
    SlotStep(front, size - 1, n);
  }

  lemma OverwriteMovesBoth(front: nat, rear: nat, n: nat)
    requires RingIndices(front, rear, n, n) && 0 < n
    ensures rear == front && RingIndices((front + 1) % n, (rear + 1) % n, n, n)
  {
    SlotUnfolds(front, n, n);
    SlotUnfolds((front + 1) % n, n, n);
  }

  /** The items met when walking count slots around the ring from the given start. */
  function Window<T>(slots: seq<T>, start: nat, count: nat): (w: seq<T>)
    requires 0 < count ==> 0 < |slots|
    ensures |w| == count
  {
    seq(count, i requires 0 <= i < count => slots[Slot(start, i, |slots|)])
  }

  lemma WindowAppend<T>(slots: seq<T>, front: nat, size: nat, item: T)
    requires front < |slots| && size < |slots|
    ensures Window(slots[Slot(front, size, |slots|) := item], front, size + 1) == Window(slots, front, size) + [item]
  {
    forall i | 0 <= i < size ensures Slot(front, i, |slots|) != Slot(front, size, |slots|) {
      SlotsDistinct(front, i, size, |slots|);
    }
  }

  lemma WindowDropFirst<T>(slots: seq<T>, front: nat, size: nat)
    requires front < |slots| && 0 < size <= |slots|
    ensures Window(slots, (front + 1) % |slots|, size - 1) == Window(slots, front, size)[1..]
  {
    var later := Window(slots, (front + 1) % |slots|, size - 1);
    forall i | 0 <= i < size - 1
      ensures later[i] == Window(slots, front, size)[i + 1]
    {
      SlotStep(front, i, |slots|);
    }
  }

  /** Writing over the oldest slot of a full ring drops the oldest item and appends the new one. */
  lemma WindowOverwrite<T>(slots: seq<T>, front: nat, item: T)
    requires front < |slots|
    ensures Window(slots[front := item], (front + 1) % |slots|, |slots|)
         == Window(slots, front, |slots|)[1..] + [item]
  {
    var n := |slots|;
    SlotStep(front, n - 1, n);
    SlotUnfolds(front, n, n);
    SlotUnfolds(front, 1, n);
    WindowDropFirst(slots, front, n);
    WindowAppend(slots, (front + 1) % n, n - 1, item);
  }
}

/** The ring mailbox of vee/queue.h used by one thread at a time: a circular array
    of slots with two running indices and a size. */
module RingQueues {
  import opened BoundedFifo
  import opened RingIndex

  class RingQueue<T(0)> {
    const capacity: nat
    const slots: array<T>
    var overwriteMode: bool
    var rear: nat
    var front: nat
    var size: nat

    ghost predicate Valid()
      reads this
    {
      && slots.Length == capacity
      && size <= capacity
      && RingIndices(front, rear, size, capacity)
    }

    /** The queued items, oldest first. */
    ghost function Contents(): (items: seq<T>)
      requires Valid()
      reads this, slots
      ensures |items| == size
    {
      Window(slots[..], front, size)
    }

    constructor (capacity: nat)
      ensures Valid() && fresh(slots)
      ensures this.capacity == capacity && Contents() == [] && !overwriteMode
    {
      this.capacity := capacity;
      slots := new T[capacity];
      overwriteMode := false;
      rear, front, size := 0, 0, 0;
      new;
      if 0 < capacity {
        SlotUnfolds(0, 0, capacity);
      }
    }

    predicate IsEmpty()
      reads this
    {
      size == 0
    }

    predicate IsFull()
      reads this
    {
      size == capacity
    }

    /** Appends, refuses when full, or in overwrite mode drops the oldest item to make room. */
    method Enqueue(item: T) returns (accepted: bool)
      requires Valid()
      requires overwriteMode ==> 0 < capacity
      modifies this`rear, this`front, this`size, slots
      ensures Valid()
      ensures var effect := Apply(old(Contents()), Op.Enqueue(item), capacity, overwriteMode);
              Contents() == effect.queue && accepted == (effect.outcome == Accepted)
      ensures accepted == (|old(Contents())| < capacity || overwriteMode)
      ensures Contents() == if |old(Contents())| < capacity then old(Contents()) + [item]
                            else if overwriteMode then old(Contents())[1..] + [item] else old(Contents())
      ensures slots[..] == if accepted then old(slots[..])[old(rear) := item] else old(slots[..])
      ensures !accepted ==> unchanged(this) && unchanged(slots)
    {
      var at := rear;
      if IsFull() {
        if !overwriteMode {
          return false;
        }
        OverwriteMovesBoth(front, rear, capacity);
        WindowOverwrite(slots[..], front, item);
        rear := (rear + 1) % capacity;
        front := (front + 1) % capacity;
      } else {
        AppendMovesRear(front, rear, size, capacity);
        WindowAppend(slots[..], front, size, item);
        rear := (rear + 1) % capacity;
        size := size + 1;
      }
      slots[at] := item;
      return true;
    }

    method ShallowDequeue() returns (dropped: bool)
      requires Valid()
      modifies this`front, this`size
      ensures Valid()
      ensures var effect := Apply(old(Contents()), Op.ShallowDequeue, capacity, false);
              Contents() == effect.queue && dropped == (effect.outcome == Dropped)
      ensures dropped == (old(Contents()) != [])
      ensures Contents() == if dropped then old(Contents())[1..] else []
    {
      if size == 0 {
        return false;
      }
      WindowDropFirst(slots[..], front, size);
      DropMovesFront(front, rear, size, capacity);
      size := size - 1;
      front := (front + 1) % capacity;
      return true;
    }

    /** Takes the head; an empty queue leaves the caller's variable as it was. */
    method Dequeue(initial: T) returns (taken: bool, out: T)
      requires Valid()
      modifies this`front, this`size
      ensures Valid()
      ensures var effect := Apply(old(Contents()), Op.Dequeue, capacity, false);
              Contents() == effect.queue && (if taken then effect.outcome == Taken(out)
                                             else effect.outcome == WasEmpty && out == initial)
      ensures taken == (old(Contents()) != [])
      ensures Contents() == if taken then old(Contents())[1..] else []
      ensures out == if taken then old(Contents())[0] else initial
    {
      if size == 0 {
        return false, initial;
      }
      WindowDropFirst(slots[..], front, size);
      DropMovesFront(front, rear, size, capacity);
      SlotUnfolds(front, 0, capacity);
      size := size - 1;
      var at := front;
      front := (front + 1) % capacity;
      return true, slots[at];
    }

    /** The dequeue that takes no argument: the item goes into a temporary. */
    method DequeueDiscarding() returns (taken: bool)
      requires Valid()
      modifies this`front, this`size
      ensures Valid()
      ensures var effect := Apply(old(Contents()), Op.Dequeue, capacity, false);
              Contents() == effect.queue && taken == effect.outcome.Taken?
      ensures taken == (old(Contents()) != [])
      ensures Contents() == if taken then old(Contents())[1..] else []
    {
      var temp: T := *;
      taken, temp := Dequeue(temp);
    }

    /** Dequeues until the queue reports that it is empty. */
    method Clear()
      requires Valid()
      modifies this`front, this`size
      ensures Valid() && Contents() == []
    {
      var more := DequeueDiscarding();
      while more
        invariant Valid()
        invariant !more ==> Contents() == []
        decreases size, more
      {
        more := DequeueDiscarding();
      }
    }

    /** The assignment operator: empties this queue, then copies one slot per queued item of the
        source, starting at the source's rear index. */
    method Assign(source: RingQueue<T>) returns (copied: bool)
      requires Valid() && source.Valid()
      requires source != this ==> source.slots != slots
      requires overwriteMode ==> 0 < capacity
      modifies this`rear, this`front, this`size, slots
      ensures Valid()
      ensures copied == (source.capacity <= capacity)
      ensures Contents() == if copied && source != this
                            then old(Window(source.slots[..], source.rear, source.size)) else []
    {
      Clear();
      if capacity < source.capacity {
        return false;
      }
      var from := source.rear;
      var count := source.size;
      ghost var items, start := source.slots[..], source.rear;
      if 0 < source.capacity {
        SlotUnfolds(start, 0, source.capacity);
      }
      var i := 0;
      while i < count
        invariant 0 <= i <= count <= |items| == source.capacity
        invariant Valid() && (source == this ==> count == 0)
        invariant source != this ==> source.slots[..] == items
        invariant 0 < |items| ==> start < |items| && from == Slot(start, i, |items|)
        invariant Contents() == Window(items, start, i)
      {
        var accepted := Enqueue(source.slots[from]);
        SlotStep(start, i, source.capacity);
        assert Window(items, start, i + 1) == Window(items, start, i) + [items[from]];
        from := (from + 1) % source.capacity;
        i := i + 1;
      }
      return true;
    }
  }

  /** Assignment copies the source's contents, whatever its slots hold, exactly when the
      source is empty or full: only then is its rear index also the start of its items. */
  lemma AssignmentCopiesOnlyEmptyOrFull(capacity: nat, front: nat, size: nat)
    requires front < capacity && size <= capacity
    ensures (forall slots: seq<int> | |slots| == capacity ::
               Window(slots, Slot(front, size, capacity), size) == Window(slots, front, size))
       <==> size == 0 || size == capacity
  {
    SlotUnfolds(front, size, capacity);
    if 0 < size < capacity {
      var slots := seq(capacity, i => i);
      var rear := Slot(front, size, capacity);
      SlotUnfolds(rear, 0, capacity);
      SlotUnfolds(front, 0, capacity);
      assert Window(slots, rear, size)[0] == rear != Window(slots, front, size)[0];
    }
  }
}
