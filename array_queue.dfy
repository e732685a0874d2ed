/**
 * The array-based queue `ABQ<T>`: the stack's buffer, size and capacity plus a front
 * offset `location`, so that the live elements are `data[location..location + size)`.
 * Every reallocation moves the live elements to the front of the new buffer and resets
 * `location` to 0.
 */
module ArrayQueue {
  import opened Results
  import opened Resize

  const EmptyMessage := "Queue is empty."

  /** What a caller can observe of a queue: its elements, front first, and its capacity. */
  datatype QueueView<T> = QueueView(items: seq<T>, capacity: nat)

  predicate WellFormed<T>(v: QueueView<T>) {
    1 <= v.capacity && |v.items| <= v.capacity
  }

  /** The queue after `enqueue(x)`. */
  function Enqueued<T>(v: QueueView<T>, x: T): (w: QueueView<T>)
    requires WellFormed(v)
    ensures WellFormed(w)
  {
    QueueView(v.items + [x], GrownCapacity(|v.items|, v.capacity))
  }

  /** What `dequeue()` returns or throws, and the queue after it. */
  function Dequeued<T>(v: QueueView<T>): (p: (Result<T>, QueueView<T>))
    requires WellFormed(v)
    ensures WellFormed(p.1)
  {
    if v.items == [] then (Err(EmptyMessage), v)
    else (Ok(v.items[0]), QueueView(v.items[1..], ShrunkCapacity(|v.items| - 1, v.capacity)))
  }

  class Queue<T(0)> {
    var data: array<T>
    var size: nat
    var capacity: nat
    var location: nat

    /**
     * As for the stack, the buffer has `capacity` or `capacity + 1` slots; the live range
     * `[location, location + size)` lies inside it.
     */
    ghost predicate Valid()
      reads this
    {
      1 <= capacity && size <= capacity <= data.Length <= capacity + 1 &&
      location + size <= data.Length
    }

    ghost function Contents(): seq<T>
      reads this, data
      requires Valid()
    {
      data[location..location + size]
    }

    ghost function View(): QueueView<T>
      reads this, data
      requires Valid()
    {
      QueueView(Contents(), capacity)
    }

    /** `ABQ()`: an empty queue of capacity 1. */
    constructor ()
      ensures Valid() && fresh(data)
      ensures Contents() == [] && capacity == 1 && location == 0
    {
      data := new T[1];
      size, capacity, location := 0, 1, 0;
    }

    /** `ABQ(capacity)`; a capacity of 0 is excluded (see README). */
    constructor WithCapacity(capacity: nat)
      requires 1 <= capacity
      ensures Valid() && fresh(data)
      ensures Contents() == [] && this.capacity == capacity && location == 0 && data.Length == capacity
    {
      data := new T[capacity];
      size, location := 0, 0;
      this.capacity := capacity;
    }

    /** The copy constructor: same size, capacity, location and elements, in a buffer of its own. */
    constructor Copy(other: Queue<T>)
      requires other.Valid()
      ensures Valid() && fresh(data)
      ensures size == other.size && capacity == other.capacity && location == other.location
      ensures Contents() == other.Contents()
    {
      var copy := Reallocate(other.data, 0, other.location + other.size, other.data.Length);
      data := copy;
      size, capacity, location := other.size, other.capacity, other.location;
      assert copy[..other.location + other.size][other.location..] == other.Contents();
    }

    /** Copy assignment: a deep copy of `other` into a fresh buffer; `a = a` loses nothing. */
    method AssignFrom(other: Queue<T>)
      requires other.Valid()
      modifies this
      ensures Valid() && fresh(data)
      ensures size == old(other.size) && capacity == old(other.capacity) && location == old(other.location)
      ensures Contents() == old(other.Contents())
    {
      var copy := Reallocate(other.data, 0, other.location + other.size, other.data.Length);
      data, size, capacity, location := copy, other.size, other.capacity, other.location;
      assert data[..location + size][location..] == Contents();
    }

    /**
     * `increase_capacity`: when full, move the live elements, in order, to the front of a
     * buffer twice as large. When not full but the live range already reaches the end of
     * the buffer, move them to the front of a buffer of the same capacity, so that the
     * next write at `location + size` is in bounds.
     */
    method IncreaseCapacity()
      requires Valid()
      modifies this
      ensures Valid() && size == old(size) && size < capacity && location + size < data.Length
      ensures Contents() == old(Contents())
      ensures capacity == GrownCapacity(old(size), old(capacity))
      ensures old(size) == old(capacity) ==> fresh(data) && data.Length == capacity && location == 0
      ensures data == old(data) || (fresh(data) && location == 0)
      ensures old(size) < old(capacity) && old(location) + old(size) < old(data.Length) ==>
                data == old(data) && location == old(location)
    {
      if size == capacity {
        capacity := capacity * 2;
        data := Reallocate(data, location, size, capacity);
        location := 0;
      } else if location + size == data.Length {
        data := Reallocate(data, location, size, capacity);
        location := 0;
      }
    }

    /**
     * `shrink_capacity`, called right after a removal, while the removed front element still
     * sits at `data[location]` and the survivors follow it: when less than half full, halve
     * the capacity (at least 1) and move `size + 1` slots from `location` on, the removed
     * element included, to the front of a buffer of `capacity + 1` slots.
     */
    method ShrinkCapacity()
      requires Valid() && size < capacity && location + size < data.Length
      modifies this
      ensures Valid() && size == old(size) && location + size < data.Length
      ensures data[location..location + size + 1] == old(data[location..location + size + 1])
      ensures capacity == ShrunkCapacity(old(size), old(capacity))
      ensures 2 * old(size) < old(capacity) ==> fresh(data) && data.Length == capacity + 1 && location == 0
      ensures old(capacity) <= 2 * old(size) ==> data == old(data) && location == old(location)
    {
      if 2 * size < capacity {
        capacity := capacity / 2;
        if capacity == 0 {
          capacity := 1;
        }
        data := Reallocate(data, location, size + 1, capacity + 1);
        location := 0;
      }
    }

    /** `add`: write just past the live range and count it. */
    method Add(x: T)
      requires Valid() && size < capacity && location + size < data.Length
      modifies this, data
      ensures Valid() && data == old(data) && capacity == old(capacity) && location == old(location)
      ensures Contents() == old(Contents()) + [x]
    {
      data[location + size] := x;
      size := size + 1;
    }

    /** `inc_location`: advance the front by one and return where it was. */
    method IncLocation() returns (i: nat)
      modifies this`location
      ensures i == old(location) && location == old(location) + 1
    {
      location := location + 1;
      i := location - 1;
    }

    /** `enqueue`: never fails; the element goes at the back. */
    method Enqueue(x: T)
      requires Valid()
      modifies this, data
      ensures Valid() && (data == old(data) || fresh(data))
      ensures Contents() == old(Contents()) + [x]
      ensures capacity == GrownCapacity(old(size), old(capacity))
      ensures View() == Enqueued(old(View()), x)
    {
      IncreaseCapacity();
      Add(x);
    }

    /**
     * `dequeue`: throws on an empty queue before changing anything; otherwise removes and
     * returns the element that was at the front before the call, whether or not it shrank.
     */
    method Dequeue() returns (r: Result<T>)
      requires Valid()
      modifies this
      ensures Valid() && (data == old(data) || fresh(data))
      ensures old(size) == 0 ==> r == Err(EmptyMessage) && unchanged(this)
      ensures old(size) > 0 ==> r == Ok(old(Contents())[0]) && Contents() == old(Contents())[1..]
      ensures old(size) > 0 ==> capacity == ShrunkCapacity(old(size) - 1, old(capacity))
      ensures (r, View()) == Dequeued(old(View()))
    {
      if size == 0 {
        return Err(EmptyMessage);
      }
      ghost var live := Contents();
      size := size - 1;
      ShrinkCapacity();
      assert data[location..location + size + 1] == live;
      var front := IncLocation();
      r := Ok(data[front]);
      assert Contents() == live[1..];
    }

    /** `peek`: the front element, or the error an empty queue throws; changes nothing. */
    function Peek(): (r: Result<T>)
      reads this, data
      requires Valid()
      ensures r.Err? <==> Contents() == []
      ensures r.Err? ==> r.message == EmptyMessage
      ensures r.Ok? ==> r.value == Contents()[0]
    {
      if size == 0 then Err(EmptyMessage) else Ok(data[location])
    }

    /** `getSize`. */
    function Size(): (n: nat)
      reads this, data
      requires Valid()
      ensures n == |Contents()|
    {
      size
    }

    /** `getMaxCapacity`: never below 1, never below the size. */
    function MaxCapacity(): (c: nat)
      reads this, data
      requires Valid()
      ensures 1 <= c && |Contents()| <= c
    {
      capacity
    }
  }
}
