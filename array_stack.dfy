/**
 * The array-based stack `ABS<T>`: one buffer, a size and a capacity. The elements sit in
 * `data[0..size)` with the top at `size - 1`. A push doubles the capacity when the buffer
 * is full; a pop halves it when less than half of it is in use.
 */
module ArrayStack {
  import opened Results
  import opened Resize

  const EmptyMessage := "Stack is empty."

  /** What a caller can observe of a stack: its elements, bottom first, and its capacity. */
  datatype StackView<T> = StackView(items: seq<T>, capacity: nat)

  predicate WellFormed<T>(v: StackView<T>) {
    1 <= v.capacity && |v.items| <= v.capacity
  }

  /** The stack after `push(x)`. */
  function Pushed<T>(v: StackView<T>, x: T): (w: StackView<T>)
    requires WellFormed(v)
    ensures WellFormed(w)
  {
    StackView(v.items + [x], GrownCapacity(|v.items|, v.capacity))
  }

  /** What `pop()` returns or throws, and the stack after it. */
  function Popped<T>(v: StackView<T>): (p: (Result<T>, StackView<T>))
    requires WellFormed(v)
    ensures WellFormed(p.1)
  {
    if v.items == [] then (Err(EmptyMessage), v)
    else
      var n := |v.items| - 1;
      (Ok(v.items[n]), StackView(v.items[..n], ShrunkCapacity(n, v.capacity)))
  }

  class Stack<T(0)> {
    var data: array<T>
    var size: nat
    var capacity: nat

    /**
     * The buffer has at least `capacity` slots and at most one more: a shrink allocates
     * `capacity + 1` slots so that the element just removed stays readable.
     */
    ghost predicate Valid()
      reads this
    {
      1 <= capacity && size <= capacity <= data.Length <= capacity + 1
    }

    ghost function Contents(): seq<T>
      reads this, data
      requires Valid()
    {
      data[..size]
    }

    ghost function View(): StackView<T>
      reads this, data
      requires Valid()
    {
      StackView(Contents(), capacity)
    }

    /** `ABS()`: an empty stack of capacity 1. */
    constructor ()
      ensures Valid() && fresh(data)
      ensures Contents() == [] && capacity == 1
    {
      data := new T[1];
      size, capacity := 0, 1;
    }

    /** `ABS(capacity)`; a capacity of 0 is excluded (see README). */
    constructor WithCapacity(capacity: nat)
      requires 1 <= capacity
      ensures Valid() && fresh(data)
      ensures Contents() == [] && this.capacity == capacity && data.Length == capacity
    {
      data := new T[capacity];
      size := 0;
      this.capacity := capacity;
    }

    /** The copy constructor: same size, capacity and elements, in a buffer of its own. */
    constructor Copy(other: Stack<T>)
      requires other.Valid()
      ensures Valid() && fresh(data)
      ensures size == other.size && capacity == other.capacity && Contents() == other.Contents()
    {
      var copy := Reallocate(other.data, 0, other.size, other.capacity);
      data := copy;
      size := other.size;
      capacity := other.capacity;
    }

    /** Copy assignment: a deep copy of `other` into a fresh buffer; `a = a` loses nothing. */
    method AssignFrom(other: Stack<T>)
      requires other.Valid()
      modifies this
      ensures Valid() && fresh(data)
      ensures size == old(other.size) && capacity == old(other.capacity)
      ensures Contents() == old(other.Contents())
    {
      var copy := Reallocate(other.data, 0, other.size, other.capacity);
      data, size, capacity := copy, other.size, other.capacity;
    }

    /** `increase_capacity`: when full, move the elements to the same positions of a buffer twice as large. */
    method IncreaseCapacity()
      requires Valid()
      modifies this
      ensures Valid() && size == old(size) && size < capacity
      ensures Contents() == old(Contents())
      ensures capacity == GrownCapacity(old(size), old(capacity))
      ensures old(size) == old(capacity) ==> fresh(data) && data.Length == capacity
      ensures old(size) < old(capacity) ==> data == old(data)
    {
      if size == capacity {
        capacity := capacity * 2;
        data := Reallocate(data, 0, size, capacity);
      }
    }

    /**
     * `shrink_capacity`, called right after a removal, while the removed element still sits
     * at `data[size]`: when less than half full, halve the capacity (at least 1) and move
     * `size + 1` slots, the removed element included, to a buffer of `capacity + 1` slots.
     */
    method ShrinkCapacity()
      requires Valid() && size < capacity
      modifies this
      ensures Valid() && size == old(size) && size < data.Length
      ensures data[..size + 1] == old(data[..size + 1])
      ensures capacity == ShrunkCapacity(old(size), old(capacity))
      ensures 2 * old(size) < old(capacity) ==> fresh(data) && data.Length == capacity + 1
      ensures old(capacity) <= 2 * old(size) ==> data == old(data)
    {
      if 2 * size < capacity {
        capacity := capacity / 2;
        if capacity == 0 {
          capacity := 1;
        }
        data := Reallocate(data, 0, size + 1, capacity + 1);
      }
    }

    /** `add`: write at `data[size]` and count it. */
    method Add(x: T)
      requires Valid() && size < capacity
      modifies this, data
      ensures Valid() && data == old(data) && capacity == old(capacity)
      ensures Contents() == old(Contents()) + [x]
    {
      data[size] := x;
      size := size + 1;
    }

    /** `push`: never fails; the element goes on top. */
    method Push(x: T)
      requires Valid()
      modifies this, data
      ensures Valid() && (data == old(data) || fresh(data))
      ensures Contents() == old(Contents()) + [x]
      ensures capacity == GrownCapacity(old(size), old(capacity))
      ensures View() == Pushed(old(View()), x)
    {
      IncreaseCapacity();
      Add(x);
    }

    /** `pop`: throws on an empty stack before changing anything; otherwise removes and returns the top. */
    method Pop() returns (r: Result<T>)
      requires Valid()
      modifies this
      ensures Valid() && (data == old(data) || fresh(data))
      ensures old(size) == 0 ==> r == Err(EmptyMessage) && unchanged(this)
      ensures old(size) > 0 ==> r == Ok(old(Contents())[old(size) - 1])
      ensures old(size) > 0 ==> Contents() == old(Contents())[..old(size) - 1]
      ensures old(size) > 0 ==> capacity == ShrunkCapacity(old(size) - 1, old(capacity))
      ensures (r, View()) == Popped(old(View()))
    {
      if size == 0 {
        return Err(EmptyMessage);
      }
      size := size - 1;
      ShrinkCapacity();
      r := Ok(data[size]);
    }

    /** `peek`: the top element, or the error an empty stack throws; changes nothing. */
    function Peek(): (r: Result<T>)
      reads this, data
      requires Valid()
      ensures r.Err? <==> Contents() == []
      ensures r.Err? ==> r.message == EmptyMessage
      ensures r.Ok? ==> r.value == Contents()[|Contents()| - 1]
    {
      if size == 0 then Err(EmptyMessage) else Ok(data[size - 1])
    }

    /** `getSize`. */
    function Size(): (n: nat)
      reads this, data
      requires Valid()
      ensures n == |Contents()|
    {
      size
    }

    /** `getMaxCapacity`: never below 1, never below the size. */
    function MaxCapacity(): (c: nat)
      reads this, data
      requires Valid()
      ensures 1 <= c && |Contents()| <= c
    {
      capacity
    }
  }
}
