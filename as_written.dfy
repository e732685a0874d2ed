/**
 * Construction and the push/pop and enqueue/dequeue paths of the two containers as the
 * source writes them, as functions on values, kept to exhibit the defects listed under
 * Findings in README.md. Peek, the getters and copying are not repeated here. Elements are
 * `int`; a fresh buffer is modelled as zero-filled. A call either completes, throws, or touches a slot
 * outside a buffer (`OutOfBounds`, undefined behaviour in the source).
 */
module AsWritten {
  import ArrayStack
  import ArrayQueue

  datatype Outcome<S> = Completed(result: S) | Thrown(message: string) | OutOfBounds

  function Zeros(n: nat): seq<int> {
    seq(n, _ => 0)
  }

  datatype RawStack = RawStack(buf: seq<int>, size: nat, capacity: nat)

  /** `ABS(capacity)`, which accepts 0. */
  function NewRawStack(capacity: nat): (s: RawStack)
    ensures s.size == 0 && s.capacity == capacity && |s.buf| == capacity
  {
    RawStack(Zeros(capacity), 0, capacity)
  }

  /** `increase_capacity` as written: `capacity * 2`, which stays 0 when the capacity is 0. */
  function StackIncrease(s: RawStack): (o: Outcome<RawStack>)
    ensures s.size != s.capacity ==> o == Completed(s)
    ensures s.size == s.capacity <= |s.buf| ==>
              o.Completed? && o.result.size == s.size && o.result.capacity == 2 * s.capacity
              && |o.result.buf| == o.result.capacity && o.result.buf[..s.size] == s.buf[..s.size]
  {
    if s.size != s.capacity then Completed(s)
    else if s.size > |s.buf| then OutOfBounds
    else Completed(RawStack(s.buf[..s.size] + Zeros(s.capacity * 2 - s.size), s.size, s.capacity * 2))
  }

  /** `add` as written: the write at `buf[size]` is unchecked. */
  function StackAdd(s: RawStack, x: int): (o: Outcome<RawStack>)
    ensures o == OutOfBounds <==> |s.buf| <= s.size
    ensures o.Completed? ==>
              o.result.size == s.size + 1 && o.result.capacity == s.capacity
              && |o.result.buf| == |s.buf| && o.result.buf[..s.size + 1] == s.buf[..s.size] + [x]
  {
    if s.size < |s.buf| then Completed(RawStack(s.buf[s.size := x], s.size + 1, s.capacity))
    else OutOfBounds
  }

  function StackPush(s: RawStack, x: int): (o: Outcome<RawStack>)
    ensures s.size == 0 && s.capacity == 0 ==> o == OutOfBounds
    ensures o.Completed? ==> o.result.size == s.size + 1 && s.size < |o.result.buf| && o.result.buf[s.size] == x
  {
    match StackIncrease(s)
    case Completed(t) => StackAdd(t, x)
    case Thrown(m) => Thrown(m)
    case OutOfBounds => OutOfBounds
  }

  /**
   * `shrink_capacity` as written: `capacity / 2` truncates 1 to 0; the new buffer has
   * `capacity + 1` slots and receives `size + 1` of them.
   */
  function StackShrink(s: RawStack): (o: Outcome<RawStack>)
    ensures s.capacity <= 2 * s.size ==> o == Completed(s)
    ensures 2 * s.size < s.capacity && o.Completed? ==>
              s.size + 1 <= |s.buf| && o.result.size == s.size && o.result.capacity == s.capacity / 2
              && |o.result.buf| == o.result.capacity + 1 && o.result.buf[..s.size + 1] == s.buf[..s.size + 1]
    ensures s.size == 0 && s.capacity == 1 && 1 <= |s.buf| ==> o.Completed? && o.result.capacity == 0
  {
    if 2 * s.size < s.capacity then
      var c := s.capacity / 2;
      if s.size + 1 > |s.buf| || s.size > c then OutOfBounds
      else Completed(RawStack(s.buf[..s.size + 1] + Zeros(c - s.size), s.size, c))
    else
      Completed(s)
  }

  function StackPop(s: RawStack): (o: Outcome<(int, RawStack)>)
    ensures o.Thrown? <==> s.size == 0
    ensures o.Completed? ==>
              0 < s.size <= |s.buf| && o.result.0 == s.buf[s.size - 1] && o.result.1.size == s.size - 1
  {
    if s.size == 0 then Thrown(ArrayStack.EmptyMessage)
    else
      match StackShrink(s.(size := s.size - 1))
      case Completed(t) => if t.size < |t.buf| then Completed((t.buf[t.size], t)) else OutOfBounds
      case Thrown(m) => Thrown(m)
      case OutOfBounds => OutOfBounds
  }

  /**
   * A stack of capacity 1 that is filled and drained ends at capacity 0, and the next push
   * then writes outside a buffer of 0 slots; so does the first push on `ABS(0)`.
   */
  lemma StackRefillWritesOutOfBounds()
    ensures StackPush(NewRawStack(1), 7) == Completed(RawStack([7], 1, 1))
    ensures StackPop(RawStack([7], 1, 1)) == Completed((7, RawStack([7], 0, 0)))
    ensures StackPush(RawStack([7], 0, 0), 8) == OutOfBounds
    ensures StackPush(NewRawStack(0), 8) == OutOfBounds
  {
    assert Zeros(1) == [0] && Zeros(0) == [];
    assert [0][0 := 7] == [7];
    assert [7][..1] + Zeros(0) == [7];
  }

  datatype RawQueue = RawQueue(buf: seq<int>, size: nat, capacity: nat, location: nat)

  /** `ABQ(capacity)`, which accepts 0. */
  function NewRawQueue(capacity: nat): (q: RawQueue)
    ensures q.size == 0 && q.location == 0 && q.capacity == capacity && |q.buf| == capacity
  {
    RawQueue(Zeros(capacity), 0, capacity, 0)
  }

  /** `increase_capacity` as written: only a full buffer triggers it. */
  function QueueIncrease(q: RawQueue): (o: Outcome<RawQueue>)
    ensures q.size != q.capacity ==> o == Completed(q)
    ensures q.size == q.capacity && q.location + q.size <= |q.buf| ==>
              o.Completed? && o.result.size == q.size && o.result.capacity == 2 * q.capacity
              && o.result.location == 0 && |o.result.buf| == o.result.capacity
              && o.result.buf[..q.size] == q.buf[q.location..q.location + q.size]
  {
    if q.size != q.capacity then Completed(q)
    else if q.location + q.size > |q.buf| then OutOfBounds
    else
      var c := q.capacity * 2;
      Completed(RawQueue(q.buf[q.location..q.location + q.size] + Zeros(c - q.size), q.size, c, 0))
  }

  /** `add` as written: the write goes to `buf[size]`, whatever `location` is. */
  function QueueAdd(q: RawQueue, x: int): (o: Outcome<RawQueue>)
    ensures o == OutOfBounds <==> |q.buf| <= q.size
    ensures o.Completed? ==>
              o.result.size == q.size + 1 && o.result.location == q.location
              && |o.result.buf| == |q.buf| && o.result.buf[q.size] == x
              && (forall i :: 0 <= i < |q.buf| && i != q.size ==> o.result.buf[i] == q.buf[i])
  {
    if q.size < |q.buf| then Completed(q.(buf := q.buf[q.size := x], size := q.size + 1))
    else OutOfBounds
  }

  function QueueEnqueue(q: RawQueue, x: int): (o: Outcome<RawQueue>)
    ensures q.size == 0 && q.capacity == 0 ==> o == OutOfBounds
    ensures o.Completed? && q.size < q.capacity ==>
              o.result.location == q.location && q.size < |o.result.buf| && o.result.buf[q.size] == x
  {
    match QueueIncrease(q)
    case Completed(t) => QueueAdd(t, x)
    case Thrown(m) => Thrown(m)
    case OutOfBounds => OutOfBounds
  }

  /** `shrink_capacity` as written: as for the stack, reading from `location` on. */
  function QueueShrink(q: RawQueue): (o: Outcome<RawQueue>)
    ensures q.capacity <= 2 * q.size ==> o == Completed(q)
    ensures 2 * q.size < q.capacity && o.Completed? ==>
              q.location + q.size + 1 <= |q.buf| && o.result.size == q.size && o.result.capacity == q.capacity / 2
              && o.result.location == 0 && |o.result.buf| == o.result.capacity + 1 && o.result.buf[..q.size + 1] == q.buf[q.location..q.location + q.size + 1]
    ensures q.size == 0 && q.capacity == 1 && q.location + 1 <= |q.buf| ==> o.Completed? && o.result.capacity == 0
  {
    if 2 * q.size < q.capacity then
      var c := q.capacity / 2;
      if q.location + q.size + 1 > |q.buf| || q.size > c then OutOfBounds
      else Completed(RawQueue(q.buf[q.location..q.location + q.size + 1] + Zeros(c - q.size), q.size, c, 0))
    else
      Completed(q)
  }

  /** `dequeue` as written: decrement, shrink, then read at `inc_location()`. */
  function QueueDequeue(q: RawQueue): (o: Outcome<(int, RawQueue)>)
    ensures o.Thrown? <==> q.size == 0
    ensures o.Completed? ==>
              q.location < |q.buf| && o.result.0 == q.buf[q.location] && o.result.1.size == q.size - 1
  {
    if q.size == 0 then Thrown(ArrayQueue.EmptyMessage)
    else
      match QueueShrink(q.(size := q.size - 1))
      case Completed(t) =>
        if t.location < |t.buf| then Completed((t.buf[t.location], t.(location := t.location + 1)))
        else OutOfBounds
      case Thrown(m) => Thrown(m)
      case OutOfBounds => OutOfBounds
  }

  /**
   * From capacity 1: enqueue 1, 2, 3; dequeue gives 1; enqueue 4 overwrites the live 3 at
   * slot 2 (`size`, not `location + size`); the next two dequeues give 2 and then 4, so 3
   * is lost and the order is no longer first in, first out.
   */
  lemma QueueAddOverwritesLiveElement()
    ensures QueueEnqueue(NewRawQueue(1), 1) == Completed(RawQueue([1], 1, 1, 0))
    ensures QueueEnqueue(RawQueue([1], 1, 1, 0), 2) == Completed(RawQueue([1, 2], 2, 2, 0))
    ensures QueueEnqueue(RawQueue([1, 2], 2, 2, 0), 3) == Completed(RawQueue([1, 2, 3, 0], 3, 4, 0))
    ensures QueueDequeue(RawQueue([1, 2, 3, 0], 3, 4, 0)) == Completed((1, RawQueue([1, 2, 3, 0], 2, 4, 1)))
    ensures QueueEnqueue(RawQueue([1, 2, 3, 0], 2, 4, 1), 4) == Completed(RawQueue([1, 2, 4, 0], 3, 4, 1))
    ensures QueueDequeue(RawQueue([1, 2, 4, 0], 3, 4, 1)) == Completed((2, RawQueue([1, 2, 4, 0], 2, 4, 2)))
    ensures QueueDequeue(RawQueue([1, 2, 4, 0], 2, 4, 2)) == Completed((4, RawQueue([4, 0, 0], 1, 2, 1)))
  {
    assert Zeros(1) == [0] && Zeros(2) == [0, 0];
    assert [0][0 := 1] == [1];
    assert [1][0..1] + Zeros(1) == [1, 0] && [1, 0][1 := 2] == [1, 2];
    assert [1, 2][0..2] + Zeros(2) == [1, 2, 0, 0] && [1, 2, 0, 0][2 := 3] == [1, 2, 3, 0];
    assert [1, 2, 3, 0][2 := 4] == [1, 2, 4, 0];
    assert [1, 2, 4, 0][2..4] + Zeros(1) == [4, 0, 0];
  }

  /** As for the stack: a queue of capacity 1 that is filled and drained ends at capacity 0. */
  lemma QueueRefillWritesOutOfBounds()
    ensures QueueEnqueue(NewRawQueue(1), 7) == Completed(RawQueue([7], 1, 1, 0))
    ensures QueueDequeue(RawQueue([7], 1, 1, 0)) == Completed((7, RawQueue([7], 0, 0, 1)))
    ensures QueueEnqueue(RawQueue([7], 0, 0, 1), 8) == OutOfBounds
  {
    assert Zeros(1) == [0] && Zeros(0) == [];
    assert [0][0 := 7] == [7];
    assert [7][0..1] + Zeros(0) == [7];
    assert [7][1..1] + Zeros(0) == [];
  }
}
