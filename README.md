# Array-based stack and queue

A Dafny model of the two containers of `ABS.h` and `ABQ.h`: `ABS<T>`, a stack, and `ABQ<T>`, a
queue. Each owns one buffer and keeps a size and a capacity. A push or enqueue doubles the
capacity when the buffer is full. A pop or dequeue halves it, truncating, when less than half
of it is in use. The queue also keeps a front offset, `_location`. Its live elements are
`_data[_location .. _location + _size)`, and every reallocation moves them to the front of the
new buffer and resets `_location` to 0.

Modules:

- `Results` (`results.dfy`): `Result<T>`, either `Ok(value)` or `Err(message)`. An `Err` stands
  for the `std::runtime_error` that `pop`, `dequeue` and `peek` throw, with the same message.
- `Resize` (`resize.dfy`): the shared growth and shrink policy (`GrownCapacity`,
  `ShrunkCapacity`). It also has the reallocation step every resize performs: allocate a fresh
  buffer and copy a run of slots to its front (`Reallocate`).
- `ArrayStack` (`array_stack.dfy`): the class `Stack<T>`, with fields `data`, `size` and
  `capacity`, a `Valid()` invariant and the ghost contents `data[..size]`. Also the observable
  state `StackView` (contents and capacity) and the transition functions `Pushed` and `Popped`.
- `ArrayQueue` (`array_queue.dfy`): the class `Queue<T>`, which adds `location`, with the
  contents `data[location..location + size]`. Also `QueueView`, `Enqueued` and `Dequeued`.
- `StackLaws` and `QueueLaws` (`stack_laws.dfy`, `queue_laws.dfy`): `Run` interprets a
  sequence of calls on the observable state. The laws over such sequences are proved there:
  LIFO, FIFO, the size law, the capacity bounds and two worked scenarios. `Execute` proves
  that a stack or queue object follows `Run` call for call, so the laws hold of the objects.
- `AsWritten` (`as_written.dfy`): construction and the push/pop and enqueue/dequeue paths of
  both containers as written, as functions on values over `int` elements. It leaves out
  `peek`, the getters and `copy_from_object`, and exists to exhibit the defects listed under
  Findings.

How the model treats the source:

- The resize test `size / capacity < 1 / 2.0f` is the exact integer test `2 * size < capacity`.
  `capacity * 2.0f` and `capacity / 2.0f` become `capacity * 2` and `capacity / 2` (truncating).
- The shrink is modelled as written. It allocates `capacity + 1` slots and copies `size + 1`
  of them: the live elements plus the one just removed. That is how `pop` can still read
  `_data[_size]` after the reallocation. In the queue, the removed front lands at index 0,
  `inc_location` returns 0, and `location` becomes 1. The invariant is therefore
  `size <= capacity <= data.Length <= capacity + 1`. The model copies `size + 1` slots, as
  ABS.h:67 and ABQ.h:69 do.
- From capacity 1, pushing 1, 2, 3, 4 reaches capacity 4, because a push grows only a full
  buffer and does so before writing (ABS.h:85, ABS.h:206-207). `StackLaws.Scenario` proves it.

Deviations from the source (each one is a fix):

- A shrink never takes the capacity below 1. The constructors with a capacity argument require
  at least 1. Without this, a capacity of 0 leads to a write outside the buffer (Findings).
- The queue's `add` writes at `location + size`, not at `size` (Findings).
- The queue's `increase_capacity` has a second case. When the buffer is not full but
  `location + size` has reached the end of the buffer, it moves the live elements to the
  front of a fresh buffer of the same capacity. Otherwise the corrected write would fall
  outside the buffer. The capacity policy is unchanged: it still doubles only when full.
- `copy_from_object` does not compile as written. It calls `object[i]` on a class without
  `operator[]`, and it presets `_size` before `add` increments it again. The model is the
  intended deep copy: same size, capacity and live elements (and, for the queue, the same
  `location`) in a fresh buffer. The queue copy allocates as many slots as the source buffer
  has, because `location + size` may exceed the capacity by one after a shrink.

## Model

| member | source | states |
|---|---|---|
| `Resize.GrownCapacity` | ABS.h:83-101 | the grown capacity is at least the old one and leaves room for one more element; it is unchanged unless the buffer is full |
| `Resize.ShrunkCapacity` | ABS.h:55-76 | the shrunk capacity is at least 1, at most the old one and never below the size; nothing shrinks while at least half full |
| `Resize.Reallocate` | ABS.h:89-95 | a fresh buffer of the requested length whose first `count` slots are the source slots `[from, from + count)`, in order |
| `ArrayStack.Pushed` | ABS.h:204-208 | a push keeps capacity at least 1 and at least the size |
| `ArrayStack.Popped` | ABS.h:218-226 | a pop keeps capacity at least 1 and at least the size |
| `ArrayStack.Stack.constructor` | ABS.h:145-150 | a fresh empty stack of capacity 1 |
| `ArrayStack.Stack.WithCapacity` | ABS.h:159-164 | a fresh empty stack with the given capacity |
| `ArrayStack.Stack.Copy` | ABS.h:131-139 | the copy has the same size, capacity and elements, in a newly allocated buffer |
| `ArrayStack.Stack.AssignFrom` | ABS.h:179-185 | after assignment the stack has the source's old size, capacity and elements in a fresh buffer, also when assigning a stack to itself |
| `ArrayStack.Stack.IncreaseCapacity` | ABS.h:83-101 | doubles the capacity exactly when size equals capacity, into a fresh buffer, with elements `[0, size)` at the same positions; otherwise nothing changes |
| `ArrayStack.Stack.ShrinkCapacity` | ABS.h:55-76 | shrinks only when `2 * size < capacity`, to the halved capacity (at least 1), into a fresh buffer of `capacity + 1` slots; slots `[0, size + 1)`, the removed element included, keep their values |
| `ArrayStack.Stack.Add` | ABS.h:113-117 | the element is appended to the contents in the same buffer |
| `ArrayStack.Stack.Push` | ABS.h:204-208 | never fails; the contents become the old contents followed by the element, and the capacity doubles exactly when the stack was full |
| `ArrayStack.Stack.Pop` | ABS.h:218-226 | on an empty stack, throws "Stack is empty." and changes nothing; otherwise returns the old top, removes exactly it, and applies the shrink policy |
| `ArrayStack.Stack.Peek` | ABS.h:232-238 | the top element (position `size - 1`) without any change, or "Stack is empty." exactly when empty |
| `ArrayStack.Stack.Size` | ABS.h:245-248 | the number of elements |
| `ArrayStack.Stack.MaxCapacity` | ABS.h:255-258 | the capacity, never below 1 nor below the size |
| `StackLaws.Run` | ABS.h:204-226 | every state reached by pushes and pops keeps `1 <= capacity` and `size <= capacity`; one outcome per pop |
| `StackLaws.RunPushes` | ABS.h:204-208 | pushing a sequence stacks its elements on top, in order |
| `StackLaws.RunPops` | ABS.h:218-226 | `n` pops return the top `n` elements, top first, and leave the rest |
| `StackLaws.Lifo` | ABS.h:223-225 | pushing `xs` then popping as many times returns `xs` reversed and restores the old contents |
| `StackLaws.SizeLaw` | ABS.h:113-117 | final size = initial size + pushes - pops that returned a value |
| `StackLaws.Scenario` | ABS.h:83-101 | from capacity 1, pushing 1..4 gives capacity 4; four pops return 4, 3, 2, 1 and end at capacity 1 |
| `StackLaws.Execute` | ABS.h:204-226 | a stack object run through any calls ends in the state, and reports the outcomes, that `Run` gives |
| `ArrayQueue.Enqueued` | ABQ.h:228-232 | an enqueue keeps capacity at least 1 and at least the size |
| `ArrayQueue.Dequeued` | ABQ.h:242-250 | a dequeue keeps capacity at least 1 and at least the size |
| `ArrayQueue.Queue.constructor` | ABQ.h:167-173 | a fresh empty queue of capacity 1 with location 0 |
| `ArrayQueue.Queue.WithCapacity` | ABQ.h:182-188 | a fresh empty queue with the given capacity and location 0 |
| `ArrayQueue.Queue.Copy` | ABQ.h:139-148 | the copy has the same size, capacity, location and elements, in a newly allocated buffer |
| `ArrayQueue.Queue.AssignFrom` | ABQ.h:203-209 | after assignment the queue has the source's old size, capacity, location and elements in a fresh buffer, also when assigning a queue to itself |
| `ArrayQueue.Queue.IncreaseCapacity` | ABQ.h:88-110 | doubles the capacity exactly when full, copying the live elements from `location` on to `[0, size)` in order and resetting location to 0; leaves room at `location + size` |
| `ArrayQueue.Queue.ShrinkCapacity` | ABQ.h:57-82 | shrinks only when `2 * size < capacity`, to the halved capacity (at least 1); copies `size + 1` slots from `location` on, so the removed front lands at index 0, and resets location to 0 |
| `ArrayQueue.Queue.Add` | ABQ.h:120-125 | the element is appended at the back of the contents in the same buffer |
| `ArrayQueue.Queue.IncLocation` | ABQ.h:157-161 | returns the old location and advances it by exactly one |
| `ArrayQueue.Queue.Enqueue` | ABQ.h:228-232 | never fails; the contents become the old contents followed by the element, and the capacity doubles exactly when the queue was full |
| `ArrayQueue.Queue.Dequeue` | ABQ.h:242-250 | on an empty queue, throws "Queue is empty." and changes nothing; otherwise returns the front held before the call, shrunk or not, and the contents lose exactly it |
| `ArrayQueue.Queue.Peek` | ABQ.h:256-262 | the front element without any change, or "Queue is empty." exactly when empty |
| `ArrayQueue.Queue.Size` | ABQ.h:269-272 | the number of elements |
| `ArrayQueue.Queue.MaxCapacity` | ABQ.h:279-282 | the capacity, never below 1 nor below the size |
| `QueueLaws.Run` | ABQ.h:228-250 | every state reached by enqueues and dequeues keeps `1 <= capacity` and `size <= capacity`; one outcome per dequeue |
| `QueueLaws.RunEnqueues` | ABQ.h:228-232 | enqueueing a sequence puts its elements at the back, in order |
| `QueueLaws.RunDequeues` | ABQ.h:242-250 | `n` dequeues return the first `n` elements, front first, and leave the rest |
| `QueueLaws.Fifo` | ABQ.h:247-249 | enqueueing `xs` then dequeueing everything returns the old contents followed by `xs`, in order, and empties the queue |
| `QueueLaws.DequeuedSplits` | ABQ.h:242-250 | a dequeue's returned value (none when it throws) followed by the remaining contents is exactly the contents before the call |
| `QueueLaws.FifoOrder` | ABQ.h:228-250 | for any start and any interleaving of enqueues and dequeues: the values dequeued, followed by what is still queued, equal the starting contents followed by every enqueued argument in call order |
| `QueueLaws.SizeLaw` | ABQ.h:120-125 | final size = initial size + enqueues - dequeues that returned a value |
| `QueueLaws.Scenario` | ABQ.h:228-250 | of the corrected queue (the write at `location + size`): from capacity 1, enqueue a, b, c; dequeue gives a; enqueue d; two dequeues give b, c; ['d'] remains at capacity 2. With `add` as written at ABQ.h:123 the same calls return a, b, d |
| `QueueLaws.Execute` | ABQ.h:228-250 | a queue object run through any calls ends in the state, and reports the outcomes, that `Run` gives |
| `AsWritten.NewRawStack` | ABS.h:159-164 | `ABS(capacity)` as written: empty, with the given capacity (0 accepted) and that many slots |
| `AsWritten.StackIncrease` | ABS.h:83-101 | as written: nothing changes unless full; when full, the capacity doubles (0 stays 0), the buffer has exactly that many slots, and the elements keep their positions |
| `AsWritten.StackAdd` | ABS.h:113-117 | as written: writes at `buf[size]`; `OutOfBounds` exactly when `size` is not below the buffer length; otherwise the element follows the old elements |
| `AsWritten.StackPush` | ABS.h:204-208 | as written: a push with size and capacity 0 always writes outside the buffer; a completed push stores the element at the old size |
| `AsWritten.StackShrink` | ABS.h:55-76 | as written: nothing changes while at least half full; otherwise the capacity halves, truncating, into `capacity + 1` slots holding the first `size + 1` old ones; from capacity 1 and size 0 it reaches capacity 0 |
| `AsWritten.StackPop` | ABS.h:218-226 | as written: throws exactly when empty; a completed pop returns the old top and lowers the size by one |
| `AsWritten.NewRawQueue` | ABQ.h:182-188 | `ABQ(capacity)` as written: empty, location 0, with the given capacity (0 accepted) and that many slots |
| `AsWritten.QueueIncrease` | ABQ.h:88-110 | as written: nothing changes unless full, whatever `location` is; when full, the capacity doubles, the live range moves to the front and location becomes 0 |
| `AsWritten.QueueAdd` | ABQ.h:120-125 | as written: writes at `buf[size]` whatever `location` is, leaving every other slot and the location alone; `OutOfBounds` exactly when `size` is not below the buffer length |
| `AsWritten.QueueEnqueue` | ABQ.h:228-232 | as written: an enqueue with size and capacity 0 always writes outside the buffer; a completed enqueue on a non-full queue stores the element at `buf[size]`, not at `location + size` |
| `AsWritten.QueueShrink` | ABQ.h:57-82 | as written: nothing changes while at least half full; otherwise the capacity halves, truncating, into `capacity + 1` slots holding the `size + 1` slots from `location` on, and location becomes 0; from capacity 1 and size 0 it reaches capacity 0 |
| `AsWritten.QueueDequeue` | ABQ.h:242-250 | as written: throws exactly when empty; a completed dequeue returns the slot at the old `location` and lowers the size by one |
| `AsWritten.StackRefillWritesOutOfBounds` | ABS.h:55-117 | as written, filling and draining a capacity-1 stack leaves capacity 0, and the next push writes outside the buffer; so does the first push on `ABS(0)` |
| `AsWritten.QueueRefillWritesOutOfBounds` | ABQ.h:57-125 | as written, filling and draining a capacity-1 queue leaves capacity 0, and the next enqueue writes outside the buffer |
| `AsWritten.QueueAddOverwritesLiveElement` | ABQ.h:120-125 | as written, an enqueue after a dequeue overwrites a live element, and a later dequeue returns a value out of order |

## Left out

- `print()` (ABS.h:274-283, ABQ.h:298-307): console output for debugging only.
- `getData()` (ABS.h:265-268, ABQ.h:289-292): it hands out the internal buffer pointer. The model keeps `data` as a field that callers may read, and has no separate accessor.
- Destructors and `delete[]`: Dafny has no explicit deallocation. Exclusive ownership shows instead as a buffer that is `fresh` whenever one is allocated.
- Copy assignment's `delete[]` before the copy, and its self-assignment hazard: there is nothing to delete. `AssignFrom` copies from the source before replacing the buffer, so `a = a` is safe.
- `unsigned int` arithmetic: sizes, capacities and locations are unbounded naturals. The wrap-around of `_location++` past 2^32 - 1 is not modelled. Growth multiplies by the float `scale_factor` and converts back to `unsigned int` (ABS.h:88, ABQ.h:92); that result rounds above 2^24 and is undefined at 2^32 or more, and neither is modelled.
- Floating point: the resize tests are replaced by their exact integer equivalents, as described above. They differ from the float computation only for sizes beyond 2^24.
- Uninitialised slots: a fresh buffer is default-initialised (`T(0)` in the classes, zeros in `AsWritten`). Slots outside the live range are never observed by the model's contracts. One exception is `AsWritten.QueueAddOverwritesLiveElement`: there the last shrink copies a slot that was never written into the live range, so the `0` left in the queue stands for an indeterminate value in the source.
- ArrayStack.Stack.WithCapacity: requires a capacity of at least 1. `ABS(0)` is accepted by the source but makes the first push write outside the buffer.
- ArrayQueue.Queue.WithCapacity: requires a capacity of at least 1, for the same reason as the stack.
- ArrayQueue.Queue.Copy: allocates as many slots as the source's buffer rather than `_capacity`, so that the copied location stays valid.

## Findings

| source | as written | input that shows it | evidently intended | confidence | as-written member | corrected member |
|---|---|---|---|---|---|---|
| ABS.h:63 | `_capacity / scale_factor` truncates a capacity of 1 to 0. `increase_capacity` then doubles 0 to 0, and `add` writes `_data[0]` into a 0-slot buffer | `ABS<int>()`: push(7), pop(), push(8); or `ABS<int>(0)` then push(8) | the capacity never drops below 1 | not executed; high | `AsWritten.StackRefillWritesOutOfBounds` | `Resize.ShrunkCapacity` |
| ABQ.h:64 | the same truncation in the queue's shrink, followed by the same out-of-bounds write in `add` | `ABQ<int>()`: enqueue(7), dequeue(), enqueue(8) | the capacity never drops below 1 | not executed; high | `AsWritten.QueueRefillWritesOutOfBounds` | `ArrayQueue.Queue.ShrinkCapacity` |
| ABQ.h:123 | `add` writes at `_data[_size]` and ignores `_location`. After a dequeue without a shrink, this overwrites a live element | `ABQ<int>()`: enqueue 1, 2, 3; dequeue (1); enqueue 4; dequeue (2); dequeue returns 4, and 3 is lost; the queue is then left holding a slot that was never written | write at `_location + _size`, keeping first-in, first-out order | not executed; high | `AsWritten.QueueAddOverwritesLiveElement` | `ArrayQueue.Queue.Add` |
