/**
 * The growth and shrink policy that both containers share, and the reallocation step
 * (allocate a fresh buffer, copy a run of slots to its front) that every resize performs.
 * The scale factor is 2; the source's floating-point test `size / capacity < 1 / 2.0` is
 * the integer test `2 * size < capacity`.
 */
module Resize {

  /** Capacity after `increase_capacity`: doubled when the buffer is full, so there is room for one more. */
  function GrownCapacity(size: nat, capacity: nat): (c: nat)
    requires 1 <= capacity && size <= capacity
    ensures capacity <= c && size < c
    ensures size < capacity ==> c == capacity
  {
    if size == capacity then capacity * 2 else capacity
  }

  /**
   * Capacity after `shrink_capacity`, called once a removal has left `size` elements:
   * halved (truncating) when less than half full, but never below 1, never below `size`.
   */
  function ShrunkCapacity(size: nat, capacity: nat): (c: nat)
    requires 1 <= capacity && size < capacity
    ensures 1 <= c <= capacity && size <= c
    ensures capacity <= 2 * size ==> c == capacity
  {
    if 2 * size < capacity then
      if capacity / 2 == 0 then 1 else capacity / 2
    else
      capacity
  }

  /** A fresh buffer of `length` slots whose first `count` slots are `src[from..from + count]`. */
  method Reallocate<T(0)>(src: array<T>, from: nat, count: nat, length: nat) returns (dst: array<T>)
    requires from + count <= src.Length && count <= length
    ensures fresh(dst) && dst.Length == length
    ensures dst[..count] == src[from..from + count]
  {
    dst := new T[length];
    for i := 0 to count
      invariant forall k :: 0 <= k < i ==> dst[k] == src[from + k]
    {
      dst[i] := src[from + i];
    }
  }
}
