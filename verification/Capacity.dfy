/** How the store's two growable arrays choose their capacity (reserve_events and
    reserve_processes in src/event_store.c), on a target with 64-bit size_t. */
module Capacity {
  import opened WideStrings

  const SIZE_MAX: nat := 0xFFFF_FFFF_FFFF_FFFF

  /** initial * 2^k. */
  function Step(initial: nat, k: nat): nat {
    if k == 0 then initial else 2 * Step(initial, k - 1)
  }

  /** One of the sizes initial, 2*initial, 4*initial, ... */
  ghost predicate IsStep(capacity: nat, initial: nat) {
    exists k: nat :: capacity == Step(initial, k)
  }

  lemma StepDoubles(capacity: nat, initial: nat)
    requires IsStep(capacity, initial)
    ensures IsStep(2 * capacity, initial)
  {
    var k: nat :| capacity == Step(initial, k);
    assert 2 * capacity == Step(initial, k + 1);
  }

  /** The doubling loop: the first capacity from `capacity` on that covers `required`, unless
      a doubling would overflow size_t. */
  function DoubleUntil(capacity: nat, required: nat): (r: Option<nat>)
    requires capacity > 0
    ensures r.Some? ==> r.value >= required && r.value >= capacity
    decreases required - capacity
  {
    if capacity >= required then Some(capacity)
    else if capacity > SIZE_MAX / 2 then None
    else DoubleUntil(2 * capacity, required)
  }

  /** The capacity to ask the allocator for, or None when it is not representable. */
  function Requested(capacity: nat, required: nat, initial: nat, size: nat): Option<nat>
    requires initial > 0 && size > 0
  {
    if capacity > SIZE_MAX / 2 then None
    else
      match DoubleUntil(if capacity == 0 then initial else 2 * capacity, required)
      case None => None
      case Some(c) => if c > SIZE_MAX / size then None else Some(c)
  }

  /** The outcome of a reservation: whether it succeeded, and the capacity afterwards. */
  datatype Reservation = Reservation(ok: bool, capacity: nat)

  function Reserve(capacity: nat, required: nat, initial: nat, size: nat, memory: bool): (r: Reservation)
    requires initial > 0 && size > 0
    ensures r.ok ==> r.capacity >= required && r.capacity >= capacity
    ensures !r.ok ==> r.capacity == capacity < required
  {
    if required <= capacity then Reservation(true, capacity)
    else
      match Requested(capacity, required, initial, size)
      case Some(c) => if memory then Reservation(true, c) else Reservation(false, capacity)
      case None => Reservation(false, capacity)
  }

  /** What every capacity the program ever holds satisfies. */
  ghost predicate Sound(capacity: nat, initial: nat, size: nat) {
    capacity == 0 || (IsStep(capacity, initial) && capacity * size <= SIZE_MAX)
  }

  lemma DivideBound(c: nat, size: nat, limit: nat)
    requires size > 0
    ensures c <= limit / size <==> c * size <= limit
  {
    var q := limit / size;
    assert q * size <= limit < (q + 1) * size;
    if c <= q {
      assert c * size <= q * size;
    } else {
      assert c * size >= (q + 1) * size;
    }
  }

  lemma {:induction false} DoubleUntilFinds(c: nat, required: nat, initial: nat)
    requires c > 0 && IsStep(c, initial)
    ensures var d := DoubleUntil(c, required);
      && (d.Some? ==> d.value >= required && d.value >= c && IsStep(d.value, initial))
      && (d.Some? ==> d.value == c || d.value < 2 * required)
      && (d.None? ==> 2 * required > SIZE_MAX && c < required)
    decreases required - c
  {
    if c >= required || c > SIZE_MAX / 2 {
    } else {
      StepDoubles(c, initial);
      DoubleUntilFinds(2 * c, required, initial);
    }
  }

  /** A reservation keeps the capacity sound. */
  lemma ReserveSound(capacity: nat, required: nat, initial: nat, size: nat, memory: bool)
    requires initial > 0 && size > 0 && Sound(capacity, initial, size)
    ensures var r := Reserve(capacity, required, initial, size, memory);
      Sound(r.capacity, initial, size)
  {
    if required > capacity && capacity <= SIZE_MAX / 2 {
      var first := if capacity == 0 then initial else 2 * capacity;
      assert IsStep(first, initial) by {
        if capacity == 0 {
          assert initial == Step(initial, 0);
        } else {
          StepDoubles(capacity, initial);
        }
      }
      DoubleUntilFinds(first, required, initial);
      var c := DoubleUntil(first, required);
      if c.Some? {
        DivideBound(c.value, size, SIZE_MAX);
      }
    }
  }

  lemma {:induction false} StepsOrdered(initial: nat, j: nat, k: nat)
    requires j < k
    ensures 2 * Step(initial, j) <= Step(initial, k)
  {
    if j + 1 == k {
    } else {
      StepsOrdered(initial, j, k - 1);
    }
  }

  /** The doubling loop stops at the smallest step that covers the request. */
  lemma {:induction false} DoubleUntilLeast(required: nat, initial: nat, j: nat, k: nat)
    requires initial > 0 && j <= k && required <= Step(initial, k) <= SIZE_MAX
    ensures Step(initial, j) > 0
    ensures var d := DoubleUntil(Step(initial, j), required); d.Some? && d.value <= Step(initial, k)
    decreases k - j
  {
    StepPositive(initial, j);
    if j == k || Step(initial, j) >= required {
      if j < k {
        StepsOrdered(initial, j, k);
      }
    } else {
      StepsOrdered(initial, j, k);
      DoubleUntilLeast(required, initial, j + 1, k);
    }
  }

  lemma {:induction false} StepPositive(initial: nat, k: nat)
    ensures Step(initial, k) >= initial
  {
    if k == 0 {
    } else {
      StepPositive(initial, k - 1);
    }
  }

  /** The step `k` covers the request in a block whose byte size size_t can hold. */
  predicate Serves(k: nat, required: nat, initial: nat, size: nat) {
    required <= Step(initial, k) && Step(initial, k) * size <= SIZE_MAX
  }

  /** Given memory, a reservation fails exactly when no step both covers the request and has a
      byte size that size_t can hold. */
  lemma ReserveFailsIff(capacity: nat, required: nat, initial: nat, size: nat)
    requires initial > 0 && size > 0 && Sound(capacity, initial, size)
    ensures Reserve(capacity, required, initial, size, true).ok <==>
      required <= capacity || exists k: nat :: Serves(k, required, initial, size)
  {
    var r := Reserve(capacity, required, initial, size, true);
    ReserveSound(capacity, required, initial, size, true);
    if r.ok && required > capacity {
      assert Sound(r.capacity, initial, size);
      var k: nat :| r.capacity == Step(initial, k);
      assert Serves(k, required, initial, size);
    }
    if required > capacity && exists k: nat :: Serves(k, required, initial, size) {
      var k: nat :| Serves(k, required, initial, size);
      StepReached(capacity, required, initial, size, k);
    }
  }

  lemma ProductGrows(c: nat, size: nat)
    requires size > 0
    ensures c <= c * size
  {
  }

  lemma BytesFit(c: nat, size: nat)
    requires size > 0 && c * size <= SIZE_MAX
    ensures c <= SIZE_MAX && c <= SIZE_MAX / size
  {
    DivideBound(c, size, SIZE_MAX);
    ProductGrows(c, size);
  }

  lemma StepReached(capacity: nat, required: nat, initial: nat, size: nat, k: nat)
    requires initial > 0 && size > 0 && Sound(capacity, initial, size) && required > capacity
    requires Serves(k, required, initial, size)
    ensures Reserve(capacity, required, initial, size, true).ok
  {
    var top := Step(initial, k);
    BytesFit(top, size);
    var j: nat := 0;
    if capacity != 0 {
      var i: nat :| capacity == Step(initial, i);
      if k < i {
        StepsOrdered(initial, k, i);
      }
      assert i < k;
      StepsOrdered(initial, i, k);
      j := i + 1;
    }
    DoubleUntilLeast(required, initial, j, k);
    var c := DoubleUntil(Step(initial, j), required).value;
    assert Requested(capacity, required, initial, size) == Some(c);
  }
}
