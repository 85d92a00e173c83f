/**
 * The growable array: a buffer of `capacity` slots of which the first `size` are in use.
 * A slot added without data keeps whatever the buffer held there.
 */
module DynamicArrays {
  import opened Common

  const DefaultElementCount: nat := 8

  /** rrr_dynarray_new's capacity: the smallest multiple of 8 strictly greater than the count. */
  function InitialCapacity(count: nat): (c: nat)
    ensures c % DefaultElementCount == 0 && count < c && c <= count + DefaultElementCount
  {
    if count != 0 then (DefaultElementCount - count % DefaultElementCount) + count else DefaultElementCount
  }

  /** No smaller multiple of 8 exceeds the count. */
  lemma InitialCapacityIsLeast(count: nat, c: nat)
    requires c % DefaultElementCount == 0 && count < c
    ensures InitialCapacity(count) <= c
  {
  }

  /** The capacity after rrr_dynarray_add's check as written: doubled when full, so an empty buffer stays empty. */
  function GrownCapacityAsWritten(capacity: nat, size: nat): nat
  {
    if capacity <= size then 2 * capacity else capacity
  }

  /**
   * As written, adding to the empty buffer rrr_array_to_dynarray makes of an empty array
   * leaves no slot for the element it then writes: doubling 0 gives 0.
   */
  lemma AddToEmptyAsWrittenHasNoSlot()
    ensures GrownCapacityAsWritten(0, 0) == 0
    ensures forall size: nat :: !(size < GrownCapacityAsWritten(0, size))
  {
  }

  /** The capacity after the add's check, corrected: a full buffer doubles, and an empty one gets the default 8 slots. */
  function GrownCapacity(capacity: nat, size: nat): (c: nat)
    ensures capacity <= c
    ensures 0 < capacity ==> c == GrownCapacityAsWritten(capacity, size)
  {
    if capacity <= size then (if capacity == 0 then DefaultElementCount else 2 * capacity) else capacity
  }

  /** After the capacity check of an add there is a free slot, and a multiple of 8 stays one. */
  lemma GrownCapacityFits(capacity: nat, size: nat)
    requires size <= capacity
    ensures size < GrownCapacity(capacity, size)
    ensures capacity % DefaultElementCount == 0 ==> GrownCapacity(capacity, size) % DefaultElementCount == 0
  {
  }

  /** dynarray_t: `data` is the buffer, its length the allocated element count. */
  class DynArray<T(0)> {
    var data: array<T>
    var size: nat

    ghost predicate Valid()
      reads this
    {
      size <= data.Length
    }

    /** The elements in use. */
    function Elements(): seq<T>
      reads this, data
      requires Valid()
    {
      data[..size]
    }

    /** rrr_dynarray_new: count slots in use (not initialised) and room up to the next multiple of 8. */
    constructor New(count: nat)
      ensures Valid() && fresh(data)
      ensures size == count && data.Length == InitialCapacity(count)
    {
      data := new T[InitialCapacity(count)];
      size := count;
    }

    /** rrr_array_to_dynarray: the array's buffer becomes the dynamic array's, full (and empty when the array is). */
    constructor FromArray(a: array<T>)
      ensures Valid() && data == a && size == a.Length
    {
      data := a;
      size := a.Length;
    }

    /** dynarray_size. */
    function Size(): (n: nat)
      reads this
      requires Valid()
      ensures n <= data.Length
    {
      size
    }

    /** rrr_dynarray_ele: the element at index, which the caller keeps below the size. */
    method Ele(index: nat) returns (x: T)
      requires Valid() && index < size
      ensures x == Elements()[index]
    {
      x := data[index];
    }

    /**
     * rrr_dynarray_add: doubles the buffer when it is full (an empty buffer gets 8 slots, see
     * GrownCapacity), then writes the element, if any, into the next slot; returns that slot's index.
     */
    method Add(x: Option<T>) returns (index: nat)
      requires Valid()
      modifies this, data
      ensures Valid() && index == old(size) && size == old(size) + 1
      ensures data.Length == GrownCapacity(old(data.Length), old(size))
      ensures old(data.Length) <= old(size) ==> fresh(data)
      ensures old(size) < old(data.Length) ==> data == old(data)
      ensures Elements()[..index] == old(Elements())
      ensures x.Some? ==> Elements()[index] == x.value
    {
      if data.Length <= size {
        var bigger := new T[GrownCapacity(data.Length, size)];
        var i := 0;
        while i < size
          invariant i <= size
          invariant bigger[..i] == data[..i]
          modifies bigger
        {
          bigger[i] := data[i];
          i := i + 1;
        }
        data := bigger;
      }
      assert data[..size] == old(Elements());
      if x.Some? {
        data[size] := x.value;
      }
      size := size + 1;
      index := size - 1;
      assert Elements()[..index] == old(Elements());
    }

    /** rrr_dynarray_grow: adds count elements, each the given value if any; returns the first new index. */
    method Grow(count: nat, x: Option<T>) returns (first: nat)
      requires Valid()
      modifies this, data
      ensures Valid() && first == old(size) && size == old(size) + count
      ensures Elements()[..first] == old(Elements())
      ensures x.Some? ==> forall k :: first <= k < size ==> Elements()[k] == x.value
    {
      first := size;
      if count == 0 {
        return;
      }
      var i := 0;
      while i < count
        invariant i <= count && Valid() && size == first + i
        invariant Elements()[..first] == old(Elements())
        invariant x.Some? ==> forall k :: first <= k < size ==> Elements()[k] == x.value
        invariant data == old(data) || fresh(data)
      {
        ghost var before := Elements();
        var _ := Add(x);
        assert Elements()[..size - 1] == before;
        assert Elements()[..first] == before[..first];
        i := i + 1;
      }
    }

    /** rrr_dynarray_to_array: an array holding exactly the elements in use. */
    method ToArray() returns (a: array<T>)
      requires Valid()
      ensures fresh(a) && a[..] == Elements()
    {
      a := new T[size];
      var i := 0;
      while i < size
        invariant i <= size
        invariant a[..i] == data[..i]
      {
        a[i] := data[i];
        i := i + 1;
      }
    }
  }
}
