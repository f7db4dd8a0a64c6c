/** The growable array list of gen_list.c: a buffer `arr` of `capacity`
    slots whose first `size` slots hold the elements. Adding to a full list
    first doubles the buffer; adding and removing at the front shift the
    elements in place.

    Two operations misbehave as written. `gen_list_resize` doubles the
    capacity, so a list created with capacity 0 stays at 0 and the next add
    writes past the end of the buffer. `gen_list_remove_front` on a list of
    one element decrements `size` twice, and the `size_t` wraps to its
    maximum. The pure functions `AddBackCapacityAsWritten` and
    `RemoveFrontSizeAsWritten` and the method `RemoveFrontAsWritten` record
    that behaviour; the class itself grows an empty buffer to one slot
    (`Grown`) and removes the front element once. */
module GenLists {
  import opened SizeT

  /** The capacity after `gen_list_resize` as written: twice the old one. */
  function DoubledAsWritten(capacity: nat): nat
  {
    capacity * 2
  }

  /** The capacity `gen_list_add_back` writes into, as written: the list
      is resized when it is full. */
  function AddBackCapacityAsWritten(size: nat, capacity: nat): nat
  {
    if size >= capacity then DoubledAsWritten(capacity) else capacity
  }

  /** As written, the write of `gen_list_add_back` at slot `size` is in
      bounds exactly when the capacity is not 0. */
  lemma AddBackAsWrittenInBounds(size: nat, capacity: nat)
    requires size <= capacity
    ensures size < AddBackCapacityAsWritten(size, capacity) <==> capacity > 0
  {
    if capacity > 0 && size == capacity {
      assert AddBackCapacityAsWritten(size, capacity) == 2 * capacity;
    }
  }

  /** The input that shows it: `gen_list_init(0)` and then one add writes
      slot 0 of a buffer of 0 slots. */
  lemma AddBackAfterEmptyInitOverflows()
    ensures !(0 < AddBackCapacityAsWritten(0, 0))
  {
    AddBackAsWrittenInBounds(0, 0);
  }

  /** The capacity the corrected resize allocates: twice the old one, and
      one slot for an empty buffer. */
  function Grown(capacity: nat): (c: nat)
    ensures c > capacity
    ensures capacity > 0 ==> c == DoubledAsWritten(capacity)
  {
    if capacity == 0 then 1 else capacity * 2
  }

  /** The size after `gen_list_remove_front` as written: a list of one
      element first goes through `gen_list_remove_back`, then the common
      `size -= 1` runs on the `size_t`. */
  function RemoveFrontSizeAsWritten(size: nat): nat
    requires 0 < size <= SIZE_MAX
  {
    var afterBack := if size == 1 then size - 1 else size;
    WrapDec(afterBack)
  }

  /** As written, the size after removing the front is one less exactly
      when there were at least two elements; a single element leaves the
      maximum `size_t`. */
  lemma RemoveFrontAsWrittenSize(size: nat)
    requires 0 < size <= SIZE_MAX
    ensures size >= 2 ==> RemoveFrontSizeAsWritten(size) == size - 1
    ensures size == 1 ==> RemoveFrontSizeAsWritten(size) == SIZE_MAX
    ensures RemoveFrontSizeAsWritten(size) == size - 1 <==> size >= 2
  {
  }

  /** `gen_list_t`. */
  class GenList<T(0)> {
    var size: nat
    var capacity: nat
    var arr: array<T>

    ghost predicate Valid()
      reads this
    {
      arr.Length == capacity && size <= capacity
    }

    /** The elements, in order. */
    ghost function Elements(): (s: seq<T>)
      reads this, arr
      requires Valid()
      ensures |s| == size
    {
      arr[..size]
    }

    /** `gen_list_init`: an empty list with `initialSize` slots. */
    constructor (initialSize: nat)
      ensures Valid() && fresh(arr)
      ensures Elements() == [] && capacity == initialSize
    {
      size := 0;
      capacity := initialSize;
      arr := new T[initialSize];
    }

    /** `gen_list_resize`: a new buffer of `Grown(capacity)` slots holding
        the same elements. */
    method Resize()
      requires Valid()
      modifies this
      ensures Valid() && fresh(arr)
      ensures capacity == Grown(old(capacity)) && size == old(size)
      ensures Elements() == old(Elements())
    {
      var out := new T[Grown(capacity)];
      capacity := Grown(capacity);
      var i := 0;
      while i < size
        invariant i <= size <= old(capacity) < out.Length
        invariant arr == old(arr) && size == old(size) && capacity == out.Length
        invariant forall k :: 0 <= k < i ==> out[k] == arr[k]
      {
        out[i] := arr[i];
        i := i + 1;
      }
      assert out[..size] == old(arr[..size]);
      arr := out;
    }

    /** `gen_list_size`. */
    method Size() returns (n: nat)
      requires Valid()
      ensures n == |Elements()|
    {
      n := size;
    }

    /** `gen_list_get`: the list asserts that the index is in range. */
    method Get(index: nat) returns (value: T)
      requires Valid() && index < size
      ensures value == Elements()[index]
    {
      value := arr[index];
    }

    /** `gen_list_add_back`: grows a full buffer, then appends. */
    method AddBack(value: T)
      requires Valid()
      modifies this, arr
      ensures Valid()
      ensures Elements() == old(Elements()) + [value]
      ensures capacity == if old(size) >= old(capacity) then Grown(old(capacity)) else old(capacity)
    {
      if size >= capacity {
        Resize();
      }
      arr[size] := value;
      size := size + 1;
    }

    /** The loop of `gen_list_add_front`: every element moves one slot up,
        from the last down to the first; slot 0 keeps its old value. */
    method ShiftUp()
      requires Valid() && size < capacity
      modifies arr
      ensures Valid()
      ensures arr[0] == old(arr[0])
      ensures forall k :: 0 < k <= size ==> arr[k] == old(Elements())[k - 1]
    {
      ghost var s := Elements();
      var i := size;
      while i > 0
        invariant 0 <= i <= size < arr.Length && |s| == size
        invariant forall k :: 0 <= k <= i ==> arr[k] == old(arr[k])
        invariant forall k :: i < k <= size ==> arr[k] == s[k - 1]
      {
        arr[i] := arr[i - 1];
        i := i - 1;
      }
    }

    /** `gen_list_add_front`: grows a full buffer, shifts every element one
        slot up, then writes slot 0. */
    method AddFront(value: T)
      requires Valid()
      modifies this, arr
      ensures Valid()
      ensures Elements() == [value] + old(Elements())
      ensures capacity == if old(size) >= old(capacity) then Grown(old(capacity)) else old(capacity)
    {
      if size >= capacity {
        Resize();
      }
      ghost var s := Elements();
      ShiftUp();
      arr[0] := value;
      size := size + 1;
      assert forall k :: 0 <= k < size ==> Elements()[k] == ([value] + s)[k];
    }

    /** `gen_list_remove_back`: the list asserts that it is not empty. */
    method RemoveBack() returns (out: T)
      requires Valid() && size > 0
      modifies this`size
      ensures Valid()
      ensures out == old(Elements())[old(size) - 1]
      ensures Elements() == old(Elements())[..old(size) - 1]
    {
      out := arr[size - 1];
      size := size - 1;
    }

    /** The loop of `gen_list_remove_front`: every element but the first
        moves one slot down, from the second to the last; the last slot
        keeps its old value. */
    method ShiftDown()
      requires Valid() && size > 0
      modifies arr
      ensures Valid()
      ensures forall k :: 0 <= k < size - 1 ==> arr[k] == old(Elements())[k + 1]
      ensures arr[size - 1] == old(arr[size - 1])
    {
      ghost var s := Elements();
      var i := 1;
      while i < size
        invariant 1 <= i <= size <= arr.Length && |s| == size
        invariant forall k :: 0 <= k < i - 1 ==> arr[k] == s[k + 1]
        invariant forall k :: i - 1 <= k < size ==> arr[k] == s[k]
      {
        arr[i - 1] := arr[i];
        i := i + 1;
      }
    }

    /** `gen_list_remove_front` as written, including the call to
        `gen_list_remove_back` on a one-element list before the common
        decrement. */
    method RemoveFrontAsWritten() returns (out: T)
      requires Valid() && 0 < size <= SIZE_MAX
      modifies this`size, arr
      ensures out == old(arr[0])
      ensures size == RemoveFrontSizeAsWritten(old(size))
      ensures old(size) >= 2 ==> Valid() && Elements() == old(Elements())[1..]
    {
      ghost var s := Elements();
      if size == 1 {
        var _ := RemoveBack();
      }
      out := arr[0];
      if size > 0 {
        ShiftDown();
      }
      size := WrapDec(size);
      if old(size) >= 2 {
        assert forall k :: 0 <= k < size ==> Elements()[k] == s[1..][k];
      }
    }

    /** `gen_list_remove_front` with the size decremented once: returns the
        first element and shifts the rest one slot down. */
    method RemoveFront() returns (out: T)
      requires Valid() && size > 0
      modifies this`size, arr
      ensures Valid()
      ensures out == old(Elements())[0]
      ensures Elements() == old(Elements())[1..]
    {
      ghost var s := Elements();
      out := arr[0];
      ShiftDown();
      size := size - 1;
      assert forall k :: 0 <= k < size ==> Elements()[k] == s[1..][k];
    }
  }
}
