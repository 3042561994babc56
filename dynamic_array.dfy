/** The growable array. Every operation that changes the length allocates a
    buffer of exactly the new length and copies the surviving elements into it
    with an index loop, shifting them where needed. */
module DynamicArrays {
  import opened Exceptions
  import opened SizeT
  import Sequences

  class DynamicArray<T(0)> {
    var elements: array<T>
    var size: nat

    /** The length field always agrees with the buffer. */
    ghost predicate Valid()
      reads this
    {
      elements.Length == size
    }

    /** The abstract value: the elements in index order. */
    ghost function Contents(): (s: seq<T>)
      reads this, elements
    {
      elements[..]
    }

    /** Default constructor: the empty array. */
    constructor ()
      ensures Valid() && fresh(elements)
      ensures Contents() == []
    {
      elements := new T[0];
      size := 0;
    }

    /** Initializer-list constructor: the list's elements, in order. */
    constructor FromList(list: seq<T>)
      ensures Valid() && fresh(elements)
      ensures Contents() == list
    {
      var buffer := new T[|list|];
      var i := 0;
      while i < |list|
        invariant 0 <= i <= |list|
        invariant buffer[..i] == list[..i]
      {
        buffer[i] := list[i];
        i := i + 1;
      }
      elements := buffer;
      size := |list|;
    }

    /** Copy constructor: equal contents in a buffer of its own. */
    constructor Copy(other: DynamicArray<T>)
      requires other.Valid()
      ensures Valid() && fresh(elements)
      ensures Contents() == other.Contents()
    {
      var buffer := new T[other.size];
      var i := 0;
      while i < other.size
        invariant 0 <= i <= other.size
        invariant buffer[..i] == other.elements[..i]
      {
        buffer[i] := other.elements[i];
        i := i + 1;
      }
      elements := buffer;
      size := other.size;
    }

    /** Move constructor: takes over the source's buffer and leaves the source
        empty. */
    constructor Move(other: DynamicArray<T>)
      requires other.Valid()
      modifies other
      ensures Valid() && elements == old(other.elements)
      ensures Contents() == old(other.Contents())
      ensures other.Valid() && other.Contents() == []
    {
      elements := other.elements;
      size := other.size;
      new;
      other.size := 0;
      other.elements := new T[0];
    }

    /** `get` and `operator[]`: the element at `index`, or `out_of_range`. */
    method Get(index: nat) returns (r: Result<T>)
      requires Valid()
      ensures index < |Contents()| ==> r == Ok(Contents()[index])
      ensures |Contents()| <= index ==> r == Err(OutOfRange)
    {
      if index >= size {
        return Err(OutOfRange);
      }
      return Ok(elements[index]);
    }

    /** `getSize`: the number of elements. */
    method GetSize() returns (n: nat)
      requires Valid()
      ensures n == |Contents()|
    {
      return size;
    }

    /** `first`: `get(0)`, so an empty array gives `out_of_range`. */
    method First() returns (r: Result<T>)
      requires Valid()
      ensures Contents() != [] ==> r == Ok(Contents()[0])
      ensures Contents() == [] ==> r == Err(OutOfRange)
    {
      r := Get(0);
    }

    /** `last`: `get(size - 1)` with `size_t` arithmetic, so on an empty array
        the index wraps to the largest `size_t` and the call gives
        `out_of_range`. */
    method Last() returns (r: Result<T>)
      requires Valid()
      ensures Contents() != [] ==> r == Ok(Contents()[|Contents()| - 1])
      ensures Contents() == [] ==> r == Err(OutOfRange)
    {
      var index := if size == 0 then SizeMax else size - 1;
      r := Get(index);
    }

    /** `set`: overwrites slot `index` in place, or gives `out_of_range` and
        changes nothing. */
    method Set(index: nat, value: T) returns (r: Outcome)
      requires Valid()
      modifies elements
      ensures Valid()
      ensures index < |old(Contents())| ==> r == Pass && Contents() == old(Contents())[index := value]
      ensures |old(Contents())| <= index ==> r == Fail(OutOfRange) && Contents() == old(Contents())
    {
      if index >= size {
        return Fail(OutOfRange);
      }
      elements[index] := value;
      return Pass;
    }

    /** `addLast`: appends `value`, copying the old elements into a buffer one
        longer. */
    method AddLast(value: T)
      requires Valid()
      modifies this
      ensures Valid() && fresh(elements)
      ensures Contents() == old(Contents()) + [value]
    {
      if size == 0 {
        elements := new T[1];
        elements[0] := value;
        size := size + 1;
        return;
      }
      var temp := new T[size + 1];
      var i := 0;
      while i < size
        invariant 0 <= i <= size
        invariant size == old(size) && elements == old(elements)
        invariant temp[..i] == elements[..i]
      {
        temp[i] := elements[i];
        i := i + 1;
      }
      temp[size] := value;
      assert temp[..] == temp[..size] + [value];
      size := size + 1;
      elements := temp;
    }

    /** `addFirst`: prepends `value`, copying each old element one slot to the
        right in a buffer one longer. */
    method AddFirst(value: T)
      requires Valid()
      modifies this
      ensures Valid() && fresh(elements)
      ensures Contents() == [value] + old(Contents())
    {
      if size == 0 {
        elements := new T[1];
        elements[0] := value;
        size := size + 1;
        return;
      }
      var temp := new T[size + 1];
      temp[0] := value;
      var i := 0;
      while i < size
        invariant 0 <= i <= size
        invariant size == old(size) && elements == old(elements)
        invariant temp[0] == value
        invariant temp[1..i + 1] == elements[..i]
      {
        temp[i + 1] := elements[i];
        i := i + 1;
      }
      assert temp[..] == [temp[0]] + temp[1..size + 1];
      size := size + 1;
      elements := temp;
    }

    /** `removeLast`: drops the last element, or gives `runtime_error` on an
        empty array and changes nothing. */
    method RemoveLast() returns (r: Outcome)
      requires Valid()
      modifies this
      ensures Valid()
      ensures old(Contents()) == [] ==> r == Fail(RuntimeError) && unchanged(this)
      ensures old(Contents()) != [] ==>
        r == Pass && fresh(elements) && Contents() == old(Contents())[..|old(Contents())| - 1]
    {
      if size == 0 {
        return Fail(RuntimeError);
      }
      if size == 1 {
        elements := new T[0];
        size := size - 1;
        return Pass;
      }
      var temp := new T[size - 1];
      var i := 0;
      while i < size - 1
        invariant 0 <= i <= size - 1
        invariant size == old(size) && elements == old(elements)
        invariant temp[..i] == elements[..i]
      {
        temp[i] := elements[i];
        i := i + 1;
      }
      elements := temp;
      size := size - 1;
      return Pass;
    }

    /** `removeFirst`: drops the first element, copying each survivor one slot
        to the left, or gives `runtime_error` on an empty array and changes
        nothing. */
    method RemoveFirst() returns (r: Outcome)
      requires Valid()
      modifies this
      ensures Valid()
      ensures old(Contents()) == [] ==> r == Fail(RuntimeError) && unchanged(this)
      ensures old(Contents()) != [] ==>
        r == Pass && fresh(elements) && Contents() == old(Contents())[1..]
    {
      if size == 0 {
        return Fail(RuntimeError);
      }
      if size == 1 {
        elements := new T[0];
        size := size - 1;
        return Pass;
      }
      var temp := new T[size - 1];
      var i := 0;
      while i < size - 1
        invariant 0 <= i <= size - 1
        invariant size == old(size) && elements == old(elements)
        invariant temp[..i] == elements[1..i + 1]
      {
        temp[i] := elements[i + 1];
        i := i + 1;
      }
      elements := temp;
      size := size - 1;
      return Pass;
    }

    /** `removeAt`: drops the element at `index`, shifting the later ones one
        slot to the left, or gives `out_of_range` and changes nothing. */
    method RemoveAt(index: nat) returns (r: Outcome)
      requires Valid()
      modifies this
      ensures Valid()
      ensures |old(Contents())| <= index ==> r == Fail(OutOfRange) && unchanged(this)
      ensures index < |old(Contents())| ==>
        r == Pass && fresh(elements) && Contents() == Sequences.RemovedAt(old(Contents()), index)
    {
      if index >= size {
        return Fail(OutOfRange);
      }
      if size == 1 {
        elements := new T[0];
        size := size - 1;
        return Pass;
      }
      var temp := new T[size - 1];
      var i := 0;
      while i < size
        invariant 0 <= i <= size
        invariant size == old(size) && elements == old(elements)
        invariant forall k :: 0 <= k < i && k < index ==> temp[k] == elements[k]
        invariant forall k :: index < k < i ==> temp[k - 1] == elements[k]
      {
        if i < index {
          temp[i] := elements[i];
        } else if i > index {
          temp[i - 1] := elements[i];
        }
        i := i + 1;
      }
      ghost var was := elements[..];
      assert temp[..] == Sequences.RemovedAt(was, index);
      elements := temp;
      size := size - 1;
      return Pass;
    }

    /** Copy assignment: equal contents in a fresh buffer; assigning an array
        to itself changes nothing. */
    method AssignCopy(other: DynamicArray<T>)
      requires Valid() && other.Valid()
      modifies this
      ensures Valid() && Contents() == old(other.Contents())
      ensures other == this ==> unchanged(this)
      ensures other != this ==> fresh(elements) && unchanged(other)
    {
      if this == other {
        return;
      }
      var buffer := new T[other.size];
      var i := 0;
      while i < other.size
        invariant 0 <= i <= other.size
        invariant buffer[..i] == other.elements[..i]
      {
        buffer[i] := other.elements[i];
        i := i + 1;
      }
      size := other.size;
      elements := buffer;
    }

    /** Move assignment: takes over the source's buffer and leaves the source
        empty; moving an array into itself changes nothing. */
    method AssignMove(other: DynamicArray<T>)
      requires Valid() && other.Valid()
      modifies this, other
      ensures Valid() && other.Valid()
      ensures Contents() == old(other.Contents())
      ensures other == this ==> unchanged(this)
      ensures other != this ==> elements == old(other.elements) && other.Contents() == []
    {
      if this == other {
        return;
      }
      size := other.size;
      elements := other.elements;
      other.size := 0;
      other.elements := new T[0];
    }

    /** Initializer-list assignment: the contents become exactly the list,
        the empty list included. */
    method AssignList(list: seq<T>)
      requires Valid()
      modifies this
      ensures Valid() && fresh(elements)
      ensures Contents() == list
    {
      if |list| == 0 {
        elements := new T[0];
        size := 0;
        return;
      }
      size := |list|;
      elements := new T[size];
      var i := 0;
      while i < |list|
        invariant 0 <= i <= |list|
        invariant fresh(elements) && elements.Length == size == |list|
        invariant elements[..i] == list[..i]
      {
        elements[i] := list[i];
        i := i + 1;
      }
    }

    /** `begin`: a raw pointer to the first slot, as the buffer and offset 0. */
    method Begin() returns (buffer: array<T>, offset: nat)
      requires Valid()
      ensures buffer == elements && offset == 0
    {
      return elements, 0;
    }

    /** `end`: a raw pointer one past the last slot. */
    method End() returns (buffer: array<T>, offset: nat)
      requires Valid()
      ensures buffer == elements && offset == |Contents()|
    {
      return elements, size;
    }

    /** What a range-based `for` over `begin()`..`end()` visits: every element
        exactly once, in index order. */
    method RangeFor() returns (visited: seq<T>)
      requires Valid()
      ensures visited == Contents()
    {
      var buffer, cursor := Begin();
      var endBuffer, stop := End();
      visited := [];
      while cursor != stop
        invariant buffer == elements && endBuffer == buffer && stop == buffer.Length
        invariant 0 <= cursor <= stop
        invariant visited == buffer[..cursor]
        decreases stop - cursor
      {
        visited := visited + [buffer[cursor]];
        cursor := cursor + 1;
      }
    }
  }
}
