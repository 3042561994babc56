/** The fixed-length array and its iterator. The length is a constant of the
    container; writes go into the one buffer in place, and only construction
    and copy assignment allocate. */
module StaticArrays {
  import opened Exceptions
  import opened SizeT

  /** A raw element pointer, seen as a buffer and an offset into it. The
      offset may leave the buffer (one past the end is where `end()` points);
      only reading and writing through it need it in range. */
  class StaticArrayIterator<T> {
    const buffer: array<T>
    var position: int

    constructor (buffer: array<T>, position: int)
      ensures this.buffer == buffer && this.position == position
    {
      this.buffer := buffer;
      this.position := position;
    }

    /** Prefix `++`: one slot on. */
    method Increment()
      modifies this
      ensures position == old(position) + 1
    {
      position := position + 1;
    }

    /** Postfix `++`: one slot on, answering a copy of the old position. */
    method PostIncrement() returns (previous: StaticArrayIterator<T>)
      modifies this
      ensures fresh(previous) && previous.buffer == buffer
      ensures previous.position == old(position) && position == old(position) + 1
    {
      previous := new StaticArrayIterator(buffer, position);
      Increment();
    }

    /** Prefix `--`: one slot back. */
    method Decrement()
      modifies this
      ensures position == old(position) - 1
    {
      position := position - 1;
    }

    /** Postfix `--`: one slot back, answering a copy of the old position. */
    method PostDecrement() returns (previous: StaticArrayIterator<T>)
      modifies this
      ensures fresh(previous) && previous.buffer == buffer
      ensures previous.position == old(position) && position == old(position) - 1
    {
      previous := new StaticArrayIterator(buffer, position);
      Decrement();
    }

    /** `it[offset]`: the element `offset` slots from the current one. */
    method At(offset: int) returns (x: T)
      requires 0 <= position + offset < buffer.Length
      ensures x == buffer[position + offset]
    {
      x := buffer[position + offset];
    }

    /** `it[offset] = value`: the reference `it[offset]` returns, written
        through; that slot changes and no other. */
    method AtWrite(offset: int, value: T)
      requires 0 <= position + offset < buffer.Length
      modifies buffer
      ensures buffer[..] == old(buffer[..])[position + offset := value]
    {
      buffer[position + offset] := value;
    }

    /** `*it` (and `it->`) read: the element under the cursor. */
    method Read() returns (x: T)
      requires 0 <= position < buffer.Length
      ensures x == buffer[position]
    {
      x := buffer[position];
    }

    /** `*it = value`: overwrites the slot under the cursor and no other. */
    method Write(value: T)
      requires 0 <= position < buffer.Length
      modifies buffer
      ensures buffer[..] == old(buffer[..])[position := value]
    {
      buffer[position] := value;
    }

    /** `==`: the two pointers are the same address. */
    method Equals(other: StaticArrayIterator<T>) returns (b: bool)
      ensures b <==> buffer == other.buffer && position == other.position
    {
      b := buffer == other.buffer && position == other.position;
    }

    /** `!=`: the negation of `==`. */
    method NotEquals(other: StaticArrayIterator<T>) returns (b: bool)
      ensures b <==> buffer != other.buffer || position != other.position
    {
      var same := Equals(other);
      b := !same;
    }
  }

  class StaticArray<T(0)> {
    /** The template parameter `size`. */
    const N: nat
    /** Null once the array has been moved from. */
    var elements: array?<T>

    ghost predicate Valid()
      reads this
    {
      elements != null && elements.Length == N
    }

    /** The abstract value: the N elements in index order. */
    ghost function Contents(): (s: seq<T>)
      requires Valid()
      reads this, elements
      ensures |s| == N
    {
      elements[..]
    }

    /** Default constructor: N value-initialised slots; `zero` stands for the
        value a value-initialised `T` has (0 for `int`). */
    constructor (n: nat, zero: T)
      ensures Valid() && N == n && fresh(elements)
      ensures forall i :: 0 <= i < n ==> Contents()[i] == zero
    {
      N := n;
      elements := new T[n](_ => zero);
    }

    /** Initializer-list constructor once the length has been checked; see
        TryFromList for the check. */
    constructor FromList(n: nat, list: seq<T>)
      requires |list| == n
      ensures Valid() && N == n && fresh(elements)
      ensures Contents() == list
    {
      N := n;
      var buffer := new T[n];
      var i := 0;
      while i < |list|
        invariant 0 <= i <= |list|
        invariant buffer[..i] == list[..i]
      {
        buffer[i] := list[i];
        i := i + 1;
      }
      elements := buffer;
    }

    /** Initializer-list constructor: `runtime_error` exactly when the list's
        length differs from N, otherwise an array holding the list. */
    static method TryFromList(n: nat, list: seq<T>) returns (r: Result<StaticArray<T>>)
      ensures r.Err? <==> |list| != n
      ensures r.Err? ==> r.error == RuntimeError
      ensures r.Ok? ==> fresh(r.value) && fresh(r.value.elements) && r.value.Valid()
      ensures r.Ok? ==> r.value.N == n && r.value.Contents() == list
    {
      if n != |list| {
        return Err(RuntimeError);
      }
      var a := new StaticArray.FromList(n, list);
      return Ok(a);
    }

    /** Copy constructor: equal contents in a buffer of its own. */
    constructor Copy(other: StaticArray<T>)
      requires other.Valid()
      ensures Valid() && N == other.N && fresh(elements)
      ensures Contents() == other.Contents()
    {
      N := other.N;
      var buffer := new T[other.N];
      var i := 0;
      while i < other.N
        invariant 0 <= i <= other.N
        invariant buffer[..i] == other.elements[..i]
      {
        buffer[i] := other.elements[i];
        i := i + 1;
      }
      elements := buffer;
    }

    /** Move constructor: takes over the source's buffer; the source's buffer
        becomes null. */
    constructor Move(other: StaticArray<T>)
      requires other.Valid()
      modifies other
      ensures Valid() && N == other.N && elements == old(other.elements)
      ensures Contents() == old(other.Contents())
      ensures other.elements == null
    {
      N := other.N;
      elements := other.elements;
      new;
      other.elements := null;
    }

    /** `get` and `operator[]`: the element at `index`, or `out_of_range`
        (for every index when N is 0). */
    method Get(index: nat) returns (r: Result<T>)
      requires Valid()
      ensures index < N ==> r == Ok(Contents()[index])
      ensures N <= index ==> r == Err(OutOfRange)
    {
      if index >= N {
        return Err(OutOfRange);
      }
      return Ok(elements[index]);
    }

    /** `getSize`: the constant N, whatever the contents. */
    method GetSize() returns (n: nat)
      ensures n == N
    {
      return N;
    }

    /** `first`: `get(0)`. */
    method First() returns (r: Result<T>)
      requires Valid()
      ensures N > 0 ==> r == Ok(Contents()[0])
      ensures N == 0 ==> r == Err(OutOfRange)
    {
      r := Get(0);
    }

    /** `last`: `get(size - 1)` with `size_t` arithmetic, so for N == 0 the
        index wraps to the largest `size_t` and the call gives
        `out_of_range`. */
    method Last() returns (r: Result<T>)
      requires Valid()
      ensures N > 0 ==> r == Ok(Contents()[N - 1])
      ensures N == 0 ==> r == Err(OutOfRange)
    {
      var index := if N == 0 then SizeMax else N - 1;
      r := Get(index);
    }

    /** `set`: overwrites slot `index` in place, or gives `out_of_range` and
        changes nothing. */
    method Set(index: nat, value: T) returns (r: Outcome)
      requires Valid()
      modifies elements
      ensures Valid()
      ensures index < N ==> r == Pass && Contents() == old(Contents())[index := value]
      ensures N <= index ==> r == Fail(OutOfRange) && Contents() == old(Contents())
    {
      if index >= N {
        return Fail(OutOfRange);
      }
      elements[index] := value;
      return Pass;
    }

    /** Initializer-list assignment: checks the length before writing; on a
        mismatch gives `runtime_error` and changes nothing, otherwise
        overwrites every slot in place with the list. */
    method AssignList(list: seq<T>) returns (r: Outcome)
      requires Valid()
      modifies elements
      ensures Valid()
      ensures |list| != N ==> r == Fail(RuntimeError) && Contents() == old(Contents())
      ensures |list| == N ==> r == Pass && Contents() == list
    {
      if N != |list| {
        return Fail(RuntimeError);
      }
      var i := 0;
      while i < |list|
        invariant 0 <= i <= |list|
        invariant elements[..i] == list[..i]
      {
        elements[i] := list[i];
        i := i + 1;
      }
      return Pass;
    }

    /** Copy assignment: equal contents in a fresh buffer; assigning an array
        to itself changes nothing. The destination may have been moved from
        (a null buffer), since freeing a null buffer does nothing. */
    method AssignCopy(other: StaticArray<T>)
      requires elements == null || elements.Length == N
      requires other.Valid() && other.N == N
      modifies this
      ensures Valid() && Contents() == old(other.Contents())
      ensures other == this ==> unchanged(this)
      ensures other != this ==> fresh(elements) && unchanged(other)
    {
      if this == other {
        return;
      }
      var buffer := new T[N];
      var i := 0;
      while i < N
        invariant 0 <= i <= N
        invariant elements == old(elements)
        invariant buffer[..i] == other.elements[..i]
      {
        buffer[i] := other.elements[i];
        i := i + 1;
      }
      elements := buffer;
    }

    /** Move assignment: takes over the source's buffer and nulls the
        source's; moving an array into itself changes nothing. As with copy
        assignment, the destination may have been moved from. */
    method AssignMove(other: StaticArray<T>)
      requires elements == null || elements.Length == N
      requires other.Valid() && other.N == N
      modifies this, other
      ensures Valid() && Contents() == old(other.Contents())
      ensures other == this ==> unchanged(this)
      ensures other != this ==> elements == old(other.elements) && other.elements == null
    {
      if this == other {
        return;
      }
      elements := other.elements;
      other.elements := null;
    }

    /** `begin`: an iterator at slot 0. */
    method Begin() returns (it: StaticArrayIterator<T>)
      requires Valid()
      ensures fresh(it) && it.buffer == elements && it.position == 0
    {
      it := new StaticArrayIterator(elements, 0);
    }

    /** `end`: an iterator one past the last slot. */
    method End() returns (it: StaticArrayIterator<T>)
      requires Valid()
      ensures fresh(it) && it.buffer == elements && it.position == N
    {
      it := new StaticArrayIterator(elements, N);
    }

    /** What a range-based `for` over `begin()`..`end()` visits: the N
        elements exactly once each, in index order. */
    method RangeFor() returns (visited: seq<T>)
      requires Valid()
      ensures visited == Contents()
    {
      var it := Begin();
      var stop := End();
      visited := [];
      var done := it.Equals(stop);
      while !done
        invariant fresh(it) && it != stop
        invariant it.buffer == elements && stop.buffer == elements && stop.position == N
        invariant 0 <= it.position <= N
        invariant done <==> it.position == N
        invariant visited == elements[..it.position]
        decreases N - it.position
      {
        var x := it.Read();
        visited := visited + [x];
        it.Increment();
        done := it.Equals(stop);
      }
    }
  }
}
