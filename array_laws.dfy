/** Laws that relate several container operations: inverse pairs, copy
    independence, the behaviour at the ends, and iteration. Each law is a
    client method that calls the containers' methods and is verified against
    their contracts alone. */
module ArrayLaws {
  import opened Exceptions
  import opened DynamicArrays
  import opened StaticArrays

  /** `addLast` followed by `removeLast` restores the contents exactly. */
  method AddLastThenRemoveLast<T(0)>(a: DynamicArray<T>, value: T) returns (r: Outcome)
    requires a.Valid()
    modifies a
    ensures a.Valid() && r == Pass
    ensures a.Contents() == old(a.Contents())
  {
    a.AddLast(value);
    r := a.RemoveLast();
  }

  /** `addFirst` followed by `removeFirst` restores the contents exactly. */
  method AddFirstThenRemoveFirst<T(0)>(a: DynamicArray<T>, value: T) returns (r: Outcome)
    requires a.Valid()
    modifies a
    ensures a.Valid() && r == Pass
    ensures a.Contents() == old(a.Contents())
  {
    a.AddFirst(value);
    r := a.RemoveFirst();
  }

  /** `get(i)` after `set(i, v)` reads back `v`; both give `out_of_range`
      for the same indices. */
  method SetThenGet<T(0)>(a: DynamicArray<T>, index: nat, value: T) returns (w: Outcome, r: Result<T>)
    requires a.Valid()
    modifies a.elements
    ensures index < |old(a.Contents())| ==> w == Pass && r == Ok(value)
    ensures |old(a.Contents())| <= index ==> w == Fail(OutOfRange) && r == Err(OutOfRange)
  {
    w := a.Set(index, value);
    r := a.Get(index);
  }

  /** On a non-empty array `removeAt(0)` leaves what `removeFirst` leaves.
      On an empty one they fail differently: `removeAt(0)` checks the index
      and gives `out_of_range`, `removeFirst` gives `runtime_error`. */
  method RemoveAtFrontIsRemoveFirst<T(0,==)>(a: DynamicArray<T>)
    returns (atFront: Outcome, first: Outcome, sameContents: bool)
    requires a.Valid()
    ensures a.Contents() != [] ==> atFront == Pass && first == Pass && sameContents
    ensures a.Contents() == [] ==> atFront == Fail(OutOfRange) && first == Fail(RuntimeError)
  {
    var b := new DynamicArray.Copy(a);
    var c := new DynamicArray.Copy(a);
    atFront := b.RemoveAt(0);
    first := c.RemoveFirst();
    var left := b.RangeFor();
    var right := c.RangeFor();
    sameContents := left == right;
  }

  /** `addLast(v)` followed by `removeAt` of the old size takes out exactly
      the appended element. */
  method AddLastThenRemoveAt<T(0)>(a: DynamicArray<T>, value: T) returns (r: Outcome)
    requires a.Valid()
    modifies a
    ensures a.Valid() && r == Pass
    ensures a.Contents() == old(a.Contents())
  {
    var n := a.GetSize();
    a.AddLast(value);
    r := a.RemoveAt(n);
  }

  /** An array that has been moved from takes a new value by copy
      assignment and is then usable again; the copy source is only read. */
  method MovedFromCanBeReassigned<T(0)>(a: StaticArray<T>, b: StaticArray<T>) returns (r: Result<T>)
    requires a.Valid() && b.Valid() && a != b && a.N == b.N && a.N > 0
    modifies b
    ensures r == Ok(old(a.Contents())[0])
    ensures a.Valid() && a.Contents() == old(a.Contents())
  {
    var c := new StaticArray.Move(b);
    b.AssignCopy(a);
    r := b.First();
  }

  /** A copy keeps the contents it was made with when the original is
      written to afterwards. */
  method DynamicCopyIsIndependent<T(0)>(a: DynamicArray<T>, index: nat, value: T)
    returns (copy: DynamicArray<T>)
    requires a.Valid()
    modifies a.elements
    ensures copy.Valid() && copy.Contents() == old(a.Contents())
    ensures index < |old(a.Contents())| ==> a.Contents() == old(a.Contents())[index := value]
  {
    copy := new DynamicArray.Copy(a);
    var r := a.Set(index, value);
  }

  /** Removing from the back of `[1, 2, 3, 4, 5]` five times empties it, and a
      sixth removal gives `runtime_error`. */
  method DrainFromBack() returns (remaining: nat, sixth: Outcome)
    ensures remaining == 0
    ensures sixth == Fail(RuntimeError)
  {
    var a := new DynamicArray<int>.FromList([1, 2, 3, 4, 5]);
    var k := 0;
    while k < 5
      invariant 0 <= k <= 5
      invariant a.Valid() && fresh(a)
      invariant a.Contents() == [1, 2, 3, 4, 5][..5 - k]
    {
      var r := a.RemoveLast();
      k := k + 1;
    }
    remaining := a.GetSize();
    sixth := a.RemoveLast();
  }

  /** Removing index 2 of `[10, 20, 30, 40, 50]` leaves `[10, 20, 40, 50]`. */
  method RemoveAtMiddle() returns (r: Outcome, values: seq<int>)
    ensures r == Pass
    ensures values == [10, 20, 40, 50]
  {
    var a := new DynamicArray<int>.FromList([10, 20, 30, 40, 50]);
    r := a.RemoveAt(2);
    values := a.RangeFor();
  }

  /** A copy of a fixed-length array keeps its contents when the original is
      written to afterwards. */
  method StaticCopyIsIndependent<T(0)>(a: StaticArray<T>, index: nat, value: T)
    returns (copy: StaticArray<T>)
    requires a.Valid()
    modifies a.elements
    ensures copy.Valid() && copy.N == a.N && copy.Contents() == old(a.Contents())
    ensures index < a.N ==> a.Contents() == old(a.Contents())[index := value]
  {
    copy := new StaticArray.Copy(a);
    var r := a.Set(index, value);
  }

  /** `begin() == end()` exactly when the array has no slots. */
  method BeginIsEnd<T(0)>(a: StaticArray<T>) returns (b: bool)
    requires a.Valid()
    ensures b <==> a.N == 0
  {
    var first := a.Begin();
    var stop := a.End();
    b := first.Equals(stop);
  }

  /** With a single slot, `first()` and `last()` are the same slot: what is
      written as the first element is read back as the last. */
  method FirstIsLastWhenSingle<T(0)>(a: StaticArray<T>, value: T) returns (r: Result<T>)
    requires a.Valid() && a.N == 1
    modifies a.elements
    ensures r == Ok(value)
  {
    var w := a.Set(0, value);
    r := a.Last();
  }

  /** A range-based `for` that writes `f(x)` through each `*it` maps `f` over
      the array in place. */
  method RangeForUpdate<T(0)>(a: StaticArray<T>, f: T -> T)
    requires a.Valid()
    modifies a.elements
    ensures a.Valid()
    ensures forall i :: 0 <= i < a.N ==> a.Contents()[i] == f(old(a.Contents())[i])
  {
    var it := a.Begin();
    var stop := a.End();
    var done := it.Equals(stop);
    while !done
      invariant fresh(it) && fresh(stop) && it != stop
      invariant it.buffer == a.elements && stop.buffer == a.elements && stop.position == a.N
      invariant 0 <= it.position <= a.N
      invariant done <==> it.position == a.N
      invariant forall i :: 0 <= i < it.position ==> a.elements[i] == f(old(a.elements[i]))
      invariant forall i :: it.position <= i < a.N ==> a.elements[i] == old(a.elements[i])
      decreases a.N - it.position
    {
      var x := it.Read();
      it.Write(f(x));
      it.Increment();
      done := it.Equals(stop);
    }
  }
}
