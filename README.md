# Generic array containers, modelled in Dafny

This project models the two array containers of the `dsa` library
(`libs/dsa/structures/arrays/`):

- `DynamicArray<T>`: a growable array. It owns one heap buffer `pElements`
  and a length `mSize`. Every operation that changes the length allocates a
  buffer of exactly the new length. An index loop then copies the surviving
  elements across, shifting them where needed.
- `StaticArray<T, size>`: an array whose length is a template constant. It
  owns one buffer of that length and writes into it in place. Its
  `StaticArrayIterator` is a raw pointer into that buffer.

Both are Dafny classes over an `array<T>`. The abstract value of each is the
ghost function `Contents()`, the buffer as a sequence. The source's
exceptions become return values: `Result<T>` for accessors and `Outcome` for
mutators. `OutOfRange` stands for `std::out_of_range` and `RuntimeError` for
`std::runtime_error`. Every failing mutator is proved to leave the state
unchanged.

Files and modules:

- `exceptions.dfy` (`Exceptions`): error kinds, `Result` and `Outcome`.
- `size_t.dfy` (`SizeT`): the largest `size_t` value.
- `sequences.dfy` (`Sequences`): `RemovedAt`, the sequence `removeAt`
  produces.
- `dynamic_array.dfy` (`DynamicArrays`): the class `DynamicArray`.
- `static_array.dfy` (`StaticArrays`): the classes `StaticArrayIterator`
  and `StaticArray`.
- `array_laws.dfy` (`ArrayLaws`): laws that combine several operations.
  Each law is a client method verified against the containers' contracts
  only.

## Model

| member | source | states |
|---|---|---|
| `DynamicArrays.DynamicArray.constructor` | libs/dsa/structures/arrays/dynamic_array.h:26-30 | the default constructor yields the empty array |
| `DynamicArrays.DynamicArray.FromList` | libs/dsa/structures/arrays/dynamic_array.h:36-50 | the initializer-list constructor yields exactly the list, in order, in a fresh buffer (the empty list included) |
| `DynamicArrays.DynamicArray.Copy` | libs/dsa/structures/arrays/dynamic_array.h:56-65 | the copy constructor yields equal contents in a fresh buffer |
| `DynamicArrays.DynamicArray.Move` | libs/dsa/structures/arrays/dynamic_array.h:87-94 | the move constructor takes over the source's buffer and contents; the source is left valid and empty |
| `DynamicArrays.DynamicArray.Get` | libs/dsa/structures/arrays/dynamic_array.h:102-122 | `get(i)` is element i when `i < size` and `out_of_range` otherwise |
| `DynamicArrays.DynamicArray.GetSize` | libs/dsa/structures/arrays/dynamic_array.h:148-151 | `getSize()` is the number of elements |
| `DynamicArrays.DynamicArray.First` | libs/dsa/structures/arrays/dynamic_array.h:158-171 | `first()` is element 0, and `out_of_range` on an empty array |
| `DynamicArrays.DynamicArray.Last` | libs/dsa/structures/arrays/dynamic_array.h:178-191 | `last()` is element size-1; on an empty array `size - 1` wraps in `size_t` and the result is `out_of_range` |
| `DynamicArrays.DynamicArray.Set` | libs/dsa/structures/arrays/dynamic_array.h:199-205 | `set(i, v)` with `i < size` changes slot i only and keeps the length; with `i >= size` it gives `out_of_range` and changes nothing |
| `DynamicArrays.DynamicArray.AddLast` | libs/dsa/structures/arrays/dynamic_array.h:211-237 | `addLast(v)` makes the contents `old + [v]` in a fresh buffer |
| `DynamicArrays.DynamicArray.AddFirst` | libs/dsa/structures/arrays/dynamic_array.h:243-269 | `addFirst(v)` makes the contents `[v] + old` in a fresh buffer |
| `DynamicArrays.DynamicArray.RemoveLast` | libs/dsa/structures/arrays/dynamic_array.h:275-302 | on an empty array `runtime_error` and no change; otherwise the contents become `old[..n-1]` |
| `DynamicArrays.DynamicArray.RemoveFirst` | libs/dsa/structures/arrays/dynamic_array.h:308-335 | on an empty array `runtime_error` and no change; otherwise the contents become `old[1..]` |
| `DynamicArrays.DynamicArray.RemoveAt` | libs/dsa/structures/arrays/dynamic_array.h:342-376 | `removeAt(i)` with `i >= size` gives `out_of_range` and no change; otherwise the contents become `old` without element i, with later elements shifted left |
| `DynamicArrays.DynamicArray.AssignCopy` | libs/dsa/structures/arrays/dynamic_array.h:383-399 | copy assignment gives equal contents in a fresh buffer and leaves the source alone; self-assignment changes nothing |
| `DynamicArrays.DynamicArray.AssignMove` | libs/dsa/structures/arrays/dynamic_array.h:406-420 | move assignment takes over the source's buffer and contents and leaves the source empty; self-move changes nothing |
| `DynamicArrays.DynamicArray.AssignList` | libs/dsa/structures/arrays/dynamic_array.h:427-455 | initializer-list assignment makes the contents exactly the list, the empty list included |
| `DynamicArrays.DynamicArray.Begin` | libs/dsa/structures/arrays/dynamic_array.h:477-480 | `begin()` points at slot 0 of the current buffer |
| `DynamicArrays.DynamicArray.End` | libs/dsa/structures/arrays/dynamic_array.h:486-489 | `end()` points one past the last element of the current buffer |
| `DynamicArrays.DynamicArray.RangeFor` | libs/dsa/structures/arrays/dynamic_array.h:477-489 | stepping from `begin()` to `end()` visits exactly the contents, in index order |
| `Sequences.RemovedAt` | libs/dsa/structures/arrays/dynamic_array.h:359-369 | the shifting copy of `removeAt`: elements before i keep their index, later ones move one to the left, the length drops by one |
| `StaticArrays.StaticArrayIterator.constructor` | libs/dsa/structures/arrays/static_array.h:28 | the iterator holds the pointer it is given |
| `StaticArrays.StaticArrayIterator.Increment` | libs/dsa/structures/arrays/static_array.h:34-38 | prefix `++` moves to the next slot |
| `StaticArrays.StaticArrayIterator.PostIncrement` | libs/dsa/structures/arrays/static_array.h:44-49 | postfix `++` moves to the next slot and returns a copy at the old slot |
| `StaticArrays.StaticArrayIterator.Decrement` | libs/dsa/structures/arrays/static_array.h:55-59 | prefix `--` moves to the previous slot |
| `StaticArrays.StaticArrayIterator.PostDecrement` | libs/dsa/structures/arrays/static_array.h:65-70 | postfix `--` moves to the previous slot and returns a copy at the old slot |
| `StaticArrays.StaticArrayIterator.At` | libs/dsa/structures/arrays/static_array.h:77-80 | `it[k]` is the element k slots from the cursor |
| `StaticArrays.StaticArrayIterator.Read` | libs/dsa/structures/arrays/static_array.h:86-98 | `*it` is the element under the cursor |
| `StaticArrays.StaticArrayIterator.AtWrite` | libs/dsa/structures/arrays/static_array.h:77-80 | `it[k] = v` writes through the returned reference: slot `position + k` becomes `v` and no other slot changes |
| `StaticArrays.StaticArrayIterator.Write` | libs/dsa/structures/arrays/static_array.h:95-98 | writing through `*it` changes the slot under the cursor and no other |
| `StaticArrays.StaticArrayIterator.Equals` | libs/dsa/structures/arrays/static_array.h:105-108 | `==` holds exactly when both point at the same slot of the same buffer |
| `StaticArrays.StaticArrayIterator.NotEquals` | libs/dsa/structures/arrays/static_array.h:115-118 | `!=` is the negation of `==` |
| `StaticArrays.StaticArray.constructor` | libs/dsa/structures/arrays/static_array.h:145-148 | the default constructor gives `size` slots, each holding the value-initialised `T` |
| `StaticArrays.StaticArray.FromList` | libs/dsa/structures/arrays/static_array.h:160-170 | once the length check has passed, the initializer-list constructor gives `get(i) == list[i]` for every i |
| `StaticArrays.StaticArray.TryFromList` | libs/dsa/structures/arrays/static_array.h:155-171 | the initializer-list constructor gives `runtime_error` exactly when the list length differs from `size`; otherwise an array holding the list |
| `StaticArrays.StaticArray.Copy` | libs/dsa/structures/arrays/static_array.h:177-184 | the copy constructor gives equal contents in a fresh buffer |
| `StaticArrays.StaticArray.Move` | libs/dsa/structures/arrays/static_array.h:193-197 | the move constructor takes over the source's buffer and nulls the source's |
| `StaticArrays.StaticArray.Get` | libs/dsa/structures/arrays/static_array.h:214-234 | `get(i)` is element i when `i < size` and `out_of_range` otherwise, for every index when `size == 0` |
| `StaticArrays.StaticArray.GetSize` | libs/dsa/structures/arrays/static_array.h:240-243 | `getSize()` is always the constant `size` |
| `StaticArrays.StaticArray.First` | libs/dsa/structures/arrays/static_array.h:269-272 | `first()` is element 0, and `out_of_range` when `size == 0` |
| `StaticArrays.StaticArray.Last` | libs/dsa/structures/arrays/static_array.h:278-281 | `last()` is element size-1; when `size == 0` the index wraps in `size_t` and the result is `out_of_range` |
| `StaticArrays.StaticArray.Set` | libs/dsa/structures/arrays/static_array.h:290-296 | `set(i, v)` with `i < size` changes slot i only; otherwise `out_of_range` and no change |
| `StaticArrays.StaticArray.AssignList` | libs/dsa/structures/arrays/static_array.h:304-320 | initializer-list assignment checks the length first: on a mismatch `runtime_error` and no change, otherwise the contents become the list |
| `StaticArrays.StaticArray.AssignCopy` | libs/dsa/structures/arrays/static_array.h:327-342 | copy assignment gives equal contents in a fresh buffer and leaves the source alone; self-assignment changes nothing |
| `StaticArrays.StaticArray.AssignMove` | libs/dsa/structures/arrays/static_array.h:349-360 | move assignment takes over the source's buffer and nulls the source's; self-move changes nothing |
| `StaticArrays.StaticArray.Begin` | libs/dsa/structures/arrays/static_array.h:382-385 | `begin()` is an iterator at slot 0 |
| `StaticArrays.StaticArray.End` | libs/dsa/structures/arrays/static_array.h:391-394 | `end()` is an iterator one past the last slot |
| `StaticArrays.StaticArray.RangeFor` | libs/dsa/structures/arrays/static_array.h:382-394 | iterating with `++` from `begin()` until it equals `end()` visits exactly the `size` elements, in index order |
| `ArrayLaws.AddLastThenRemoveLast` | libs/dsa/structures/arrays/dynamic_array.h:211-302 | `addLast(v)` then `removeLast()` restores the previous contents exactly |
| `ArrayLaws.RemoveAtFrontIsRemoveFirst` | libs/dsa/structures/arrays/dynamic_array.h:308-376 | on a non-empty array `removeAt(0)` and `removeFirst()` both succeed and leave the same contents; on an empty one `removeAt(0)` gives `out_of_range` and `removeFirst()` gives `runtime_error` |
| `ArrayLaws.AddLastThenRemoveAt` | libs/dsa/structures/arrays/dynamic_array.h:342-376 | `addLast(v)` then `removeAt(old size)` restores the previous contents exactly |
| `ArrayLaws.AddFirstThenRemoveFirst` | libs/dsa/structures/arrays/dynamic_array.h:243-335 | `addFirst(v)` then `removeFirst()` restores the previous contents exactly |
| `ArrayLaws.SetThenGet` | libs/dsa/structures/arrays/dynamic_array.h:102-205 | `get(i)` after `set(i, v)` reads `v` when `i < size`; otherwise both give `out_of_range` |
| `ArrayLaws.DynamicCopyIsIndependent` | libs/dsa/structures/arrays/dynamic_array.h:56-65 | a later `set` on the original leaves a copy's contents as they were |
| `ArrayLaws.DrainFromBack` | libs/dsa/structures/arrays/dynamic_array.h:275-302 | five `removeLast` calls empty `[1,2,3,4,5]` and a sixth gives `runtime_error` |
| `ArrayLaws.RemoveAtMiddle` | libs/dsa/structures/arrays/dynamic_array.h:342-376 | `removeAt(2)` on `[10,20,30,40,50]` leaves `[10,20,40,50]` |
| `ArrayLaws.StaticCopyIsIndependent` | libs/dsa/structures/arrays/static_array.h:177-184 | a later `set` on the original leaves a copy's contents as they were |
| `ArrayLaws.BeginIsEnd` | libs/dsa/structures/arrays/static_array.h:382-394 | `begin() == end()` exactly when `size == 0` |
| `ArrayLaws.MovedFromCanBeReassigned` | libs/dsa/structures/arrays/static_array.h:327-342 | an array emptied by a move takes a new value by copy assignment, after which `first()` reads the copied element |
| `ArrayLaws.FirstIsLastWhenSingle` | libs/dsa/structures/arrays/static_array.h:269-281 | when `size == 1`, what is written to slot 0 is what `last()` reads |
| `ArrayLaws.RangeForUpdate` | libs/dsa/structures/arrays/static_array.h:95-98 | writing `f(x)` through `*it` for every position from `begin()` to `end()` maps `f` over the array in place |

## Left out

- `operator<<` in both headers writes to an `std::ostream`. This is I/O and is not modelled.
- Destructors and `delete[]` are not modelled, because Dafny is garbage-collected. Only the facts that each buffer is fresh and belongs to one container are modelled.
- `DynamicArray` stores a null `pElements` when it is empty (after the default constructor at dynamic_array.h:29, in the moved-from array at dynamic_array.h:93 and 417, and after `removeLast`, `removeFirst` or `removeAt` on a one-element array or assigning an empty list). The model uses a zero-length buffer instead. No operation can tell the two apart.
- The moved-from `StaticArray` has a null buffer, and the model sets `elements` to null. `getSize` and copy or move assignment into it still work, as in the source, where `delete[]` of a null pointer does nothing. Every other operation requires `Valid()`. In the source, those that fail their bounds or length check (static_array.h:216-217, 292-293, 306-307) still throw as on a valid array, and `begin()` (static_array.h:382-385) yields an iterator holding the null pointer; the model does not cover these cases.
- At static_array.h:57, `operator--` returns `this->mPtr--` as an iterator reference, which does not compile. The model does what the surrounding code and the tests intend: move back one slot.
- At static_array.h:329 the self-assignment test compares `this` with `other`, a pointer with an object, which does not compile. The model uses the intended test, `this == &other`.
- In `StaticArray`'s initializer-list constructor, the source loop's `if (i >= size) return;` can never fire after the length check, so the model has no such branch. The same holds for the `break` in `StaticArray`'s list assignment (static_array.h:313-314) and in `DynamicArray`'s list loops.
- The const overloads of `get`, `first` and `last`, and `operator[]`, behave like `get`, so each is modelled by that one method. These accessors return references, and writing through such a reference is modelled by `Set`.
- `operator->` of the iterator returns the same pointer that `*` dereferences. Member access through it is modelled by `Read`.
- `DynamicArray::begin`/`end` return raw `T*` pointers. They are modelled as the buffer and an offset. Pointer arithmetic on them is the language's own and is shown only through `RangeFor`.
- Iterator equality is modelled as the same buffer and the same offset. Two pointers into different buffers that happen to have equal addresses are not modelled.
- Indices are unbounded `nat`s, not 64-bit `size_t`. The only `size_t` wrap-around that changes a result, `size - 1` on an empty array in `last()`, is written out with `SizeMax`.
- `StaticArrays.StaticArray.GetSize`: the source returns `int`, which would truncate a `size` above `INT_MAX`. The model returns `size` unchanged.
- `StaticArray`'s default constructor value-initialises each slot. Dafny has no such notion for a generic `T`, so the value-initialised `T` is the parameter `zero`. Both classes require `T(0)`, because uninitialised `new T[n]` needs it.
- An iterator that is out of range may be compared and moved. Reading and writing through it requires an in-range slot, because the source's behaviour there is undefined. An iterator taken before copy or move assignment, or before destruction, dangles in the source, and reading through it is undefined even at an in-range slot; in the model `Read` and `Write` go on using the old buffer.
- The linked-list files (`node.h`, `linked_list.h`) are not part of this model. `linked_list.h` is incomplete and does not compile. In `node.h`, the copy constructor, destructor and copy assignment do not agree on one behaviour.
- A list of the wrong length (static_array.h:157-158, 306-307) and removal from an empty array (dynamic_array.h:277-278, 310-311) both throw `std::runtime_error`, so both map to `RuntimeError`.
- The list constructor, copy constructor and list assignment of `DynamicArray` count with a signed `int i` (dynamic_array.h:41, 61, 444), which would overflow on a container of more than `INT_MAX` elements. The model's counters are unbounded, so it does not capture that overflow.
