/** Pure facts about sequences that the containers' contracts are stated with. */
module Sequences {

  /** `s` with the element at index `i` taken out: every element before `i`
      keeps its index and every element after it moves one place to the left. */
  function RemovedAt<T>(s: seq<T>, i: nat): (r: seq<T>)
    requires i < |s|
    ensures |r| == |s| - 1
    ensures forall k :: 0 <= k < i ==> r[k] == s[k]
    ensures forall k :: i <= k < |r| ==> r[k] == s[k + 1]
  {
    s[..i] + s[i + 1..]
  }
}
