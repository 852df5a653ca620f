/**
 * The counter of pkg/drone/sequence.go. The source guards it with a mutex;
 * calls are modelled one at a time, so the lock is not part of the model.
 */
module Sequences {

  class Sequence {
    /** The last value handed out; 0 before the first `Next`. */
    var value: int

    /** `new(sequence)`: Go's zero value. */
    constructor ()
      ensures value == 0
    {
      value := 0;
    }

    /** `next`: increments, then returns the new value. */
    method Next() returns (i: int)
      modifies this
      ensures value == old(value) + 1
      ensures i == value
    {
      value := value + 1;
      i := value;
    }

    /** `curr`: returns the value without changing it. */
    method Curr() returns (i: int)
      ensures i == value
    {
      i := value;
    }
  }

  /**
   * `n` successive `next` calls on a fresh sequence, followed by `curr`:
   * the calls return 1, 2, ..., n (each value once, strictly increasing) and
   * `curr` then reports n.
   */
  method NextCalls(n: nat) returns (values: seq<int>, current: int)
    ensures |values| == n
    ensures forall k :: 0 <= k < n ==> values[k] == k + 1
    ensures forall j, k :: 0 <= j < k < n ==> values[j] < values[k]
    ensures current == n
  {
    var s := new Sequence();
    values := [];
    while |values| < n
      invariant |values| <= n
      invariant s.value == |values|
      invariant forall k :: 0 <= k < |values| ==> values[k] == k + 1
    {
      var v := s.Next();
      values := values + [v];
    }
    current := s.Curr();
  }
}
