/**
 What more than one component needs: optional values, and the states a list of steps goes through.
 */
module Wrappers {

  datatype Option<+T> = None | Some(value: T)

  /** The states of a run: each the one before with a step applied. */
  function RunFrom<S, T>(apply: (S, T) -> S, s: S, steps: seq<T>): (states: seq<S>)
    ensures |states| == |steps| + 1 && states[0] == s
    ensures forall i :: 0 <= i < |steps| ==> states[i + 1] == apply(states[i], steps[i])
    decreases |steps|
  {
    if steps == [] then [s]
    else
      var rest := RunFrom(apply, apply(s, steps[0]), steps[1..]);
      assert forall i :: 0 < i < |steps| ==> rest[i] == apply(rest[i - 1], steps[1..][i - 1]);
      [s] + rest
  }
}
