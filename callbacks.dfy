/**
 * Isolated callback dispatch, the pattern every component of the testbench
 * uses for its observers, callbacks and handlers:
 *
 *     for callback in callbacks:
 *         try: callback(arg)
 *         except Exception: log it
 *
 * A callback is foreign code; it is identified here by a number, and
 * `raises` says whether calling it with a given argument raises. Because
 * the exception is caught, the only lasting effect of the loop is which
 * callbacks ran, in which order, and with which argument.
 */
module Callbacks {

  /** One call made by a dispatch loop, and whether it raised (and was caught). */
  datatype Call<A> = Call(callback: nat, arg: A, raised: bool)

  /** The calls a dispatch loop makes: one per registered callback, in order. */
  function Dispatch<A>(callbacks: seq<nat>, arg: A, raises: (nat, A) -> bool): (r: seq<Call<A>>)
    ensures |r| == |callbacks|
  {
    seq(|callbacks|, i requires 0 <= i < |callbacks| => Call(callbacks[i], arg, raises(callbacks[i], arg)))
  }

  /** Which callbacks a list of calls reached, in order. */
  function Callees<A>(calls: seq<Call<A>>): (r: seq<nat>)
    ensures |r| == |calls|
  {
    seq(|calls|, i requires 0 <= i < |calls| => calls[i].callback)
  }

  /**
   * A raising callback never stops the loop: whatever any callback does,
   * every registered callback is called, once, in registration order,
   * with the same argument.
   */
  lemma DispatchReachesAll<A>(callbacks: seq<nat>, arg: A, raises: (nat, A) -> bool)
    ensures Callees(Dispatch(callbacks, arg, raises)) == callbacks
    ensures forall i :: 0 <= i < |callbacks| ==> Dispatch(callbacks, arg, raises)[i].arg == arg
  {
  }

  /** The loop itself. */
  method RunIsolated<A>(callbacks: seq<nat>, arg: A, raises: (nat, A) -> bool) returns (calls: seq<Call<A>>)
    ensures calls == Dispatch(callbacks, arg, raises)
  {
    calls := [];
    var i := 0;
    while i < |callbacks|
      invariant 0 <= i <= |callbacks|
      invariant calls == Dispatch(callbacks[..i], arg, raises)
    {
      var raised := raises(callbacks[i], arg);
      calls := calls + [Call(callbacks[i], arg, raised)];
      i := i + 1;
    }
    assert callbacks[..i] == callbacks;
  }
}
