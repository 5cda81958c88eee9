/**
 * The lifecycle every verification component shares
 * (tb/env/base/component.py): a started flag toggled by start and stop
 * around the subclass hooks _start_impl and _stop_impl, and the failure
 * helper. The hooks are foreign code: whether one raises is a parameter,
 * and the model counts how often each ran. Logging is a no-op.
 */
module Lifecycle {
  import opened Wrappers

  /** A hook raised; the exception propagates out of start or stop. */
  datatype LifecycleError = HookRaised

  /** The AssertionError raise_test_failure raises. */
  datatype AssertionError = AssertionError(message: string)

  class Component {
    const name: string
    var started: bool
    var startImplRuns: nat
    var stopImplRuns: nat

    constructor (name: string)
      ensures this.name == name && !started && startImplRuns == 0 && stopImplRuns == 0
    {
      this.name := name;
      started := false;
      startImplRuns := 0;
      stopImplRuns := 0;
    }

    /**
     * start: on a started component only a warning; otherwise run
     * _start_impl and then set the flag, which a raising hook leaves clear.
     */
    method Start(implRaises: bool) returns (r: Outcome<LifecycleError>)
      modifies this
      ensures old(started) ==> r == Pass && started && startImplRuns == old(startImplRuns)
      ensures !old(started) ==>
        (startImplRuns == old(startImplRuns) + 1 && (r.Fail? <==> implRaises) && (started <==> !implRaises))
      ensures stopImplRuns == old(stopImplRuns)
    {
      if started {
        return Pass;
      }
      startImplRuns := startImplRuns + 1;
      if implRaises {
        return Fail(HookRaised);
      }
      started := true;
      return Pass;
    }

    /**
     * stop: on a stopped component only a warning; otherwise run
     * _stop_impl and then clear the flag, which a raising hook leaves set.
     */
    method Stop(implRaises: bool) returns (r: Outcome<LifecycleError>)
      modifies this
      ensures !old(started) ==> r == Pass && !started && stopImplRuns == old(stopImplRuns)
      ensures old(started) ==>
        (stopImplRuns == old(stopImplRuns) + 1 && (r.Fail? <==> implRaises) && (started <==> implRaises))
      ensures startImplRuns == old(startImplRuns)
    {
      if !started {
        return Pass;
      }
      stopImplRuns := stopImplRuns + 1;
      if implRaises {
        return Fail(HookRaised);
      }
      started := false;
      return Pass;
    }

    /** raise_test_failure always raises, with the component's name in front of the message. */
    method RaiseTestFailure(message: string) returns (e: AssertionError)
      ensures |e.message| == |name| + 2 + |message|
      ensures e.message[..|name|] == name && e.message[|name|..|name| + 2] == ": "
      ensures e.message[|name| + 2..] == message
    {
      e := AssertionError(name + ": " + message);
    }
  }
}
