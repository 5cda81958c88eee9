/**
 * The monitor base class (tb/env/base/monitor.py): the observer registry,
 * observer notification with isolation, the active flag the monitoring
 * loop polls, and wait_for_transaction's timeout.
 *
 * Observers are foreign callables, identified by number (see Callbacks).
 * The monitoring loop runs concurrently with a waiter; here a waiter is
 * given the number of transactions the loop observes on each edge.
 */
module BaseMonitor {
  import opened Wrappers
  import opened Callbacks
  import Lifecycle

  /** list.remove(x): drop the first occurrence of x; a missing x leaves the list as it is. */
  function RemoveFirst(s: seq<nat>, x: nat): seq<nat>
  {
    if s == [] then []
    else if s[0] == x then s[1..]
    else [s[0]] + RemoveFirst(s[1..], x)
  }

  /** An observer that is not registered leaves the list unchanged. */
  lemma {:induction false} RemoveFirstAbsent(s: seq<nat>, x: nat)
    requires x !in s
    ensures RemoveFirst(s, x) == s
  {
    if s != [] {
      RemoveFirstAbsent(s[1..], x);
    }
  }

  /** Removing the first occurrence at index i splices it out. */
  lemma {:induction false} RemoveFirstSplice(s: seq<nat>, x: nat, i: nat)
    requires i < |s| && s[i] == x && x !in s[..i]
    ensures RemoveFirst(s, x) == s[..i] + s[i + 1..]
  {
    if i > 0 {
      assert s[0] != x by { assert s[0] == s[..i][0]; }
      assert x !in s[1..][..i - 1] by { assert s[1..][..i - 1] == s[..i][1..]; }
      RemoveFirstSplice(s[1..], x, i - 1);
      assert [s[0]] + s[1..][..i - 1] == s[..i];
      assert s[1..][i..] == s[i + 1..];
    }
  }

  /**
   * remove_observer removes exactly the first occurrence of a registered
   * observer, keeping the order of the others.
   */
  lemma RemoveFirstAt(s: seq<nat>, x: nat, i: nat)
    requires i < |s| && s[i] == x && x !in s[..i]
    ensures RemoveFirst(s, x) == s[..i] + s[i + 1..]
    ensures multiset(RemoveFirst(s, x)) == multiset(s) - multiset{x}
  {
    RemoveFirstSplice(s, x, i);
    assert s == s[..i] + [x] + s[i + 1..];
  }

  function Sum(s: seq<nat>): nat
  {
    if s == [] then 0 else Sum(s[..|s| - 1]) + s[|s| - 1]
  }

  /** A sum of counts is zero exactly when every count is. */
  lemma {:induction false} SumZero(s: seq<nat>)
    ensures Sum(s) == 0 <==> forall i :: 0 <= i < |s| ==> s[i] == 0
  {
    if s != [] {
      SumZero(s[..|s| - 1]);
      assert forall i :: 0 <= i < |s| - 1 ==> s[..|s| - 1][i] == s[i];
    }
  }

  /** `if timeout_cycles and ...`: None and 0 mean no timeout. */
  predicate HasTimeout(timeoutCycles: Option<int>)
  {
    timeoutCycles.Some? && timeoutCycles.value != 0
  }

  /** The edge on which a timeout fires: the first edge whose count reaches the timeout. */
  function Deadline(timeoutCycles: Option<int>): nat
    requires HasTimeout(timeoutCycles)
  {
    if timeoutCycles.value < 1 then 1 else timeoutCycles.value
  }

  datatype WaitError = Timeout

  class Monitor<T> {
    const component: Lifecycle.Component
    var active: bool
    var transactionsObserved: nat
    var observers: seq<nat>
    /** Every observer call made so far, in order. */
    var calls: seq<Call<T>>
    /** How many monitoring loops start has launched. */
    var loopsStarted: nat

    constructor (name: string)
      ensures fresh(component) && component.name == name && !component.started
      ensures !active && transactionsObserved == 0 && observers == [] && calls == [] && loopsStarted == 0
    {
      component := new Lifecycle.Component(name);
      active := false;
      transactionsObserved := 0;
      observers := [];
      calls := [];
      loopsStarted := 0;
    }

    /** add_observer appends, so an observer may be registered twice. */
    method AddObserver(observer: nat)
      modifies this
      ensures observers == old(observers) + [observer]
      ensures active == old(active) && transactionsObserved == old(transactionsObserved)
      ensures calls == old(calls) && loopsStarted == old(loopsStarted)
    {
      observers := observers + [observer];
    }

    method RemoveObserver(observer: nat)
      modifies this
      ensures observers == RemoveFirst(old(observers), observer)
      ensures active == old(active) && transactionsObserved == old(transactionsObserved)
      ensures calls == old(calls) && loopsStarted == old(loopsStarted)
    {
      if observer in observers {
        observers := RemoveFirst(observers, observer);
      } else {
        RemoveFirstAbsent(observers, observer);
      }
    }

    /**
     * notify_observers: one more transaction observed, whatever the
     * observers do; every observer is called in registration order and a
     * raising one does not stop the others.
     */
    method NotifyObservers(transaction: T, raises: (nat, T) -> bool)
      modifies this
      ensures transactionsObserved == old(transactionsObserved) + 1
      ensures calls == old(calls) + Dispatch(observers, transaction, raises)
      ensures observers == old(observers) && active == old(active) && loopsStarted == old(loopsStarted)
    {
      transactionsObserved := transactionsObserved + 1;
      var made := RunIsolated(observers, transaction, raises);
      calls := calls + made;
    }

    /** start: the component start, then the active flag and a new monitoring loop. */
    method Start(implRaises: bool) returns (r: Outcome<Lifecycle.LifecycleError>)
      modifies this, component
      ensures r.Fail? ==> active == old(active) && loopsStarted == old(loopsStarted)
      ensures r.Pass? ==> active && loopsStarted == old(loopsStarted) + 1 && component.started
      ensures r.Fail? <==> !old(component.started) && implRaises
      ensures observers == old(observers) && transactionsObserved == old(transactionsObserved) && calls == old(calls)
    {
      r := component.Start(implRaises);
      if r.Fail? {
        return;
      }
      active := true;
      loopsStarted := loopsStarted + 1;
    }

    /** stop clears the active flag first, whatever the component stop then does. */
    method Stop(implRaises: bool) returns (r: Outcome<Lifecycle.LifecycleError>)
      modifies this, component
      ensures !active
      ensures r.Fail? <==> old(component.started) && implRaises
      ensures observers == old(observers) && transactionsObserved == old(transactionsObserved)
      ensures calls == old(calls) && loopsStarted == old(loopsStarted)
    {
      active := false;
      r := component.Stop(implRaises);
    }

    /**
     * wait_for_transaction: wait edge by edge until the observed count
     * moves; after each edge, a timeout fires once the edges waited reach
     * it, even on the edge a transaction arrived. arrivals[t] is the
     * number of transactions the monitoring loop observes on edge t. A
     * wait without a timeout is modelled on traces in which a transaction
     * eventually arrives.
     */
    method WaitForTransaction(timeoutCycles: Option<int>, arrivals: seq<nat>) returns (r: Result<nat, WaitError>, waited: nat)
      requires HasTimeout(timeoutCycles) ==> |arrivals| >= Deadline(timeoutCycles)
      requires !HasTimeout(timeoutCycles) ==> exists i :: 0 <= i < |arrivals| && arrivals[i] > 0
      modifies this
      ensures 0 < waited <= |arrivals|
      ensures transactionsObserved == old(transactionsObserved) + Sum(arrivals[..waited])
      ensures forall i :: 0 <= i < waited - 1 ==> arrivals[i] == 0
      ensures r.Success? <==> exists i :: 0 <= i < |arrivals| && arrivals[i] > 0
                                   && (HasTimeout(timeoutCycles) ==> i + 1 < Deadline(timeoutCycles))
      ensures r.Success? ==> r.value == waited && arrivals[waited - 1] > 0
      ensures r.Failure? ==> HasTimeout(timeoutCycles) && waited == Deadline(timeoutCycles)
      ensures observers == old(observers) && calls == old(calls) && active == old(active)
    {
      var startCount := transactionsObserved;
      var cyclesWaited := 0;
      while transactionsObserved == startCount
        invariant cyclesWaited <= |arrivals|
        invariant transactionsObserved == startCount + Sum(arrivals[..cyclesWaited])
        invariant forall i :: 0 <= i < cyclesWaited - 1 ==> arrivals[i] == 0
        invariant transactionsObserved == startCount ==> cyclesWaited < |arrivals|
        invariant HasTimeout(timeoutCycles) ==> cyclesWaited < Deadline(timeoutCycles)
        invariant observers == old(observers) && calls == old(calls) && active == old(active)
        decreases |arrivals| - cyclesWaited
      {
        SumZero(arrivals[..cyclesWaited]);
        assert forall i :: 0 <= i < cyclesWaited ==> arrivals[..cyclesWaited][i] == arrivals[i];
        assert arrivals[..cyclesWaited + 1][..cyclesWaited] == arrivals[..cyclesWaited];
        transactionsObserved := transactionsObserved + arrivals[cyclesWaited];
        cyclesWaited := cyclesWaited + 1;
        SumZero(arrivals[..cyclesWaited]);
        assert forall i :: 0 <= i < cyclesWaited ==> arrivals[..cyclesWaited][i] == arrivals[i];
        if HasTimeout(timeoutCycles) && cyclesWaited >= timeoutCycles.value {
          return Failure(Timeout), cyclesWaited;
        }
      }
      assert cyclesWaited > 0;
      assert arrivals[..cyclesWaited][..cyclesWaited - 1] == arrivals[..cyclesWaited - 1];
      SumZero(arrivals[..cyclesWaited - 1]);
      assert forall i :: 0 <= i < cyclesWaited - 1 ==> arrivals[..cyclesWaited - 1][i] == arrivals[i];
      return Success(cyclesWaited), cyclesWaited;
    }
  }
}
