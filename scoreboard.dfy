/**
 * The scoreboard base class (tb/env/base/scoreboard.py): an expected and
 * an actual queue, drained pairwise in arrival order whenever both hold a
 * transaction; each pair is compared by the custom comparison function if
 * one is set, else by the transactions' string forms.
 *
 * On a mismatch the statistics are updated, every mismatch handler is
 * called with its exceptions caught, and then the code calls
 * self.test_failed, a method the Component base class does not define:
 * the resulting exception ends the drain and escapes from the add.
 * Handlers are foreign callables, identified by number (see Callbacks).
 */
module Scoreboard {
  import opened Wrappers
  import opened Callbacks

  datatype ScoreboardStats = ScoreboardStats(
    transactionsChecked: nat, matches: nat, mismatches: nat, expectedPending: nat, actualPending: nat)

  datatype ScoreboardError =
    | MismatchRaised   // the exception from the test_failed call after a mismatch
    | CompletionTimeout

  /**
   * How far _try_check_transactions drains two queues: the number of
   * pairs compared, and whether the last of them mismatched (which ends
   * the drain with an exception).
   */
  datatype Drained = Drained(pairs: nat, mismatch: bool)

  function Min(a: nat, b: nat): nat
  {
    if a < b then a else b
  }

  /**
   * The pairs compared are the oldest expected with the oldest actual, in
   * order and with no search; all but the last matched, the drain stops
   * at the first mismatch, and otherwise goes on until a queue is empty.
   */
  function Drain<T>(expected: seq<T>, actual: seq<T>, compare: (T, T) -> bool): (r: Drained)
    ensures r.pairs <= |expected| && r.pairs <= |actual|
    ensures forall i :: 0 <= i < r.pairs - 1 ==> compare(expected[i], actual[i])
    ensures r.mismatch <==> r.pairs > 0 && !compare(expected[r.pairs - 1], actual[r.pairs - 1])
    ensures !r.mismatch ==> r.pairs == Min(|expected|, |actual|)
  {
    if expected == [] || actual == [] then Drained(0, false)
    else if !compare(expected[0], actual[0]) then Drained(1, true)
    else
      var rest := Drain(expected[1..], actual[1..], compare);
      Drained(rest.pairs + 1, rest.mismatch)
  }

  /**
   * When one queue was empty before a transaction was appended to the
   * other, one add performs at most one comparison, and afterwards at
   * least one queue is empty again.
   */
  lemma AddComparesAtMostOnce<T>(expected: seq<T>, actual: seq<T>, t: T, compare: (T, T) -> bool)
    requires expected == [] || actual == []
    ensures Drain(expected + [t], actual, compare).pairs <= 1
    ensures Drain(actual, expected + [t], compare).pairs <= 1
    ensures var d := Drain(expected + [t], actual, compare);
      (expected + [t])[d.pairs..] == [] || actual[d.pairs..] == []
  {
  }

  /** One step of the drain at position n of both queues. */
  lemma DrainAt<T>(expected: seq<T>, actual: seq<T>, n: nat, compare: (T, T) -> bool)
    requires n < |expected| && n < |actual|
    ensures var d := Drain(expected[n..], actual[n..], compare);
      var rest := Drain(expected[n + 1..], actual[n + 1..], compare);
      d == if compare(expected[n], actual[n]) then Drained(rest.pairs + 1, rest.mismatch) else Drained(1, true)
  {
    assert expected[n..][1..] == expected[n + 1..] && actual[n..][1..] == actual[n + 1..];
  }

  class Scoreboard<T(!new)> {
    const name: string
    /** str(transaction), which the default comparison uses. */
    const render: T -> string
    var expectedQueue: seq<T>
    var actualQueue: seq<T>
    var transactionsChecked: nat
    var matches: nat
    var mismatches: nat
    var expectedPending: nat
    var actualPending: nat
    var comparisonFunc: Option<(T, T) -> bool>
    var mismatchHandlers: seq<nat>
    /** Every handler call made so far, in order, with the (expected, actual) pair. */
    var calls: seq<Call<(T, T)>>

    /** Every comparison counts as a match or a mismatch, and at most one queue holds transactions. */
    ghost predicate Valid()
      reads this
    {
      transactionsChecked == matches + mismatches && (expectedQueue == [] || actualQueue == [])
    }

    constructor (name: string, render: T -> string)
      ensures Valid() && this.name == name && this.render == render
      ensures expectedQueue == [] && actualQueue == [] && comparisonFunc.None? && mismatchHandlers == [] && calls == []
      ensures transactionsChecked == 0 && matches == 0 && mismatches == 0
    {
      this.name := name;
      this.render := render;
      expectedQueue, actualQueue := [], [];
      transactionsChecked, matches, mismatches := 0, 0, 0;
      expectedPending, actualPending := 0, 0;
      comparisonFunc := None;
      mismatchHandlers := [];
      calls := [];
    }

    /** _compare_transactions: the custom function if set, else _default_compare, equal string forms. */
    function Compare(): (compare: (T, T) -> bool)
      reads this
      ensures comparisonFunc.None? ==> forall e, a :: compare(e, a) <==> render(e) == render(a)
      ensures comparisonFunc.Some? ==> compare == comparisonFunc.value
    {
      if comparisonFunc.Some? then comparisonFunc.value
      else var str := render; (e: T, a: T) => str(e) == str(a)
    }

    /** The stats property: the counters, with the pending counts refreshed from the queues. */
    method Stats() returns (s: ScoreboardStats)
      modifies this`expectedPending, this`actualPending
      ensures s == ScoreboardStats(transactionsChecked, matches, mismatches, |expectedQueue|, |actualQueue|)
      ensures expectedPending == |expectedQueue| && actualPending == |actualQueue|
    {
      expectedPending := |expectedQueue|;
      actualPending := |actualQueue|;
      s := ScoreboardStats(transactionsChecked, matches, mismatches, expectedPending, actualPending);
    }

    method SetComparisonFunction(f: (T, T) -> bool)
      modifies this`comparisonFunc
      ensures comparisonFunc == Some(f)
    {
      comparisonFunc := Some(f);
    }

    method AddMismatchHandler(handler: nat)
      modifies this`mismatchHandlers
      ensures mismatchHandlers == old(mismatchHandlers) + [handler]
    {
      mismatchHandlers := mismatchHandlers + [handler];
    }

    /**
     * _try_check_transactions: pop and compare pairs while both queues
     * are non-empty; count each comparison; on a mismatch call every
     * handler, then fail.
     */
    method TryCheckTransactions(raises: (nat, (T, T)) -> bool) returns (r: Outcome<ScoreboardError>)
      requires transactionsChecked == matches + mismatches
      modifies this`expectedQueue, this`actualQueue, this`transactionsChecked, this`matches, this`mismatches, this`calls
      ensures var d := Drain(old(expectedQueue), old(actualQueue), old(Compare()));
        && expectedQueue == old(expectedQueue)[d.pairs..] && actualQueue == old(actualQueue)[d.pairs..]
        && transactionsChecked == old(transactionsChecked) + d.pairs
        && mismatches == old(mismatches) + (if d.mismatch then 1 else 0)
        && matches == old(matches) + d.pairs - (if d.mismatch then 1 else 0)
        && (r.Fail? <==> d.mismatch)
        && (d.mismatch ==>
              (r == Fail(MismatchRaised)
               && calls == old(calls) + Dispatch(mismatchHandlers,
                                                (old(expectedQueue)[d.pairs - 1], old(actualQueue)[d.pairs - 1]), raises)))
        && (!d.mismatch ==> calls == old(calls))
      ensures transactionsChecked == matches + mismatches
    {
      var compare := Compare();
      var mismatched := DrainPairs(compare);
      if mismatched.Some? {
        mismatches := mismatches + 1;
        var made := RunIsolated(mismatchHandlers, mismatched.value, raises);
        calls := calls + made;
        return Fail(MismatchRaised);
      }
      return Pass;
    }

    /**
     * The loop of _try_check_transactions: pops and counts pairs, and
     * stops with the pair that mismatched, if any.
     */
    method DrainPairs(compare: (T, T) -> bool) returns (mismatched: Option<(T, T)>)
      modifies this`expectedQueue, this`actualQueue, this`transactionsChecked, this`matches
      ensures var d := Drain(old(expectedQueue), old(actualQueue), compare);
        && expectedQueue == old(expectedQueue)[d.pairs..] && actualQueue == old(actualQueue)[d.pairs..]
        && transactionsChecked == old(transactionsChecked) + d.pairs
        && matches == old(matches) + d.pairs - (if d.mismatch then 1 else 0)
        && (mismatched.Some? <==> d.mismatch)
        && (d.mismatch ==> mismatched == Some((old(expectedQueue)[d.pairs - 1], old(actualQueue)[d.pairs - 1])))
    {
      ghost var e0, a0 := expectedQueue, actualQueue;
      var n := 0;
      while expectedQueue != [] && actualQueue != []
        invariant n <= |e0| && n <= |a0| && expectedQueue == e0[n..] && actualQueue == a0[n..]
        invariant Drain(e0, a0, compare) == (var rest := Drain(e0[n..], a0[n..], compare); Drained(rest.pairs + n, rest.mismatch))
        invariant transactionsChecked == old(transactionsChecked) + n && matches == old(matches) + n
        decreases |expectedQueue|
      {
        var expected := expectedQueue[0];
        var actual := actualQueue[0];
        expectedQueue := expectedQueue[1..];
        actualQueue := actualQueue[1..];
        DrainAt(e0, a0, n, compare);
        transactionsChecked := transactionsChecked + 1;
        n := n + 1;
        if compare(expected, actual) {
          matches := matches + 1;
        } else {
          return Some((expected, actual));
        }
      }
      return None;
    }

    /** add_expected_transaction: append, then drain. */
    method AddExpectedTransaction(t: T, raises: (nat, (T, T)) -> bool) returns (r: Outcome<ScoreboardError>)
      requires Valid()
      modifies this`expectedQueue, this`actualQueue, this`transactionsChecked, this`matches, this`mismatches, this`calls
      ensures Valid()
      ensures var d := Drain(old(expectedQueue) + [t], old(actualQueue), old(Compare()));
        && d.pairs <= 1
        && expectedQueue == (old(expectedQueue) + [t])[d.pairs..] && actualQueue == old(actualQueue)[d.pairs..]
        && transactionsChecked == old(transactionsChecked) + d.pairs
        && mismatches == old(mismatches) + (if d.mismatch then 1 else 0)
        && matches == old(matches) + d.pairs - (if d.mismatch then 1 else 0)
        && (r.Fail? <==> d.mismatch) && (r.Fail? ==> r == Fail(MismatchRaised))
        && (d.mismatch ==>
              calls == old(calls) + Dispatch(mismatchHandlers, ((old(expectedQueue) + [t])[d.pairs - 1], old(actualQueue)[d.pairs - 1]), raises))
        && (!d.mismatch ==> calls == old(calls))
    {
      expectedQueue := expectedQueue + [t];
      AddComparesAtMostOnce(old(expectedQueue), actualQueue, t, Compare());
      r := TryCheckTransactions(raises);
    }

    /** add_actual_transaction: append, then drain. */
    method AddActualTransaction(t: T, raises: (nat, (T, T)) -> bool) returns (r: Outcome<ScoreboardError>)
      requires Valid()
      modifies this`expectedQueue, this`actualQueue, this`transactionsChecked, this`matches, this`mismatches, this`calls
      ensures Valid()
      ensures var d := Drain(old(expectedQueue), old(actualQueue) + [t], old(Compare()));
        && d.pairs <= 1
        && expectedQueue == old(expectedQueue)[d.pairs..] && actualQueue == (old(actualQueue) + [t])[d.pairs..]
        && transactionsChecked == old(transactionsChecked) + d.pairs
        && mismatches == old(mismatches) + (if d.mismatch then 1 else 0)
        && matches == old(matches) + d.pairs - (if d.mismatch then 1 else 0)
        && (r.Fail? <==> d.mismatch) && (r.Fail? ==> r == Fail(MismatchRaised))
        && (d.mismatch ==>
              calls == old(calls) + Dispatch(mismatchHandlers, (old(expectedQueue)[d.pairs - 1], (old(actualQueue) + [t])[d.pairs - 1]), raises))
        && (!d.mismatch ==> calls == old(calls))
    {
      actualQueue := actualQueue + [t];
      AddActualComparesAtMostOnce(expectedQueue, old(actualQueue), t, Compare());
      r := TryCheckTransactions(raises);
    }

    /** check_empty: no transaction pending on either side. */
    function CheckEmpty(): (r: bool)
      reads this
      ensures r <==> |expectedQueue| == 0 && |actualQueue| == 0
    {
      |expectedQueue| == 0 && |actualQueue| == 0
    }

    /** flush_queues: drop every pending transaction; the counters stay. */
    method FlushQueues()
      modifies this`expectedQueue, this`actualQueue
      ensures expectedQueue == [] && actualQueue == []
    {
      expectedQueue := [];
      actualQueue := [];
    }
  }

  /** The same bound with the roles swapped: an actual transaction added to its queue. */
  lemma AddActualComparesAtMostOnce<T>(expected: seq<T>, actual: seq<T>, t: T, compare: (T, T) -> bool)
    requires expected == [] || actual == []
    ensures Drain(expected, actual + [t], compare).pairs <= 1
    ensures var d := Drain(expected, actual + [t], compare);
      expected[d.pairs..] == [] || (actual + [t])[d.pairs..] == []
  {
  }

  /**
   * The 1 ms polls after which wait_for_completion gives up: the first
   * whole number of milliseconds beyond timeout_ms.
   */
  function CompletionDeadline(timeoutMs: int): nat
  {
    if timeoutMs < 0 then 1 else timeoutMs + 1
  }

  /**
   * wait_for_completion: poll check_empty, waiting 1 ms between polls,
   * and fail once more than timeout_ms have passed with a queue still
   * non-empty. emptyAt[i] is check_empty after i waits (the queues are
   * changed by other coroutines meanwhile).
   */
  method WaitForCompletion(timeoutMs: int, emptyAt: seq<bool>) returns (r: Outcome<ScoreboardError>, waited: nat)
    requires |emptyAt| >= CompletionDeadline(timeoutMs)
    ensures r.Pass? <==> exists i :: 0 <= i < CompletionDeadline(timeoutMs) && emptyAt[i]
    ensures waited <= CompletionDeadline(timeoutMs)
    ensures r.Pass? ==> waited < |emptyAt| && emptyAt[waited] && forall i :: 0 <= i < waited ==> !emptyAt[i]
    ensures r.Fail? ==> r == Fail(CompletionTimeout) && waited == CompletionDeadline(timeoutMs)
  {
    waited := 0;
    while !emptyAt[waited]
      invariant waited < CompletionDeadline(timeoutMs)
      invariant forall i :: 0 <= i < waited ==> !emptyAt[i]
      decreases CompletionDeadline(timeoutMs) - waited
    {
      waited := waited + 1;
      if waited > timeoutMs {
        return Fail(CompletionTimeout), waited;
      }
    }
    return Pass, waited;
  }

  function IntEqual(a: int, b: int): bool
  {
    a == b
  }

  /** The drains of the scenario below, one per add. */
  lemma ScenarioDrains()
    ensures Drain([] + [1], [], IntEqual) == Drained(0, false)
    ensures Drain([1] + [2], [], IntEqual) == Drained(0, false)
    ensures Drain([1, 2] + [3], [], IntEqual) == Drained(0, false)
    ensures Drain([1, 2, 3], [] + [1], IntEqual) == Drained(1, false)
    ensures Drain([2, 3], [] + [5], IntEqual) == Drained(1, true)
  {
    assert [1, 2, 3][1..] == [2, 3] && [2, 3][1..] == [3];
  }

  /** A scoreboard comparing by equality, with 1, 2, 3 expected and nothing checked yet. */
  method ThreeExpected() returns (sb: Scoreboard<int>)
    ensures fresh(sb) && sb.Valid() && sb.comparisonFunc == Some(IntEqual)
    ensures sb.expectedQueue == [1, 2, 3] && sb.actualQueue == []
    ensures sb.transactionsChecked == 0 && sb.matches == 0 && sb.mismatches == 0
  {
    ScenarioDrains();
    sb := new Scoreboard<int>("sb", _ => "");
    sb.SetComparisonFunction(IntEqual);
    var noRaise := (h: nat, pair: (int, int)) => false;
    var r := sb.AddExpectedTransaction(1, noRaise);
    r := sb.AddExpectedTransaction(2, noRaise);
    r := sb.AddExpectedTransaction(3, noRaise);
  }

  /**
   * Three expected transactions, then two actual ones of which the second
   * differs (custom comparison by equality): one match, one mismatch that
   * fails the second add, one expected transaction left pending.
   */
  method MismatchScenario() returns (s: ScoreboardStats, first: Outcome<ScoreboardError>, second: Outcome<ScoreboardError>)
    ensures s == ScoreboardStats(2, 1, 1, 1, 0)
    ensures first == Pass && second == Fail(MismatchRaised)
  {
    ScenarioDrains();
    var sb := ThreeExpected();
    var noRaise := (h: nat, pair: (int, int)) => false;
    first := sb.AddActualTransaction(1, noRaise);
    assert sb.expectedQueue == [2, 3] && sb.actualQueue == [];
    second := sb.AddActualTransaction(5, noRaise);
    s := sb.Stats();
  }
}
