/**
 * The filter pipeline's monitor (tb/env/agents/filter_rx/monitor.py):
 * every packet on the output stream is a pass, every cycle with the
 * drop_valid status signal at 1 a drop; the monitor keeps pass and drop
 * counters, per-rule hit counts and a window of the last 1000 results.
 *
 * A ghost history holds every result ever added, so that the window, the
 * hit counts and the counters can each be stated as a function of it.
 * Status signals are reduced to whether the monitor was given them and
 * the value each has in the cycle being observed.
 */
module FilterRxMonitor {
  import opened Wrappers
  import Text
  import BaseMonitor
  import opened AxiAgentDriver

  /** FilterResult without its floating-point timestamp. */
  datatype FilterResult = FilterResult(
    packet: Option<AxiStreamTransaction>, matched: bool, ruleIndex: Option<int>, dropReason: Option<string>)

  /** The statistics dictionary, without the floating-point pass rate. */
  datatype FilterStatistics = FilterStatistics(
    totalPackets: nat, packetsPassed: nat, packetsDropped: nat, ruleHits: map<int, nat>, recentResultsCount: nat)

  datatype MonitorError = NoResultsObserved

  /** The last n elements of s, or all of s when it has no more than n. */
  function LastN(s: seq<FilterResult>, n: nat): (r: seq<FilterResult>)
    ensures |r| == if |s| <= n then |s| else n
    ensures r == s[|s| - |r|..]
  {
    if |s| <= n then s else s[|s| - n..]
  }

  /** The bound step of _add_result: drop the oldest result once the list holds more than 1000. */
  function Trim(s: seq<FilterResult>): seq<FilterResult>
  {
    if |s| > 1000 then s[1..] else s
  }

  /** Appending and trimming a window of the last 1000 results gives the window of the longer history. */
  lemma TrimWindow(h: seq<FilterResult>, r: FilterResult)
    ensures Trim(LastN(h, 1000) + [r]) == LastN(h + [r], 1000)
  {
    if |h| >= 1000 {
      assert LastN(h, 1000) + [r] == h[|h| - 1000..] + [r];
      assert (h[|h| - 1000..] + [r])[1..] == h[|h| - 999..] + [r];
      assert (h + [r])[|h| + 1 - 1000..] == h[|h| - 999..] + [r];
    }
  }

  /** The number of results in h that hit rule i. */
  function Hits(h: seq<FilterResult>, i: int): nat
  {
    if h == [] then 0 else Hits(h[..|h| - 1], i) + (if h[|h| - 1].ruleIndex == Some(i) then 1 else 0)
  }

  /** The number of results in h that passed the filter. */
  function Passed(h: seq<FilterResult>): (n: nat)
    ensures n <= |h|
  {
    if h == [] then 0 else Passed(h[..|h| - 1]) + (if h[|h| - 1].matched then 1 else 0)
  }

  lemma HitsAppend(h: seq<FilterResult>, r: FilterResult, i: int)
    ensures Hits(h + [r], i) == Hits(h, i) + (if r.ruleIndex == Some(i) then 1 else 0)
  {
    assert (h + [r])[..|h|] == h;
  }

  lemma PassedAppend(h: seq<FilterResult>, r: FilterResult)
    ensures Passed(h + [r]) == Passed(h) + (if r.matched then 1 else 0)
  {
    assert (h + [r])[..|h|] == h;
  }

  /** rule_hits holds, for exactly the rules hit at least once, the number of results that hit them. */
  ghost predicate HitsAgree(hits: map<int, nat>, h: seq<FilterResult>)
  {
    forall i :: (i in hits <==> Hits(h, i) > 0) && (i in hits ==> hits[i] == Hits(h, i))
  }

  /** The rule statistics step of _add_result: start a rule's count at 0 if absent, then add one. */
  function Bump(hits: map<int, nat>, ruleIndex: Option<int>): map<int, nat>
  {
    if ruleIndex.None? then hits
    else hits[ruleIndex.value := (if ruleIndex.value in hits then hits[ruleIndex.value] else 0) + 1]
  }

  /** Bumping the counts for a new result keeps them the hit counts of the history. */
  lemma BumpAgrees(hits: map<int, nat>, h: seq<FilterResult>, r: FilterResult)
    requires HitsAgree(hits, h)
    ensures HitsAgree(Bump(hits, r.ruleIndex), h + [r])
  {
    forall i {
      HitsAppend(h, r, i);
    }
  }

  /** _decode_drop_reason: the five named codes, "unknown_code_<n>" for any other. */
  function DecodeDropReason(code: int): (r: string)
    ensures code < 0 || code > 4 <==> "unknown_code_" <= r
  {
    match code
    case 0 => "no_match"
    case 1 => assert "invalid_packet"[0] != "unknown_code_"[0]; "invalid_packet"
    case 2 => "buffer_full"
    case 3 => assert "checksum_error"[0] != "unknown_code_"[0]; "checksum_error"
    case 4 => "size_error"
    case _ => "unknown_code_" + Text.IntToString(code)
  }

  lemma NatToStringInjective(a: nat, b: nat)
    requires Text.NatToString(a) == Text.NatToString(b)
    ensures a == b
  {
    Text.ParseNatToString(a);
    Text.ParseNatToString(b);
  }

  lemma IntToStringInjective(a: int, b: int)
    requires Text.IntToString(a) == Text.IntToString(b)
    ensures a == b
  {
    if a < 0 {
      assert Text.IntToString(a)[1..] == Text.NatToString(-a);
      assert Text.IntToString(b)[1..] == Text.NatToString(-b);
      NatToStringInjective(-a, -b);
    } else {
      NatToStringInjective(a, b);
    }
  }

  /** Past its 13-character prefix, an unnamed code's reason is the code's decimal string. */
  lemma UnknownCodeDigits(code: int)
    requires code < 0 || code > 4
    ensures DecodeDropReason(code)[13..] == Text.IntToString(code)
  {
    var prefix := "unknown_code_";
    assert DecodeDropReason(code) == prefix + Text.IntToString(code);
  }

  /** Different drop reason codes never decode to the same reason. */
  lemma DecodeDropReasonInjective(a: int, b: int)
    requires DecodeDropReason(a) == DecodeDropReason(b)
    ensures a == b
  {
    if 0 <= a <= 4 && 0 <= b <= 4 {
    } else if !(0 <= a <= 4) && !(0 <= b <= 4) {
      UnknownCodeDigits(a);
      UnknownCodeDigits(b);
      IntToStringInjective(a, b);
    }
  }

  /** A code without a name is reported with its decimal digits after "unknown_code_". */
  lemma UnknownCodeReadsBack(code: int)
    requires code > 4
    ensures DecodeDropReason(code)[..13] == "unknown_code_"
    ensures Text.ParseNat(DecodeDropReason(code)[13..]) == Some(code)
  {
    assert DecodeDropReason(code)[13..] == Text.NatToString(code);
    Text.ParseNatToString(code);
  }

  /** Python's s[start:], a negative start counting from the end; both clamp to the list. */
  function SliceFrom(s: seq<FilterResult>, start: int): (r: seq<FilterResult>)
    ensures |r| <= |s| && r == s[|s| - |r|..]
    ensures start >= 0 ==> |r| == if start <= |s| then |s| - start else 0
    ensures start < 0 ==> |r| == if -start <= |s| then -start else |s|
  {
    if start >= 0 then (if start <= |s| then s[start..] else [])
    else (if -start <= |s| then s[|s| + start..] else s)
  }

  /**
   * get_recent_results: all results for None or a count beyond the list,
   * otherwise results[-count:], which for 0 is every result and for a
   * negative count drops that many from the front.
   */
  function RecentResults(s: seq<FilterResult>, count: Option<int>): (r: seq<FilterResult>)
    ensures |r| <= |s| && r == s[|s| - |r|..]
    ensures count.None? || count.value == 0 || count.value > |s| ==> r == s
    ensures count.Some? && 0 < count.value <= |s| ==> |r| == count.value
    ensures count.Some? && count.value < 0 ==> |r| == if -count.value <= |s| then |s| + count.value else 0
  {
    match count
    case None => s
    case Some(c) => if c <= |s| then SliceFrom(s, -c) else s
  }

  /** Which counter each cycle of wait_for_packets sees: the starting value, then the one after each edge. */
  function PassedAt(initial: nat, passedAfter: nat -> nat, k: nat): nat
  {
    if k == 0 then initial else passedAfter(k - 1)
  }

  class FilterRxMonitor {
    /** Whether filter_status_signals has a 'drop_valid' and a 'drop_reason' entry. */
    const hasDropValid: bool
    const hasDropReason: bool
    var packetsPassed: nat
    var packetsDropped: nat
    var ruleHits: map<int, nat>
    var recentResults: seq<FilterResult>
    /** Every result added since the last reset, oldest first. */
    ghost var history: seq<FilterResult>

    /** The window and the hit counts agree with the history. */
    ghost predicate Windowed()
      reads this
    {
      recentResults == LastN(history, 1000) && HitsAgree(ruleHits, history)
    }

    /** ... and the counters count its passes and drops. */
    ghost predicate Valid()
      reads this
    {
      Windowed() && packetsPassed == Passed(history) && packetsPassed + packetsDropped == |history|
    }

    /** Registers the given observer id with the output stream monitor, as _on_output_packet. */
    constructor (output: BaseMonitor.Monitor<AxiStreamTransaction>, observer: nat, hasDropValid: bool, hasDropReason: bool)
      modifies output
      ensures Valid() && history == []
      ensures this.hasDropValid == hasDropValid && this.hasDropReason == hasDropReason
      ensures packetsPassed == 0 && packetsDropped == 0 && ruleHits == map[] && recentResults == []
      ensures output.observers == old(output.observers) + [observer]
    {
      this.hasDropValid := hasDropValid;
      this.hasDropReason := hasDropReason;
      packetsPassed := 0;
      packetsDropped := 0;
      ruleHits := map[];
      recentResults := [];
      history := [];
      new;
      output.AddObserver(observer);
    }

    /** _add_result: append, trim to 1000, count the rule hit if the result names a rule. */
    method AddResult(result: FilterResult)
      requires Windowed()
      modifies this`recentResults, this`ruleHits, this`history
      ensures Windowed() && history == old(history) + [result]
      ensures recentResults == Trim(old(recentResults) + [result])
      ensures ruleHits == Bump(old(ruleHits), result.ruleIndex)
      ensures LastTransaction() == Success(result)
    {
      recentResults := recentResults + [result];
      if |recentResults| > 1000 {
        recentResults := recentResults[1..];
      }
      ruleHits := Bump(ruleHits, result.ruleIndex);
      TrimWindow(history, result);
      BumpAgrees(old(ruleHits), history, result);
      history := history + [result];
    }

    /** _on_output_packet: a packet on the output passed the filter. */
    method OnOutputPacket(t: AxiStreamTransaction)
      requires Valid()
      modifies this`recentResults, this`ruleHits, this`history, this`packetsPassed
      ensures Valid() && history == old(history) + [FilterResult(Some(t), true, None, None)]
      ensures packetsPassed == old(packetsPassed) + 1 && ruleHits == old(ruleHits)
    {
      AddResult(FilterResult(Some(t), true, None, None));
      PassedAppend(old(history), FilterResult(Some(t), true, None, None));
      packetsPassed := packetsPassed + 1;
    }

    /** _handle_packet_drop: count the drop and record it with its decoded reason, "unknown" without a reason signal. */
    method HandlePacketDrop(reasonCode: int)
      requires Valid()
      modifies this`recentResults, this`ruleHits, this`history, this`packetsDropped
      ensures Valid() && packetsDropped == old(packetsDropped) + 1 && ruleHits == old(ruleHits)
      ensures history == old(history) + [FilterResult(None, false, None,
        Some(if hasDropReason then DecodeDropReason(reasonCode) else "unknown"))]
    {
      packetsDropped := packetsDropped + 1;
      var reason := if hasDropReason then DecodeDropReason(reasonCode) else "unknown";
      AddResult(FilterResult(None, false, None, Some(reason)));
      PassedAppend(old(history), FilterResult(None, false, None, Some(reason)));
    }

    /** One cycle of _monitor_interface: a drop when the monitor has drop_valid and it reads 1. */
    method MonitorInterface(dropValid: int, dropReason: int)
      requires Valid()
      modifies this`recentResults, this`ruleHits, this`history, this`packetsDropped
      ensures Valid() && ruleHits == old(ruleHits)
      ensures hasDropValid && dropValid == 1 ==> packetsDropped == old(packetsDropped) + 1 && |history| == |old(history)| + 1
      ensures !(hasDropValid && dropValid == 1) ==> packetsDropped == old(packetsDropped) && history == old(history)
    {
      if hasDropValid && dropValid == 1 {
        HandlePacketDrop(dropReason);
      }
    }

    /** _get_last_transaction: the newest result, or RuntimeError when there is none. */
    function LastTransaction(): (r: Result<FilterResult, MonitorError>)
      reads this
      ensures r.Failure? <==> recentResults == []
      ensures r.Success? ==> r.value == recentResults[|recentResults| - 1]
    {
      if recentResults != [] then Success(recentResults[|recentResults| - 1]) else Failure(NoResultsObserved)
    }

    /** The newest result is the last one added since the last reset. */
    lemma LastTransactionIsNewest()
      requires Windowed()
      ensures LastTransaction().Failure? <==> history == []
      ensures history != [] ==> LastTransaction() == Success(history[|history| - 1])
    {
    }

    /** get_filter_statistics */
    function GetFilterStatistics(): (r: FilterStatistics)
      reads this
      ensures r.totalPackets == r.packetsPassed + r.packetsDropped
      ensures r.ruleHits == ruleHits && r.recentResultsCount == |recentResults|
    {
      FilterStatistics(packetsPassed + packetsDropped, packetsPassed, packetsDropped, ruleHits, |recentResults|)
    }

    /** The statistics count every result since the last reset; the window holds at most 1000 of them. */
    lemma StatisticsCountHistory()
      requires Valid()
      ensures GetFilterStatistics().totalPackets == |history|
      ensures GetFilterStatistics().packetsPassed == Passed(history)
      ensures GetFilterStatistics().recentResultsCount == if |history| <= 1000 then |history| else 1000
    {
    }

    /** get_recent_results */
    function GetRecentResults(count: Option<int>): (r: seq<FilterResult>)
      reads this
      ensures r == RecentResults(recentResults, count)
      ensures |r| <= |recentResults| && r == recentResults[|recentResults| - |r|..]
    {
      RecentResults(recentResults, count)
    }

    /** check_expected_drops: the timeout is not used. */
    function CheckExpectedDrops(expectedDropCount: int, timeoutCycles: int): (r: bool)
      reads this
      ensures Valid() ==> (r <==> |history| - Passed(history) >= expectedDropCount)
    {
      packetsDropped >= expectedDropCount
    }

    /** check_expected_passes */
    function CheckExpectedPasses(expectedPassCount: int): (r: bool)
      reads this
      ensures Valid() ==> (r <==> Passed(history) >= expectedPassCount)
    {
      packetsPassed >= expectedPassCount
    }

    /** The two checks compare against the drops and passes in the history, whatever the timeout. */
    lemma ChecksCountHistory(expected: int, timeoutCycles: int)
      requires Valid()
      ensures CheckExpectedPasses(expected) <==> Passed(history) >= expected
      ensures CheckExpectedDrops(expected, timeoutCycles) <==> |history| - Passed(history) >= expected
    {
    }

    /** reset_statistics */
    method ResetStatistics()
      modifies this`packetsPassed, this`packetsDropped, this`ruleHits, this`recentResults, this`history
      ensures Valid() && history == []
      ensures packetsPassed == 0 && packetsDropped == 0 && ruleHits == map[] && recentResults == []
    {
      packetsPassed := 0;
      packetsDropped := 0;
      ruleHits := map[];
      recentResults := [];
      history := [];
    }

    /**
     * wait_for_packets: wait edge by edge while fewer packets have passed
     * than expected and the timeout is not reached. Other coroutines move
     * the counter; passedAfter(k) is its value after edge k + 1.
     */
    method WaitForPackets(expectedCount: int, timeoutCycles: int, passedAfter: nat -> nat) returns (ok: bool, cycles: nat)
      ensures cycles <= if timeoutCycles < 0 then 0 else timeoutCycles
      ensures ok <==> PassedAt(packetsPassed, passedAfter, cycles) >= expectedCount
      ensures forall k :: 0 <= k < cycles ==> PassedAt(packetsPassed, passedAfter, k) < expectedCount
      ensures !ok ==> cycles == if timeoutCycles < 0 then 0 else timeoutCycles
    {
      cycles := 0;
      var passed := packetsPassed;
      while passed < expectedCount && cycles < timeoutCycles
        invariant cycles <= if timeoutCycles < 0 then 0 else timeoutCycles
        invariant passed == PassedAt(packetsPassed, passedAfter, cycles)
        invariant forall k :: 0 <= k < cycles ==> PassedAt(packetsPassed, passedAfter, k) < expectedCount
        decreases timeoutCycles - cycles
      {
        passed := passedAfter(cycles);
        cycles := cycles + 1;
      }
      ok := passed >= expectedCount;
    }
  }
}
