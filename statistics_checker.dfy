/**
 * The statistics checker (tb/tests/filter_rx_pipeline/utils/statistics_checker.py):
 * the four packet counters of the filter pipeline as read from its 128-bit
 * status register, the expected values the test keeps beside them, and the
 * comparison of the two.
 *
 * Reading the DUT becomes a parameter: the status register value sampled
 * at that point. Clock-edge waits before a read are not modelled; the
 * timestamp field of ActualStats (wall-clock time) is left out.
 */
module StatisticsChecker {
  import opened Wrappers
  import Bits

  /** ExpectedStats and ActualStats: the same four counters. */
  datatype Stats = Stats(totalPackets: nat, droppedPackets: nat, rule0HitCount: nat, rule1HitCount: nat)

  datatype Counter = Total | Dropped | Rule0 | Rule1

  function Get(s: Stats, c: Counter): nat
  {
    match c
    case Total => s.totalPackets
    case Dropped => s.droppedPackets
    case Rule0 => s.rule0HitCount
    case Rule1 => s.rule1HitCount
  }

  /** Every packet counted in the total is either dropped or a hit of exactly one rule. */
  predicate Consistent(s: Stats)
  {
    s.totalPackets == s.rule0HitCount + s.rule1HitCount + s.droppedPackets
  }

  // ---------------------------------------------------------------------
  // The status register: four 32-bit fields, total in bits 0-31, dropped in
  // 32-63, rule 0 hits in 64-95 and rule 1 hits in 96-127.

  const W32: nat := 0x1_0000_0000
  const W64: nat := 0x1_0000_0000_0000_0000
  const W96: nat := 0x1_0000_0000_0000_0000_0000_0000
  const W128: nat := 0x1_0000_0000_0000_0000_0000_0000_0000_0000

  /** (value >> shift) & 0xFFFFFFFF, the shift by k bits written as division by 2^k. */
  function Field32(value: nat, scale: nat): (r: nat)
    requires scale > 0
    ensures r < W32
  {
    (value / scale) % W32
  }

  /** ActualStats.from_status_reg. */
  function FromStatusReg(value: nat): (r: Stats)
    ensures r.totalPackets < W32 && r.droppedPackets < W32 && r.rule0HitCount < W32 && r.rule1HitCount < W32
  {
    Stats(Field32(value, 1), Field32(value, W32), Field32(value, W64), Field32(value, W96))
  }

  /** The register layout the unpacking reads: the counters placed in their fields. */
  function ToStatusReg(s: Stats): nat
  {
    s.totalPackets + W32 * (s.droppedPackets + W32 * (s.rule0HitCount + W32 * s.rule1HitCount))
  }

  predicate Fits32(s: Stats)
  {
    s.totalPackets < W32 && s.droppedPackets < W32 && s.rule0HitCount < W32 && s.rule1HitCount < W32
  }

  lemma ShiftTwice(v: nat, q: nat, lo: nat, a: nat, b: nat)
    requires a > 0 && b > 0 && lo < a && v == lo + a * q
    ensures v / (a * b) == q / b
  {
    Bits.DivModUnique(v, a, q, lo);
    Bits.DivDiv(v, a, b);
  }

  /** Unpacking reads back every counter that fits in 32 bits. */
  lemma FromStatusRegInvertsPacking(s: Stats)
    requires Fits32(s)
    ensures FromStatusReg(ToStatusReg(s)) == s
  {
    var q2 := s.rule0HitCount + W32 * s.rule1HitCount;
    var q1 := s.droppedPackets + W32 * q2;
    var v := ToStatusReg(s);
    assert v == s.totalPackets + W32 * q1;
    Bits.DivModUnique(v, W32, q1, s.totalPackets);
    assert v % W32 == s.totalPackets;
    Bits.DivModUnique(q1, W32, q2, s.droppedPackets);
    Bits.DivModUnique(q2, W32, s.rule1HitCount, s.rule0HitCount);
    Bits.DivModUnique(s.rule1HitCount, W32, 0, s.rule1HitCount);
    ShiftTwice(v, q1, s.totalPackets, W32, W32);
    assert v / W64 == q2;
    ShiftTwice(v, q1, s.totalPackets, W32, W64);
    ShiftTwice(q1, q2, s.droppedPackets, W32, W32);
    assert v / W96 == s.rule1HitCount;
  }

  /** Packing what was unpacked keeps exactly the low 128 bits of the register. */
  lemma PackingInvertsFromStatusReg(v: nat)
    ensures ToStatusReg(FromStatusReg(v)) == v % W128
  {
    var s := FromStatusReg(v);
    Bits.DivDiv(v, W32, W96);
    Bits.DivDiv(v / W32, W32, W64);
    Bits.DivDiv(v / W32 / W32, W32, W32);
    Bits.DivDiv(v, W32, W32);
    Bits.DivDiv(v, W64, W32);
    assert v / W32 / W32 / W32 == v / W96;
  }

  /** read_statistics: the counters by name, in the order the source lists them. */
  function StatsItems(s: Stats): (r: seq<(string, nat)>)
    ensures |r| == 4
  {
    [("total_packets", s.totalPackets), ("dropped_packets", s.droppedPackets),
     ("rule0_hit_count", s.rule0HitCount), ("rule1_hit_count", s.rule1HitCount)]
  }

  function StatsDict(s: Stats): (r: map<string, nat>)
    ensures r.Keys == {"total_packets", "dropped_packets", "rule0_hit_count", "rule1_hit_count"}
    ensures r["total_packets"] == s.totalPackets && r["dropped_packets"] == s.droppedPackets
    ensures r["rule0_hit_count"] == s.rule0HitCount && r["rule1_hit_count"] == s.rule1HitCount
  {
    map["total_packets" := s.totalPackets, "dropped_packets" := s.droppedPackets,
        "rule0_hit_count" := s.rule0HitCount, "rule1_hit_count" := s.rule1HitCount]
  }

  // ---------------------------------------------------------------------
  // Expected statistics and their comparison with the DUT.

  /**
   * expect_packet_sent: one more packet in the total, and one more in
   * exactly one of the other counters: dropped when the flag is set, else
   * the rule named by rule_hit, else (no or another rule) dropped.
   */
  function ExpectPacket(s: Stats, ruleHit: Option<int>, dropped: bool): (r: Stats)
    ensures r.totalPackets == s.totalPackets + 1
    ensures r.rule0HitCount + r.rule1HitCount + r.droppedPackets == s.rule0HitCount + s.rule1HitCount + s.droppedPackets + 1
    ensures r.rule0HitCount > s.rule0HitCount <==> !dropped && ruleHit == Some(0)
    ensures r.rule1HitCount > s.rule1HitCount <==> !dropped && ruleHit == Some(1)
    ensures r.droppedPackets > s.droppedPackets <==> dropped || ruleHit !in {Some(0), Some(1)}
  {
    if dropped then s.(totalPackets := s.totalPackets + 1, droppedPackets := s.droppedPackets + 1)
    else if ruleHit == Some(0) then s.(totalPackets := s.totalPackets + 1, rule0HitCount := s.rule0HitCount + 1)
    else if ruleHit == Some(1) then s.(totalPackets := s.totalPackets + 1, rule1HitCount := s.rule1HitCount + 1)
    else s.(totalPackets := s.totalPackets + 1, droppedPackets := s.droppedPackets + 1)
  }

  /** One mismatch message of verify_stats, as the facts it reports. */
  datatype StatsMismatch =
    | CounterMismatch(counter: Counter, expected: nat, actual: nat)
    | ExpectedInconsistent(total: nat, sum: nat)
    | ActualInconsistent(total: nat, sum: nat)

  function CounterCheck(expected: Stats, actual: Stats, c: Counter): (r: seq<StatsMismatch>)
    ensures r == [] <==> Get(expected, c) == Get(actual, c)
    ensures r != [] ==> r == [CounterMismatch(c, Get(expected, c), Get(actual, c))]
  {
    if Get(expected, c) != Get(actual, c) then [CounterMismatch(c, Get(expected, c), Get(actual, c))] else []
  }

  function ConsistencyCheck(s: Stats, isExpected: bool): (r: seq<StatsMismatch>)
    ensures r == [] <==> Consistent(s)
    ensures |r| <= 1
  {
    var sum := s.rule0HitCount + s.rule1HitCount + s.droppedPackets;
    if s.totalPackets == sum then []
    else if isExpected then [ExpectedInconsistent(s.totalPackets, sum)]
    else [ActualInconsistent(s.totalPackets, sum)]
  }

  /**
   * The messages verify_stats collects: one per differing counter (total,
   * dropped, rule 0, rule 1, in that order), then one for each side whose
   * total is not the sum of the others.
   */
  function StatsMismatches(expected: Stats, actual: Stats): (r: seq<StatsMismatch>)
  {
    CounterCheck(expected, actual, Total) + CounterCheck(expected, actual, Dropped)
      + CounterCheck(expected, actual, Rule0) + CounterCheck(expected, actual, Rule1)
      + ConsistencyCheck(expected, true) + ConsistencyCheck(actual, false)
  }

  /** The check passes exactly when the DUT shows the expected counters and they are consistent. */
  lemma StatsMismatchesEmpty(expected: Stats, actual: Stats)
    ensures StatsMismatches(expected, actual) == [] <==> expected == actual && Consistent(expected)
  {
    var r := StatsMismatches(expected, actual);
    if r == [] {
      assert CounterCheck(expected, actual, Total) == [] && CounterCheck(expected, actual, Dropped) == [];
      assert CounterCheck(expected, actual, Rule0) == [] && CounterCheck(expected, actual, Rule1) == [];
    }
  }

  /** A counter is reported, with both values, exactly when the two sides differ on it. */
  lemma StatsMismatchReportsCounter(expected: Stats, actual: Stats, c: Counter)
    ensures CounterMismatch(c, Get(expected, c), Get(actual, c)) in StatsMismatches(expected, actual)
        <==> Get(expected, c) != Get(actual, c)
  {
    var m := CounterMismatch(c, Get(expected, c), Get(actual, c));
    if Get(expected, c) == Get(actual, c) {
      assert m !in CounterCheck(expected, actual, Total) && m !in CounterCheck(expected, actual, Dropped);
      assert m !in CounterCheck(expected, actual, Rule0) && m !in CounterCheck(expected, actual, Rule1);
      assert m !in ConsistencyCheck(expected, true) && m !in ConsistencyCheck(actual, false);
    }
  }

  /** The counters check_counter_overflow warns about, in the order it checks them. */
  const AllCounters: seq<Counter> := [Total, Dropped, Rule0, Rule1]

  datatype StatsError =
    | NegativeShift                          // (1 << counter_width) with a negative width raises ValueError
    | VerificationFailed(mismatches: seq<KeyMismatch>)

  /** One failure of verify_packet_statistics: an unknown key, or a counter that differs. */
  datatype KeyMismatch = UnknownCounter(key: string) | ValueMismatch(key: string, expected: int, actual: nat)

  /** Whether one given (key, value) pair agrees with the counters read. */
  predicate KeyAgrees(item: (string, int), actual: map<string, nat>)
  {
    item.0 in actual && actual[item.0] == item.1
  }

  /** The failure one disagreeing pair reports. */
  function Disagreement(item: (string, int), actual: map<string, nat>): (m: KeyMismatch)
    requires !KeyAgrees(item, actual)
    ensures m.key == item.0
    ensures m.UnknownCounter? <==> item.0 !in actual
  {
    if item.0 !in actual then UnknownCounter(item.0) else ValueMismatch(item.0, item.1, actual[item.0])
  }

  /** The failures of the given (key, value) pairs, in the order they are given. */
  function KeyMismatches(expected: seq<(string, int)>, actual: map<string, nat>): (r: seq<KeyMismatch>)
    ensures r == [] <==> forall i :: 0 <= i < |expected| ==> KeyAgrees(expected[i], actual)
    ensures |r| <= |expected|
  {
    if expected == [] then []
    else
      var rest := KeyMismatches(expected[..|expected| - 1], actual);
      assert forall i :: 0 <= i < |expected| - 1 ==> expected[..|expected| - 1][i] == expected[i];
      if KeyAgrees(expected[|expected| - 1], actual) then rest
      else rest + [Disagreement(expected[|expected| - 1], actual)]
  }

  /**
   * verify_packet_statistics: read the counters, compare every given key
   * and raise with the full list when anything is unknown or differs; keys
   * not given are not checked. statusReg is the value the DUT shows.
   */
  method VerifyPacketStatistics(statusReg: nat, expected: seq<(string, int)>) returns (r: Outcome<StatsError>)
    ensures r.Pass? <==> forall i :: 0 <= i < |expected| ==> KeyAgrees(expected[i], StatsDict(FromStatusReg(statusReg)))
    ensures r.Fail? ==> r.error == VerificationFailed(KeyMismatches(expected, StatsDict(FromStatusReg(statusReg))))
  {
    var actual := StatsDict(FromStatusReg(statusReg));
    var mismatches: seq<KeyMismatch> := [];
    var i := 0;
    while i < |expected|
      invariant 0 <= i <= |expected|
      invariant mismatches == KeyMismatches(expected[..i], actual)
    {
      assert expected[..i + 1][..i] == expected[..i];
      var (key, value) := expected[i];
      if key !in actual {
        mismatches := mismatches + [UnknownCounter(key)];
      } else if actual[key] != value {
        mismatches := mismatches + [ValueMismatch(key, value, actual[key])];
      }
      i := i + 1;
    }
    assert expected[..|expected|] == expected;
    if mismatches != [] {
      return Fail(VerificationFailed(mismatches));
    }
    return Pass;
  }

  /** The all-inputs view of a read: every sampled register value unpacked. */
  function ReadAll(regs: seq<nat>): (r: seq<Stats>)
    ensures |r| == |regs| && forall i :: 0 <= i < |regs| ==> r[i] == FromStatusReg(regs[i])
  {
    seq(|regs|, i requires 0 <= i < |regs| => FromStatusReg(regs[i]))
  }

  class StatisticsChecker {
    var expected: Stats
    var lastActual: Stats
    var history: seq<Stats>
    var mismatches: seq<StatsMismatch>
    var lastCheckPassed: bool

    constructor ()
      ensures expected == Stats(0, 0, 0, 0) && lastActual == Stats(0, 0, 0, 0)
      ensures history == [] && mismatches == [] && lastCheckPassed
    {
      expected := Stats(0, 0, 0, 0);
      lastActual := Stats(0, 0, 0, 0);
      history := [];
      mismatches := [];
      lastCheckPassed := true;
    }

    /** read_current_stats: unpack the register, remember it as the last read and log it in the history. */
    method ReadCurrentStats(statusReg: nat) returns (actual: Stats)
      modifies this
      ensures actual == FromStatusReg(statusReg) && lastActual == actual && history == old(history) + [actual]
      ensures expected == old(expected) && mismatches == old(mismatches) && lastCheckPassed == old(lastCheckPassed)
    {
      actual := FromStatusReg(statusReg);
      lastActual := actual;
      history := history + [actual];
    }

    /** expect_packet_sent. */
    method ExpectPacketSent(ruleHit: Option<int>, dropped: bool)
      modifies this
      ensures expected == ExpectPacket(old(expected), ruleHit, dropped)
      ensures Consistent(old(expected)) ==> Consistent(expected)
      ensures lastActual == old(lastActual) && history == old(history) && mismatches == old(mismatches)
      ensures lastCheckPassed == old(lastCheckPassed)
    {
      var e := expected;
      if dropped {
        e := e.(droppedPackets := e.droppedPackets + 1);
      } else if ruleHit == Some(0) {
        e := e.(rule0HitCount := e.rule0HitCount + 1);
      } else if ruleHit == Some(1) {
        e := e.(rule1HitCount := e.rule1HitCount + 1);
      } else {
        e := e.(droppedPackets := e.droppedPackets + 1);
      }
      expected := e.(totalPackets := e.totalPackets + 1);
    }

    /**
     * verify_stats: after the settling cycles (not modelled), read the
     * register, add this check's messages to those of earlier checks, and
     * pass exactly when there are none.
     */
    method VerifyStats(statusReg: nat) returns (passed: bool)
      modifies this
      ensures lastActual == FromStatusReg(statusReg) && history == old(history) + [lastActual]
      ensures mismatches == old(mismatches) + StatsMismatches(expected, lastActual)
      ensures passed == lastCheckPassed
      ensures passed <==> expected == FromStatusReg(statusReg) && Consistent(expected)
      ensures expected == old(expected)
    {
      var actual := ReadCurrentStats(statusReg);
      var found := StatsMismatches(expected, actual);
      StatsMismatchesEmpty(expected, actual);
      mismatches := mismatches + found;
      lastCheckPassed := |found| == 0;
      passed := lastCheckPassed;
    }

    /**
     * wait_for_stats_update: read the register up to timeout_cycles times
     * (regs[i] is the value at the i-th read), stopping with True at the
     * first read whose total has reached the target; every read is logged.
     */
    method WaitForStatsUpdate(expectedTotal: int, timeoutCycles: int, regs: seq<nat>) returns (reached: bool, samples: nat)
      requires |regs| >= timeoutCycles
      modifies this
      ensures reached <==> exists i :: 0 <= i < timeoutCycles && FromStatusReg(regs[i]).totalPackets >= expectedTotal
      ensures samples <= |regs| && history == old(history) + ReadAll(regs[..samples])
      ensures reached ==> 0 < samples && FromStatusReg(regs[samples - 1]).totalPackets >= expectedTotal
      ensures forall i :: 0 <= i < samples - 1 ==> FromStatusReg(regs[i]).totalPackets < expectedTotal
      ensures !reached ==> samples == if timeoutCycles < 0 then 0 else timeoutCycles
      ensures samples > 0 ==> lastActual == FromStatusReg(regs[samples - 1])
      ensures samples == 0 ==> lastActual == old(lastActual)
      ensures expected == old(expected) && mismatches == old(mismatches) && lastCheckPassed == old(lastCheckPassed)
    {
      samples := 0;
      while samples < timeoutCycles
        invariant samples <= |regs| && (samples == 0 || samples <= timeoutCycles)
        invariant history == old(history) + ReadAll(regs[..samples])
        invariant samples > 0 ==> lastActual == FromStatusReg(regs[samples - 1])
        invariant samples == 0 ==> lastActual == old(lastActual)
        invariant forall i :: 0 <= i < samples ==> FromStatusReg(regs[i]).totalPackets < expectedTotal
        invariant expected == old(expected) && mismatches == old(mismatches) && lastCheckPassed == old(lastCheckPassed)
      {
        var actual := ReadCurrentStats(regs[samples]);
        assert ReadAll(regs[..samples + 1]) == ReadAll(regs[..samples]) + [actual];
        samples := samples + 1;
        if actual.totalPackets >= expectedTotal {
          return true, samples;
        }
      }
      return false, samples;
    }

    /** reset_expected_stats, and reset_statistics, which does only that. */
    method ResetExpectedStats()
      modifies this
      ensures expected == Stats(0, 0, 0, 0)
      ensures lastActual == old(lastActual) && history == old(history) && mismatches == old(mismatches)
      ensures lastCheckPassed == old(lastCheckPassed)
    {
      expected := Stats(0, 0, 0, 0);
    }

    /** clear_history: both the history and the accumulated mismatch messages are emptied. */
    method ClearHistory()
      modifies this
      ensures history == [] && mismatches == []
      ensures expected == old(expected) && lastActual == old(lastActual) && lastCheckPassed == old(lastCheckPassed)
    {
      history := [];
      mismatches := [];
    }

    /**
     * check_counter_overflow: one warning per counter of the last read that
     * has reached 2^width - 1, in the order total, dropped, rule 0, rule 1.
     */
    method CheckCounterOverflow(counterWidth: int) returns (r: Result<seq<Counter>, StatsError>)
      ensures r.Failure? <==> counterWidth < 0
      ensures r.Failure? ==> r.error == NegativeShift
      ensures r.Success? ==> forall c :: c in r.value <==> Get(lastActual, c) >= Bits.Pow2(counterWidth) - 1
      ensures r.Success? ==> forall i, j :: 0 <= i < j < |r.value| ==> IndexOf(r.value[i]) < IndexOf(r.value[j])
    {
      if counterWidth < 0 {
        return Failure(NegativeShift);
      }
      var maxValue := Bits.Pow2(counterWidth) - 1;
      var warnings: seq<Counter> := [];
      var k := 0;
      while k < 4
        invariant 0 <= k <= 4
        invariant forall c :: c in warnings <==> IndexOf(c) < k && Get(lastActual, c) >= maxValue
        invariant forall i, j :: 0 <= i < j < |warnings| ==> IndexOf(warnings[i]) < IndexOf(warnings[j])
        invariant forall i :: 0 <= i < |warnings| ==> IndexOf(warnings[i]) < k
      {
        var c := AllCounters[k];
        assert IndexOf(c) == k;
        if Get(lastActual, c) >= maxValue {
          warnings := warnings + [c];
        }
        k := k + 1;
      }
      return Success(warnings);
    }
  }

  /** The position of a counter in the order the source checks them. */
  function IndexOf(c: Counter): (r: nat)
    ensures r < 4 && AllCounters[r] == c
  {
    match c
    case Total => 0
    case Dropped => 1
    case Rule0 => 2
    case Rule1 => 3
  }
}
