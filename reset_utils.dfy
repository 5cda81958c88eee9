/**
 * Reset sequencing (tb/utils/reset_utils.py): choosing the reset signal
 * of a design by name and polarity, and the order in which each reset
 * routine writes that signal and waits for clock edges.
 *
 * The simulator is a recorder of events: a write of a value to a signal,
 * a rising edge of a clock, or a timer delay. Each routine is a method
 * that appends to that record, proved equal to a trace function, and the
 * lemmas state which reset level every clock edge of a trace sees.
 */
module ResetUtils {
  import opened Wrappers

  /** A design handle: an identity and the names of the signals it has. */
  datatype Dut = Dut(id: nat, attributes: set<string>)

  /** A signal of a design. */
  datatype SignalRef = SignalRef(dut: nat, name: string)

  datatype ResetEvent = Write(signal: SignalRef, value: int) | Edge(clock: nat) | Delay(ns: real)

  /** A reset signal name with the value that asserts it and the one that releases it. */
  datatype ResetSignal = ResetSignal(name: string, active: int, inactive: int)

  /** _detect_reset_signal's candidates in priority order: three active-low names, then three active-high. */
  const Candidates: seq<ResetSignal> := [
    ResetSignal("rst_n", 0, 1), ResetSignal("resetn", 0, 1), ResetSignal("aresetn", 0, 1),
    ResetSignal("rst", 1, 0), ResetSignal("reset", 1, 0), ResetSignal("areset", 1, 0)]

  /** The first candidate whose name the design has. */
  function FirstPresent(attributes: set<string>, cs: seq<ResetSignal>): (r: Option<ResetSignal>)
    ensures r.None? <==> forall i :: 0 <= i < |cs| ==> cs[i].name !in attributes
    ensures r.Some? ==> r.value in cs
  {
    if cs == [] then None
    else if cs[0].name in attributes then Some(cs[0])
    else FirstPresent(attributes, cs[1..])
  }

  /** What FirstPresent finds is a present candidate, and every candidate before it is absent. */
  lemma {:induction false} FirstPresentIsFirst(attributes: set<string>, cs: seq<ResetSignal>)
    requires FirstPresent(attributes, cs).Some?
    ensures exists i :: (0 <= i < |cs| && cs[i] == FirstPresent(attributes, cs).value && cs[i].name in attributes
      && forall j :: 0 <= j < i ==> cs[j].name !in attributes)
  {
    if cs[0].name !in attributes {
      var r := FirstPresent(attributes, cs[1..]);
      FirstPresentIsFirst(attributes, cs[1..]);
      var i :| 0 <= i < |cs[1..]| && cs[1..][i] == r.value && cs[1..][i].name in attributes
        && forall j :: 0 <= j < i ==> cs[1..][j].name !in attributes;
      assert cs[i + 1] == r.value && forall j :: 0 <= j < i + 1 ==> cs[j].name !in attributes;
    } else {
      assert cs[0] == FirstPresent(attributes, cs).value;
    }
  }

  /** _detect_reset_signal */
  function DetectResetSignal(dut: Dut): (r: Option<ResetSignal>)
    ensures r.None? <==> forall i :: 0 <= i < |Candidates| ==> Candidates[i].name !in dut.attributes
    ensures r.Some? ==> r.value in Candidates && r.value.name in dut.attributes
  {
    var r := FirstPresent(dut.attributes, Candidates);
    if r.Some? then FirstPresentIsFirst(dut.attributes, Candidates); r else r
  }

  /** The candidate chosen is the present one of highest priority. */
  lemma DetectPicksFirstPresent(dut: Dut, i: nat)
    requires i < |Candidates| && Candidates[i].name in dut.attributes
    requires forall j :: 0 <= j < i ==> Candidates[j].name !in dut.attributes
    ensures DetectResetSignal(dut) == Some(Candidates[i])
  {
    var r := DetectResetSignal(dut);
    FirstPresentIsFirst(dut.attributes, Candidates);
    var k :| 0 <= k < |Candidates| && Candidates[k] == r.value && Candidates[k].name in dut.attributes
      && forall j :: 0 <= j < k ==> Candidates[j].name !in dut.attributes;
    assert k == i;
  }

  /** Active-low names are asserted with 0 and released with 1, active-high names the other way round. */
  lemma DetectedPolarity(dut: Dut)
    requires DetectResetSignal(dut).Some?
    ensures var s := DetectResetSignal(dut).value;
      s.name in {"rst_n", "resetn", "aresetn"} <==> s.active == 0 && s.inactive == 1
    ensures var s := DetectResetSignal(dut).value;
      s.name in {"rst", "reset", "areset"} <==> s.active == 1 && s.inactive == 0
  {
  }

  /** A design with none of the six names has no reset signal. */
  lemma NoCandidateNoSignal(dut: Dut)
    requires forall s :: s in Candidates ==> s.name !in dut.attributes
    ensures DetectResetSignal(dut).None?
  {
  }

  /** range(n) rising edges of a clock: none for a negative count. */
  function Edges(clock: nat, n: int): (r: seq<ResetEvent>)
    ensures |r| == if n < 0 then 0 else n
    ensures forall i :: 0 <= i < |r| ==> r[i] == Edge(clock)
  {
    seq(if n < 0 then 0 else n, _ => Edge(clock))
  }

  /** n copies of a level, none for a negative count. */
  function Repeat(level: Option<int>, n: int): (r: seq<Option<int>>)
    ensures |r| == if n < 0 then 0 else n
  {
    seq(if n < 0 then 0 else n, _ => level)
  }

  /** The level of a signal at each clock edge of a trace, starting from the given level. */
  function LevelsAtEdges(trace: seq<ResetEvent>, signal: SignalRef, level: Option<int>): seq<Option<int>>
  {
    if trace == [] then []
    else match trace[0]
      case Write(s, v) => LevelsAtEdges(trace[1..], signal, if s == signal then Some(v) else level)
      case Edge(_) => [level] + LevelsAtEdges(trace[1..], signal, level)
      case Delay(_) => LevelsAtEdges(trace[1..], signal, level)
  }

  /** n edges in a row all see the level in force. */
  lemma {:induction false} LevelsOverEdges(clock: nat, n: int, signal: SignalRef, level: Option<int>, rest: seq<ResetEvent>)
    ensures LevelsAtEdges(Edges(clock, n) + rest, signal, level) == Repeat(level, n) + LevelsAtEdges(rest, signal, level)
    decreases if n < 0 then 0 else n
  {
    if n > 0 {
      assert (Edges(clock, n) + rest)[0] == Edge(clock);
      assert (Edges(clock, n) + rest)[1..] == Edges(clock, n - 1) + rest;
      LevelsOverEdges(clock, n - 1, signal, level, rest);
      assert Repeat(level, n) == [level] + Repeat(level, n - 1);
    } else {
      assert Edges(clock, n) + rest == rest;
    }
  }

  /** A write of the signal sets the level the following edges see. */
  lemma LevelsAfterWrite(signal: SignalRef, v: int, level: Option<int>, rest: seq<ResetEvent>)
    ensures LevelsAtEdges([Write(signal, v)] + rest, signal, level) == LevelsAtEdges(rest, signal, Some(v))
  {
    assert ([Write(signal, v)] + rest)[1..] == rest;
  }

  /** reset_dut: nothing without a reset signal; otherwise assert, reset_cycles edges, release, settle_cycles edges. */
  function ResetDutTrace(dut: Dut, clock: nat, resetCycles: int, settleCycles: int): (r: seq<ResetEvent>)
    ensures DetectResetSignal(dut).None? ==> r == []
  {
    match DetectResetSignal(dut)
    case None => []
    case Some(s) =>
      [Write(SignalRef(dut.id, s.name), s.active)] + Edges(clock, resetCycles)
        + [Write(SignalRef(dut.id, s.name), s.inactive)] + Edges(clock, settleCycles)
  }

  /** reset_dut holds the active level for exactly reset_cycles edges, then the inactive one for exactly settle_cycles. */
  lemma ResetDutLevels(dut: Dut, clock: nat, resetCycles: int, settleCycles: int)
    requires DetectResetSignal(dut).Some?
    ensures var s := DetectResetSignal(dut).value;
      LevelsAtEdges(ResetDutTrace(dut, clock, resetCycles, settleCycles), SignalRef(dut.id, s.name), None)
        == Repeat(Some(s.active), resetCycles) + Repeat(Some(s.inactive), settleCycles)
  {
    var s := DetectResetSignal(dut).value;
    var sig := SignalRef(dut.id, s.name);
    var tail := [Write(sig, s.inactive)] + Edges(clock, settleCycles);
    assert ResetDutTrace(dut, clock, resetCycles, settleCycles) == [Write(sig, s.active)] + (Edges(clock, resetCycles) + tail);
    LevelsAfterWrite(sig, s.active, None, Edges(clock, resetCycles) + tail);
    LevelsOverEdges(clock, resetCycles, sig, Some(s.active), tail);
    LevelsAfterWrite(sig, s.inactive, Some(s.active), Edges(clock, settleCycles));
    LevelsOverEdges(clock, settleCycles, sig, Some(s.inactive), []);
    assert Edges(clock, settleCycles) + [] == Edges(clock, settleCycles);
  }

  /** controlled_reset_release: assert, reset_cycles edges, an optional delay, release, one edge. */
  function ControlledReleaseTrace(dut: Dut, clock: nat, resetCycles: int, releaseDelayNs: real): (r: seq<ResetEvent>)
    ensures DetectResetSignal(dut).None? ==> r == []
  {
    match DetectResetSignal(dut)
    case None => []
    case Some(s) =>
      [Write(SignalRef(dut.id, s.name), s.active)] + Edges(clock, resetCycles)
        + (if releaseDelayNs > 0.0 then [Delay(releaseDelayNs)] else [])
        + [Write(SignalRef(dut.id, s.name), s.inactive), Edge(clock)]
  }

  /** controlled_reset_release holds reset for reset_cycles edges and waits exactly one edge after the release. */
  lemma ControlledReleaseLevels(dut: Dut, clock: nat, resetCycles: int, releaseDelayNs: real)
    requires DetectResetSignal(dut).Some?
    ensures var s := DetectResetSignal(dut).value;
      LevelsAtEdges(ControlledReleaseTrace(dut, clock, resetCycles, releaseDelayNs), SignalRef(dut.id, s.name), None)
        == Repeat(Some(s.active), resetCycles) + [Some(s.inactive)]
  {
    var s := DetectResetSignal(dut).value;
    var sig := SignalRef(dut.id, s.name);
    var release := [Write(sig, s.inactive), Edge(clock)];
    var tail := (if releaseDelayNs > 0.0 then [Delay(releaseDelayNs)] else []) + release;
    assert ControlledReleaseTrace(dut, clock, resetCycles, releaseDelayNs) == [Write(sig, s.active)] + (Edges(clock, resetCycles) + tail);
    LevelsAfterWrite(sig, s.active, None, Edges(clock, resetCycles) + tail);
    LevelsOverEdges(clock, resetCycles, sig, Some(s.active), tail);
    if releaseDelayNs > 0.0 {
      assert tail[1..] == release;
    } else {
      assert tail == release;
    }
    assert LevelsAtEdges(tail, sig, Some(s.active)) == LevelsAtEdges(release, sig, Some(s.active));
    assert LevelsAtEdges([Edge(clock)], sig, Some(s.inactive)) == [Some(s.inactive)] by {
      assert [Edge(clock)][1..] == [];
    }
    assert LevelsAtEdges(release, sig, Some(s.active)) == LevelsAtEdges([Edge(clock)], sig, Some(s.inactive)) by {
      assert release[0] == Write(sig, s.inactive) && release[1..] == [Edge(clock)];
    }
  }

  /** sync_reset_release: drive 0, sync_stages edges, one more edge, drive 1, one edge. */
  function SyncReleaseTrace(signal: SignalRef, clock: nat, syncStages: int): seq<ResetEvent>
  {
    [Write(signal, 0)] + Edges(clock, syncStages) + [Edge(clock), Write(signal, 1), Edge(clock)]
  }

  /** The signal is 0 at sync_stages + 1 edges, then 1 at the last one. */
  lemma SyncReleaseLevels(signal: SignalRef, clock: nat, syncStages: int, level: Option<int>)
    ensures LevelsAtEdges(SyncReleaseTrace(signal, clock, syncStages), signal, level)
      == Repeat(Some(0), syncStages) + [Some(0), Some(1)]
  {
    var tail := [Edge(clock), Write(signal, 1), Edge(clock)];
    assert SyncReleaseTrace(signal, clock, syncStages) == [Write(signal, 0)] + (Edges(clock, syncStages) + tail);
    LevelsAfterWrite(signal, 0, level, Edges(clock, syncStages) + tail);
    LevelsOverEdges(clock, syncStages, signal, Some(0), tail);
    assert LevelsAtEdges([Edge(clock)], signal, Some(1)) == [Some(1)] by {
      assert [Edge(clock)][1..] == [];
    }
    assert LevelsAtEdges([Write(signal, 1), Edge(clock)], signal, Some(0)) == [Some(1)] by {
      assert [Write(signal, 1), Edge(clock)][1..] == [Edge(clock)];
    }
    assert LevelsAtEdges(tail, signal, Some(0)) == [Some(0), Some(1)] by {
      assert tail[0] == Edge(clock) && tail[1..] == [Write(signal, 1), Edge(clock)];
    }
  }

  /** A domain of reset_multiple_domains: its design, its clock, and optional cycle counts. */
  datatype Domain = Domain(dut: Dut, clock: nat, resetCycles: Option<int>, settleCycles: Option<int>)

  function GetOr(o: Option<int>, default: int): int
  {
    if o.Some? then o.value else default
  }

  /** reset_dut for one domain, with the defaults 10 and 5. */
  function DomainTrace(d: Domain): seq<ResetEvent>
  {
    ResetDutTrace(d.dut, d.clock, GetOr(d.resetCycles, 10), GetOr(d.settleCycles, 5))
  }

  /** The domains reset in list order. */
  function DomainsTrace(ds: seq<Domain>): seq<ResetEvent>
  {
    if ds == [] then [] else DomainsTrace(ds[..|ds| - 1]) + DomainTrace(ds[|ds| - 1])
  }

  /** reset_multiple_domains: the domain resets, then the global settle on the first domain's clock when there is one. */
  function MultiDomainTrace(ds: seq<Domain>, globalSettleCycles: int): seq<ResetEvent>
  {
    DomainsTrace(ds) + (if globalSettleCycles > 0 && ds != [] then Edges(ds[0].clock, globalSettleCycles) else [])
  }

  /** The number of clock edges in a trace. */
  function EdgeCount(trace: seq<ResetEvent>): nat
  {
    if trace == [] then 0 else EdgeCount(trace[..|trace| - 1]) + (if trace[|trace| - 1].Edge? then 1 else 0)
  }

  lemma {:induction false} EdgeCountAppend(a: seq<ResetEvent>, b: seq<ResetEvent>)
    ensures EdgeCount(a + b) == EdgeCount(a) + EdgeCount(b)
    decreases |b|
  {
    if b != [] {
      assert (a + b)[..|a + b| - 1] == a + b[..|b| - 1];
      EdgeCountAppend(a, b[..|b| - 1]);
    } else {
      assert a + b == a;
    }
  }

  lemma {:induction false} EdgeCountEdges(clock: nat, n: int)
    ensures EdgeCount(Edges(clock, n)) == if n < 0 then 0 else n
    decreases if n < 0 then 0 else n
  {
    if n > 0 {
      assert Edges(clock, n)[..n - 1] == Edges(clock, n - 1);
      EdgeCountEdges(clock, n - 1);
    }
  }

  /** The edges one domain's reset waits: its reset and settle counts, or none without a reset signal. */
  function DomainEdges(d: Domain): nat
  {
    if DetectResetSignal(d.dut).None? then 0
    else
      (if GetOr(d.resetCycles, 10) < 0 then 0 else GetOr(d.resetCycles, 10))
        + (if GetOr(d.settleCycles, 5) < 0 then 0 else GetOr(d.settleCycles, 5))
  }

  lemma DomainEdgeCount(d: Domain)
    ensures EdgeCount(DomainTrace(d)) == DomainEdges(d)
  {
    if DetectResetSignal(d.dut).Some? {
      var s := DetectResetSignal(d.dut).value;
      var sig := SignalRef(d.dut.id, s.name);
      var rc := GetOr(d.resetCycles, 10);
      var sc := GetOr(d.settleCycles, 5);
      assert DomainTrace(d) == [Write(sig, s.active)] + Edges(d.clock, rc) + [Write(sig, s.inactive)] + Edges(d.clock, sc);
      EdgeCountAppend([Write(sig, s.active)] + Edges(d.clock, rc) + [Write(sig, s.inactive)], Edges(d.clock, sc));
      EdgeCountAppend([Write(sig, s.active)] + Edges(d.clock, rc), [Write(sig, s.inactive)]);
      EdgeCountAppend([Write(sig, s.active)], Edges(d.clock, rc));
      assert EdgeCount([Write(sig, s.active)]) == 0 by { assert [Write(sig, s.active)][..0] == []; }
      assert EdgeCount([Write(sig, s.inactive)]) == 0 by { assert [Write(sig, s.inactive)][..0] == []; }
      EdgeCountEdges(d.clock, rc);
      EdgeCountEdges(d.clock, sc);
    }
  }

  function SumDomainEdges(ds: seq<Domain>): nat
  {
    if ds == [] then 0 else SumDomainEdges(ds[..|ds| - 1]) + DomainEdges(ds[|ds| - 1])
  }

  /**
   * reset_multiple_domains waits every domain's edges and then the global
   * settle count, which is skipped for an empty list whatever its value.
   */
  lemma {:induction false} MultiDomainEdgeCount(ds: seq<Domain>, globalSettleCycles: int)
    ensures EdgeCount(MultiDomainTrace(ds, globalSettleCycles))
      == SumDomainEdges(ds) + (if globalSettleCycles > 0 && ds != [] then globalSettleCycles else 0)
  {
    DomainsEdgeCount(ds);
    var settle := if globalSettleCycles > 0 && ds != [] then Edges(ds[0].clock, globalSettleCycles) else [];
    EdgeCountAppend(DomainsTrace(ds), settle);
    if globalSettleCycles > 0 && ds != [] {
      EdgeCountEdges(ds[0].clock, globalSettleCycles);
    }
  }

  lemma {:induction false} DomainsEdgeCount(ds: seq<Domain>)
    ensures EdgeCount(DomainsTrace(ds)) == SumDomainEdges(ds)
  {
    if ds != [] {
      DomainsEdgeCount(ds[..|ds| - 1]);
      EdgeCountAppend(DomainsTrace(ds[..|ds| - 1]), DomainTrace(ds[|ds| - 1]));
      DomainEdgeCount(ds[|ds| - 1]);
    }
  }

  /** The simulator: every signal write, clock edge and timer delay, in order. */
  class Simulator {
    var events: seq<ResetEvent>

    constructor ()
      ensures events == []
    {
      events := [];
    }

    /** signal.value = value */
    method SetValue(signal: SignalRef, value: int)
      modifies this`events
      ensures events == old(events) + [Write(signal, value)]
    {
      events := events + [Write(signal, value)];
    }

    /** await RisingEdge(clock) */
    method RisingEdge(clock: nat)
      modifies this`events
      ensures events == old(events) + [Edge(clock)]
    {
      events := events + [Edge(clock)];
    }

    /** await Timer(ns, units='ns') */
    method Timer(ns: real)
      modifies this`events
      ensures events == old(events) + [Delay(ns)]
    {
      events := events + [Delay(ns)];
    }
  }

  /** for _ in range(n): await RisingEdge(clock) */
  method WaitEdges(sim: Simulator, clock: nat, n: int)
    modifies sim`events
    ensures sim.events == old(sim.events) + Edges(clock, n)
  {
    var i := 0;
    while i < n
      invariant 0 <= i <= if n < 0 then 0 else n
      invariant sim.events == old(sim.events) + Edges(clock, i)
    {
      assert Edges(clock, i + 1) == Edges(clock, i) + [Edge(clock)];
      sim.RisingEdge(clock);
      i := i + 1;
    }
  }

  class ResetManager {
    const name: string

    constructor (name: string)
      ensures this.name == name
    {
      this.name := name;
    }

    /** reset_dut */
    method ResetDut(sim: Simulator, dut: Dut, clock: nat, resetCycles: int, settleCycles: int)
      modifies sim`events
      ensures sim.events == old(sim.events) + ResetDutTrace(dut, clock, resetCycles, settleCycles)
    {
      var detected := DetectResetSignal(dut);
      if detected.None? {
        return;
      }
      var s := detected.value;
      sim.SetValue(SignalRef(dut.id, s.name), s.active);
      WaitEdges(sim, clock, resetCycles);
      sim.SetValue(SignalRef(dut.id, s.name), s.inactive);
      WaitEdges(sim, clock, settleCycles);
    }

    /** reset_multiple_domains */
    method ResetMultipleDomains(sim: Simulator, domains: seq<Domain>, globalSettleCycles: int)
      modifies sim`events
      ensures sim.events == old(sim.events) + MultiDomainTrace(domains, globalSettleCycles)
    {
      ResetDomains(this, sim, domains);
      if globalSettleCycles > 0 {
        if domains != [] {
          WaitEdges(sim, domains[0].clock, globalSettleCycles);
        }
      }
    }

    /** controlled_reset_release */
    method ControlledResetRelease(sim: Simulator, dut: Dut, clock: nat, resetCycles: int, releaseDelayNs: real)
      modifies sim`events
      ensures sim.events == old(sim.events) + ControlledReleaseTrace(dut, clock, resetCycles, releaseDelayNs)
    {
      var detected := DetectResetSignal(dut);
      if detected.None? {
        return;
      }
      var s := detected.value;
      var signal := SignalRef(dut.id, s.name);
      sim.SetValue(signal, s.active);
      ghost var held := sim.events;
      WaitEdges(sim, clock, resetCycles);
      ghost var waited := sim.events;
      Release(sim, signal, s.inactive, clock, releaseDelayNs);
      assert sim.events == old(sim.events) + ControlledReleaseTrace(dut, clock, resetCycles, releaseDelayNs) by {
        assert held == old(sim.events) + [Write(signal, s.active)];
        assert waited == held + Edges(clock, resetCycles);
      }
    }
  }

  /** The loop of reset_multiple_domains: reset_dut on each domain in list order. */
  method ResetDomains(manager: ResetManager, sim: Simulator, domains: seq<Domain>)
    modifies sim`events
    ensures sim.events == old(sim.events) + DomainsTrace(domains)
  {
    var i := 0;
    while i < |domains|
      invariant 0 <= i <= |domains|
      invariant sim.events == old(sim.events) + DomainsTrace(domains[..i])
    {
      var d := domains[i];
      ghost var before := sim.events;
      manager.ResetDut(sim, d.dut, d.clock, GetOr(d.resetCycles, 10), GetOr(d.settleCycles, 5));
      assert sim.events == old(sim.events) + DomainsTrace(domains[..i + 1]) by {
        DomainsTraceStep(domains, i);
        SeqAssoc(old(sim.events), DomainsTrace(domains[..i]), DomainTrace(d));
      }
      i := i + 1;
    }
    assert domains[..|domains|] == domains;
  }

  lemma SeqAssoc(a: seq<ResetEvent>, b: seq<ResetEvent>, c: seq<ResetEvent>)
    ensures (a + b) + c == a + (b + c)
  {
  }

  lemma DomainsTraceStep(ds: seq<Domain>, i: nat)
    requires i < |ds|
    ensures DomainsTrace(ds[..i + 1]) == DomainsTrace(ds[..i]) + DomainTrace(ds[i])
  {
    assert ds[..i + 1][..i] == ds[..i];
  }

  /** The end of controlled_reset_release: the optional delay, the release, one edge. */
  method Release(sim: Simulator, signal: SignalRef, inactive: int, clock: nat, releaseDelayNs: real)
    modifies sim`events
    ensures sim.events == old(sim.events) + (if releaseDelayNs > 0.0 then [Delay(releaseDelayNs)] else [])
      + [Write(signal, inactive), Edge(clock)]
  {
    if releaseDelayNs > 0.0 {
      sim.Timer(releaseDelayNs);
    }
    sim.SetValue(signal, inactive);
    sim.RisingEdge(clock);
  }

  /** PowerOnReset.power_on_sequence: the power-on delay, then reset_dut with the default settle count of 10. */
  method PowerOnSequence(sim: Simulator, dut: Dut, clock: nat, powerOnDelayNs: real, resetCycles: int)
    modifies sim`events
    ensures sim.events == old(sim.events) + [Delay(powerOnDelayNs)] + ResetDutTrace(dut, clock, resetCycles, 10)
  {
    sim.Timer(powerOnDelayNs);
    var manager := new ResetManager("PowerOnReset");
    manager.ResetDut(sim, dut, clock, resetCycles, 10);
  }

  /** ResetSynchronizer.sync_reset_release */
  method SyncResetRelease(sim: Simulator, signal: SignalRef, clock: nat, syncStages: int)
    modifies sim`events
    ensures sim.events == old(sim.events) + SyncReleaseTrace(signal, clock, syncStages)
  {
    sim.SetValue(signal, 0);
    WaitEdges(sim, clock, syncStages);
    sim.RisingEdge(clock);
    sim.SetValue(signal, 1);
    sim.RisingEdge(clock);
  }

  /** opennic_standard_reset: reset_dut with 20 reset and 15 settle cycles. */
  method OpennicStandardReset(sim: Simulator, dut: Dut, clock: nat)
    modifies sim`events
    ensures sim.events == old(sim.events) + ResetDutTrace(dut, clock, 20, 15)
  {
    var manager := new ResetManager("OpenNICReset");
    manager.ResetDut(sim, dut, clock, 20, 15);
  }

  /** quick_reset: reset_dut with 5 reset and 3 settle cycles. */
  method QuickReset(sim: Simulator, dut: Dut, clock: nat)
    modifies sim`events
    ensures sim.events == old(sim.events) + ResetDutTrace(dut, clock, 5, 3)
  {
    var manager := new ResetManager("QuickReset");
    manager.ResetDut(sim, dut, clock, 5, 3);
  }

  /** reset_with_power_on: the power-on sequence with 25 reset cycles. */
  method ResetWithPowerOn(sim: Simulator, dut: Dut, clock: nat, powerDelayNs: real)
    modifies sim`events
    ensures sim.events == old(sim.events) + [Delay(powerDelayNs)] + ResetDutTrace(dut, clock, 25, 10)
  {
    PowerOnSequence(sim, dut, clock, powerDelayNs, 25);
  }
}
