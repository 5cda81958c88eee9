/**
 * The generic AXI4-Stream agent's transaction and driver
 * (tb/env/agents/axi_stream/driver.py): a transaction's data is cut into
 * bus-width chunks, the last one zero-padded with keep 0 on the padding;
 * chunk byte i goes to tdata bits 8i..8i+7 and keep entry i to tkeep bit i
 * (ARM IHI 0051A section 2.3, little-endian, LSB-first).
 *
 * What the driver writes on the bus is recorded as an event log. The
 * optional sideband signals (tkeep, tlast, tuser, tdest, tid) are written
 * only when the interface has them.
 */
module AxiAgentDriver {
  import opened Bits
  import opened Wrappers
  import PacketGenerator
  import Lifecycle

  /** An AxiStreamTransaction (its timestamp left out). */
  datatype AxiStreamTransaction = AxiStreamTransaction(
    data: seq<byte>, keep: seq<bit>, last: bool, user: int, dest: int, id: int)

  /** The constructor: a missing keep list becomes one 1 per data byte. */
  function NewTransaction(data: seq<byte>, keep: Option<seq<bit>>, last: bool, user: int, dest: int, id: int)
    : (t: AxiStreamTransaction)
    ensures keep.None? ==> |t.keep| == |data| && forall i :: 0 <= i < |t.keep| ==> t.keep[i] == 1
    ensures keep.Some? ==> t.keep == keep.value
    ensures t.data == data && t.last == last && t.user == user && t.dest == dest && t.id == id
  {
    AxiStreamTransaction(data, if keep.Some? then keep.value else seq(|data|, _ => 1), last, user, dest, id)
  }

  /** Which optional signals the interface has. */
  datatype Signals = Signals(hasKeep: bool, hasLast: bool, hasUser: bool, hasDest: bool, hasId: bool)

  /** The values written for one chunk; None where the signal is absent. */
  datatype DrivenBeat = DrivenBeat(
    tdata: nat, tkeep: Option<nat>, tlast: Option<bit>, tuser: Option<int>, tdest: Option<int>, tid: Option<int>)

  /** What the driver does on the bus, in order. */
  datatype DriverEvent =
    | Beat(beat: DrivenBeat)   // tvalid = 1 with these values, held until tready
    | Deassert                 // tvalid = 0 after a transaction
    | Wait(cycles: nat, kind: WaitKind)  // wait_clock_cycles: this many rising edges
    | Idle                     // _reset_signals: tvalid, tdata and every present optional signal to 0

  /** Which wait: send_burst's inter_packet_delay, or the driver's own gap after a transaction. */
  datatype WaitKind = InterPacket | OwnGap

  datatype SendError =
    | ZeroStep      // range(0, n, 0) raises ValueError for a bus under 8 bits
    | BadGapRange   // random.randint(min_gap_cycles, max_gap_cycles) raises ValueError when min > max

  // ---------------------------------------------------------------------
  // The chunks of one transaction.

  /** Bounds of chunk k's data: [lo, hi). */
  function ChunkLo(n: nat, b: nat, k: nat): nat
  {
    if k * b < n then k * b else n
  }

  function ChunkHi(n: nat, b: nat, k: nat): nat
  {
    var lo := ChunkLo(n, b, k);
    if lo + b < n then lo + b else n
  }

  /** Python's s[lo:hi] for 0 <= lo: clamped to the list. */
  function Slice<T>(s: seq<T>, lo: nat, hi: nat): seq<T>
  {
    var l := if lo < |s| then lo else |s|;
    var h := if hi < l then l else if hi < |s| then hi else |s|;
    s[l..h]
  }

  /** chunk_data after padding: b bytes. */
  function ChunkData(t: AxiStreamTransaction, b: nat, k: nat): (r: seq<byte>)
    ensures |r| == b
  {
    var n := |t.data|;
    t.data[ChunkLo(n, b, k)..ChunkHi(n, b, k)] + PacketGenerator.Zeros(b - (ChunkHi(n, b, k) - ChunkLo(n, b, k)))
  }

  /** chunk_keep after padding: the keep slice, then one 0 per padding byte. */
  function ChunkKeep(t: AxiStreamTransaction, b: nat, k: nat): seq<bit>
  {
    var n := |t.data|;
    Slice(t.keep, k * b, k * b + b) + seq(b - (ChunkHi(n, b, k) - ChunkLo(n, b, k)), _ => 0)
  }

  function ChunkBeat(t: AxiStreamTransaction, b: nat, k: nat, sig: Signals): DrivenBeat
  {
    var isLastChunk := k * b + b >= |t.data|;
    DrivenBeat(
      LeValue(ChunkData(t, b, k)),
      if sig.hasKeep then Some(LeBits(ChunkKeep(t, b, k))) else None,
      if sig.hasLast then Some(if t.last && isLastChunk then 1 else 0) else None,
      if sig.hasUser then Some(t.user) else None,
      if sig.hasDest then Some(t.dest) else None,
      if sig.hasId then Some(t.id) else None)
  }

  /** The beats of one transaction: ceil(len(data) / b) chunks. */
  function Chunks(t: AxiStreamTransaction, b: nat, sig: Signals): seq<DrivenBeat>
    requires b > 0
  {
    seq(PacketGenerator.NumBeats(|t.data|, b), k requires 0 <= k => ChunkBeat(t, b, k, sig))
  }

  /** One Beat event per driven beat, in order. */
  function BeatEvents(beats: seq<DrivenBeat>): (r: seq<DriverEvent>)
    ensures |r| == |beats| && forall k :: 0 <= k < |r| ==> r[k] == Beat(beats[k])
  {
    if beats == [] then [] else BeatEvents(beats[..|beats| - 1]) + [Beat(beats[|beats| - 1])]
  }

  lemma BeatEventsSnoc(beats: seq<DrivenBeat>, k: nat)
    requires k < |beats|
    ensures BeatEvents(beats[..k + 1]) == BeatEvents(beats[..k]) + [Beat(beats[k])]
  {
    assert beats[..k + 1][..k] == beats[..k];
  }

  /** Everything send_transaction does on the bus: nothing when inactive. */
  function SendEvents(active: bool, t: AxiStreamTransaction, b: nat, sig: Signals): seq<DriverEvent>
    requires active ==> b > 0
  {
    if !active then [] else BeatEvents(Chunks(t, b, sig)) + [Deassert]
  }

  // ---------------------------------------------------------------------
  // The driver's own gap after a transaction (min_gap_cycles, max_gap_cycles).

  /** The gap is drawn when either bound is positive. */
  predicate GapConfigured(minGap: int, maxGap: int)
  {
    minGap > 0 || maxGap > 0
  }

  /** A configured gap whose range is empty: randint raises. */
  predicate GapRangeEmpty(minGap: int, maxGap: int)
  {
    GapConfigured(minGap, maxGap) && minGap > maxGap
  }

  /** random.randint(lo, hi), the draw choosing which of its hi - lo + 1 values. */
  function RandInt(lo: int, hi: int, draw: nat): (r: int)
    requires lo <= hi
    ensures lo <= r <= hi
  {
    lo + draw % (hi - lo + 1)
  }

  /**
   * The wait after a transaction: wait_clock_cycles(randint(min, max)),
   * whose range() waits no edge for a negative count; nothing when the gap
   * is not configured, and nothing either when randint raises instead.
   */
  function PauseEvents(minGap: int, maxGap: int, draw: nat): (r: seq<DriverEvent>)
    ensures GapConfigured(minGap, maxGap) && minGap <= maxGap ==>
      |r| == 1 && r[0].Wait? && r[0].kind == OwnGap && r[0].cycles <= (if maxGap < 0 then 0 else maxGap)
      && (minGap > 0 ==> minGap <= r[0].cycles)
    ensures !GapConfigured(minGap, maxGap) || minGap > maxGap ==> r == []
  {
    if GapConfigured(minGap, maxGap) && minGap <= maxGap then
      var g := RandInt(minGap, maxGap, draw);
      [Wait(if g < 0 then 0 else g, OwnGap)]
    else []
  }

  /** Everything one send_transaction call does on the bus, its own gap included. */
  function SendTrace(active: bool, t: AxiStreamTransaction, b: nat, sig: Signals, minGap: int, maxGap: int, draw: nat)
    : seq<DriverEvent>
    requires active ==> b > 0
  {
    SendEvents(active, t, b, sig) + (if active then PauseEvents(minGap, maxGap, draw) else [])
  }

  /**
   * Shape of chunk k: its bytes are the transaction's bytes kb.. (at most
   * b of them) then zeros, at tdata bits 8i..8i+7; keep entry i of the
   * padded keep chunk is tkeep bit i; tlast is 1 only on the final chunk
   * of a transaction marked last.
   */
  lemma ChunkShape(t: AxiStreamTransaction, b: nat, sig: Signals, k: nat, i: nat)
    requires b > 0 && k < |Chunks(t, b, sig)|
    ensures var beat := Chunks(t, b, sig)[k];
      && (i < b ==>
            (beat.tdata / Pow2(8 * i)) % 256 == (if k * b + i < |t.data| then t.data[k * b + i] as int else 0))
      && (sig.hasKeep ==>
            (beat.tkeep.value / Pow2(i)) % 2 == (if i < |ChunkKeep(t, b, k)| then ChunkKeep(t, b, k)[i] as int else 0))
      && (sig.hasLast ==> (beat.tlast == Some(1) <==> t.last && k == |Chunks(t, b, sig)| - 1))
      && (!sig.hasLast ==> beat.tlast.None?)
  {
    assert Chunks(t, b, sig)[k] == ChunkBeat(t, b, k, sig);
    if i < b {
      PacketGenerator.NumBeatsBound(|t.data|, b, k);
      ChunkDataByte(t, b, k, i);
    }
    LeBitsAt(ChunkKeep(t, b, k), i);
    assert k == |Chunks(t, b, sig)| - 1 <==> k * b + b >= |t.data| by {
      PacketGenerator.NumBeatsBound(|t.data|, b, k);
    }
  }

  /** Byte i of a packed chunk is byte k*b + i of the data, or padding. */
  lemma ChunkDataByte(t: AxiStreamTransaction, b: nat, k: nat, i: nat)
    requires k * b < |t.data| && i < b
    ensures (LeValue(ChunkData(t, b, k)) / Pow2(8 * i)) % 256
            == (if k * b + i < |t.data| then t.data[k * b + i] as int else 0)
  {
    var c := ChunkData(t, b, k);
    assert c[i] == (if k * b + i < |t.data| then t.data[k * b + i] else 0);
    assert (LeValue(c) / Pow2(8 * i)) % 256 == c[i] as int by {
      ToLeLeValue(c);
      ToLeAt(LeValue(c), b, i);
    }
  }

  /** There are ceil(len/b) chunks, none for empty data. */
  lemma ChunkCount(t: AxiStreamTransaction, b: nat, sig: Signals)
    requires b > 0
    ensures |Chunks(t, b, sig)| == (|t.data| + b - 1) / b
    ensures t.data == [] <==> Chunks(t, b, sig) == []
  {
    PacketGenerator.NumBeatsIsCeiling(|t.data|, b);
  }

  lemma MulSucc(k: nat, b: nat)
    ensures (k + 1) * b == k * b + b
  {
  }

  // ---------------------------------------------------------------------
  // The packing loops of send_transaction.

  /** data_value |= byte << 8i over the padded chunk. */
  method PackData(chunk: seq<byte>) returns (dataValue: nat)
    ensures dataValue == LeValue(chunk)
  {
    dataValue := 0;
    var i := 0;
    while i < |chunk|
      invariant 0 <= i <= |chunk|
      invariant dataValue == LeValue(chunk[..i])
    {
      PackDataStep(chunk, i);
      ProductIsNat(chunk[i] as nat, Pow2(8 * i));
      dataValue := BitOr(dataValue, chunk[i] * Pow2(8 * i));
      i := i + 1;
    }
    assert chunk[..i] == chunk;
  }

  /** OR-ing byte i in at bit 8i extends the value of the first i bytes by one byte. */
  lemma PackDataStep(chunk: seq<byte>, i: nat)
    requires i < |chunk|
    ensures BitOr(LeValue(chunk[..i]), chunk[i] * Pow2(8 * i)) == LeValue(chunk[..i + 1])
  {
    LeValueBound(chunk[..i]);
    OrDisjointLow(LeValue(chunk[..i]), chunk[i], 8 * i);
    LeValueSnoc(chunk[..i], chunk[i]);
    assert chunk[..i + 1] == chunk[..i] + [chunk[i]];
  }

  /** keep_value |= keep_bit << i over the padded keep chunk. */
  method PackKeep(chunk: seq<bit>) returns (keepValue: nat)
    ensures keepValue == LeBits(chunk)
  {
    keepValue := 0;
    var i := 0;
    while i < |chunk|
      invariant 0 <= i <= |chunk|
      invariant keepValue == LeBits(chunk[..i])
    {
      PackKeepStep(chunk, i);
      keepValue := BitOr(keepValue, chunk[i] * Pow2(i));
      i := i + 1;
    }
    assert chunk[..i] == chunk;
  }

  /** OR-ing keep entry i in at bit i extends the value of the first i entries by one bit. */
  lemma PackKeepStep(chunk: seq<bit>, i: nat)
    requires i < |chunk|
    ensures BitOr(LeBits(chunk[..i]), chunk[i] * Pow2(i)) == LeBits(chunk[..i + 1])
  {
    LeBitsBound(chunk[..i]);
    OrDisjointLow(LeBits(chunk[..i]), chunk[i], i);
    LeBitsSnoc(chunk[..i], chunk[i]);
    assert chunk[..i + 1] == chunk[..i] + [chunk[i]];
  }

  /** `while len(chunk_data) < bus_bytes`: append a 0 byte and a 0 keep entry. */
  method PadChunk(data: seq<byte>, keep: seq<bit>, b: nat) returns (paddedData: seq<byte>, paddedKeep: seq<bit>)
    requires |data| <= b
    ensures paddedData == data + PacketGenerator.Zeros(b - |data|)
    ensures paddedKeep == keep + seq(b - |data|, _ => 0)
  {
    paddedData, paddedKeep := data, keep;
    while |paddedData| < b
      invariant |data| <= |paddedData| <= b
      invariant paddedData == data + PacketGenerator.Zeros(|paddedData| - |data|)
      invariant paddedKeep == keep + seq(|paddedData| - |data|, _ => 0)
      decreases b - |paddedData|
    {
      paddedData := paddedData + [0];
      paddedKeep := paddedKeep + [0];
    }
  }

  // ---------------------------------------------------------------------
  // The driver.

  class AxiStreamDriver {
    /** len(tdata): the bus width in bits. */
    const dataWidth: nat
    const signals: Signals
    /** config min_gap_cycles and max_gap_cycles (0 when absent). */
    const minGapCycles: int
    const maxGapCycles: int
    /** The Component part: its started flag and hook runs. */
    const component: Lifecycle.Component
    /** Driver._active, set by start and cleared by stop. */
    var active: bool
    var transactionsSent: nat
    /** tvalid as last written. */
    var tvalid: bit
    var events: seq<DriverEvent>

    constructor (name: string, dataWidth: nat, signals: Signals, minGapCycles: int, maxGapCycles: int)
      ensures fresh(component) && component.name == name && !component.started
      ensures this.dataWidth == dataWidth && this.signals == signals
      ensures this.minGapCycles == minGapCycles && this.maxGapCycles == maxGapCycles
      ensures !active && transactionsSent == 0 && tvalid == 0 && events == []
    {
      component := new Lifecycle.Component(name);
      this.dataWidth := dataWidth;
      this.signals := signals;
      this.minGapCycles := minGapCycles;
      this.maxGapCycles := maxGapCycles;
      active := false;
      transactionsSent := 0;
      tvalid := 0;
      events := [];
    }

    /**
     * start: the component start, then the active flag and reset_interface,
     * which drives every output to 0. A raising _start_impl propagates
     * before the flag is set; a component already started only warns, and
     * the driver is activated and reset again.
     */
    method Start(implRaises: bool) returns (r: Outcome<Lifecycle.LifecycleError>)
      modifies this, component
      ensures r.Fail? <==> !old(component.started) && implRaises
      ensures r.Fail? ==> active == old(active) && tvalid == old(tvalid) && events == old(events)
      ensures r.Pass? ==> active && component.started && tvalid == 0 && events == old(events) + [Idle]
      ensures transactionsSent == old(transactionsSent)
    {
      r := component.Start(implRaises);
      if r.Fail? {
        return;
      }
      active := true;
      tvalid := 0;
      events := events + [Idle];
    }

    /** stop clears the active flag first, whatever the component stop then does; the outputs keep their values. */
    method Stop(implRaises: bool) returns (r: Outcome<Lifecycle.LifecycleError>)
      modifies this, component
      ensures !active
      ensures r.Fail? <==> old(component.started) && implRaises
      ensures tvalid == old(tvalid) && events == old(events) && transactionsSent == old(transactionsSent)
    {
      active := false;
      r := component.Stop(implRaises);
    }

    /**
     * send_transaction: an inactive driver returns at once; otherwise one
     * beat per bus-width chunk, then tvalid back to 0 and one more
     * transaction sent, even for empty data, and then the driver's own gap
     * of randint(min_gap_cycles, max_gap_cycles) edges when either is
     * positive; randint raises for min > max, after the count. The
     * transaction itself is a value and is not changed by the padding.
     */
    method SendTransaction(t: AxiStreamTransaction, draw: nat) returns (r: Outcome<SendError>)
      modifies this`events, this`tvalid, this`transactionsSent
      ensures !old(active) ==> r == Pass && events == old(events) && transactionsSent == old(transactionsSent) && tvalid == old(tvalid)
      ensures old(active) && dataWidth / 8 == 0 ==>
        (r == Fail(ZeroStep) && events == old(events) && transactionsSent == old(transactionsSent) && tvalid == old(tvalid))
      ensures old(active) && dataWidth / 8 > 0 ==>
        (r == (if GapRangeEmpty(minGapCycles, maxGapCycles) then Fail(BadGapRange) else Pass)
         && events == old(events) + SendTrace(true, t, dataWidth / 8, signals, minGapCycles, maxGapCycles, draw)
         && transactionsSent == old(transactionsSent) + 1 && tvalid == 0)
    {
      if !active {
        return Pass;
      }
      var busBytes := dataWidth / 8;
      if busBytes == 0 {
        return Fail(ZeroStep);
      }
      DriveChunks(t, busBytes);
      r := Pass;
      tvalid := 0;
      ghost var driven := events;
      events := events + [Deassert];
      assert events == old(events) + SendEvents(true, t, busBytes, signals) by {
        assert driven == old(events) + BeatEvents(Chunks(t, busBytes, signals));
      }
      transactionsSent := transactionsSent + 1;
      if GapConfigured(minGapCycles, maxGapCycles) {
        if minGapCycles > maxGapCycles {
          return Fail(BadGapRange);
        }
        var gapCycles := RandInt(minGapCycles, maxGapCycles, draw);
        var waited := WaitClockCycles(gapCycles);
        events := events + [Wait(waited, OwnGap)];
      }
    }

    /** wait_clock_cycles: range(cycles) waits one edge per step, none for a negative count. */
    static method WaitClockCycles(cycles: int) returns (edges: nat)
      ensures edges == if cycles < 0 then 0 else cycles
    {
      edges := 0;
      while edges < cycles
        invariant edges <= if cycles < 0 then 0 else cycles
      {
        edges := edges + 1;
      }
    }

    /** The chunk loop of send_transaction: one beat per chunk, in order. */
    method DriveChunks(t: AxiStreamTransaction, busBytes: nat)
      requires busBytes > 0
      modifies this`events, this`tvalid
      ensures events == old(events) + BeatEvents(Chunks(t, busBytes, signals))
    {
      var n := |t.data|;
      ghost var start := events;
      ghost var chunks := Chunks(t, busBytes, signals);
      var offset := 0;
      var k := 0;
      while offset < n
        invariant offset == k * busBytes && k <= |chunks|
        invariant events == start + BeatEvents(chunks[..k])
      {
        PacketGenerator.NumBeatsBound(n, busBytes, k);
        DriveChunk(t, offset, busBytes, k);
        BeatEventsSnoc(chunks, k);
        MulSucc(k, busBytes);
        offset := offset + busBytes;
        k := k + 1;
      }
      PacketGenerator.NumBeatsBound(n, busBytes, k);
      assert chunks[..k] == chunks;
    }

    /** One pass of the chunk loop: tvalid up and the chunk's beat on the bus. */
    method DriveChunk(t: AxiStreamTransaction, offset: nat, busBytes: nat, ghost k: nat)
      requires busBytes > 0 && offset == k * busBytes && offset < |t.data|
      modifies this`events, this`tvalid
      ensures events == old(events) + [Beat(ChunkBeat(t, busBytes, k, signals))]
    {
      tvalid := 1;
      var beat := ChunkSignals(t, offset, busBytes, k);
      events := events + [Beat(beat)];
    }

    /**
     * The body of the chunk loop for the chunk at offset: slice, pad,
     * pack, and the sideband values.
     */
    method ChunkSignals(t: AxiStreamTransaction, offset: nat, busBytes: nat, ghost k: nat) returns (beat: DrivenBeat)
      requires busBytes > 0 && offset == k * busBytes && offset < |t.data|
      ensures beat == ChunkBeat(t, busBytes, k, signals)
    {
      var n := |t.data|;
      var hi := if offset + busBytes < n then offset + busBytes else n;
      var chunkData := t.data[offset..hi];
      var chunkKeep := Slice(t.keep, offset, offset + busBytes);
      var isLastChunk := offset + busBytes >= n;
      chunkData, chunkKeep := PadChunk(chunkData, chunkKeep, busBytes);
      var dataValue := PackData(chunkData);
      var keepValue: Option<nat> := None;
      if signals.hasKeep {
        var packed := PackKeep(chunkKeep);
        keepValue := Some(packed);
      }
      var lastValue: Option<bit> := None;
      if signals.hasLast {
        lastValue := Some(if t.last && isLastChunk then 1 else 0);
      }
      beat := DrivenBeat(dataValue, keepValue, lastValue,
        if signals.hasUser then Some(t.user) else None,
        if signals.hasDest then Some(t.dest) else None,
        if signals.hasId then Some(t.id) else None);
    }

    /**
     * send_burst: the transactions in list order, with a wait of
     * inter_packet_delay edges between consecutive ones (none after the
     * last, none for a delay of 0 or less); a failing send ends the burst.
     * draws(i) is the random draw of transaction i's own gap.
     */
    method SendBurst(ts: seq<AxiStreamTransaction>, interPacketDelay: int, draws: nat -> nat) returns (r: Outcome<SendError>)
      modifies this`events, this`tvalid, this`transactionsSent
      ensures !active || (dataWidth / 8 > 0 && !GapRangeEmpty(minGapCycles, maxGapCycles)) ==>
        (r == Pass
         && events == old(events) + BurstEvents(active, ts, dataWidth / 8, signals, interPacketDelay, minGapCycles, maxGapCycles, draws)
         && transactionsSent == old(transactionsSent) + (if active then |ts| else 0))
      ensures active && dataWidth / 8 == 0 ==>
        (events == old(events) && transactionsSent == old(transactionsSent) && (r.Fail? <==> ts != []) && r != Fail(BadGapRange))
      ensures active && dataWidth / 8 > 0 && GapRangeEmpty(minGapCycles, maxGapCycles) ==>
        (if ts == [] then r == Pass && events == old(events) && transactionsSent == old(transactionsSent)
         else r == Fail(BadGapRange) && events == old(events) + SendEvents(true, ts[0], dataWidth / 8, signals)
              && transactionsSent == old(transactionsSent) + 1)
    {
      if active && (dataWidth / 8 == 0 || GapRangeEmpty(minGapCycles, maxGapCycles)) {
        // The first send raises and ends the burst: before driving anything
        // on a bus under 8 bits, after its beats and count for an empty gap range.
        r := Pass;
        if ts != [] {
          r := SendTransaction(ts[0], draws(0));
        }
        return;
      }
      SendAll(ts, interPacketDelay, draws);
      r := Pass;
    }

    /** send_burst's loop when no send can fail. */
    method SendAll(ts: seq<AxiStreamTransaction>, interPacketDelay: int, draws: nat -> nat)
      requires active ==> dataWidth / 8 > 0 && !GapRangeEmpty(minGapCycles, maxGapCycles)
      modifies this`events, this`tvalid, this`transactionsSent
      ensures events == old(events) + BurstEvents(active, ts, dataWidth / 8, signals, interPacketDelay, minGapCycles, maxGapCycles, draws)
      ensures transactionsSent == old(transactionsSent) + (if active then |ts| else 0)
    {
      ghost var b := dataWidth / 8;
      assert active ==> b > 0;
      ghost var start := events;
      ghost var sentBefore := transactionsSent;
      var i := 0;
      while i < |ts|
        invariant 0 <= i <= |ts|
        invariant events == start + BurstPrefix(active, ts, i, b, signals, interPacketDelay, minGapCycles, maxGapCycles, draws)
        invariant transactionsSent == sentBefore + (if active then i else 0)
      {
        SendNext(ts, i, interPacketDelay, draws, start);
        i := i + 1;
      }
    }

    /** A pass of send_burst's loop extends the burst's events by transaction i and its wait. */
    method SendNext(ts: seq<AxiStreamTransaction>, i: nat, interPacketDelay: int, draws: nat -> nat, ghost start: seq<DriverEvent>)
      requires i < |ts| && (active ==> dataWidth / 8 > 0 && !GapRangeEmpty(minGapCycles, maxGapCycles))
      requires events == start + BurstPrefix(active, ts, i, dataWidth / 8, signals, interPacketDelay, minGapCycles, maxGapCycles, draws)
      modifies this`events, this`tvalid, this`transactionsSent
      ensures events == start + BurstPrefix(active, ts, i + 1, dataWidth / 8, signals, interPacketDelay, minGapCycles, maxGapCycles, draws)
      ensures transactionsSent == old(transactionsSent) + (if active then 1 else 0)
    {
      ghost var b := dataWidth / 8;
      ghost var before := events;
      SendInBurst(ts, i, interPacketDelay, draws(i));
      BurstPrefixStep(active, ts, i, b, signals, interPacketDelay, minGapCycles, maxGapCycles, draws, start);
      ExtendBy(before, events, start,
               BurstPrefix(active, ts, i, b, signals, interPacketDelay, minGapCycles, maxGapCycles, draws),
               BurstPrefix(active, ts, i + 1, b, signals, interPacketDelay, minGapCycles, maxGapCycles, draws),
               SendTrace(active, ts[i], b, signals, minGapCycles, maxGapCycles, draws(i)),
               if i < |ts| - 1 && interPacketDelay > 0 then [Wait(interPacketDelay, InterPacket)] else []);
    }

    /** One pass of send_burst's loop: send ts[i], then the inter-packet wait unless it is the last. */
    method SendInBurst(ts: seq<AxiStreamTransaction>, i: nat, interPacketDelay: int, draw: nat)
      requires i < |ts| && (active ==> dataWidth / 8 > 0 && !GapRangeEmpty(minGapCycles, maxGapCycles))
      modifies this`events, this`tvalid, this`transactionsSent
      ensures events == old(events) + SendTrace(active, ts[i], dataWidth / 8, signals, minGapCycles, maxGapCycles, draw)
                        + (if i < |ts| - 1 && interPacketDelay > 0 then [Wait(interPacketDelay, InterPacket)] else [])
      ensures transactionsSent == old(transactionsSent) + (if active then 1 else 0)
    {
      var r := SendTransaction(ts[i], draw);
      if i < |ts| - 1 && interPacketDelay > 0 {
        var waited := WaitClockCycles(interPacketDelay);
        events := events + [Wait(waited, InterPacket)];
      }
    }
  }

  /** What send_burst does on the bus for the first i transactions of ts. */
  function BurstPrefix(active: bool, ts: seq<AxiStreamTransaction>, i: nat, b: nat, sig: Signals, delay: int,
                       minGap: int, maxGap: int, draws: nat -> nat): seq<DriverEvent>
    requires i <= |ts| && (active ==> b > 0)
  {
    if i == 0 then []
    else
      BurstPrefix(active, ts, i - 1, b, sig, delay, minGap, maxGap, draws)
        + SendTrace(active, ts[i - 1], b, sig, minGap, maxGap, draws(i - 1))
        + (if i - 1 < |ts| - 1 && delay > 0 then [Wait(delay, InterPacket)] else [])
  }

  /** The events of transaction i and its waits follow those of the transactions before it. */
  lemma BurstPrefixStep(active: bool, ts: seq<AxiStreamTransaction>, i: nat, b: nat, sig: Signals, delay: int,
                        minGap: int, maxGap: int, draws: nat -> nat, start: seq<DriverEvent>)
    requires i < |ts| && (active ==> b > 0)
    ensures start + BurstPrefix(active, ts, i + 1, b, sig, delay, minGap, maxGap, draws)
         == start + BurstPrefix(active, ts, i, b, sig, delay, minGap, maxGap, draws)
            + SendTrace(active, ts[i], b, sig, minGap, maxGap, draws(i))
            + (if i < |ts| - 1 && delay > 0 then [Wait(delay, InterPacket)] else [])
  {
    var front := BurstPrefix(active, ts, i, b, sig, delay, minGap, maxGap, draws);
    var trace := SendTrace(active, ts[i], b, sig, minGap, maxGap, draws(i));
    var gap := if i < |ts| - 1 && delay > 0 then [Wait(delay, InterPacket)] else [];
    assert BurstPrefix(active, ts, i + 1, b, sig, delay, minGap, maxGap, draws) == front + trace + gap;
    AppendThree(start, front, trace, gap);
  }

  lemma ExtendBy<T>(before: seq<T>, after: seq<T>, start: seq<T>, front: seq<T>, next: seq<T>, trace: seq<T>, gap: seq<T>)
    requires before == start + front && after == before + trace + gap
    requires start + next == start + front + trace + gap
    ensures after == start + next
  {
  }

  lemma AppendThree<T>(start: seq<T>, front: seq<T>, trace: seq<T>, gap: seq<T>)
    ensures start + (front + trace + gap) == start + front + trace + gap
  {
  }

  function BurstEvents(active: bool, ts: seq<AxiStreamTransaction>, b: nat, sig: Signals, delay: int,
                       minGap: int, maxGap: int, draws: nat -> nat): seq<DriverEvent>
    requires active ==> b > 0
  {
    BurstPrefix(active, ts, |ts|, b, sig, delay, minGap, maxGap, draws)
  }

  // ---------------------------------------------------------------------
  // Counting the waits of a burst.

  predicate IsWait(e: DriverEvent, kind: WaitKind)
  {
    e.Wait? && e.kind == kind
  }

  /** The number of waits of this kind among the events. */
  function Waits(events: seq<DriverEvent>, kind: WaitKind): nat
  {
    if events == [] then 0 else Waits(events[..|events| - 1], kind) + (if IsWait(events[|events| - 1], kind) then 1 else 0)
  }

  lemma {:induction false} WaitsAppend(a: seq<DriverEvent>, b: seq<DriverEvent>, kind: WaitKind)
    ensures Waits(a + b, kind) == Waits(a, kind) + Waits(b, kind)
    decreases |b|
  {
    if b != [] {
      assert (a + b)[..|a + b| - 1] == a + b[..|b| - 1];
      WaitsAppend(a, b[..|b| - 1], kind);
    } else {
      assert a + b == a;
    }
  }

  lemma {:induction false} NoWaits(events: seq<DriverEvent>, kind: WaitKind)
    requires forall i :: 0 <= i < |events| ==> !IsWait(events[i], kind)
    ensures Waits(events, kind) == 0
  {
    if events != [] {
      NoWaits(events[..|events| - 1], kind);
    }
  }

  lemma WaitsSingle(e: DriverEvent, kind: WaitKind)
    ensures Waits([e], kind) == if IsWait(e, kind) then 1 else 0
  {
    assert [e][..0] == [];
  }

  /**
   * One send_transaction waits exactly once, for its own gap, when the
   * driver is active and the gap is configured with a non-empty range, and
   * never otherwise; it never makes an inter-packet wait.
   */
  lemma SendTraceWaits(active: bool, t: AxiStreamTransaction, b: nat, sig: Signals, minGap: int, maxGap: int, draw: nat)
    requires active ==> b > 0
    ensures Waits(SendTrace(active, t, b, sig, minGap, maxGap, draw), InterPacket) == 0
    ensures Waits(SendTrace(active, t, b, sig, minGap, maxGap, draw), OwnGap) ==
      if active && GapConfigured(minGap, maxGap) && minGap <= maxGap then 1 else 0
  {
    var send := SendEvents(active, t, b, sig);
    var pause := if active then PauseEvents(minGap, maxGap, draw) else [];
    assert SendTrace(active, t, b, sig, minGap, maxGap, draw) == send + pause;
    SendEventsNoWaits(active, t, b, sig, InterPacket);
    SendEventsNoWaits(active, t, b, sig, OwnGap);
    WaitsAppend(send, pause, InterPacket);
    WaitsAppend(send, pause, OwnGap);
    if active {
      PauseWaits(minGap, maxGap, draw);
    } else {
      assert Waits(pause, InterPacket) == 0 && Waits(pause, OwnGap) == 0;
    }
  }

  /** The beats and the deassert of a transaction are no waits. */
  lemma SendEventsNoWaits(active: bool, t: AxiStreamTransaction, b: nat, sig: Signals, kind: WaitKind)
    requires active ==> b > 0
    ensures Waits(SendEvents(active, t, b, sig), kind) == 0
  {
    NoWaits(SendEvents(active, t, b, sig), kind);
  }

  /** The pause is one own-gap wait when drawn, and nothing otherwise. */
  lemma PauseWaits(minGap: int, maxGap: int, draw: nat)
    ensures Waits(PauseEvents(minGap, maxGap, draw), InterPacket) == 0
    ensures Waits(PauseEvents(minGap, maxGap, draw), OwnGap) ==
      if GapConfigured(minGap, maxGap) && minGap <= maxGap then 1 else 0
  {
    var pause := PauseEvents(minGap, maxGap, draw);
    if pause != [] {
      assert pause == [pause[0]];
      WaitsSingle(pause[0], InterPacket);
      WaitsSingle(pause[0], OwnGap);
    }
  }

  /** Appending one transaction's trace and its inter-packet wait adds their counts. */
  lemma WaitStep(front: seq<DriverEvent>, send: seq<DriverEvent>, gap: seq<DriverEvent>, kind: WaitKind)
    requires gap == [] || (|gap| == 1 && IsWait(gap[0], InterPacket))
    ensures Waits(front + send + gap, kind) == Waits(front, kind) + Waits(send, kind)
                                              + (if kind == InterPacket then |gap| else 0)
  {
    WaitsAppend(front, send, kind);
    WaitsAppend(front + send, gap, kind);
    if gap != [] {
      assert gap == [gap[0]];
      WaitsSingle(gap[0], kind);
    }
  }

  /**
   * A burst of n transactions has exactly n - 1 inter-packet waits when the
   * delay is positive (none after the last transaction) and none otherwise.
   */
  lemma {:induction false} BurstGaps(active: bool, ts: seq<AxiStreamTransaction>, i: nat, b: nat, sig: Signals, delay: int,
                                     minGap: int, maxGap: int, draws: nat -> nat)
    requires i <= |ts| && (active ==> b > 0)
    ensures Waits(BurstPrefix(active, ts, i, b, sig, delay, minGap, maxGap, draws), InterPacket) ==
      if delay > 0 && i > 0 then (if i == |ts| then i - 1 else i) else 0
  {
    if i > 0 {
      var front := BurstPrefix(active, ts, i - 1, b, sig, delay, minGap, maxGap, draws);
      var trace := SendTrace(active, ts[i - 1], b, sig, minGap, maxGap, draws(i - 1));
      var gap := if i - 1 < |ts| - 1 && delay > 0 then [Wait(delay, InterPacket)] else [];
      assert BurstPrefix(active, ts, i, b, sig, delay, minGap, maxGap, draws) == front + trace + gap;
      BurstGaps(active, ts, i - 1, b, sig, delay, minGap, maxGap, draws);
      SendTraceWaits(active, ts[i - 1], b, sig, minGap, maxGap, draws(i - 1));
      WaitStep(front, trace, gap, InterPacket);
    }
  }

  /**
   * Every transaction of a burst on an active driver with a configured,
   * non-empty gap range is followed by its own gap, the last one included;
   * otherwise there is none.
   */
  lemma {:induction false} BurstOwnGaps(active: bool, ts: seq<AxiStreamTransaction>, i: nat, b: nat, sig: Signals, delay: int,
                                        minGap: int, maxGap: int, draws: nat -> nat)
    requires i <= |ts| && (active ==> b > 0)
    ensures Waits(BurstPrefix(active, ts, i, b, sig, delay, minGap, maxGap, draws), OwnGap) ==
      if active && GapConfigured(minGap, maxGap) && minGap <= maxGap then i else 0
  {
    if i > 0 {
      var front := BurstPrefix(active, ts, i - 1, b, sig, delay, minGap, maxGap, draws);
      var trace := SendTrace(active, ts[i - 1], b, sig, minGap, maxGap, draws(i - 1));
      var gap := if i - 1 < |ts| - 1 && delay > 0 then [Wait(delay, InterPacket)] else [];
      assert BurstPrefix(active, ts, i, b, sig, delay, minGap, maxGap, draws) == front + trace + gap;
      BurstOwnGaps(active, ts, i - 1, b, sig, delay, minGap, maxGap, draws);
      SendTraceWaits(active, ts[i - 1], b, sig, minGap, maxGap, draws(i - 1));
      WaitStep(front, trace, gap, OwnGap);
    }
  }
}
