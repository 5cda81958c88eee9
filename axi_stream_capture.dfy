/**
 * The protocol-checking AXI4-Stream monitor of the filter tests
 * (tb/tests/filter_rx_pipeline/utils/axi_stream_monitor.py): captured beats
 * and packets, the packet's size and byte content on a 512-bit bus, the
 * per-beat framing step with its tkeep checks, and the integrity check.
 *
 * Convention (ARM IHI 0051A section 2.3): byte j of a beat is tdata bits
 * 8j..8j+7, and a final beat's valid bytes are packed from bit 0 upwards.
 */
module AxiStreamCapture {
  import opened Bits
  import opened Wrappers
  import opened Callbacks
  import PacketGenerator

  /** 512 bits / 8 */
  const BYTES_PER_BEAT: nat := 64

  /** One captured beat (capture time left out). */
  datatype AxiStreamBeat = AxiStreamBeat(tdata: nat, tkeep: nat, tlast: bool, tuser: nat)

  datatype AxiStreamPacket = AxiStreamPacket(beats: seq<AxiStreamBeat>)

  // ---------------------------------------------------------------------
  // size_bytes and data_bytes

  /** Bytes a beat contributes to size_bytes: popcount(tkeep) on tlast, else the full 64. */
  function BeatSize(beat: AxiStreamBeat): nat
  {
    if beat.tlast then PopCount(beat.tkeep) else 64
  }

  function SizeOf(beats: seq<AxiStreamBeat>): nat
  {
    if beats == [] then 0 else SizeOf(beats[..|beats| - 1]) + BeatSize(beats[|beats| - 1])
  }

  /**
   * Bytes a beat contributes to data_bytes: tdata.to_bytes(64, 'little'),
   * cut to popcount(tkeep) on tlast; None when tdata does not fit in 64
   * bytes (to_bytes raises OverflowError).
   */
  function BeatData(beat: AxiStreamBeat): (r: Option<seq<byte>>)
    ensures r.Some? ==> |r.value| <= 64
  {
    if beat.tdata >= Pow2(8 * BYTES_PER_BEAT) then None
    else
      var bytes := ToLe(beat.tdata, 64);
      if beat.tlast then
        var valid := PopCount(beat.tkeep);
        Some(bytes[..if valid < 64 then valid else 64])
      else Some(bytes)
  }

  function DataOf(beats: seq<AxiStreamBeat>): Option<seq<byte>>
  {
    if beats == [] then Some([])
    else
      match (DataOf(beats[..|beats| - 1]), BeatData(beats[|beats| - 1]))
      case (Some(front), Some(last)) => Some(front + last)
      case _ => None
  }

  /** size_bytes */
  method SizeBytes(packet: AxiStreamPacket) returns (totalBytes: nat)
    ensures totalBytes == SizeOf(packet.beats)
  {
    totalBytes := 0;
    var i := 0;
    while i < |packet.beats|
      invariant 0 <= i <= |packet.beats|
      invariant totalBytes == SizeOf(packet.beats[..i])
    {
      var beat := packet.beats[i];
      if beat.tlast {
        totalBytes := totalBytes + PopCount(beat.tkeep);
      } else {
        totalBytes := totalBytes + 64;
      }
      assert packet.beats[..i + 1][..i] == packet.beats[..i];
      i := i + 1;
    }
    assert packet.beats[..i] == packet.beats;
  }

  /** data_bytes, or None where Python raises OverflowError. */
  method DataBytes(packet: AxiStreamPacket) returns (data: Option<seq<byte>>)
    ensures data == DataOf(packet.beats)
  {
    var acc: seq<byte> := [];
    var i := 0;
    while i < |packet.beats|
      invariant 0 <= i <= |packet.beats|
      invariant DataOf(packet.beats[..i]) == Some(acc)
    {
      var beat := packet.beats[i];
      assert packet.beats[..i + 1][..i] == packet.beats[..i];
      if beat.tdata >= Pow2(8 * BYTES_PER_BEAT) {
        NoneStaysNone(packet.beats, i + 1);
        return None;
      }
      var beatBytes := ToLe(beat.tdata, 64);
      if beat.tlast {
        var validBytes := PopCount(beat.tkeep);
        acc := acc + beatBytes[..if validBytes < 64 then validBytes else 64];
      } else {
        acc := acc + beatBytes;
      }
      i := i + 1;
    }
    assert packet.beats[..i] == packet.beats;
    data := Some(acc);
  }

  /** Once a prefix overflows, the whole packet does. */
  lemma {:induction false} NoneStaysNone(beats: seq<AxiStreamBeat>, k: nat)
    requires k <= |beats| && DataOf(beats[..k]).None?
    ensures DataOf(beats).None?
    decreases |beats| - k
  {
    if k < |beats| {
      assert beats[..k + 1][..k] == beats[..k];
      NoneStaysNone(beats, k + 1);
    } else {
      assert beats[..k] == beats;
    }
  }

  /**
   * size_bytes counts exactly the bytes data_bytes returns when no final
   * beat claims more than 64 keep bits and every tdata fits the bus.
   */
  lemma {:induction false} SizeMatchesData(beats: seq<AxiStreamBeat>)
    requires DataOf(beats).Some?
    requires forall i :: 0 <= i < |beats| && beats[i].tlast ==> PopCount(beats[i].tkeep) <= 64
    ensures |DataOf(beats).value| == SizeOf(beats)
  {
    if beats != [] {
      var front := beats[..|beats| - 1];
      assert DataOf(front).Some?;
      SizeMatchesData(front);
    }
  }

  /** Beat k of the 512-bit encoding decodes to packet bytes 64k up to 64k + 64 (or the end). */
  lemma DecodeEncodedBeat(packet: seq<byte>, k: nat)
    requires k < |PacketGenerator.EncodeLe(packet, 64)|
    ensures var e := PacketGenerator.EncodeLe(packet, 64)[k];
      var hi := if k * 64 + 64 < |packet| then k * 64 + 64 else |packet|;
      k * 64 < hi &&
      BeatData(AxiStreamBeat(e.tdata, e.tkeep, e.tlast, e.tuser)) == Some(packet[k * 64..hi])
  {
    var lo := k * 64;
    var hi := if lo + 64 < |packet| then lo + 64 else |packet|;
    PacketGenerator.EncodeLeBeat(packet, 64, k);
    PacketGenerator.NumBeatsBound(|packet|, 64, k);
    var e := PacketGenerator.EncodeLe(packet, 64)[k];
    assert e == PacketGenerator.BeatAt(packet, 64, k);
    PaddedBeatData(packet[lo..hi], e.tkeep, e.tlast, e.tuser);
  }

  /** A zero-padded chunk reads back as the chunk, cut by popcount(tkeep) on the last beat. */
  lemma PaddedBeatData(chunk: seq<byte>, keep: nat, last: bool, user: nat)
    requires 0 < |chunk| <= 64 && (!last ==> |chunk| == 64) && (last ==> PopCount(keep) == |chunk|)
    ensures BeatData(AxiStreamBeat(LeValue(chunk + PacketGenerator.Zeros(64 - |chunk|)), keep, last, user)) == Some(chunk)
  {
    var padded := chunk + PacketGenerator.Zeros(64 - |chunk|);
    assert |padded| == 64 && padded[..|chunk|] == chunk;
    LeValueBound(padded);
    ToLeLeValue(padded);
    if !last {
      assert padded == chunk;
    }
  }

  /** The captured beats of an encoded packet, as the monitor records them. */
  function Captured(beats: seq<PacketGenerator.LeBeat>): seq<AxiStreamBeat>
  {
    seq(|beats|, i requires 0 <= i < |beats| => AxiStreamBeat(beats[i].tdata, beats[i].tkeep, beats[i].tlast, beats[i].tuser))
  }

  /**
   * data_bytes inverts the 512-bit encoder of packet_generator.py: for every
   * byte string p, decoding the beats p is encoded into gives p back, and
   * size_bytes of those beats is |p|.
   */
  lemma DataBytesInvertsEncoder(packet: seq<byte>)
    ensures DataOf(Captured(PacketGenerator.EncodeLe(packet, 64))) == Some(packet)
    ensures SizeOf(Captured(PacketGenerator.EncodeLe(packet, 64))) == |packet|
  {
    var beats := Captured(PacketGenerator.EncodeLe(packet, 64));
    var n := |beats|;
    PacketGenerator.NumBeatsBound(|packet|, 64, n);
    if n == 0 {
      assert packet == [];
    } else {
      PacketGenerator.NumBeatsBound(|packet|, 64, n - 1);
      DecodePrefix(packet, n);
      assert beats[..n] == beats;
      assert packet[..|packet|] == packet;
      forall i | 0 <= i < n && beats[i].tlast
        ensures PopCount(beats[i].tkeep) <= 64
      {
        PacketGenerator.EncodeLeBeat(packet, 64, i);
      }
      SizeMatchesData(beats);
    }
  }

  /** Decoding the first k captured beats gives the packet bytes they carry. */
  lemma {:induction false} DecodePrefix(packet: seq<byte>, k: nat)
    requires k <= |PacketGenerator.EncodeLe(packet, 64)|
    ensures DataOf(Captured(PacketGenerator.EncodeLe(packet, 64))[..k]) == Some(packet[..PrefixEnd(|packet|, k)])
  {
    if k == 0 {
      assert Captured(PacketGenerator.EncodeLe(packet, 64))[..0] == [];
    } else {
      DecodePrefix(packet, k - 1);
      DecodePrefixStep(packet, k);
    }
  }

  /** Where the first k beats of an n-byte packet end: 64k, or n. */
  function PrefixEnd(n: nat, k: nat): nat
  {
    if k * 64 < n then k * 64 else n
  }

  lemma DecodePrefixStep(packet: seq<byte>, k: nat)
    requires 0 < k <= |PacketGenerator.EncodeLe(packet, 64)|
    requires DataOf(Captured(PacketGenerator.EncodeLe(packet, 64))[..k - 1]) == Some(packet[..PrefixEnd(|packet|, k - 1)])
    ensures DataOf(Captured(PacketGenerator.EncodeLe(packet, 64))[..k]) == Some(packet[..PrefixEnd(|packet|, k)])
  {
    var beats := Captured(PacketGenerator.EncodeLe(packet, 64));
    var lo := (k - 1) * 64;
    var hi := PrefixEnd(|packet|, k);
    assert lo < hi && PrefixEnd(|packet|, k - 1) == lo && hi == (if lo + 64 < |packet| then lo + 64 else |packet|) by {
      PacketGenerator.NumBeatsBound(|packet|, 64, k - 1);
    }
    DecodeEncodedBeat(packet, k - 1);
    DataAppend(beats, k, packet[..lo], packet[lo..hi]);
    PrefixJoin(packet, lo, hi);
  }

  /** Decoding one more beat appends its bytes. */
  lemma DataAppend(beats: seq<AxiStreamBeat>, k: nat, front: seq<byte>, last: seq<byte>)
    requires 0 < k <= |beats|
    requires DataOf(beats[..k - 1]) == Some(front) && BeatData(beats[k - 1]) == Some(last)
    ensures DataOf(beats[..k]) == Some(front + last)
  {
    assert beats[..k][..k - 1] == beats[..k - 1];
  }

  // ---------------------------------------------------------------------
  // Protocol checks on the final beat's tkeep.

  datatype Violation =
    | NonContiguousKeep(tkeep: nat)   // "Non-contiguous tkeep on tlast: 0x..."
    | LastWithEmptyKeep               // "tlast asserted with tkeep=0"

  /** The violations _check_protocol_compliance records for one beat. */
  function Violations(beat: AxiStreamBeat): seq<Violation>
  {
    var nonContiguous :=
      if beat.tlast && beat.tkeep != 0 && beat.tkeep != Pow2(BitLength(beat.tkeep)) - 1
      then [NonContiguousKeep(beat.tkeep)] else [];
    var empty := if beat.tlast && beat.tkeep == 0 then [LastWithEmptyKeep] else [];
    nonContiguous + empty
  }

  /**
   * Only tlast beats are checked; a final tkeep that is not of the form
   * 2^k - 1 records one non-contiguous violation, an empty one records one
   * tkeep=0 violation, and a contiguous LSB-first mask 2^k - 1 (k >= 1)
   * records none.
   */
  lemma ViolationsCharacterised(beat: AxiStreamBeat)
    ensures !beat.tlast ==> Violations(beat) == []
    ensures beat.tlast && beat.tkeep == 0 ==> Violations(beat) == [LastWithEmptyKeep]
    ensures beat.tlast && beat.tkeep != 0 ==>
      (Violations(beat) == [] <==> exists k: nat :: beat.tkeep == Pow2(k) - 1) &&
      (Violations(beat) != [] ==> Violations(beat) == [NonContiguousKeep(beat.tkeep)])
  {
    LowMaskUnique(beat.tkeep);
  }

  // ---------------------------------------------------------------------
  // The monitor.

  /** Sampled bus values at one clock edge. */
  datatype Sample = Sample(tvalid: bool, tready: bool, tdata: nat, tkeep: nat, tlast: bool, tuser: nat)

  /** What a callback of this monitor is called with. */
  datatype Event = BeatEvent(beat: AxiStreamBeat) | PacketEvent(packet: AxiStreamPacket)

  /** A packet the framing closed: non-empty, tlast on its final beat only. */
  predicate Framed(p: AxiStreamPacket)
  {
    p.beats != [] &&
    (forall i :: 0 <= i < |p.beats| ==> (p.beats[i].tlast <==> i == |p.beats| - 1))
  }

  /** A packet still open: beats so far, none of them final. */
  predicate Open(p: AxiStreamPacket)
  {
    p.beats != [] && forall i :: 0 <= i < |p.beats| ==> !p.beats[i].tlast
  }

  function BeatCount(packets: seq<AxiStreamPacket>): nat
  {
    if packets == [] then 0 else BeatCount(packets[..|packets| - 1]) + |packets[|packets| - 1].beats|
  }

  /** The open packet with one more beat (a new packet when none is open). */
  function Grow(current: Option<AxiStreamPacket>, beat: AxiStreamBeat): AxiStreamPacket
  {
    AxiStreamPacket((if current.Some? then current.value.beats else []) + [beat])
  }

  /** A final beat closes the open packet into a framed one; any other beat keeps it open. */
  lemma GrowKeepsFraming(current: Option<AxiStreamPacket>, beat: AxiStreamBeat)
    requires current.Some? ==> Open(current.value)
    ensures beat.tlast ==> Framed(Grow(current, beat))
    ensures !beat.tlast ==> Open(Grow(current, beat))
  {
  }

  lemma BeatCountAppend(packets: seq<AxiStreamPacket>, p: AxiStreamPacket)
    ensures BeatCount(packets + [p]) == BeatCount(packets) + |p.beats|
  {
    assert (packets + [p])[..|packets|] == packets;
  }

  lemma FramedAppend(packets: seq<AxiStreamPacket>, p: AxiStreamPacket)
    requires forall i :: 0 <= i < |packets| ==> Framed(packets[i])
    requires Framed(p)
    ensures forall i :: 0 <= i < |packets + [p]| ==> Framed((packets + [p])[i])
  {
  }

  class AxiStreamMonitor {
    var packets: seq<AxiStreamPacket>
    var currentPacket: Option<AxiStreamPacket>
    var totalBeats: nat
    var totalPackets: nat
    var protocolViolations: seq<Violation>
    var packetCallbacks: seq<nat>
    var beatCallbacks: seq<nat>
    var monitoring: bool
    /** Every callback call made so far, in order. */
    var calls: seq<Call<Event>>

    /**
     * Since the last clear_statistics: total_packets counts the completed
     * packets, total_beats counts the beats in them and in the open packet,
     * and each packet was closed by exactly its final beat.
     */
    predicate Valid()
      reads this
    {
      && totalPackets == |packets|
      && totalBeats == BeatCount(packets) + (if currentPacket.Some? then |currentPacket.value.beats| else 0)
      && (forall i :: 0 <= i < |packets| ==> Framed(packets[i]))
      && (currentPacket.Some? ==> Open(currentPacket.value))
    }

    constructor ()
      ensures Valid() && fresh(this)
      ensures packets == [] && currentPacket == None && totalBeats == 0 && totalPackets == 0
      ensures protocolViolations == [] && packetCallbacks == [] && beatCallbacks == []
      ensures !monitoring && calls == []
    {
      packets := [];
      currentPacket := None;
      totalBeats := 0;
      totalPackets := 0;
      protocolViolations := [];
      packetCallbacks := [];
      beatCallbacks := [];
      monitoring := false;
      calls := [];
    }

    method AddPacketCallback(callback: nat)
      modifies this`packetCallbacks
      ensures packetCallbacks == old(packetCallbacks) + [callback]
    {
      packetCallbacks := packetCallbacks + [callback];
    }

    method AddBeatCallback(callback: nat)
      modifies this`beatCallbacks
      ensures beatCallbacks == old(beatCallbacks) + [callback]
    {
      beatCallbacks := beatCallbacks + [callback];
    }

    /** _check_protocol_compliance */
    method CheckProtocolCompliance(beat: AxiStreamBeat)
      modifies this`protocolViolations
      ensures protocolViolations == old(protocolViolations) + Violations(beat)
    {
      if beat.tlast {
        var tkeep := beat.tkeep;
        if tkeep != 0 {
          var highestBit := BitLength(tkeep) - 1;
          var expectedMask := Pow2(highestBit + 1) - 1;
          if tkeep != expectedMask {
            protocolViolations := protocolViolations + [NonContiguousKeep(tkeep)];
          }
        }
      }
      if beat.tlast && beat.tkeep == 0 {
        protocolViolations := protocolViolations + [LastWithEmptyKeep];
      }
    }

    /**
     * _process_beat: count the beat, check it, add it to the open packet
     * (opening one if needed), run the beat callbacks; on tlast close the
     * packet, count it and run the packet callbacks. A violation or a
     * raising callback changes none of the framing.
     */
    method ProcessBeat(beat: AxiStreamBeat, raises: (nat, Event) -> bool)
      requires Valid()
      modifies this`packets, this`currentPacket, this`totalBeats, this`totalPackets, this`protocolViolations, this`calls
      ensures Valid()
      ensures totalBeats == old(totalBeats) + 1
      ensures protocolViolations == old(protocolViolations) + Violations(beat)
      ensures beat.tlast ==>
        && packets == old(packets) + [Grow(old(currentPacket), beat)]
        && totalPackets == old(totalPackets) + 1
        && currentPacket == None
        && calls == old(calls) + Dispatch(beatCallbacks, BeatEvent(beat), raises)
                               + Dispatch(packetCallbacks, PacketEvent(Grow(old(currentPacket), beat)), raises)
      ensures !beat.tlast ==>
        && packets == old(packets)
        && totalPackets == old(totalPackets)
        && currentPacket == Some(Grow(old(currentPacket), beat))
        && calls == old(calls) + Dispatch(beatCallbacks, BeatEvent(beat), raises)
    {
      var current := Grow(currentPacket, beat);
      GrowKeepsFraming(currentPacket, beat);
      totalBeats := totalBeats + 1;
      CheckProtocolCompliance(beat);
      currentPacket := Some(current);
      var beatCalls := RunIsolated(beatCallbacks, BeatEvent(beat), raises);
      calls := calls + beatCalls;
      if beat.tlast {
        ClosePacket(current, raises);
      }
    }

    /** The tlast branch of _process_beat: store the open packet, count it, run the packet callbacks. */
    method ClosePacket(current: AxiStreamPacket, raises: (nat, Event) -> bool)
      requires Framed(current) && currentPacket == Some(current)
      requires totalPackets == |packets| && forall i :: 0 <= i < |packets| ==> Framed(packets[i])
      modifies this`packets, this`totalPackets, this`currentPacket, this`calls
      ensures packets == old(packets) + [current] && totalPackets == old(totalPackets) + 1 && currentPacket == None
      ensures calls == old(calls) + Dispatch(packetCallbacks, PacketEvent(current), raises)
      ensures totalPackets == |packets| && forall i :: 0 <= i < |packets| ==> Framed(packets[i])
      ensures BeatCount(packets) == BeatCount(old(packets)) + |current.beats|
    {
      BeatCountAppend(packets, current);
      FramedAppend(packets, current);
      packets := packets + [current];
      totalPackets := totalPackets + 1;
      var packetCalls := RunIsolated(packetCallbacks, PacketEvent(current), raises);
      calls := calls + packetCalls;
      currentPacket := None;
    }

    /** One edge of _monitor_interface: a beat is captured only when tvalid and tready are both high. */
    method Observe(sample: Sample, raises: (nat, Event) -> bool)
      requires Valid()
      modifies this`packets, this`currentPacket, this`totalBeats, this`totalPackets, this`protocolViolations, this`calls
      ensures Valid()
      ensures !(sample.tvalid && sample.tready) ==>
        (totalBeats == old(totalBeats) && packets == old(packets) && currentPacket == old(currentPacket)
         && calls == old(calls) && protocolViolations == old(protocolViolations))
      ensures sample.tvalid && sample.tready ==>
        var beat := AxiStreamBeat(sample.tdata, sample.tkeep, sample.tlast, sample.tuser);
        && totalBeats == old(totalBeats) + 1
        && protocolViolations == old(protocolViolations) + Violations(beat)
        && (beat.tlast ==>
              && packets == old(packets) + [Grow(old(currentPacket), beat)]
              && totalPackets == old(totalPackets) + 1
              && currentPacket == None
              && calls == old(calls) + Dispatch(beatCallbacks, BeatEvent(beat), raises)
                                     + Dispatch(packetCallbacks, PacketEvent(Grow(old(currentPacket), beat)), raises))
        && (!beat.tlast ==>
              && packets == old(packets)
              && totalPackets == old(totalPackets)
              && currentPacket == Some(Grow(old(currentPacket), beat))
              && calls == old(calls) + Dispatch(beatCallbacks, BeatEvent(beat), raises))
    {
      if sample.tvalid && sample.tready {
        ProcessBeat(AxiStreamBeat(sample.tdata, sample.tkeep, sample.tlast, sample.tuser), raises);
      }
    }

    /** clear_statistics: drop packets, violations, counts and the open packet; keep the callbacks. */
    method ClearStatistics()
      modifies this`packets, this`protocolViolations, this`totalBeats, this`totalPackets, this`currentPacket
      ensures Valid()
      ensures packets == [] && protocolViolations == [] && totalBeats == 0 && totalPackets == 0 && currentPacket == None
    {
      packets := [];
      protocolViolations := [];
      totalBeats := 0;
      totalPackets := 0;
      currentPacket := None;
    }

    /** start_monitoring sets the flag; the monitoring loop it launches is a sequence of Observe steps. */
    method StartMonitoring()
      modifies this`monitoring
      ensures monitoring
    {
      monitoring := true;
    }

    /** stop_monitoring clears the flag, which ends the loop after its current edge. */
    method StopMonitoring()
      modifies this`monitoring
      ensures !monitoring
    {
      monitoring := false;
    }

    /** get_latest_packet: the most recently completed packet, None before the first. */
    function GetLatestPacket(): (r: Option<AxiStreamPacket>)
      reads this
      ensures r.None? <==> packets == []
      ensures r.Some? ==> r.value == packets[|packets| - 1]
      ensures Valid() ==> (r.None? <==> totalPackets == 0) && (r.Some? ==> Framed(r.value) && r.value.beats[|r.value.beats| - 1].tlast)
    {
      if packets != [] then Some(packets[|packets| - 1]) else None
    }
  }

  /**
   * verify_packet_integrity: true iff the expected bytes are exactly the
   * received packet's data_bytes (a length difference is reported first;
   * None where data_bytes raises).
   */
  method VerifyPacketIntegrity(expected: seq<byte>, received: AxiStreamPacket) returns (r: Option<bool>)
    ensures DataOf(received.beats).None? <==> r.None?
    ensures DataOf(received.beats).Some? ==> r == Some(expected == DataOf(received.beats).value)
  {
    var receivedData := DataBytes(received);
    if receivedData.None? {
      return None;
    }
    if |expected| != |receivedData.value| {
      return Some(false);
    }
    if expected != receivedData.value {
      return Some(false);
    }
    return Some(true);
  }

  /** A packet captured from the 512-bit encoding of p passes the integrity check against p, and only p. */
  lemma IntegrityOfEncodedPacket(p: seq<byte>, q: seq<byte>)
    ensures DataOf(AxiStreamPacket(Captured(PacketGenerator.EncodeLe(p, 64))).beats) == Some(p)
    ensures q != p ==> DataOf(Captured(PacketGenerator.EncodeLe(p, 64))).value != q
  {
    DataBytesInvertsEncoder(p);
  }
}
