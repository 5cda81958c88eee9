/**
 * The filter plugin's own AXI4-Stream driver and monitor
 * (plugin/p2p/box_250mhz/filter_rx_pipeline/tb/axi_stream_driver.py).
 *
 * This file uses the OTHER byte convention of the repository: a 64-byte
 * beat is read as a big-endian number (packet byte 0 in tdata bits
 * 511..504) and tkeep is MSB-first (byte 0 is keep bit 63). It is never
 * mixed with the little-endian encoders.
 */
module PluginAxiStream {
  import opened Bits
  import opened Wrappers
  import PacketGenerator

  /** 512 bits / 8 */
  const BEAT_BYTES: nat := 64

  /** A value carried by the 512-bit tdata signal. */
  type Word512 = x: nat | x < Pow2(8 * BEAT_BYTES)

  /** (data_int, keep_mask, last) as _packet_to_beats returns it. */
  datatype BeBeat = BeBeat(data: nat, keep: nat, last: bit)

  // ---------------------------------------------------------------------
  // _packet_to_beats

  /** Number of packet bytes in beat k: the full 64, or what remains. */
  function KeepBytes(n: nat, k: nat): nat
  {
    var lo := if k * 64 < n then k * 64 else n;
    if n - lo >= 64 then 64 else n - lo
  }

  /** The top kb bits of a 64-bit keep: ((1 << kb) - 1) << (64 - kb). */
  function MsbKeep(kb: nat): nat
    requires kb <= 64
  {
    (Pow2(kb) - 1) * Pow2(BEAT_BYTES - kb)
  }

  /** The 64 bytes of beat k: packet bytes 64k.. (at most 64 of them), zero-padded. */
  function Chunk(packet: seq<byte>, k: nat): (r: seq<byte>)
    ensures |r| == 64
  {
    var n := |packet|;
    var lo := if k * 64 < n then k * 64 else n;
    var hi := if lo + 64 < n then lo + 64 else n;
    packet[lo..hi] + PacketGenerator.Zeros(64 - (hi - lo))
  }

  function BeBeatAt(packet: seq<byte>, k: nat): (r: BeBeat)
    ensures r.data < Pow2(8 * BEAT_BYTES)
  {
    BeValueBound(Chunk(packet, k));
    BeBeat(BeValue(Chunk(packet, k)), MsbKeep(KeepBytes(|packet|, k)),
           if k * 64 + 64 >= |packet| then 1 else 0)
  }

  function EncodeBe(packet: seq<byte>): (r: seq<BeBeat>)
    ensures forall i :: 0 <= i < |r| ==> r[i].data < Pow2(8 * BEAT_BYTES)
  {
    seq(PacketGenerator.NumBeats(|packet|, 64), k requires 0 <= k => BeBeatAt(packet, k))
  }

  /** Slicing the zero-padded packet at beat k gives Chunk(packet, k). */
  lemma PaddedSlice(packet: seq<byte>, total: nat, k: nat)
    requires k * 64 < |packet| <= total && k * 64 + 64 <= total
    ensures (packet + PacketGenerator.Zeros(total - |packet|))[k * 64..k * 64 + 64] == Chunk(packet, k)
  {
    var padded := packet + PacketGenerator.Zeros(total - |packet|);
    var lo := k * 64;
    var hi := if lo + 64 < |packet| then lo + 64 else |packet|;
    var c := Chunk(packet, k);
    forall j | 0 <= j < 64
      ensures padded[lo + j] == c[j]
    {
      if lo + j < hi {
        assert c[j] == packet[lo + j];
      } else {
        assert c[j] == 0;
      }
    }
    assert padded[lo..lo + 64] == c;
  }

  /**
   * _packet_to_beats: ceil(len/64) beats; the data of each is the
   * big-endian value of its zero-padded 64-byte chunk, its keep the top
   * KeepBytes bits, and last is 1 on the final beat only.
   */
  method PacketToBeats(packet: seq<byte>) returns (beats: seq<BeBeat>)
    ensures beats == EncodeBe(packet)
  {
    var n := |packet|;
    var bytesPerBeat := 64;
    PacketGenerator.NumBeatsIsCeiling(n, bytesPerBeat);
    var count := PacketGenerator.NumBeats(n, bytesPerBeat);
    PacketGenerator.NumBeatsBound(n, bytesPerBeat, count);
    var paddedLength := ((n + bytesPerBeat - 1) / bytesPerBeat) * bytesPerBeat;
    var paddedData := packet + PacketGenerator.Zeros(paddedLength - n);
    beats := [];
    var i := 0;
    var k := 0;
    while i < |paddedData|
      invariant i == k * bytesPerBeat && k <= count
      invariant beats == seq(k, j requires 0 <= j => BeBeatAt(packet, j))
    {
      PacketGenerator.NumBeatsBound(n, bytesPerBeat, k);
      PaddedSlice(packet, paddedLength, k);
      var beatData := paddedData[i..i + bytesPerBeat];
      var dataInt := BeValue(beatData);
      var remainingBytes := n - i;
      var keepBytes;
      if remainingBytes >= bytesPerBeat {
        keepBytes := bytesPerBeat;
      } else {
        keepBytes := remainingBytes;
      }
      var keepMask := Pow2(keepBytes) - 1;
      keepMask := keepMask * Pow2(bytesPerBeat - keepBytes);
      var isLast := i + bytesPerBeat >= |paddedData|;
      assert isLast <==> k * 64 + 64 >= n;
      beats := beats + [BeBeat(dataInt, keepMask, if isLast then 1 else 0)];
      i := i + bytesPerBeat;
      k := k + 1;
    }
  }

  /** Beats before the last carry 64 bytes and keep all 64 bits; the last carries the rest. */
  lemma EncodeBeShape(packet: seq<byte>, k: nat)
    requires k < |EncodeBe(packet)|
    ensures var beat := EncodeBe(packet)[k];
      var kb := KeepBytes(|packet|, k);
      && 0 < kb <= 64
      && beat.keep == MsbKeep(kb)
      && (k < |EncodeBe(packet)| - 1 ==> kb == BEAT_BYTES && beat.keep == Pow2(BEAT_BYTES) - 1)
      && (beat.last == 1 <==> k == |EncodeBe(packet)| - 1)
  {
    PacketGenerator.NumBeatsBound(|packet|, 64, k);
  }

  /** The beat count is ceil(len / 64), and no beats for an empty packet. */
  lemma EncodeBeCount(packet: seq<byte>)
    ensures |EncodeBe(packet)| == (|packet| + 63) / 64
    ensures packet == [] <==> EncodeBe(packet) == []
  {
    PacketGenerator.NumBeatsIsCeiling(|packet|, 64);
  }

  // ---------------------------------------------------------------------
  // _beat_to_bytes

  /** Keep bit of beat byte j under the MSB-first convention: bit 63 - j. */
  predicate KeepBit(keep: nat, j: nat)
    requires j < 64
  {
    TestBit(keep, 63 - j)
  }

  /** How many keep bits are set scanning down from bit 63 - i until the first clear one. */
  function LeadingKeep(keep: nat, i: nat): (r: nat)
    requires i <= 64
    ensures i <= r <= 64
    decreases 64 - i
  {
    if i == 64 || !KeepBit(keep, i) then i else LeadingKeep(keep, i + 1)
  }

  /**
   * The bytes _beat_to_bytes returns: the big-endian bytes of data while
   * the keep bits are set from bit 63 down; None where to_bytes raises
   * OverflowError.
   */
  function BeatBytes(data: nat, keep: nat): (r: Option<seq<byte>>)
    ensures r.Some? ==> |r.value| <= 64
  {
    if data >= Pow2(8 * BEAT_BYTES) then None
    else Some(ToBe(data, 64)[..LeadingKeep(keep, 0)])
  }

  /**
   * The scan takes exactly the leading run of set keep bits: every byte it
   * returns had its keep bit set, and it stops at the first clear bit, so a
   * non-contiguous keep is cut short rather than rejected.
   */
  lemma {:induction false} LeadingKeepRun(keep: nat, i: nat)
    requires i <= 64
    ensures forall j :: i <= j < LeadingKeep(keep, i) ==> KeepBit(keep, j)
    ensures LeadingKeep(keep, i) < 64 ==> !KeepBit(keep, LeadingKeep(keep, i))
    decreases 64 - i
  {
    if i < 64 && KeepBit(keep, i) {
      LeadingKeepRun(keep, i + 1);
    }
  }

  /** A run of set bits from 63 - i down to 64 - kb followed by a clear bit (or bit 0) is counted as kb. */
  lemma {:induction false} LeadingKeepFrom(keep: nat, i: nat, kb: nat)
    requires i <= kb <= 64
    requires forall j :: i <= j < kb ==> KeepBit(keep, j)
    requires kb < 64 ==> !KeepBit(keep, kb)
    ensures LeadingKeep(keep, i) == kb
    decreases kb - i
  {
    if i < kb {
      LeadingKeepFrom(keep, i + 1, kb);
    }
  }

  /** The MSB-first mask of kb bytes reads back as kb bytes. */
  lemma MsbKeepCount(kb: nat)
    requires kb <= 64
    ensures LeadingKeep(MsbKeep(kb), 0) == kb
  {
    forall j | 0 <= j < 64
      ensures KeepBit(MsbKeep(kb), j) <==> j < kb
    {
      ShiftBit(Pow2(kb) - 1, 64 - kb, 63 - j);
      if 63 - j >= 64 - kb {
        LowMaskBit(kb, 63 - j - (64 - kb));
      }
    }
    LeadingKeepFrom(MsbKeep(kb), 0, kb);
  }

  /** _beat_to_bytes */
  method BeatToBytes(data: nat, keep: nat) returns (r: Option<seq<byte>>)
    ensures r == BeatBytes(data, keep)
  {
    var bytesPerBeat := 64;
    if data >= Pow2(8 * bytesPerBeat) {
      return None;
    }
    var dataBytes := ToBe(data, bytesPerBeat);
    var beatBytes: seq<byte> := [];
    var i := 0;
    while i < bytesPerBeat
      invariant 0 <= i <= bytesPerBeat
      invariant beatBytes == dataBytes[..i]
      invariant LeadingKeep(keep, i) == LeadingKeep(keep, 0)
    {
      if KeepBit(keep, i) {
        beatBytes := beatBytes + [dataBytes[i]];
        i := i + 1;
      } else {
        break;
      }
    }
    return Some(beatBytes);
  }

  /** Concatenated _beat_to_bytes over a beat list; None if any beat overflows. */
  function DecodeBe(beats: seq<BeBeat>): Option<seq<byte>>
  {
    if beats == [] then Some([])
    else
      match (DecodeBe(beats[..|beats| - 1]), BeatBytes(beats[|beats| - 1].data, beats[|beats| - 1].keep))
      case (Some(front), Some(last)) => Some(front + last)
      case _ => None
  }

  /** Beat k of the encoding reads back as packet bytes 64k up to 64k + KeepBytes. */
  lemma BeatRoundTrip(packet: seq<byte>, k: nat)
    requires k < |EncodeBe(packet)|
    ensures var lo := k * 64;
      && lo + KeepBytes(|packet|, k) <= |packet|
      && BeatBytes(EncodeBe(packet)[k].data, EncodeBe(packet)[k].keep) == Some(packet[lo..lo + KeepBytes(|packet|, k)])
  {
    PacketGenerator.NumBeatsBound(|packet|, 64, k);
    assert EncodeBe(packet)[k] == BeBeatAt(packet, k);
    ChunkBytes(Chunk(packet, k), KeepBytes(|packet|, k));
    ChunkPrefix(packet, k);
  }

  /** A beat carrying a 64-byte chunk under an MSB-first keep of kb bytes reads back as its first kb bytes. */
  lemma ChunkBytes(c: seq<byte>, kb: nat)
    requires |c| == 64 && kb <= 64
    ensures BeatBytes(BeValue(c), MsbKeep(kb)) == Some(c[..kb])
  {
    BeValueBound(c);
    ToBeBeValue(c);
    MsbKeepCount(kb);
  }

  /** The first KeepBytes bytes of chunk k are the packet bytes from 64k. */
  lemma ChunkPrefix(packet: seq<byte>, k: nat)
    requires k * 64 < |packet|
    ensures k * 64 + KeepBytes(|packet|, k) <= |packet|
    ensures Chunk(packet, k)[..KeepBytes(|packet|, k)] == packet[k * 64..k * 64 + KeepBytes(|packet|, k)]
  {
  }

  /** Decoding one more beat appends that beat's bytes. */
  lemma DecodeSnoc(beats: seq<BeBeat>, k: nat)
    requires 0 < k <= |beats|
    ensures DecodeBe(beats[..k]) ==
      match (DecodeBe(beats[..k - 1]), BeatBytes(beats[k - 1].data, beats[k - 1].keep))
      case (Some(front), Some(last)) => Some(front + last)
      case _ => None
  {
    assert beats[..k][..k - 1] == beats[..k - 1];
  }

  /** Decoding the first k beats gives the packet bytes they carry. */
  lemma {:induction false} DecodePrefix(packet: seq<byte>, k: nat)
    requires k <= |EncodeBe(packet)|
    ensures DecodeBe(EncodeBe(packet)[..k]) == Some(packet[..PrefixEnd(|packet|, k)])
  {
    if k == 0 {
      assert EncodeBe(packet)[..0] == [];
    } else {
      DecodePrefix(packet, k - 1);
      DecodePrefixStep(packet, k);
    }
  }

  /** Where the first k beats of an n-byte packet end: 64k, or n. */
  function PrefixEnd(n: nat, k: nat): nat
  {
    if k * 64 < n then k * 64 else n
  }

  lemma DecodePrefixStep(packet: seq<byte>, k: nat)
    requires 0 < k <= |EncodeBe(packet)|
    requires DecodeBe(EncodeBe(packet)[..k - 1]) == Some(packet[..PrefixEnd(|packet|, k - 1)])
    ensures DecodeBe(EncodeBe(packet)[..k]) == Some(packet[..PrefixEnd(|packet|, k)])
  {
    var beats := EncodeBe(packet);
    var lo := (k - 1) * 64;
    var hi := PrefixEnd(|packet|, k);
    assert lo < |packet| && lo + KeepBytes(|packet|, k - 1) == hi && PrefixEnd(|packet|, k - 1) == lo by {
      PacketGenerator.NumBeatsBound(|packet|, 64, k - 1);
    }
    var front, last := packet[..lo], packet[lo..hi];
    assert BeatBytes(beats[k - 1].data, beats[k - 1].keep) == Some(last) by {
      BeatRoundTrip(packet, k - 1);
    }
    assert front == packet[..PrefixEnd(|packet|, k - 1)];
    DecodeAppend(beats, k, front, last);
    PrefixJoin(packet, lo, hi);
  }

  lemma DecodeAppend(beats: seq<BeBeat>, k: nat, front: seq<byte>, last: seq<byte>)
    requires 0 < k <= |beats|
    requires DecodeBe(beats[..k - 1]) == Some(front)
    requires BeatBytes(beats[k - 1].data, beats[k - 1].keep) == Some(last)
    ensures DecodeBe(beats[..k]) == Some(front + last)
  {
    DecodeSnoc(beats, k);
  }

  /** Concatenating _beat_to_bytes over _packet_to_beats(p) gives back p, for every byte string p. */
  lemma DecodeInvertsEncode(packet: seq<byte>)
    ensures DecodeBe(EncodeBe(packet)) == Some(packet)
  {
    var n := |EncodeBe(packet)|;
    PacketGenerator.NumBeatsBound(|packet|, 64, n);
    DecodePrefix(packet, n);
    assert EncodeBe(packet)[..n] == EncodeBe(packet);
    assert packet[..|packet|] == packet;
  }

  // ---------------------------------------------------------------------
  // The monitor's per-edge body and wait_for_packet.

  /** Signal values sampled after ReadOnly at one rising edge. */
  datatype Sample = Sample(tvalid: bool, tready: bool, tdata: Word512, tkeep: nat, tlast: bool)

  /** The bytes buffered for the open packet, and the packets received so far. */
  datatype Capture = Capture(current: seq<byte>, received: seq<seq<byte>>)

  /** What one edge of _monitor does to the buffer and the received list. */
  function Step(c: Capture, s: Sample): Capture
  {
    if s.tvalid && s.tready then
      var bytes := BeatBytes(s.tdata, s.tkeep).value;
      if s.tlast then Capture([], c.received + [c.current + bytes])
      else Capture(c.current + bytes, c.received)
    else c
  }

  function Run(c: Capture, samples: seq<Sample>): Capture
  {
    if samples == [] then c else Step(Run(c, samples[..|samples| - 1]), samples[|samples| - 1])
  }

  /** The edges on which the monitor completes a packet. */
  function Completions(samples: seq<Sample>): nat
  {
    if samples == [] then 0
    else
      var s := samples[|samples| - 1];
      Completions(samples[..|samples| - 1]) + (if s.tvalid && s.tready && s.tlast then 1 else 0)
  }

  /**
   * The received list only grows, by one packet per edge with valid, ready
   * and last all high, and packets received earlier are never changed.
   */
  lemma {:induction false} RunReceives(c: Capture, samples: seq<Sample>)
    ensures |Run(c, samples).received| == |c.received| + Completions(samples)
    ensures Run(c, samples).received[..|c.received|] == c.received
  {
    if samples != [] {
      RunReceives(c, samples[..|samples| - 1]);
      var before := Run(c, samples[..|samples| - 1]);
      assert (before.received + [before.current + BeatBytes(samples[|samples| - 1].tdata, samples[|samples| - 1].tkeep).value])[..|c.received|]
        == before.received[..|c.received|];
    }
  }

  /** The sampled edges driving a beat list with valid and ready held high. */
  function DrivenSamples(beats: seq<BeBeat>): seq<Sample>
    requires forall i :: 0 <= i < |beats| ==> beats[i].data < Pow2(8 * BEAT_BYTES)
  {
    seq(|beats|, i requires 0 <= i < |beats| => Sample(true, true, beats[i].data, beats[i].keep, beats[i].last == 1))
  }

  /** Running one more edge applies Step to it. */
  lemma RunSnoc(c: Capture, samples: seq<Sample>, k: nat)
    requires 0 < k <= |samples|
    ensures Run(c, samples[..k]) == Step(Run(c, samples[..k - 1]), samples[k - 1])
  {
    assert samples[..k][..k - 1] == samples[..k - 1];
  }

  /** The edge driving beat k: a handshake, last only on the final beat, carrying the beat's packet bytes. */
  lemma DrivenSample(packet: seq<byte>, k: nat, s: Sample)
    requires k < |EncodeBe(packet)| && s == DrivenSamples(EncodeBe(packet))[k]
    ensures var lo := k * 64;
      && s.tvalid && s.tready
      && (s.tlast <==> k == |EncodeBe(packet)| - 1)
      && (k < |EncodeBe(packet)| - 1 ==> KeepBytes(|packet|, k) == 64)
      && lo + KeepBytes(|packet|, k) <= |packet|
      && BeatBytes(s.tdata, s.tkeep) == Some(packet[lo..lo + KeepBytes(|packet|, k)])
  {
    EncodeBeShape(packet, k);
    BeatRoundTrip(packet, k);
  }

  /** An accepted beat without last appends its bytes to the buffer. */
  lemma StepAppends(c: Capture, s: Sample, bytes: seq<byte>)
    requires s.tvalid && s.tready && !s.tlast && BeatBytes(s.tdata, s.tkeep) == Some(bytes)
    ensures Step(c, s) == Capture(c.current + bytes, c.received)
  {
  }

  /** An accepted beat with last completes the buffered packet and empties the buffer. */
  lemma StepCompletes(c: Capture, s: Sample, bytes: seq<byte>)
    requires s.tvalid && s.tready && s.tlast && BeatBytes(s.tdata, s.tkeep) == Some(bytes)
    ensures Step(c, s) == Capture([], c.received + [c.current + bytes])
  {
  }

  /** Before the last beat, the monitor has buffered the bytes of the beats driven so far. */
  lemma {:induction false} MonitorPrefix(packet: seq<byte>, prior: seq<seq<byte>>, k: nat)
    requires k < |EncodeBe(packet)|
    ensures k * 64 <= |packet|
    ensures Run(Capture([], prior), DrivenSamples(EncodeBe(packet))[..k]) == Capture(packet[..k * 64], prior)
  {
    if k == 0 {
      assert DrivenSamples(EncodeBe(packet))[..0] == [];
    } else {
      MonitorPrefix(packet, prior, k - 1);
      MonitorPrefixStep(packet, prior, k);
    }
  }

  lemma MonitorPrefixStep(packet: seq<byte>, prior: seq<seq<byte>>, k: nat)
    requires 0 < k < |EncodeBe(packet)| && (k - 1) * 64 <= |packet|
    requires Run(Capture([], prior), DrivenSamples(EncodeBe(packet))[..k - 1]) == Capture(packet[..(k - 1) * 64], prior)
    ensures k * 64 <= |packet|
    ensures Run(Capture([], prior), DrivenSamples(EncodeBe(packet))[..k]) == Capture(packet[..k * 64], prior)
  {
    var samples := DrivenSamples(EncodeBe(packet));
    var lo := (k - 1) * 64;
    var before := Run(Capture([], prior), samples[..k - 1]);
    RunSnoc(Capture([], prior), samples, k);
    DrivenBeatAppends(packet, k - 1, before);
    assert lo + 64 == k * 64;
    PrefixJoin(packet, lo, k * 64);
  }

  /** The edge of a beat before the last appends its 64 packet bytes to the buffer. */
  lemma DrivenBeatAppends(packet: seq<byte>, k: nat, c: Capture)
    requires k + 1 < |EncodeBe(packet)|
    ensures k * 64 + 64 <= |packet|
    ensures Step(c, DrivenSamples(EncodeBe(packet))[k]) == Capture(c.current + packet[k * 64..k * 64 + 64], c.received)
  {
    var s := DrivenSamples(EncodeBe(packet))[k];
    DrivenSample(packet, k, s);
    StepAppends(c, s, packet[k * 64..k * 64 + KeepBytes(|packet|, k)]);
  }

  /**
   * Driving the beats of a non-empty packet into an idle monitor makes it
   * receive exactly that packet and leaves its buffer empty. An empty
   * packet produces no beats, so nothing is received for it.
   */
  lemma MonitorReceivesDrivenPacket(packet: seq<byte>, prior: seq<seq<byte>>)
    ensures packet != [] ==> Run(Capture([], prior), DrivenSamples(EncodeBe(packet))) == Capture([], prior + [packet])
    ensures packet == [] ==> Run(Capture([], prior), DrivenSamples(EncodeBe(packet))) == Capture([], prior)
  {
    var samples := DrivenSamples(EncodeBe(packet));
    var n := |samples|;
    EncodeBeCount(packet);
    if n > 0 {
      var lo := (n - 1) * 64;
      MonitorPrefix(packet, prior, n - 1);
      var before := Run(Capture([], prior), samples[..n - 1]);
      RunSnoc(Capture([], prior), samples, n);
      DrivenBeatCompletes(packet, n - 1, before);
      assert samples[..n] == samples;
      PrefixJoin(packet, lo, |packet|);
      assert packet[..|packet|] == packet;
    }
  }

  /** The edge of the last beat completes the buffered packet with the bytes that remain. */
  lemma DrivenBeatCompletes(packet: seq<byte>, k: nat, c: Capture)
    requires k + 1 == |EncodeBe(packet)|
    ensures k * 64 <= |packet|
    ensures Step(c, DrivenSamples(EncodeBe(packet))[k]) == Capture([], c.received + [c.current + packet[k * 64..]])
  {
    var s := DrivenSamples(EncodeBe(packet))[k];
    var lo := k * 64;
    assert lo + KeepBytes(|packet|, k) == |packet| by {
      PacketGenerator.NumBeatsBound(|packet|, 64, k);
    }
    DrivenSample(packet, k, s);
    assert packet[lo..lo + KeepBytes(|packet|, k)] == packet[lo..];
    StepCompletes(c, s, packet[lo..]);
  }

  /** The monitor side of the plugin's AXI4-Stream bench; tready is held at 1. */
  class AxiStreamMonitor {
    var currentPacket: seq<byte>
    var receivedPackets: seq<seq<byte>>

    function State(): Capture
      reads this
    {
      Capture(currentPacket, receivedPackets)
    }

    constructor ()
      ensures currentPacket == [] && receivedPackets == []
    {
      currentPacket := [];
      receivedPackets := [];
    }

    /** The body of _monitor for one rising edge. */
    method Observe(sample: Sample)
      modifies this
      ensures State() == Step(old(State()), sample)
    {
      if sample.tvalid && sample.tready {
        var beatBytes := BeatToBytes(sample.tdata, sample.tkeep);
        currentPacket := currentPacket + beatBytes.value;
        if sample.tlast {
          var packetData := currentPacket;
          receivedPackets := receivedPackets + [packetData];
          currentPacket := [];
        }
      }
    }

    /**
     * wait_for_packet: on each of up to timeout_cycles edges, test whether
     * the received count has grown and if so return the newest packet; None
     * after timeout_cycles edges, at once for a timeout of 0 or less. The
     * waiter resumes on the rising edge itself, while _monitor updates the
     * list only after ReadOnly of that edge: the test on edge t sees the
     * edges before t, so a packet whose tlast beat is on edge t is seen on
     * edge t + 1. The monitor still observes the edge the waiter returns on.
     */
    method WaitForPacket(timeoutCycles: int, edges: seq<Sample>) returns (r: Option<seq<byte>>, waited: nat)
      requires timeoutCycles <= |edges|
      modifies this
      ensures waited <= |edges| && State() == Run(old(State()), edges[..waited])
      ensures r.Some? ==> 1 < waited && Completions(edges[..waited - 1]) > 0 && Completions(edges[..waited - 2]) == 0
      ensures r.Some? ==>
        var seen := Run(old(State()), edges[..waited - 1]).received;
        |seen| > 0 && r.value == seen[|seen| - 1]
      ensures r.None? ==> waited == (if timeoutCycles < 0 then 0 else timeoutCycles)
      ensures r.None? ==> waited == 0 || Completions(edges[..waited - 1]) == 0
    {
      var initialCount := |receivedPackets|;
      ghost var start := State();
      waited := 0;
      while waited < timeoutCycles
        invariant waited <= |edges| && (waited as int <= timeoutCycles || waited == 0)
        invariant State() == Run(start, edges[..waited])
        invariant waited == 0 || Completions(edges[..waited - 1]) == 0
        invariant |start.received| == initialCount
      {
        RunReceives(start, edges[..waited]);
        var seen := receivedPackets;
        Observe(edges[waited]);
        assert edges[..waited + 1][..waited] == edges[..waited];
        waited := waited + 1;
        if |seen| > initialCount {
          return Some(seen[|seen| - 1]), waited;
        }
      }
      return None, waited;
    }
  }
}
