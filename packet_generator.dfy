/**
 * Test-packet generation (tb/tests/filter_rx_pipeline/utils/packet_generator.py):
 * payload patterns, the post-processing applied to the frame Scapy builds,
 * and the little-endian AXI4-Stream encoder shared by PacketGenerator and
 * ScapyPacketGenerator.
 *
 * Beat convention (ARM IHI 0051A section 2.3, byte qualifiers): byte j of a
 * beat occupies tdata bits 8j..8j+7, tkeep bit j marks it as a data byte,
 * and valid bytes are packed from bit 0 upwards (tkeep = 2^n - 1).
 */
module PacketGenerator {
  import opened Bits
  import opened Wrappers

  /** One (tdata, tkeep, tlast, tuser) tuple. */
  datatype LeBeat = LeBeat(tdata: nat, tkeep: nat, tlast: bool, tuser: nat)

  function Zeros(n: nat): (r: seq<byte>)
    ensures |r| == n && forall i :: 0 <= i < n ==> r[i] == 0
  {
    seq(n, _ => 0)
  }

  /** s[:n] with Python's slice rules: a negative bound counts from the end. */
  function SliceTo<T>(s: seq<T>, n: int): (r: seq<T>)
    ensures 0 <= n ==> r == s[..if n < |s| then n else |s|]
    ensures n < 0 ==> r == s[..if |s| + n < 0 then 0 else |s| + n]
  {
    if n >= 0 then s[..if n < |s| then n else |s|]
    else s[..if |s| + n < 0 then 0 else |s| + n]
  }

  // ---------------------------------------------------------------------
  // generate_payload

  /**
   * The payload for a configured size and pattern. A truthy custom payload
   * wins over the pattern; "random" takes its bytes from `draws`, which
   * stands for random.randint(0, 255) drawn payload_size times.
   */
  function GeneratePayload(size: int, pattern: string, custom: Option<seq<byte>>, draws: seq<byte>): (r: seq<byte>)
    requires size > 0 && !(custom.Some? && custom.value != []) && pattern == "random" ==> |draws| >= size
    ensures size == 0 ==> r == []
    ensures size != 0 && custom.Some? && custom.value != [] ==> r == SliceTo(custom.value, size)
    ensures size != 0 && !(custom.Some? && custom.value != []) ==> |r| == if size < 0 then 0 else size
  {
    if size == 0 then []
    else if custom.Some? && custom.value != [] then SliceTo(custom.value, size)
    else if size < 0 then []
    else if pattern == "increment" then seq(size, i => i % 256)
    else if pattern == "random" then draws[..size]
    else if pattern == "fixed" then seq(size, _ => 0xAA)
    else Zeros(size)
  }

  /** The byte patterns: a counter modulo 256, all 0xAA, or all zero for any other name. */
  lemma PayloadPatterns(size: nat, pattern: string, draws: seq<byte>, i: nat)
    requires 0 < size && i < size && pattern != "random"
    ensures var p := GeneratePayload(size, pattern, None, draws);
      && (pattern == "increment" ==> p[i] == i % 256)
      && (pattern == "fixed" ==> p[i] == 0xAA)
      && (pattern != "increment" && pattern != "fixed" ==> p[i] == 0)
  {
  }

  /** A non-empty custom payload is cut to the size, never padded. */
  lemma CustomPayloadIsPrefix(size: nat, pattern: string, custom: seq<byte>, draws: seq<byte>)
    requires size > 0 && custom != []
    ensures var p := GeneratePayload(size, pattern, Some(custom), draws);
      |p| <= size && p == custom[..|p|] && (|custom| >= size ==> |p| == size)
  {
  }

  // ---------------------------------------------------------------------
  // generate_packet (post-processing of the frame Scapy builds)

  function ToUpperChar(c: char): char
  {
    if 'a' <= c <= 'z' then (c as int - 32) as char else c
  }

  /** str.upper() on ASCII text. */
  function ToUpper(s: string): (r: string)
    ensures |r| == |s|
  {
    seq(|s|, i requires 0 <= i < |s| => ToUpperChar(s[i]))
  }

  /** The fields of PacketConfig the post-processing reads. */
  datatype PacketConfig = PacketConfig(
    ipVersion: int,
    dstIp: string,
    dstPort: int,
    protocol: string,
    payloadSize: int,
    payloadPattern: string,
    customPayload: Option<seq<byte>>,
    truncateAt: Option<int>)

  predicate IsTcp(config: PacketConfig)
  {
    ToUpper(config.protocol) == "TCP"
  }

  /** `config.truncate_at` is truthy: present and non-zero. */
  predicate Truncates(config: PacketConfig)
  {
    config.truncateAt.Some? && config.truncateAt.value != 0
  }

  /** The frame handed on: cut at truncate_at, or else zero-padded to the 64-byte minimum. */
  function FinishFrame(frame: seq<byte>, config: PacketConfig): (r: seq<byte>)
    ensures Truncates(config) ==> |r| <= |frame|
    ensures !Truncates(config) ==> |r| >= 64 && |r| >= |frame|
  {
    if Truncates(config) then SliceTo(frame, config.truncateAt.value)
    else if |frame| < 64 then frame + Zeros(64 - |frame|)
    else frame
  }

  /** An untruncated frame keeps every byte, is at least 64 bytes long, and only gains zero padding. */
  lemma FinishFramePads(frame: seq<byte>, config: PacketConfig)
    requires !Truncates(config)
    ensures var out := FinishFrame(frame, config);
      |out| == (if |frame| < 64 then 64 else |frame|) &&
      out[..|frame|] == frame &&
      forall i :: |frame| <= i < |out| ==> out[i] == 0
  {
  }

  /** A truncated frame is a prefix of the built one, no longer than truncate_at when that is positive. */
  lemma FinishFrameTruncates(frame: seq<byte>, config: PacketConfig)
    requires Truncates(config)
    ensures var out := FinishFrame(frame, config);
      out == frame[..|out|] && (config.truncateAt.value > 0 ==> |out| <= config.truncateAt.value)
  {
  }

  class Generator {
    /** The TCP sequence number the next TCP packet carries. */
    var sequenceNumber: int

    constructor ()
      ensures sequenceNumber == 0
    {
      sequenceNumber := 0;
    }

    /**
     * generate_packet. `frame` is what bytes(packet) gives for the Scapy
     * layers built from this config, the current sequence number and the
     * payload; only what happens around it is modelled here.
     */
    method GeneratePacket(config: PacketConfig, draws: seq<byte>, frame: seq<byte>) returns (packet: seq<byte>, payload: seq<byte>)
      requires (config.payloadSize > 0 && !(config.customPayload.Some? && config.customPayload.value != [])
                && config.payloadPattern == "random") ==> |draws| >= config.payloadSize
      modifies this
      ensures payload == GeneratePayload(config.payloadSize, config.payloadPattern, config.customPayload, draws)
      ensures sequenceNumber == old(sequenceNumber) + if IsTcp(config) then |payload| + 1 else 0
      ensures packet == FinishFrame(frame, config)
    {
      payload := GeneratePayload(config.payloadSize, config.payloadPattern, config.customPayload, draws);
      if ToUpper(config.protocol) == "TCP" {
        sequenceNumber := sequenceNumber + |payload| + 1;
      }
      packet := frame;
      if config.truncateAt.Some? && config.truncateAt.value != 0 {
        packet := SliceTo(packet, config.truncateAt.value);
      }
      if !(config.truncateAt.Some? && config.truncateAt.value != 0) && |packet| < 64 {
        packet := packet + Zeros(64 - |packet|);
      }
    }

    /**
     * packet_to_axi_stream_beats: a bus narrower than 8 bits makes the
     * range step 0 (ValueError); a negative width gives no beats.
     */
    method PacketToAxiStreamBeats(packet: seq<byte>, dataWidth: int) returns (r: Result<seq<LeBeat>, EncodeError>)
      ensures 0 <= dataWidth < 8 <==> r == Failure(ZeroStep)
      ensures dataWidth < 0 ==> r == Success([])
      ensures dataWidth >= 8 ==> r == Success(EncodeLe(packet, dataWidth / 8))
    {
      var bytesPerBeat := dataWidth / 8;
      if bytesPerBeat == 0 {
        return Failure(ZeroStep);
      }
      if bytesPerBeat < 0 {
        return Success([]);
      }
      var beats := EncodeBeats(packet, bytesPerBeat);
      r := Success(beats);
    }

    /** The loop of packet_to_axi_stream_beats, stepping i by b bytes. */
    method EncodeBeats(packet: seq<byte>, b: nat) returns (beats: seq<LeBeat>)
      requires b > 0
      ensures beats == EncodeLe(packet, b)
    {
      beats := [];
      var i := 0;
      var k := 0;
      while i < |packet|
        invariant i == k * b && k <= NumBeats(|packet|, b)
        invariant beats == seq(k, j requires 0 <= j => BeatAt(packet, b, j))
      {
        NumBeatsBound(|packet|, b, k);
        var beat := EncodeBeat(packet, b, i, k);
        EncodeSnoc(packet, b, k, beats);
        beats := beats + [beat];
        i := i + b;
        k := k + 1;
      }
      NumBeatsBound(|packet|, b, k);
    }
  }

  /** One beat of the encoding loop, from the chunk at byte offset i = k * b. */
  method EncodeBeat(packet: seq<byte>, b: nat, i: nat, ghost k: nat) returns (beat: LeBeat)
    requires b > 0 && i == k * b && i < |packet|
    ensures beat == BeatAt(packet, b, k)
  {
    var chunk := packet[i..if i + b < |packet| then i + b else |packet|];
    var beatData := chunk;
    var bytesInBeat := |beatData|;
    if bytesInBeat < b {
      beatData := beatData + Zeros(b - bytesInBeat);
    } else {
      assert beatData == chunk + Zeros(0);
    }
    var tdata := LeValue(beatData);
    var tkeep := Pow2(bytesInBeat) - 1;
    var tlast := i + b >= |packet|;
    beat := LeBeat(tdata, tkeep, tlast, 0);
  }

  lemma EncodeSnoc(packet: seq<byte>, b: nat, k: nat, beats: seq<LeBeat>)
    requires beats == seq(k, j requires 0 <= j => BeatAt(packet, b, j))
    ensures beats + [BeatAt(packet, b, k)] == seq(k + 1, j requires 0 <= j => BeatAt(packet, b, j))
  {
  }

  datatype EncodeError = ZeroStep

  // ---------------------------------------------------------------------
  // The encoder's specification.

  /** Number of beats for n bytes at b bytes a beat: ceil(n / b). */
  function NumBeats(n: int, b: nat): nat
    requires b > 0
    decreases n
  {
    if n <= 0 then 0 else 1 + NumBeats(n - b, b)
  }

  /** Number of packet bytes carried by beat k: all b, or what remains for the last. */
  function BeatBytes(n: nat, b: nat, k: nat): nat
  {
    var lo := if k * b < n then k * b else n;
    if lo + b < n then b else n - lo
  }

  /** Beat k of the encoding: its chunk, zero-padded, little-endian; keep 2^bytes - 1. */
  function BeatAt(packet: seq<byte>, b: nat, k: nat): LeBeat
  {
    var n := |packet|;
    var lo := if k * b < n then k * b else n;
    var hi := if lo + b < n then lo + b else n;
    var chunk := packet[lo..hi];
    LeBeat(LeValue(chunk + Zeros(b - |chunk|)), Pow2(|chunk|) - 1, lo + b >= n, 0)
  }

  /** The beats packet_to_axi_stream_beats and _packet_to_axi_stream produce. */
  function EncodeLe(packet: seq<byte>, b: nat): seq<LeBeat>
    requires b > 0
  {
    seq(NumBeats(|packet|, b), k requires 0 <= k => BeatAt(packet, b, k))
  }

  /** The beat count is ceil(len / b): none for an empty packet. */
  lemma {:induction false} NumBeatsIsCeiling(n: nat, b: nat)
    requires b > 0
    ensures NumBeats(n, b) == (n + b - 1) / b
    ensures n == 0 <==> NumBeats(n, b) == 0
    decreases n
  {
    if n == 0 {
      DivModUnique(b - 1, b, 0, b - 1);
    } else if n <= b {
      assert NumBeats(n - b, b) == 0;
      DivModUnique(n + b - 1, b, 1, n - 1);
    } else {
      NumBeatsIsCeiling(n - b, b);
      var q := (n - b + b - 1) / b;
      var r := (n - b + b - 1) % b;
      DivModUnique(n + b - 1, b, q + 1, r);
    }
  }

  /** Beats before the last are full: k < NumBeats(n) - 1 exactly when (k + 1) * b < n. */
  lemma {:induction false} NumBeatsBound(n: nat, b: nat, k: nat)
    requires b > 0
    ensures k < NumBeats(n, b) <==> k * b < n
    ensures k + 1 < NumBeats(n, b) <==> k * b + b < n
    decreases n
  {
    if n > 0 && k > 0 {
      if n > b {
        NumBeatsBound(n - b, b, k - 1);
      }
      assert k * b == (k - 1) * b + b;
    }
  }

  /**
   * Shape of every beat: keep is 2^n - 1 for the n packet bytes the beat
   * carries, n is the full width except possibly on the last beat, only
   * the last beat has tlast, and tuser is 0.
   */
  lemma EncodeLeBeat(packet: seq<byte>, b: nat, k: nat)
    requires b > 0 && k < |EncodeLe(packet, b)|
    ensures var beat := EncodeLe(packet, b)[k];
      var v := BeatBytes(|packet|, b, k);
      && 0 < v <= b
      && beat.tkeep == Pow2(v) - 1
      && PopCount(beat.tkeep) == v
      && (k < |EncodeLe(packet, b)| - 1 ==> v == b)
      && (beat.tlast <==> k == |EncodeLe(packet, b)| - 1)
      && beat.tuser == 0
  {
    NumBeatsBound(|packet|, b, k);
    PopCountLowMask(BeatBytes(|packet|, b, k));
  }

  /**
   * tdata carries the beat's packet bytes little-endian: byte j of the beat
   * (bits 8j..8j+7) is packet byte k*b + j, and padding bytes are zero.
   */
  lemma EncodeLeData(packet: seq<byte>, b: nat, k: nat, j: nat)
    requires b > 0 && k < |EncodeLe(packet, b)| && j < b
    ensures (EncodeLe(packet, b)[k].tdata / Pow2(8 * j)) % 256 ==
            if j < BeatBytes(|packet|, b, k) then packet[k * b + j] as int else 0
  {
    NumBeatsBound(|packet|, b, k);
    var n := |packet|;
    var lo := k * b;
    var hi := if lo + b < n then lo + b else n;
    var padded := packet[lo..hi] + Zeros(b - (hi - lo));
    assert |padded| == b;
    LeValueBound(padded);
    ToLeLeValue(padded);
    ToLeAt(LeValue(padded), b, j);
  }

  // ---------------------------------------------------------------------
  // ScapyPacketGenerator

  class ScapyPacketGenerator {
    const dataWidth: int
    const dataBytes: int

    constructor (dataWidth: int)
      ensures this.dataWidth == dataWidth && dataBytes == dataWidth / 8
    {
      this.dataWidth := dataWidth;
      dataBytes := dataWidth / 8;
    }

    /** _packet_to_axi_stream: the same encoding at the configured width. */
    method PacketToAxiStream(packet: seq<byte>) returns (r: Result<seq<LeBeat>, EncodeError>)
      ensures dataBytes == 0 <==> r == Failure(ZeroStep)
      ensures dataBytes < 0 ==> r == Success([])
      ensures dataBytes > 0 ==> r == Success(EncodeLe(packet, dataBytes))
    {
      if dataBytes == 0 {
        return Failure(ZeroStep);
      }
      if dataBytes < 0 {
        return Success([]);
      }
      var beats: seq<LeBeat> := [];
      var packetLen := |packet|;
      var i := 0;
      while i < packetLen
        invariant 0 <= i && i % dataBytes == 0
        invariant i < packetLen ==> i / dataBytes < NumBeats(packetLen, dataBytes)
        invariant i / dataBytes + NumBeats(packetLen - i, dataBytes) == NumBeats(packetLen, dataBytes)
        invariant beats == seq(i / dataBytes, j requires 0 <= j => BeatAt(packet, dataBytes, j))
      {
        StepIndex(i, dataBytes);
        var beat := EncodeBeat(packet, dataBytes, i, i / dataBytes);
        beats := beats + [beat];
        i := i + dataBytes;
      }
      r := Success(beats);
    }
  }

  /** Stepping a multiple of b by b moves its quotient by one. */
  lemma StepIndex(i: nat, b: nat)
    requires b > 0 && i % b == 0
    ensures (i + b) % b == 0 && (i + b) / b == i / b + 1 && (i / b) * b == i
  {
    DivModUnique(i + b, b, i / b + 1, 0);
  }

  // ---------------------------------------------------------------------
  // _packet_should_match

  /**
   * Whether a configured packet is expected through the default rules:
   * by destination address AND destination port, per IP version.
   */
  function PacketShouldMatch(config: PacketConfig): (r: bool)
    ensures r ==> config.dstPort == 80 || config.dstPort == 443
  {
    if config.ipVersion == 4 then
      (config.dstIp == "192.168.1.1" && config.dstPort == 80) ||
      (config.dstIp == "192.168.1.2" && config.dstPort == 443)
    else if config.ipVersion == 6 then
      (config.dstIp == "2001:db8::1" && config.dstPort == 80) ||
      (config.dstIp == "2001:db8::2" && config.dstPort == 443)
    else
      false
  }

  /**
   * Only the four listed endpoints are expected to pass: port 80 goes with
   * the .1 / ::1 address and port 443 with .2 / ::2; any other IP version
   * is never expected to pass.
   */
  lemma ShouldMatchOnlyListedEndpoints(config: PacketConfig)
    ensures PacketShouldMatch(config) ==>
      (config.ipVersion == 4 || config.ipVersion == 6) &&
      (config.dstPort == 80 <==> config.dstIp in {"192.168.1.1", "2001:db8::1"}) &&
      (config.dstPort == 443 <==> config.dstIp in {"192.168.1.2", "2001:db8::2"})
    ensures config.ipVersion != 4 && config.ipVersion != 6 ==> !PacketShouldMatch(config)
  {
  }
}
