/**
 * The golden reference model of the two-rule receive filter
 * (plugin/p2p/box_250mhz/filter_rx_pipeline/tb/filter_models.py).
 *
 * A frame's header fields are read big-endian at fixed offsets: the
 * EtherType at bytes 12-13 (IEEE 802.3 clause 3.2.6), the IPv4 source and
 * destination addresses at bytes 26-33 (RFC 791 section 3.1, assuming a
 * 20-byte header), the IPv6 addresses at bytes 22-53 (RFC 8200 section 3)
 * and the transport ports right after the IP header (RFC 793 section 3.1,
 * RFC 768). Each rule matches when its address test OR its port test
 * succeeds, with 0 as a wildcard; rule 0 wins a tie.
 */
module FilterModels {
  import opened Bits
  import opened Wrappers

  const ETH_TYPE_IPV4: nat := 0x0800
  const ETH_TYPE_IPV6: nat := 0x86DD

  /** One rule slot; 0 in a field is the wildcard. Python ints, so any sign. */
  datatype FilterRule = FilterRule(ipv4Addr: int, ipv6Addr: int, port: int)

  /** `value or 0`: a missing or zero argument becomes the wildcard. */
  function OrZero(value: Option<int>): (r: int)
    ensures r == 0 <==> value == None || value == Some(0)
    ensures r != 0 ==> value == Some(r)
  {
    if value.Some? then value.value else 0
  }

  /** FilterRule(ipv4_addr, ipv6_addr, port) */
  function MakeRule(ipv4Addr: Option<int>, ipv6Addr: Option<int>, port: Option<int>): FilterRule
  {
    FilterRule(OrZero(ipv4Addr), OrZero(ipv6Addr), OrZero(port))
  }

  /** The all-wildcard rule both slots start with: FilterRule() with no arguments. */
  const WILDCARD_RULE: FilterRule := FilterRule(0, 0, 0)

  datatype IpVersion = IPv4 | IPv6 | NotIp

  /**
   * What PacketHeader extracts. A field the frame is too short to hold is
   * None; `protocol` is the IPv4 protocol or IPv6 next-header byte.
   */
  datatype PacketHeader = PacketHeader(
    ethDstMac: seq<byte>,
    ethSrcMac: seq<byte>,
    ethType: nat,
    version: IpVersion,
    srcIp: Option<nat>,
    dstIp: Option<nat>,
    protocol: Option<byte>,
    srcPort: Option<nat>,
    dstPort: Option<nat>)

  datatype ParseError = TooShortForEthernet

  /** Big-endian value of raw[lo..hi]. */
  function FieldAt(raw: seq<byte>, lo: nat, hi: nat): nat
    requires lo <= hi <= |raw|
  {
    BeValue(raw[lo..hi])
  }

  /**
   * PacketHeader(raw): the header fields of a frame, or the error the
   * constructor raises for a frame shorter than an Ethernet header.
   */
  function ParseHeader(raw: seq<byte>): (r: Result<PacketHeader, ParseError>)
    ensures r.Failure? <==> |raw| < 14
    ensures r.Success? ==> r.value.ethType == FieldAt(raw, 12, 14)
    ensures r.Success? ==>
      (r.value.version == IPv4 <==> r.value.ethType == ETH_TYPE_IPV4) &&
      (r.value.version == IPv6 <==> r.value.ethType == ETH_TYPE_IPV6)
    // Source address: RFC 791 offset 12 / RFC 8200 offset 8 within the IP header.
    ensures r.Success? && r.value.version == IPv4 ==>
      r.value.srcIp == (if |raw| >= 34 then Some(FieldAt(raw, 26, 30)) else None)
    ensures r.Success? && r.value.version == IPv6 ==>
      r.value.srcIp == (if |raw| >= 54 then Some(FieldAt(raw, 22, 38)) else None)
    // Source port: first transport field after a fixed-size IP header.
    ensures r.Success? && r.value.version == IPv4 ==>
      r.value.srcPort == (if |raw| >= 38 then Some(FieldAt(raw, 34, 36)) else None)
    ensures r.Success? && r.value.version == IPv6 ==>
      r.value.srcPort == (if |raw| >= 58 then Some(FieldAt(raw, 54, 56)) else None)
    // Destination address and port follow their source counterparts; the
    // protocol byte is RFC 791 offset 9 / RFC 8200 offset 6.
    ensures r.Success? && r.value.version == IPv4 ==>
      r.value.dstIp == (if |raw| >= 34 then Some(FieldAt(raw, 30, 34)) else None) &&
      r.value.protocol == (if |raw| >= 34 then Some(raw[23]) else None) &&
      r.value.dstPort == (if |raw| >= 38 then Some(FieldAt(raw, 36, 38)) else None)
    ensures r.Success? && r.value.version == IPv6 ==>
      r.value.dstIp == (if |raw| >= 54 then Some(FieldAt(raw, 38, 54)) else None) &&
      r.value.protocol == (if |raw| >= 54 then Some(raw[20]) else None) &&
      r.value.dstPort == (if |raw| >= 58 then Some(FieldAt(raw, 56, 58)) else None)
    ensures r.Success? && r.value.version == NotIp ==>
      r.value.srcIp.None? && r.value.dstIp.None? && r.value.protocol.None? && r.value.srcPort.None? && r.value.dstPort.None?
    ensures r.Success? ==> r.value.ethDstMac == raw[0..6] && r.value.ethSrcMac == raw[6..12]
  {
    if |raw| < 14 then
      Failure(TooShortForEthernet)
    else
      var dst, src, ethType := raw[0..6], raw[6..12], FieldAt(raw, 12, 14);
      if ethType == ETH_TYPE_IPV4 then
        if |raw| < 34 then
          Success(PacketHeader(dst, src, ethType, IPv4, None, None, None, None, None))
        else
          var ports := |raw| >= 38;
          Success(PacketHeader(dst, src, ethType, IPv4,
            Some(FieldAt(raw, 26, 30)), Some(FieldAt(raw, 30, 34)), Some(raw[23]),
            if ports then Some(FieldAt(raw, 34, 36)) else None,
            if ports then Some(FieldAt(raw, 36, 38)) else None))
      else if ethType == ETH_TYPE_IPV6 then
        if |raw| < 54 then
          Success(PacketHeader(dst, src, ethType, IPv6, None, None, None, None, None))
        else
          var ports := |raw| >= 58;
          Success(PacketHeader(dst, src, ethType, IPv6,
            Some(FieldAt(raw, 22, 38)), Some(FieldAt(raw, 38, 54)), Some(raw[20]),
            if ports then Some(FieldAt(raw, 54, 56)) else None,
            if ports then Some(FieldAt(raw, 56, 58)) else None))
      else
        Success(PacketHeader(dst, src, ethType, NotIp, None, None, None, None, None))
  }

  /**
   * The parser reads back what a frame builder wrote at the standard
   * offsets: an IPv4 frame of at least 38 bytes whose EtherType bytes are
   * 08 00 and whose source address and port bytes encode `addr` and `port`
   * parses to exactly that address and port.
   */
  lemma ParseIpv4ReadsBack(raw: seq<byte>, addr: nat, port: nat)
    requires |raw| >= 38 && raw[12..14] == [0x08, 0x00]
    requires addr < Pow2(8 * 4) && port < Pow2(8 * 2)
    requires raw[26..30] == ToBe(addr, 4) && raw[34..36] == ToBe(port, 2)
    ensures ParseHeader(raw).Success?
    ensures ParseHeader(raw).value.version == IPv4
    ensures ParseHeader(raw).value.srcIp == Some(addr)
    ensures ParseHeader(raw).value.srcPort == Some(port)
  {
    BeValuePair(raw[12..14]);
    BeValueToBeFits(addr, 4);
    BeValueToBeFits(port, 2);
  }

  /** The same read-back for an IPv6 frame of at least 58 bytes (EtherType 86 DD). */
  lemma ParseIpv6ReadsBack(raw: seq<byte>, addr: nat, port: nat)
    requires |raw| >= 58 && raw[12..14] == [0x86, 0xDD]
    requires addr < Pow2(8 * 16) && port < Pow2(8 * 2)
    requires raw[22..38] == ToBe(addr, 16) && raw[54..56] == ToBe(port, 2)
    ensures ParseHeader(raw).Success?
    ensures ParseHeader(raw).value.version == IPv6
    ensures ParseHeader(raw).value.srcIp == Some(addr)
    ensures ParseHeader(raw).value.srcPort == Some(port)
  {
    BeValuePair(raw[12..14]);
    BeValueToBeFits(addr, 16);
    BeValueToBeFits(port, 2);
  }

  /** _rule_matches: (address wildcard or equal) OR (port wildcard or equal), IP frames only. */
  function RuleMatches(rule: FilterRule, h: PacketHeader): (r: bool)
    ensures r ==> h.version != NotIp
    ensures rule == WILDCARD_RULE ==> (r <==> h.version != NotIp)
  {
    match h.version
    case NotIp => false
    case IPv4 =>
      (rule.ipv4Addr == 0 || h.srcIp == Some(rule.ipv4Addr)) ||
      (rule.port == 0 || h.srcPort == Some(rule.port % 0x10000))
    case IPv6 =>
      (rule.ipv6Addr == 0 || h.srcIp == Some(rule.ipv6Addr)) ||
      (rule.port == 0 || h.srcPort == Some(rule.port % 0x10000))
  }

  /** The address test of the rule for the header's IP version. */
  predicate AddressMatches(rule: FilterRule, h: PacketHeader)
    requires h.version != NotIp
  {
    var addr := if h.version == IPv4 then rule.ipv4Addr else rule.ipv6Addr;
    addr == 0 || h.srcIp == Some(addr)
  }

  predicate PortMatches(rule: FilterRule, h: PacketHeader)
  {
    rule.port == 0 || h.srcPort == Some(rule.port % 0x10000)
  }

  /** A rule matches an IP frame iff its address test or its port test succeeds. */
  lemma RuleMatchesIsDisjunction(rule: FilterRule, h: PacketHeader)
    requires h.version != NotIp
    ensures RuleMatches(rule, h) <==> AddressMatches(rule, h) || PortMatches(rule, h)
  {
  }

  /**
   * Because the two tests are OR-ed, a rule with a wildcard port (or with
   * the wildcard address of the frame's version) matches every IP frame,
   * including truncated ones; the all-wildcard rule is a special case.
   */
  lemma WildcardFieldMatchesEveryIpFrame(rule: FilterRule, h: PacketHeader)
    requires h.version != NotIp
    requires rule.port == 0 || (h.version == IPv4 && rule.ipv4Addr == 0)
                            || (h.version == IPv6 && rule.ipv6Addr == 0)
    ensures RuleMatches(rule, h)
  {
  }

  /** A frame too short for its address and port fields matches only on a wildcard. */
  lemma TruncatedFrameMatchesOnlyWildcard(rule: FilterRule, h: PacketHeader)
    requires h.srcIp.None? && h.srcPort.None?
    ensures RuleMatches(rule, h) <==>
      (h.version == IPv4 && (rule.ipv4Addr == 0 || rule.port == 0)) ||
      (h.version == IPv6 && (rule.ipv6Addr == 0 || rule.port == 0))
  {
  }

  /** A non-IP frame matches no rule whatever the rule holds. */
  lemma NonIpMatchesNothing(rule: FilterRule, h: PacketHeader)
    requires h.version == NotIp
    ensures !RuleMatches(rule, h)
  {
  }

  // ---------------------------------------------------------------------
  // The model's decision and its four counters.

  /** The counters dict, in its insertion order. */
  datatype Counters = Counters(rule0HitCount: nat, rule1HitCount: nat, totalPackets: nat, droppedPackets: nat)

  /** Every counted packet was attributed to rule 0, to rule 1 or to the drop count. */
  predicate Consistent(c: Counters)
  {
    c.totalPackets == c.rule0HitCount + c.rule1HitCount + c.droppedPackets
  }

  /**
   * What should_pass_packet does with one frame. HeaderStrRaises: the debug
   * message is formatted before any rule is tried, and for an IP frame too
   * short for its addresses the header's __str__ formats the missing
   * address with a hex format, which raises TypeError outside its try.
   */
  datatype Verdict = Unparsed | HeaderStrRaises | HitRule0 | HitRule1 | Dropped

  /** Formatting the header raises exactly for an IP frame without a source address. */
  predicate StrRaises(h: PacketHeader)
  {
    h.version != NotIp && h.srcIp.None?
  }

  function Classify(rules: seq<FilterRule>, packet: seq<byte>): (v: Verdict)
    requires |rules| == 2
    ensures v == Unparsed <==> |packet| < 14
    ensures v == HitRule0 ==> RuleMatches(rules[0], ParseHeader(packet).value)
    ensures v == HitRule1 ==> RuleMatches(rules[1], ParseHeader(packet).value) && !RuleMatches(rules[0], ParseHeader(packet).value)
    ensures v == Dropped ==> !RuleMatches(rules[0], ParseHeader(packet).value) && !RuleMatches(rules[1], ParseHeader(packet).value)
  {
    match ParseHeader(packet)
    case Failure(_) => Unparsed
    case Success(h) =>
      if StrRaises(h) then HeaderStrRaises
      else if RuleMatches(rules[0], h) then HitRule0
      else if RuleMatches(rules[1], h) then HitRule1
      else Dropped
  }

  /** The (should_pass, rule_hit) pair returned for a verdict; a raising call returns none. */
  function Reply(v: Verdict): (bool, nat)
    requires v != HeaderStrRaises
  {
    match v
    case HitRule0 => (true, 1)
    case HitRule1 => (true, 2)
    case Unparsed => (false, 0)
    case Dropped => (false, 0)
  }

  /** The frame is forwarded: should_pass_packet returned True. */
  predicate Forwarded(v: Verdict)
  {
    v == HitRule0 || v == HitRule1
  }

  /** The counters after a verdict; the raise comes before any counter moves. */
  function Tally(c: Counters, v: Verdict): Counters
  {
    match v
    case Unparsed | HeaderStrRaises => c
    case HitRule0 => c.(totalPackets := c.totalPackets + 1, rule0HitCount := c.rule0HitCount + 1)
    case HitRule1 => c.(totalPackets := c.totalPackets + 1, rule1HitCount := c.rule1HitCount + 1)
    case Dropped => c.(totalPackets := c.totalPackets + 1, droppedPackets := c.droppedPackets + 1)
  }

  /**
   * Counting keeps total == rule0 + rule1 + dropped: a frame that reaches
   * the rules adds one to the total and one to exactly one of the other
   * three; an unparsed frame or a raising one changes nothing.
   */
  lemma TallyKeepsConsistent(c: Counters, v: Verdict)
    requires Consistent(c)
    ensures Consistent(Tally(c, v))
    ensures v == Unparsed || v == HeaderStrRaises <==> Tally(c, v) == c
    ensures v != Unparsed && v != HeaderStrRaises ==> Tally(c, v).totalPackets == c.totalPackets + 1
  {
  }

  /** A frame shorter than an Ethernet header is refused and counted nowhere. */
  lemma ShortFrameBypassesCounters(rules: seq<FilterRule>, packet: seq<byte>, c: Counters)
    requires |rules| == 2 && |packet| < 14
    ensures Reply(Classify(rules, packet)) == (false, 0)
    ensures Tally(c, Classify(rules, packet)) == c
  {
  }

  /** Rule 0 wins a tie; rule 1 is reported only when rule 0 fails. */
  lemma RulePriority(rules: seq<FilterRule>, packet: seq<byte>)
    requires |rules| == 2 && ParseHeader(packet).Success? && !StrRaises(ParseHeader(packet).value)
    ensures var h := ParseHeader(packet).value;
      (RuleMatches(rules[0], h) ==> Reply(Classify(rules, packet)) == (true, 1)) &&
      (Reply(Classify(rules, packet)) == (true, 2) <==> !RuleMatches(rules[0], h) && RuleMatches(rules[1], h)) &&
      (Classify(rules, packet) == Dropped <==> !RuleMatches(rules[0], h) && !RuleMatches(rules[1], h))
  {
  }

  /** A frame of at least 14 bytes with any other EtherType (ARP, say) is always dropped. */
  lemma OtherEtherTypeDropped(rules: seq<FilterRule>, packet: seq<byte>)
    requires |rules| == 2 && |packet| >= 14
    requires FieldAt(packet, 12, 14) != ETH_TYPE_IPV4 && FieldAt(packet, 12, 14) != ETH_TYPE_IPV6
    ensures Classify(rules, packet) == Dropped
    ensures Reply(Classify(rules, packet)) == (false, 0)
  {
  }

  /**
   * With both slots holding the wildcard rule every IP frame long enough
   * for its addresses goes to rule 0; a shorter one raises first.
   */
  lemma AllWildcardForwardsToRule0(packet: seq<byte>)
    requires ParseHeader(packet).Success? && ParseHeader(packet).value.version != NotIp
    ensures Classify([WILDCARD_RULE, WILDCARD_RULE], packet) ==
      if ParseHeader(packet).value.srcIp.None? then HeaderStrRaises else HitRule0
  {
  }

  /**
   * should_pass_packet raises exactly for a frame with an IPv4 EtherType
   * under 34 bytes or an IPv6 EtherType under 54 bytes (at least 14 either
   * way), whatever the rules, and such a frame moves no counter.
   */
  lemma TruncatedIpFrameRaises(rules: seq<FilterRule>, packet: seq<byte>, c: Counters)
    requires |rules| == 2
    ensures Classify(rules, packet) == HeaderStrRaises <==>
      14 <= |packet| &&
      ((FieldAt(packet, 12, 14) == ETH_TYPE_IPV4 && |packet| < 34) ||
       (FieldAt(packet, 12, 14) == ETH_TYPE_IPV6 && |packet| < 54))
    ensures Classify(rules, packet) == HeaderStrRaises ==> Tally(c, Classify(rules, packet)) == c
  {
  }

  /** An input that raises after none before it did is the first raise. */
  lemma FirstRaiseIs(rules: seq<FilterRule>, packets: seq<seq<byte>>, i: nat)
    requires |rules| == 2 && i < |packets| && Classify(rules, packets[i]) == HeaderStrRaises
    requires forall k :: 0 <= k < i ==> Classify(rules, packets[k]) != HeaderStrRaises
    ensures FirstRaise(rules, packets) == Some(i)
  {
  }

  /**
   * The first input should_pass_packet raises on, which ends a
   * verify_packet_processing run; None when it raises on none.
   */
  function FirstRaise(rules: seq<FilterRule>, packets: seq<seq<byte>>): (r: Option<nat>)
    requires |rules| == 2
    ensures r.None? <==> forall k :: 0 <= k < |packets| ==> Classify(rules, packets[k]) != HeaderStrRaises
    ensures r.Some? ==> r.value < |packets| && Classify(rules, packets[r.value]) == HeaderStrRaises
    ensures r.Some? ==> forall k :: 0 <= k < r.value ==> Classify(rules, packets[k]) != HeaderStrRaises
  {
    if packets == [] then None
    else if Classify(rules, packets[0]) == HeaderStrRaises then Some(0)
    else
      match FirstRaise(rules, packets[1..])
      case None => None
      case Some(i) => Some(i + 1)
  }

  /** The frames a run forwards, in input order. */
  function Passing(rules: seq<FilterRule>, packets: seq<seq<byte>>): seq<seq<byte>>
    requires |rules| == 2
  {
    if packets == [] then []
    else
      var rest := Passing(rules, packets[..|packets| - 1]);
      var last := packets[|packets| - 1];
      if Forwarded(Classify(rules, last)) then rest + [last] else rest
  }

  /** The counters after a run over `packets`. */
  function TallyAll(rules: seq<FilterRule>, c: Counters, packets: seq<seq<byte>>): Counters
    requires |rules| == 2
  {
    if packets == [] then c
    else Tally(TallyAll(rules, c, packets[..|packets| - 1]), Classify(rules, packets[|packets| - 1]))
  }

  /**
   * The forwarded frames are exactly the rule hits the counters record:
   * a run forwards as many frames as it adds to the two hit counters, and
   * consistency of the counters survives the whole run.
   */
  lemma {:induction false} PassingMatchesHits(rules: seq<FilterRule>, c: Counters, packets: seq<seq<byte>>)
    requires |rules| == 2 && Consistent(c)
    ensures var after := TallyAll(rules, c, packets);
      Consistent(after) &&
      |Passing(rules, packets)| + c.rule0HitCount + c.rule1HitCount == after.rule0HitCount + after.rule1HitCount
  {
    if packets != [] {
      PassingMatchesHits(rules, c, packets[..|packets| - 1]);
      TallyKeepsConsistent(TallyAll(rules, c, packets[..|packets| - 1]), Classify(rules, packets[|packets| - 1]));
    }
  }

  /** The TypeError formatting a truncated IP frame's header raises. */
  datatype EvaluateError = HeaderStrTypeError

  /** FilterModel: two rule slots and the four counters, updated in place. */
  class FilterModel {
    var rules: seq<FilterRule>
    var counters: Counters

    predicate Valid()
      reads this
    {
      |rules| == 2 && Consistent(counters)
    }

    constructor ()
      ensures Valid()
      ensures rules == [WILDCARD_RULE, WILDCARD_RULE] && counters == Counters(0, 0, 0, 0)
    {
      rules := [WILDCARD_RULE, WILDCARD_RULE];
      counters := Counters(0, 0, 0, 0);
    }

    /** set_rule: replaces slot ruleId, or raises ValueError for any other id. */
    method SetRule(ruleId: int, rule: FilterRule) returns (r: Outcome<int>)
      requires Valid()
      modifies this
      ensures Valid()
      ensures r == Pass <==> ruleId == 0 || ruleId == 1
      ensures r.Fail? ==> r.error == ruleId && unchanged(this)
      ensures r == Pass ==> rules == old(rules)[ruleId := rule] && counters == old(counters)
    {
      if ruleId != 0 && ruleId != 1 {
        return Fail(ruleId);
      }
      rules := rules[ruleId := rule];
      r := Pass;
    }

    /**
     * should_pass_packet: classify one frame and count it; the TypeError of
     * the debug message is the failure, raised before any counter moves.
     */
    method ShouldPassPacket(packet: seq<byte>) returns (r: Result<(bool, nat), EvaluateError>)
      requires Valid()
      modifies this
      ensures Valid()
      ensures rules == old(rules)
      ensures r.Failure? <==> Classify(rules, packet) == HeaderStrRaises
      ensures r.Success? ==> r.value == Reply(Classify(rules, packet))
      ensures counters == Tally(old(counters), Classify(rules, packet))
    {
      var parsed := ParseHeader(packet);
      if parsed.Failure? {
        return Success((false, 0));
      }
      var header := parsed.value;
      if header.version != NotIp && header.srcIp.None? {
        return Failure(HeaderStrTypeError);
      }
      var rule0Match := RuleMatches(rules[0], header);
      var rule1Match := RuleMatches(rules[1], header);
      counters := counters.(totalPackets := counters.totalPackets + 1);
      if rule0Match && rule1Match {
        counters := counters.(rule0HitCount := counters.rule0HitCount + 1);
        return Success((true, 1));
      } else if rule0Match {
        counters := counters.(rule0HitCount := counters.rule0HitCount + 1);
        return Success((true, 1));
      } else if rule1Match {
        counters := counters.(rule1HitCount := counters.rule1HitCount + 1);
        return Success((true, 2));
      } else {
        counters := counters.(droppedPackets := counters.droppedPackets + 1);
        return Success((false, 0));
      }
    }

    /** get_counters: a copy of the counters (a value, so later updates do not reach it). */
    method GetCounters() returns (c: Counters)
      requires Valid()
      ensures Consistent(c)
      ensures c == counters
    {
      c := counters;
    }

    /** reset_counters: all four counters back to zero, rules untouched. */
    method ResetCounters()
      requires Valid()
      modifies this
      ensures Valid()
      ensures counters == Counters(0, 0, 0, 0) && rules == old(rules)
    {
      counters := Counters(0, 0, 0, 0);
    }
  }

  // ---------------------------------------------------------------------
  // FilterVerifier

  datatype VerifyError =
    | EvaluationRaised(index: nat)   // should_pass_packet raised on input `index`
    | CountMismatch(expectedCount: nat, actualCount: nat)
    | PacketMismatch(index: nat)
    | CounterMismatch(name: string, modelValue: nat, dutValue: int)

  /** Index of the first position where two equally long lists differ, if any. */
  function FirstDifference(expected: seq<seq<byte>>, actual: seq<seq<byte>>): (r: Option<nat>)
    requires |expected| == |actual|
    ensures r.None? <==> expected == actual
    ensures r.Some? ==> r.value < |expected| && expected[r.value] != actual[r.value] &&
                        expected[..r.value] == actual[..r.value]
  {
    if expected == [] then None
    else if expected[0] != actual[0] then Some(0)
    else
      match FirstDifference(expected[1..], actual[1..])
      case None => assert expected == [expected[0]] + expected[1..]; None
      case Some(i) => Some(i + 1)
  }

  /** The counters dict's items, in its insertion order. */
  function CounterItems(c: Counters): seq<(string, nat)>
  {
    [("rule0_hit_count", c.rule0HitCount), ("rule1_hit_count", c.rule1HitCount),
     ("total_packets", c.totalPackets), ("dropped_packets", c.droppedPackets)]
  }

  class FilterVerifier {
    const model: FilterModel

    constructor (model: FilterModel)
      ensures this.model == model
    {
      this.model := model;
    }

    /**
     * verify_packet_processing: run every input through the model (which
     * counts it), then require the outputs to be exactly the forwarded
     * inputs, in input order; the count is compared first. A raise of
     * should_pass_packet ends the run, the inputs before it counted.
     */
    method VerifyPacketProcessing(inputs: seq<seq<byte>>, outputs: seq<seq<byte>>) returns (r: Outcome<VerifyError>)
      requires model.Valid()
      modifies model
      ensures model.Valid() && model.rules == old(model.rules)
      ensures FirstRaise(model.rules, inputs).Some? ==>
        var i := FirstRaise(model.rules, inputs).value;
        r == Fail(EvaluationRaised(i)) && model.counters == TallyAll(model.rules, old(model.counters), inputs[..i])
      ensures FirstRaise(model.rules, inputs).None? ==>
        model.counters == TallyAll(model.rules, old(model.counters), inputs)
      ensures FirstRaise(model.rules, inputs).None? ==> (r == Pass <==> outputs == Passing(model.rules, inputs))
      ensures FirstRaise(model.rules, inputs).None? ==>
        var expected := Passing(model.rules, inputs);
        (|outputs| != |expected| <==> r == Fail(CountMismatch(|expected|, |outputs|))) &&
        (|outputs| == |expected| && r.Fail? ==>
          r.error.PacketMismatch? && FirstDifference(expected, outputs) == Some(r.error.index))
    {
      var raised, expected := RunModel(inputs);
      if raised.Some? {
        return Fail(EvaluationRaised(raised.value));
      }
      r := CompareOutputs(expected, outputs);
    }

    /** The input loop of verify_packet_processing: each input through should_pass_packet. */
    method RunModel(inputs: seq<seq<byte>>) returns (raised: Option<nat>, expected: seq<seq<byte>>)
      requires model.Valid()
      modifies model
      ensures model.Valid() && model.rules == old(model.rules)
      ensures raised == FirstRaise(model.rules, inputs)
      ensures raised.Some? ==> model.counters == TallyAll(model.rules, old(model.counters), inputs[..raised.value])
      ensures raised.None? ==> model.counters == TallyAll(model.rules, old(model.counters), inputs)
      ensures raised.None? ==> expected == Passing(model.rules, inputs)
    {
      expected := [];
      var i := 0;
      while i < |inputs|
        invariant 0 <= i <= |inputs|
        invariant model.Valid() && model.rules == old(model.rules)
        invariant forall k :: 0 <= k < i ==> Classify(model.rules, inputs[k]) != HeaderStrRaises
        invariant expected == Passing(model.rules, inputs[..i])
        invariant model.counters == TallyAll(model.rules, old(model.counters), inputs[..i])
      {
        var reply := model.ShouldPassPacket(inputs[i]);
        if reply.Failure? {
          FirstRaiseIs(model.rules, inputs, i);
          return Some(i), expected;
        }
        var shouldPass := reply.value.0;
        assert inputs[..i + 1][..i] == inputs[..i];
        if shouldPass {
          expected := expected + [inputs[i]];
        }
        i := i + 1;
      }
      assert inputs[..i] == inputs;
      raised := None;
    }

    /** The comparison of verify_packet_processing: the count first, then packet by packet. */
    static method CompareOutputs(expected: seq<seq<byte>>, outputs: seq<seq<byte>>) returns (r: Outcome<VerifyError>)
      ensures r == Pass <==> outputs == expected
      ensures |outputs| != |expected| <==> r == Fail(CountMismatch(|expected|, |outputs|))
      ensures |outputs| == |expected| && r.Fail? ==>
        r.error.PacketMismatch? && FirstDifference(expected, outputs) == Some(r.error.index)
    {
      if |outputs| != |expected| {
        return Fail(CountMismatch(|expected|, |outputs|));
      }
      var j := 0;
      while j < |expected|
        invariant 0 <= j <= |expected|
        invariant expected[..j] == outputs[..j]
      {
        if expected[j] != outputs[j] {
          FirstDifferenceIs(expected, outputs, j);
          return Fail(PacketMismatch(j));
        }
        j := j + 1;
      }
      assert expected == expected[..j] && outputs == outputs[..j];
      r := Pass;
    }

    /**
     * verify_counters: every model counter the DUT also reports must be
     * equal; the first difference in the dict's order is reported.
     */
    method VerifyCounters(dut: map<string, int>) returns (r: Outcome<VerifyError>)
      requires model.Valid()
      ensures r == Pass <==> forall k :: 0 <= k < 4 ==> CounterAgrees(CounterItems(model.counters)[k], dut)
      ensures r.Fail? ==>
        && r.error.CounterMismatch?
        && (exists k: nat :: FirstDisagreement(CounterItems(model.counters), dut, k) &&
                             CounterItems(model.counters)[k] == (r.error.name, r.error.modelValue))
        && r.error.name in dut && r.error.dutValue == dut[r.error.name]
    {
      var items := CounterItems(model.counters);
      var k := 0;
      while k < |items|
        invariant 0 <= k <= |items|
        invariant forall m :: 0 <= m < k ==> CounterAgrees(items[m], dut)
      {
        var (name, expectedValue) := items[k];
        if name in dut && dut[name] != expectedValue {
          return Fail(CounterMismatch(name, expectedValue, dut[name]));
        }
        k := k + 1;
      }
      r := Pass;
    }
  }

  /** A model counter is fine when the DUT omits it or reports the same value. */
  predicate CounterAgrees(item: (string, nat), dut: map<string, int>)
  {
    item.0 in dut ==> dut[item.0] == item.1
  }

  predicate FirstDisagreement(items: seq<(string, nat)>, dut: map<string, int>, k: nat)
  {
    k < |items| && !CounterAgrees(items[k], dut) && forall m :: 0 <= m < k ==> CounterAgrees(items[m], dut)
  }

  lemma FirstDifferenceIs(expected: seq<seq<byte>>, actual: seq<seq<byte>>, j: nat)
    requires |expected| == |actual| && j < |expected|
    requires expected[..j] == actual[..j] && expected[j] != actual[j]
    ensures FirstDifference(expected, actual) == Some(j)
  {
  }
}
