/**
 * The filter pipeline's own driver (tb/env/agents/filter_rx/driver.py):
 * FilterPacket with its header fields, the rule match, the local rule
 * store, the dispatch of transactions to the AXI4-Stream agent driver,
 * and the generation of packets that match, or match none of, the
 * configured rules.
 *
 * A rule is a dictionary from field names to values; only integer values
 * are modelled. Random draws are parameters: the bytes of a packet come
 * from a function of the byte position, and the candidates of the
 * non-matching search from a function of the attempt number.
 */
module FilterRxDriver {
  import opened Wrappers
  import opened Bits
  import opened AxiAgentDriver

  /** A packet's raw bytes and the header fields the rules test. */
  datatype FilterPacket = FilterPacket(
    data: seq<byte>, srcMac: int, dstMac: int, ethType: int, srcIp: int, dstIp: int,
    srcPort: int, dstPort: int, protocol: int)

  /** A filter rule: the fields it fixes, by name. */
  type Rule = map<string, int>

  /** The eight field names matches_filter knows; any other key of a rule is ignored. */
  const KnownKeys: set<string> :=
    {"src_mac", "dst_mac", "eth_type", "src_ip", "dst_ip", "src_port", "dst_port", "protocol"}

  /** The packet's value for a known field name, None for any other name. */
  function Field(p: FilterPacket, key: string): (r: Option<int>)
    ensures r.Some? <==> key in KnownKeys
  {
    match key
    case "src_mac" => Some(p.srcMac)
    case "dst_mac" => Some(p.dstMac)
    case "eth_type" => Some(p.ethType)
    case "src_ip" => Some(p.srcIp)
    case "dst_ip" => Some(p.dstIp)
    case "src_port" => Some(p.srcPort)
    case "dst_port" => Some(p.dstPort)
    case "protocol" => Some(p.protocol)
    case _ => None
  }

  /** matches_filter: the eight checks in the source's order; the first field the rule fixes to another value fails. */
  function MatchesFilter(p: FilterPacket, rule: Rule): (r: bool)
    ensures (forall key :: key in rule ==> key !in KnownKeys) ==> r
    ensures !r ==> exists key :: key in rule && Field(p, key).Some? && rule[key] != Field(p, key).value
  {
    if "src_mac" in rule && p.srcMac != rule["src_mac"] then false
    else if "dst_mac" in rule && p.dstMac != rule["dst_mac"] then false
    else if "eth_type" in rule && p.ethType != rule["eth_type"] then false
    else if "src_ip" in rule && p.srcIp != rule["src_ip"] then false
    else if "dst_ip" in rule && p.dstIp != rule["dst_ip"] then false
    else if "src_port" in rule && p.srcPort != rule["src_port"] then false
    else if "dst_port" in rule && p.dstPort != rule["dst_port"] then false
    else if "protocol" in rule && p.protocol != rule["protocol"] then false
    else true
  }

  /** A packet matches a rule exactly when every known field the rule gives equals the packet's. */
  lemma MatchesFilterIff(p: FilterPacket, rule: Rule)
    ensures MatchesFilter(p, rule) <==> forall key :: key in rule && Field(p, key).Some? ==> rule[key] == Field(p, key).value
  {
    if !MatchesFilter(p, rule) {
      var key :| key in KnownKeys && key in rule && rule[key] != Field(p, key).value;
    }
  }

  /** The empty rule matches every packet. */
  lemma EmptyRuleMatches(p: FilterPacket)
    ensures MatchesFilter(p, map[])
  {
  }

  /** A key matches_filter does not know never changes the outcome. */
  lemma UnknownKeyIgnored(p: FilterPacket, rule: Rule, key: string, value: int)
    requires key !in KnownKeys
    ensures MatchesFilter(p, rule[key := value]) == MatchesFilter(p, rule)
  {
    MatchesFilterIff(p, rule);
    MatchesFilterIff(p, rule[key := value]);
    assert Field(p, key).None?;
  }

  /** any(packet.matches_filter(rule) for rule in rules) */
  predicate MatchesAny(p: FilterPacket, rules: seq<Rule>)
  {
    exists i :: 0 <= i < |rules| && MatchesFilter(p, rules[i])
  }

  /** to_axi_stream_transaction: the packet's bytes, every byte kept, last set, the given user. */
  function ToAxiStreamTransaction(p: FilterPacket, user: int): (t: AxiStreamTransaction)
    ensures t.data == p.data && |t.keep| == |p.data| && forall i :: 0 <= i < |t.keep| ==> t.keep[i] == 1
    ensures t.last && t.user == user && t.dest == 0 && t.id == 0
  {
    NewTransaction(p.data, None, true, user, 0, 0)
  }

  /** The rule store after configure_filter_rule(i, rule) with i >= 0: padded with {} up to i, slot i replaced. */
  function Stored(rules: seq<Rule>, i: nat, rule: Rule): (r: seq<Rule>)
    ensures |r| == if i < |rules| then |rules| else i + 1
    ensures r[i] == rule
    ensures forall j :: 0 <= j < |rules| && j != i ==> r[j] == rules[j]
    ensures forall j :: |rules| <= j < |r| && j != i ==> r[j] == map[]
  {
    var padded := if i < |rules| then rules else rules + seq(i + 1 - |rules|, _ => map[]);
    padded[i := rule]
  }

  /** A list index Python rejects: a rule that is not configured, or a negative index beyond the list. */
  datatype IndexError = NotConfigured(ruleIndex: int) | OutOfRange(ruleIndex: int)

  /** What send_transaction raises: TypeError for an unsupported type, or what the agent driver raised. */
  datatype DispatchError = UnsupportedType | AgentFailure(error: SendError)

  /** The transactions send_transaction is given: a FilterPacket, an AxiStreamTransaction, or anything else. */
  datatype Transaction = FilterTransaction(packet: FilterPacket) | AxiTransaction(t: AxiStreamTransaction) | OtherTransaction

  /** The random fields generate_matching_packet falls back on. */
  datatype Draws = Draws(srcMac: int, dstMac: int, srcIp: int, dstIp: int, srcPort: int, dstPort: int)

  /** [random.randint(0, 255) for _ in range(size)], the draws given by position. */
  function RandomData(size: int, byteAt: nat -> byte): (r: seq<byte>)
    ensures |r| == if size < 0 then 0 else size
  {
    seq(if size < 0 then 0 else size, i requires 0 <= i => byteAt(i))
  }

  /** rule.get(key, default) */
  function Get(rule: Rule, key: string, default: int): int
  {
    if key in rule then rule[key] else default
  }

  /** The packet generate_matching_packet builds from a rule: each field the rule gives, a draw or the default otherwise. */
  function PacketFor(rule: Rule, size: int, byteAt: nat -> byte, d: Draws): FilterPacket
  {
    FilterPacket(RandomData(size, byteAt),
      Get(rule, "src_mac", d.srcMac), Get(rule, "dst_mac", d.dstMac), Get(rule, "eth_type", 0x0800),
      Get(rule, "src_ip", d.srcIp), Get(rule, "dst_ip", d.dstIp),
      Get(rule, "src_port", d.srcPort), Get(rule, "dst_port", d.dstPort), Get(rule, "protocol", 0x11))
  }

  /** The packet built from a rule matches that rule, whatever the draws. */
  lemma PacketForMatches(rule: Rule, size: int, byteAt: nat -> byte, d: Draws)
    ensures MatchesFilter(PacketFor(rule, size, byteAt, d), rule)
  {
  }

  /** The packet returned after 100 candidates that all matched some rule: every byte and field at its all-ones value. */
  function Fallback(size: int): (p: FilterPacket)
    ensures |p.data| == (if size < 0 then 0 else size) && forall i :: 0 <= i < |p.data| ==> p.data[i] == 0xFF
    ensures p.srcMac == 0xFFFF_FFFF_FFFF && p.ethType == 0xFFFF && p.srcIp == 0xFFFF_FFFF && p.srcPort == 0xFFFF
  {
    FilterPacket(seq(if size < 0 then 0 else size, _ => 0xFF),
      0xFFFF_FFFF_FFFF, 0xFFFF_FFFF_FFFF, 0xFFFF, 0xFFFF_FFFF, 0xFFFF_FFFF, 0xFFFF, 0xFFFF, 0xFF)
  }

  /** The fallback is not guaranteed to match no rule: a {} slot, such as configure_filter_rule's padding, matches it. */
  lemma FallbackMatchesEmptySlot(size: int, rules: seq<Rule>, i: nat)
    requires i < |rules| && rules[i] == map[]
    ensures MatchesAny(Fallback(size), rules)
  {
    assert MatchesFilter(Fallback(size), rules[i]);
  }

  class FilterRxDriver {
    const axi: AxiStreamDriver
    var filterRules: seq<Rule>
    /** Driver._transactions_sent */
    var transactionsSent: nat

    constructor (axi: AxiStreamDriver)
      ensures this.axi == axi && filterRules == [] && transactionsSent == 0
    {
      this.axi := axi;
      filterRules := [];
      transactionsSent := 0;
    }

    /**
     * configure_filter_rule: append {} until the index exists, then store
     * the rule there; a negative index counts from the end as Python's
     * list assignment does, and one beyond the start raises.
     */
    method ConfigureFilterRule(ruleIndex: int, rule: Rule) returns (r: Outcome<IndexError>)
      modifies this`filterRules
      ensures ruleIndex >= 0 ==> r == Pass && filterRules == Stored(old(filterRules), ruleIndex, rule)
      ensures ruleIndex < 0 && -ruleIndex <= |old(filterRules)| ==>
        r == Pass && filterRules == old(filterRules)[|old(filterRules)| + ruleIndex := rule]
      ensures ruleIndex < 0 && -ruleIndex > |old(filterRules)| ==> r == Fail(OutOfRange(ruleIndex)) && filterRules == old(filterRules)
    {
      if ruleIndex < 0 {
        if -ruleIndex > |filterRules| {
          return Fail(OutOfRange(ruleIndex));
        }
        filterRules := filterRules[|filterRules| + ruleIndex := rule];
        return Pass;
      }
      PadRules(ruleIndex);
      filterRules := filterRules[ruleIndex := rule];
      assert filterRules == Stored(old(filterRules), ruleIndex, rule);
      return Pass;
    }

    /** The padding loop of configure_filter_rule: append {} while the list has no index i. */
    method PadRules(i: nat)
      modifies this`filterRules
      ensures |filterRules| == if i < |old(filterRules)| then |old(filterRules)| else i + 1
      ensures forall j :: 0 <= j < |old(filterRules)| ==> filterRules[j] == old(filterRules)[j]
      ensures forall j :: |old(filterRules)| <= j < |filterRules| ==> filterRules[j] == map[]
    {
      while |filterRules| <= i
        invariant |old(filterRules)| <= |filterRules| <= if i < |old(filterRules)| then |old(filterRules)| else i + 1
        invariant forall j :: 0 <= j < |old(filterRules)| ==> filterRules[j] == old(filterRules)[j]
        invariant forall j :: |old(filterRules)| <= j < |filterRules| ==> filterRules[j] == map[]
        decreases i - |filterRules|
      {
        filterRules := filterRules + [map[]];
      }
    }

    /**
     * send_filter_packet: send the packet's transaction (user 0); count it
     * once the agent driver returns, so not when it raises. draw is the
     * agent driver's random gap draw.
     */
    method SendFilterPacket(p: FilterPacket, draw: nat) returns (r: Outcome<SendError>)
      modifies this`transactionsSent, axi`events, axi`tvalid, axi`transactionsSent
      ensures r == Fail(ZeroStep) <==> old(axi.active) && axi.dataWidth / 8 == 0
      ensures r == Fail(BadGapRange) <==>
        old(axi.active) && axi.dataWidth / 8 > 0 && GapRangeEmpty(axi.minGapCycles, axi.maxGapCycles)
      ensures !old(axi.active) ==> r == Pass && axi.events == old(axi.events) && axi.tvalid == old(axi.tvalid)
      ensures old(axi.active) && axi.dataWidth / 8 > 0 ==>
        axi.events == old(axi.events)
          + SendTrace(true, ToAxiStreamTransaction(p, 0), axi.dataWidth / 8, axi.signals, axi.minGapCycles, axi.maxGapCycles, draw)
      ensures transactionsSent == old(transactionsSent) + (if r.Pass? then 1 else 0)
    {
      r := axi.SendTransaction(ToAxiStreamTransaction(p, 0), draw);
      if r.Pass? {
        transactionsSent := transactionsSent + 1;
      }
    }

    /**
     * send_transaction: a FilterPacket goes through send_filter_packet, an
     * AxiStreamTransaction straight to the agent driver (this driver's
     * count unchanged), anything else raises TypeError.
     */
    method SendTransaction(txn: Transaction, draw: nat) returns (r: Outcome<DispatchError>)
      modifies this`transactionsSent, axi`events, axi`tvalid, axi`transactionsSent
      ensures txn.OtherTransaction? ==> r == Fail(UnsupportedType) && axi.events == old(axi.events)
      ensures r == Fail(AgentFailure(ZeroStep)) <==> !txn.OtherTransaction? && old(axi.active) && axi.dataWidth / 8 == 0
      ensures r == Fail(AgentFailure(BadGapRange)) <==>
        !txn.OtherTransaction? && old(axi.active) && axi.dataWidth / 8 > 0 && GapRangeEmpty(axi.minGapCycles, axi.maxGapCycles)
      ensures !old(axi.active) ==> axi.events == old(axi.events) && axi.tvalid == old(axi.tvalid)
      ensures txn.FilterTransaction? && old(axi.active) && axi.dataWidth / 8 > 0 ==>
        axi.events == old(axi.events)
          + SendTrace(true, ToAxiStreamTransaction(txn.packet, 0), axi.dataWidth / 8, axi.signals, axi.minGapCycles, axi.maxGapCycles, draw)
      ensures txn.AxiTransaction? && old(axi.active) && axi.dataWidth / 8 > 0 ==>
        axi.events == old(axi.events)
          + SendTrace(true, txn.t, axi.dataWidth / 8, axi.signals, axi.minGapCycles, axi.maxGapCycles, draw)
      ensures transactionsSent == old(transactionsSent) + (if txn.FilterTransaction? && r.Pass? then 1 else 0)
    {
      match txn
      case FilterTransaction(packet) =>
        var sent := SendFilterPacket(packet, draw);
        r := if sent.Pass? then Pass else Fail(AgentFailure(sent.error));
      case AxiTransaction(t) =>
        var sent := axi.SendTransaction(t, draw);
        r := if sent.Pass? then Pass else Fail(AgentFailure(sent.error));
      case OtherTransaction =>
        r := Fail(UnsupportedType);
    }

    /**
     * generate_matching_packet: an index not below the number of rules
     * raises; otherwise (a negative index counting from the end) the
     * packet takes every field the rule gives and draws or defaults the
     * rest.
     */
    function GenerateMatchingPacket(ruleIndex: int, size: int, byteAt: nat -> byte, d: Draws): (r: Result<FilterPacket, IndexError>)
      reads this
      ensures ruleIndex >= |filterRules| ==> r == Failure(NotConfigured(ruleIndex))
      ensures ruleIndex < -|filterRules| ==> r == Failure(OutOfRange(ruleIndex))
      ensures 0 <= ruleIndex < |filterRules| ==> r.Success? && MatchesFilter(r.value, filterRules[ruleIndex])
      ensures -|filterRules| <= ruleIndex < 0 ==> r.Success? && MatchesFilter(r.value, filterRules[|filterRules| + ruleIndex])
    {
      if ruleIndex >= |filterRules| then Failure(NotConfigured(ruleIndex))
      else if ruleIndex < -|filterRules| then Failure(OutOfRange(ruleIndex))
      else
        var rule := if ruleIndex >= 0 then filterRules[ruleIndex] else filterRules[|filterRules| + ruleIndex];
        PacketForMatches(rule, size, byteAt, d);
        Success(PacketFor(rule, size, byteAt, d))
    }

    /**
     * generate_non_matching_packet: try up to 100 candidates and return
     * the first that matches no configured rule; after 100 failures
     * return the all-ones fallback.
     */
    method GenerateNonMatchingPacket(size: int, candidates: nat -> FilterPacket) returns (p: FilterPacket)
      ensures (forall i :: 0 <= i < 100 ==> MatchesAny(candidates(i), filterRules)) ==> p == Fallback(size)
      ensures (exists i :: 0 <= i < 100 && !MatchesAny(candidates(i), filterRules)) ==>
        exists i :: 0 <= i < 100 && p == candidates(i) && !MatchesAny(p, filterRules)
          && forall j :: 0 <= j < i ==> MatchesAny(candidates(j), filterRules)
    {
      var attempt := 0;
      while attempt < 100
        invariant 0 <= attempt <= 100
        invariant forall j :: 0 <= j < attempt ==> MatchesAny(candidates(j), filterRules)
      {
        var packet := candidates(attempt);
        var matchesAny := AnyMatches(packet, filterRules);
        if !matchesAny {
          return packet;
        }
        attempt := attempt + 1;
      }
      return Fallback(size);
    }
  }

  /** any(...): the rules in order, stopping at the first that matches. */
  method AnyMatches(p: FilterPacket, rules: seq<Rule>) returns (b: bool)
    ensures b == MatchesAny(p, rules)
  {
    var i := 0;
    while i < |rules|
      invariant 0 <= i <= |rules|
      invariant forall j :: 0 <= j < i ==> !MatchesFilter(p, rules[j])
    {
      if MatchesFilter(p, rules[i]) {
        return true;
      }
      i := i + 1;
    }
    return false;
  }

  /** After configuring only rule 1 on an empty store, slot 0 is {} and every packet matches some rule. */
  lemma PaddedSlotMatchesAll(rule: Rule, p: FilterPacket)
    ensures Stored([], 1, rule)[0] == map[]
    ensures MatchesAny(p, Stored([], 1, rule))
  {
    assert MatchesFilter(p, Stored([], 1, rule)[0]);
  }
}
