/**
 * The prediction scoreboard of the regression runner: deterministic packet
 * mixes whose rule matches follow the packet index modulo 10, a tally of
 * the predicted filter outcome, and the comparison with the hardware's
 * counters.
 *
 * Unlike the golden filter model, this scoreboard counts a packet that
 * both rules match under rule 0 AND rule 1 (and once more under "both").
 */
module RunTestsScoreboard {
  import opened Wrappers
  import Text

  datatype IpVersion = IPv4 | IPv6
  datatype Protocol = Tcp | Udp

  /** One generated packet description, with the rule matches it is built to have. */
  datatype TestPacket = TestPacket(
    version: IpVersion, srcIp: string, dstIp: string, srcPort: nat, dstPort: nat,
    protocol: Protocol, expectedRule0: bool, expectedRule1: bool)

  /** The filler packet of class 3..9: addresses and ports derived from the index. */
  function Unmatched(version: IpVersion, index: nat): (p: TestPacket)
    ensures p.version == version && !p.expectedRule0 && !p.expectedRule1
    ensures 9000 <= p.srcPort < 10000 && 2000 <= p.dstPort < 3000
  {
    var host := Text.NatToString(index % 254 + 1);
    TestPacket(version,
      (if version == IPv4 then "198.51.100." else "2001:db8:5::") + host,
      (if version == IPv4 then "203.0.114." else "2001:db8:6::") + host,
      9000 + index % 1000, 2000 + index % 1000,
      if index % 2 == 0 then Tcp else Udp,
      false, false)
  }

  /** _create_ipv4_packet / _create_ipv6_packet. */
  function CreatePacket(version: IpVersion, index: nat): (p: TestPacket)
    ensures p.version == version
    // A packet expected to hit rule 0 carries rule 0's source endpoint, one
    // expected to hit rule 1 rule 1's destination endpoint; filler ports
    // (9000.., 2000..) are never those.
    ensures p.expectedRule0 <==> p.srcPort == 8080
    ensures p.expectedRule1 <==> p.dstPort == 1234
    ensures p.expectedRule0 ==> p.srcIp == (if version == IPv4 then "192.168.1.100" else "2001:db8:1::100")
    ensures p.expectedRule1 ==> p.dstIp == (if version == IPv4 then "203.0.113.25" else "2001:db8:4::25")
  {
    var v4 := version == IPv4;
    match index % 10
    case 0 =>
      TestPacket(version, if v4 then "192.168.1.100" else "2001:db8:1::100",
        if v4 then "10.0.0.50" else "2001:db8:2::50", 8080, 443, Tcp, true, false)
    case 1 =>
      TestPacket(version, if v4 then "172.16.0.200" else "2001:db8:3::200",
        if v4 then "203.0.113.25" else "2001:db8:4::25", 80, 1234, Udp, false, true)
    case 2 =>
      TestPacket(version, if v4 then "192.168.1.100" else "2001:db8:1::100",
        if v4 then "203.0.113.25" else "2001:db8:4::25", 8080, 1234, Tcp, true, true)
    case _ => Unmatched(version, index)
  }

  /** The class of a packet is its index modulo 10, the same for both IP versions. */
  lemma PacketClass(version: IpVersion, index: nat)
    ensures CreatePacket(version, index).expectedRule0 <==> index % 10 == 0 || index % 10 == 2
    ensures CreatePacket(version, index).expectedRule1 <==> index % 10 == 1 || index % 10 == 2
  {
  }

  /** The first n packets of one IP version, indices 0 .. n-1. */
  function Packets(version: IpVersion, n: nat): (ps: seq<TestPacket>)
    ensures |ps| == n
  {
    if n == 0 then [] else Packets(version, n - 1) + [CreatePacket(version, n - 1)]
  }

  /** The predicted counters: rule0, rule1, both, no_rules, passed, dropped. */
  datatype Prediction = Prediction(rule0: nat, rule1: nat, both: nat, noRules: nat, passed: nat, dropped: nat)

  function Plus(a: Prediction, b: Prediction): Prediction
  {
    Prediction(a.rule0 + b.rule0, a.rule1 + b.rule1, a.both + b.both,
               a.noRules + b.noRules, a.passed + b.passed, a.dropped + b.dropped)
  }

  const NoPrediction := Prediction(0, 0, 0, 0, 0, 0)

  lemma PlusZero(x: Prediction)
    ensures Plus(x, NoPrediction) == x
  {
  }

  lemma PlusAssociative(x: Prediction, y: Prediction, z: Prediction)
    ensures Plus(Plus(x, y), z) == Plus(x, Plus(y, z))
  {
  }

  /**
   * _predict_filter_outcome for one packet: a packet either passes or is
   * dropped, and a rule counter moves exactly when its rule is expected to match.
   */
  function Predict(p: TestPacket): (r: Prediction)
    ensures r.passed + r.dropped == 1 && r.noRules == r.dropped
    ensures r.passed == 1 <==> p.expectedRule0 || p.expectedRule1
    ensures (r.rule0 == 1 <==> p.expectedRule0) && r.rule0 <= 1
    ensures (r.rule1 == 1 <==> p.expectedRule1) && r.rule1 <= 1
    ensures (r.both == 1 <==> p.expectedRule0 && p.expectedRule1) && r.both <= 1
    ensures r.rule0 + r.rule1 == r.both + r.passed
  {
    if p.expectedRule0 && p.expectedRule1 then Prediction(1, 1, 1, 0, 1, 0)
    else if p.expectedRule0 then Prediction(1, 0, 0, 0, 1, 0)
    else if p.expectedRule1 then Prediction(0, 1, 0, 0, 1, 0)
    else Prediction(0, 0, 0, 1, 0, 1)
  }

  /**
   * The prediction for a run of packets: every packet is counted as passed
   * or dropped, and rule0 + rule1 - both == passed.
   */
  function Tally(ps: seq<TestPacket>): (r: Prediction)
    ensures r.passed + r.dropped == |ps| && r.noRules == r.dropped
    ensures r.rule0 + r.rule1 == r.both + r.passed
    ensures r.both <= r.rule0 && r.both <= r.rule1
  {
    if ps == [] then NoPrediction else Plus(Tally(ps[..|ps| - 1]), Predict(ps[|ps| - 1]))
  }

  lemma {:induction false} TallyAppend(a: seq<TestPacket>, b: seq<TestPacket>)
    ensures Tally(a + b) == Plus(Tally(a), Tally(b))
    decreases |b|
  {
    if b == [] {
      assert a + b == a;
      assert Tally(b) == NoPrediction;
      PlusZero(Tally(a));
    } else {
      var front, last := b[..|b| - 1], b[|b| - 1];
      assert (a + b)[..|a + b| - 1] == a + front;
      assert (a + b)[|a + b| - 1] == last;
      TallyAppend(a, front);
      assert Tally(a + b) == Plus(Plus(Tally(a), Tally(front)), Predict(last));
      assert Tally(b) == Plus(Tally(front), Predict(last));
      PlusAssociative(Tally(a), Tally(front), Predict(last));
    }
  }

  lemma TallySnoc(ps: seq<TestPacket>, p: TestPacket)
    ensures Tally(ps + [p]) == Plus(Tally(ps), Predict(p))
  {
    assert (ps + [p])[..|ps|] == ps;
  }

  /** 1 when index i is in class c (i modulo 10 == c), 0 otherwise. */
  function InClass(i: nat, c: nat): nat
  {
    if i % 10 == c then 1 else 0
  }

  /** The number of indices below n in class c. */
  function ClassCount(n: nat, c: nat): nat
  {
    if n == 0 then 0 else ClassCount(n - 1, c) + InClass(n - 1, c)
  }

  lemma {:induction false} ClassCountClosed(n: nat, c: nat)
    requires c < 10
    ensures ClassCount(n, c) == n / 10 + (if n % 10 > c then 1 else 0)
  {
    if n > 0 {
      ClassCountClosed(n - 1, c);
    }
  }

  /** The prediction for packet i, by its class: classes 0, 1 and 2 pass, class 2 under both rules. */
  lemma PredictClass(version: IpVersion, i: nat)
    ensures var d, a, b, c := Predict(CreatePacket(version, i)), InClass(i, 0), InClass(i, 1), InClass(i, 2);
      d.rule0 == a + c && d.rule1 == b + c && d.both == c && d.passed == a + b + c
  {
    PacketClass(version, i);
  }

  /** The tally of packets 0 .. n-1 of one version, accumulated index by index. */
  function PacketsTally(version: IpVersion, n: nat): Prediction
  {
    if n == 0 then NoPrediction else Plus(PacketsTally(version, n - 1), Predict(CreatePacket(version, n - 1)))
  }

  lemma {:induction false} TallyOfPackets(version: IpVersion, n: nat)
    ensures Tally(Packets(version, n)) == PacketsTally(version, n)
  {
    if n > 0 {
      TallyOfPackets(version, n - 1);
      TallySnoc(Packets(version, n - 1), CreatePacket(version, n - 1));
    }
  }

  /**
   * The first n packets of a mix predict ClassCount(n, 0) + ClassCount(n, 2)
   * rule 0 hits, ClassCount(n, 1) + ClassCount(n, 2) rule 1 hits, and pass
   * exactly the packets of classes 0, 1 and 2.
   */
  lemma {:induction false} TallyPackets(version: IpVersion, n: nat)
    ensures var t, a, b, c := Tally(Packets(version, n)), ClassCount(n, 0), ClassCount(n, 1), ClassCount(n, 2);
      t.rule0 == a + c && t.rule1 == b + c && t.both == c && t.passed == a + b + c
  {
    TallyOfPackets(version, n);
    PacketsTallyClasses(version, n);
  }

  lemma {:induction false} PacketsTallyClasses(version: IpVersion, n: nat)
    ensures var t, a, b, c := PacketsTally(version, n), ClassCount(n, 0), ClassCount(n, 1), ClassCount(n, 2);
      t.rule0 == a + c && t.rule1 == b + c && t.both == c && t.passed == a + b + c
  {
    if n > 0 {
      PacketsTallyClasses(version, n - 1);
      PacketsTallyStep(version, n);
    }
  }

  /** Packet n-1 moves the tally by its class. */
  lemma PacketsTallyStep(version: IpVersion, n: nat)
    requires n > 0
    ensures var t, t0, a, b, c := PacketsTally(version, n), PacketsTally(version, n - 1),
                                  InClass(n - 1, 0), InClass(n - 1, 1), InClass(n - 1, 2);
      t.rule0 == t0.rule0 + a + c && t.rule1 == t0.rule1 + b + c && t.both == t0.both + c
      && t.passed == t0.passed + a + b + c
  {
    PredictClass(version, n - 1);
  }

  /** In closed form: each full ten packets holds one packet of each of the classes 0, 1 and 2. */
  lemma TallyPacketsClosed(version: IpVersion, n: nat)
    ensures var t, a, b, c := Tally(Packets(version, n)), n / 10 + (if n % 10 > 0 then 1 else 0),
                              n / 10 + (if n % 10 > 1 then 1 else 0), n / 10 + (if n % 10 > 2 then 1 else 0);
      t.rule0 == a + c && t.rule1 == b + c && t.both == c && t.passed == a + b + c && t.dropped == n - (a + b + c)
  {
    TallyPackets(version, n);
    ClassCountClosed(n, 0);
    ClassCountClosed(n, 1);
    ClassCountClosed(n, 2);
  }

  /** A packet mix: its size and how many of its packets are IPv4 (the rest are IPv6). */
  datatype Mix = Mix(total: nat, ipv4Count: nat)

  /**
   * generate_test_packets' choice of mix. The IPv4 share is int(N * f) for
   * a fraction f in tenths; for these six sizes the floating-point product
   * rounds to exactly the integer (N * tenths) / 10.
   */
  function MixFor(testName: string): (m: Mix)
    ensures m.ipv4Count <= m.total
    ensures m.total in {50, 100, 1000, 200, 75}
  {
    if testName in ["reset", "basic_functionality"] then Mix(50, 50 * 7 / 10)
    else if testName in ["ipv4_rule_matching", "ipv4_filtering"] then Mix(100, 100 * 9 / 10)
    else if testName in ["ipv6_rule_matching", "ipv6_filtering"] then Mix(100, 100 * 1 / 10)
    else if testName in ["performance_stress", "stress_test"] then Mix(1000, 1000 * 6 / 10)
    else if testName in ["comprehensive_filtering", "comprehensive"] then Mix(200, 200 * 5 / 10)
    else Mix(75, 75 * 6 / 10)
  }

  /** The packets of a mix: IPv4 indices 0.. first, then IPv6 indices 0.. . */
  function MixPackets(m: Mix): (ps: seq<TestPacket>)
    requires m.ipv4Count <= m.total
    ensures |ps| == m.total
  {
    Packets(IPv4, m.ipv4Count) + Packets(IPv6, m.total - m.ipv4Count)
  }

  /** The packets of a mix are its IPv4 run joined to its IPv6 run. */
  lemma MixParts(m: Mix, v4: seq<TestPacket>, v6: seq<TestPacket>)
    requires m.ipv4Count <= m.total
    requires v4 == Packets(IPv4, m.ipv4Count) && v6 == Packets(IPv6, m.total - m.ipv4Count)
    ensures v4 + v6 == MixPackets(m)
  {
  }

  /** Adding the tallies of two runs one after the other adds the tally of the joined run. */
  lemma TallyAppendFrom(start: Prediction, a: seq<TestPacket>, b: seq<TestPacket>)
    ensures Plus(Plus(start, Tally(a)), Tally(b)) == Plus(start, Tally(a + b))
  {
    TallyAppend(a, b);
    PlusAssociative(start, Tally(a), Tally(b));
  }

  /**
   * The 'reset' and 'basic_functionality' mix (35 IPv4 then 15 IPv6
   * packets) predicts 12 rule 0 hits, 12 rule 1 hits, 6 of them both,
   * 18 passed and 32 dropped.
   */
  lemma BasicMixPrediction(name: string)
    requires name in ["reset", "basic_functionality"]
    ensures MixFor(name) == Mix(50, 35)
    ensures Tally(MixPackets(MixFor(name))) == Prediction(12, 12, 6, 32, 18, 32)
  {
    var m := MixFor(name);
    assert m == Mix(50, 35);
    var n4, n6 := m.ipv4Count, m.total - m.ipv4Count;
    var v4, v6 := Packets(IPv4, n4), Packets(IPv6, n6);
    assert Tally(v4) == Prediction(8, 8, 4, 23, 12, 23) by {
      assert n4 / 10 == 3 && n4 % 10 == 5;
      TallyPacketsClosed(IPv4, n4);
    }
    assert Tally(v6) == Prediction(4, 4, 2, 9, 6, 9) by {
      assert n6 / 10 == 1 && n6 % 10 == 5;
      TallyPacketsClosed(IPv6, n6);
    }
    assert Tally(MixPackets(m)) == Plus(Tally(v4), Tally(v6)) by {
      TallyAppend(v4, v6);
    }
  }

  /** The counters of the hardware as read back; a missing key raises KeyError. */
  datatype ResultField = TotalPackets | Rule0Hits | Rule1Hits | DroppedPackets

  function FieldKey(f: ResultField): string
  {
    match f
    case TotalPackets => "total_packets"
    case Rule0Hits => "rule0_hits"
    case Rule1Hits => "rule1_hits"
    case DroppedPackets => "dropped_packets"
  }

  datatype FieldMismatch = FieldMismatch(field: ResultField, expected: int, actual: int)

  datatype VerifyError = MissingCounter(key: string)

  /** The fields in the order verify_filtering_results compares them. */
  const ResultFields := [TotalPackets, Rule0Hits, Rule1Hits, DroppedPackets]

  function FieldIndex(f: ResultField): (j: nat)
    ensures j < 4 && ResultFields[j] == f
  {
    match f
    case TotalPackets => 0
    case Rule0Hits => 1
    case Rule1Hits => 2
    case DroppedPackets => 3
  }

  class PacketFilteringScoreboard {
    var testName: string
    var totalPacketsGenerated: nat
    var ipv4PacketsGenerated: nat
    var ipv6PacketsGenerated: nat
    var rule0ExpectedMatches: nat
    var rule1ExpectedMatches: nat
    var bothRulesExpectedMatches: nat
    var noRulesExpectedMatches: nat
    var packetsPassed: nat
    var packetsDropped: nat
    var rule0ActualHits: nat
    var rule1ActualHits: nat
    var filterDecisionErrors: nat
    var counterMismatches: nat

    /** The six prediction counters as one value. */
    function Predictions(): Prediction
      reads this
    {
      Prediction(rule0ExpectedMatches, rule1ExpectedMatches, bothRulesExpectedMatches,
                 noRulesExpectedMatches, packetsPassed, packetsDropped)
    }

    /** Every counter, the generation counts and the error counts included, is zero. */
    predicate AllZero()
      reads this
    {
      totalPacketsGenerated == 0 && ipv4PacketsGenerated == 0 && ipv6PacketsGenerated == 0
      && Predictions() == NoPrediction
      && rule0ActualHits == 0 && rule1ActualHits == 0
      && filterDecisionErrors == 0 && counterMismatches == 0
    }

    constructor (name: string)
      ensures testName == name && AllZero()
    {
      testName := name;
      totalPacketsGenerated, ipv4PacketsGenerated, ipv6PacketsGenerated := 0, 0, 0;
      rule0ExpectedMatches, rule1ExpectedMatches, bothRulesExpectedMatches, noRulesExpectedMatches := 0, 0, 0, 0;
      packetsPassed, packetsDropped := 0, 0;
      rule0ActualHits, rule1ActualHits := 0, 0;
      filterDecisionErrors, counterMismatches := 0, 0;
    }

    /** reset_counters: zero every counter; the test name stays. */
    method ResetCounters()
      modifies this
      ensures testName == old(testName) && AllZero()
    {
      ResetGeneration();
      ResetPredictions();
      ResetActuals();
    }

    /** The generation counts of reset_counters. */
    method ResetGeneration()
      modifies this`totalPacketsGenerated, this`ipv4PacketsGenerated, this`ipv6PacketsGenerated
      ensures totalPacketsGenerated == 0 && ipv4PacketsGenerated == 0 && ipv6PacketsGenerated == 0
    {
      totalPacketsGenerated := 0;
      ipv4PacketsGenerated := 0;
      ipv6PacketsGenerated := 0;
    }

    /** The prediction counters of reset_counters. */
    method ResetPredictions()
      modifies this`rule0ExpectedMatches, this`rule1ExpectedMatches, this`bothRulesExpectedMatches,
               this`noRulesExpectedMatches, this`packetsPassed, this`packetsDropped
      ensures Predictions() == NoPrediction
    {
      rule0ExpectedMatches := 0;
      rule1ExpectedMatches := 0;
      bothRulesExpectedMatches := 0;
      noRulesExpectedMatches := 0;
      packetsPassed := 0;
      packetsDropped := 0;
    }

    /** The hardware hit and error counts of reset_counters. */
    method ResetActuals()
      modifies this`rule0ActualHits, this`rule1ActualHits, this`filterDecisionErrors, this`counterMismatches
      ensures rule0ActualHits == 0 && rule1ActualHits == 0 && filterDecisionErrors == 0 && counterMismatches == 0
    {
      rule0ActualHits := 0;
      rule1ActualHits := 0;
      filterDecisionErrors := 0;
      counterMismatches := 0;
    }

    /** _predict_filter_outcome: add the packet's predicted outcome to the counters. */
    method PredictFilterOutcome(p: TestPacket)
      modifies this`rule0ExpectedMatches, this`rule1ExpectedMatches, this`bothRulesExpectedMatches,
               this`noRulesExpectedMatches, this`packetsPassed, this`packetsDropped
      ensures Predictions() == Plus(old(Predictions()), Predict(p))
    {
      if p.expectedRule0 && p.expectedRule1 {
        bothRulesExpectedMatches := bothRulesExpectedMatches + 1;
        rule0ExpectedMatches := rule0ExpectedMatches + 1;
        rule1ExpectedMatches := rule1ExpectedMatches + 1;
        packetsPassed := packetsPassed + 1;
      } else if p.expectedRule0 {
        rule0ExpectedMatches := rule0ExpectedMatches + 1;
        packetsPassed := packetsPassed + 1;
      } else if p.expectedRule1 {
        rule1ExpectedMatches := rule1ExpectedMatches + 1;
        packetsPassed := packetsPassed + 1;
      } else {
        noRulesExpectedMatches := noRulesExpectedMatches + 1;
        packetsDropped := packetsDropped + 1;
      }
    }

    /**
     * generate_test_packets: the named mix's packets in order; the
     * generation counts are overwritten while the predictions are added to,
     * so a second call leaves passed + dropped larger than
     * total_packets_generated.
     */
    method GenerateTestPackets(name: string) returns (packets: seq<TestPacket>)
      modifies this`rule0ExpectedMatches, this`rule1ExpectedMatches, this`bothRulesExpectedMatches,
               this`noRulesExpectedMatches, this`packetsPassed, this`packetsDropped,
               this`totalPacketsGenerated, this`ipv4PacketsGenerated, this`ipv6PacketsGenerated
      ensures packets == MixPackets(MixFor(name))
      ensures totalPacketsGenerated == MixFor(name).total
      ensures ipv4PacketsGenerated == MixFor(name).ipv4Count
      ensures ipv6PacketsGenerated == MixFor(name).total - MixFor(name).ipv4Count
      ensures Predictions() == Plus(old(Predictions()), Tally(packets))
      ensures packetsPassed + packetsDropped == old(packetsPassed + packetsDropped) + totalPacketsGenerated
    {
      packets := GenerateMix(MixFor(name));
    }

    /** The body shared by the six _generate_*_mix methods, for the mix each fixes. */
    method GenerateMix(mix: Mix) returns (packets: seq<TestPacket>)
      requires mix.ipv4Count <= mix.total
      modifies this`rule0ExpectedMatches, this`rule1ExpectedMatches, this`bothRulesExpectedMatches,
               this`noRulesExpectedMatches, this`packetsPassed, this`packetsDropped,
               this`totalPacketsGenerated, this`ipv4PacketsGenerated, this`ipv6PacketsGenerated
      ensures packets == MixPackets(mix)
      ensures totalPacketsGenerated == mix.total
      ensures ipv4PacketsGenerated == mix.ipv4Count && ipv6PacketsGenerated == mix.total - mix.ipv4Count
      ensures Predictions() == Plus(old(Predictions()), Tally(packets))
    {
      totalPacketsGenerated := mix.total;
      packets := PredictMix(mix);
      ipv4PacketsGenerated := mix.ipv4Count;
      ipv6PacketsGenerated := mix.total - mix.ipv4Count;
    }

    /** The two loops of a _generate_*_mix method: the IPv4 packets, then the IPv6 packets. */
    method PredictMix(mix: Mix) returns (packets: seq<TestPacket>)
      requires mix.ipv4Count <= mix.total
      modifies this`rule0ExpectedMatches, this`rule1ExpectedMatches, this`bothRulesExpectedMatches,
               this`noRulesExpectedMatches, this`packetsPassed, this`packetsDropped
      ensures packets == MixPackets(mix)
      ensures Predictions() == Plus(old(Predictions()), Tally(packets))
    {
      ghost var start := Predictions();
      var ipv4Packets := PredictPackets(IPv4, mix.ipv4Count);
      var ipv6Packets := PredictPackets(IPv6, mix.total - mix.ipv4Count);
      packets := ipv4Packets + ipv6Packets;
      MixParts(mix, ipv4Packets, ipv6Packets);
      TallyAppendFrom(start, ipv4Packets, ipv6Packets);
    }

    /** One of generate_test_packets' two loops: create packets 0 .. count-1 of a version and predict each. */
    method PredictPackets(version: IpVersion, count: nat) returns (packets: seq<TestPacket>)
      modifies this`rule0ExpectedMatches, this`rule1ExpectedMatches, this`bothRulesExpectedMatches,
               this`noRulesExpectedMatches, this`packetsPassed, this`packetsDropped
      ensures packets == Packets(version, count)
      ensures Predictions() == Plus(old(Predictions()), Tally(packets))
    {
      ghost var start := Predictions();
      packets := [];
      for i := 0 to count
        invariant packets == Packets(version, i)
        invariant Predictions() == Plus(start, Tally(packets))
      {
        var pkt := CreatePacket(version, i);
        TallySnoc(packets, pkt);
        PlusAssociative(start, Tally(packets), Predict(pkt));
        packets := packets + [pkt];
        PredictFilterOutcome(pkt);
      }
    }

    /** The scoreboard's expectation for one compared field. */
    function Expected(f: ResultField): nat
      reads this
    {
      match f
      case TotalPackets => totalPacketsGenerated
      case Rule0Hits => rule0ExpectedMatches
      case Rule1Hits => rule1ExpectedMatches
      case DroppedPackets => packetsDropped
    }

    /** The checks of the fields from position k of the comparison order on; a missing key raises. */
    function CheckFrom(rtl: map<string, int>, k: nat): (r: Result<seq<FieldMismatch>, VerifyError>)
      requires k <= 4
      reads this
      ensures r.Failure? <==> exists f: ResultField :: FieldIndex(f) >= k && FieldKey(f) !in rtl
      ensures r.Failure? ==>
        exists f: ResultField :: FieldIndex(f) >= k && FieldKey(f) !in rtl && r.error == MissingCounter(FieldKey(f))
          && forall g: ResultField :: k <= FieldIndex(g) < FieldIndex(f) ==> FieldKey(g) in rtl
      ensures r.Success? ==> forall m :: m in r.value <==>
        FieldIndex(m.field) >= k && m == FieldMismatch(m.field, Expected(m.field), rtl[FieldKey(m.field)])
        && m.expected != m.actual
      decreases 4 - k
    {
      if k == 4 then Success([])
      else
        var f := ResultFields[k];
        assert FieldIndex(f) == k;
        if FieldKey(f) !in rtl then Failure(MissingCounter(FieldKey(f)))
        else
          var here := if rtl[FieldKey(f)] != Expected(f) then [FieldMismatch(f, Expected(f), rtl[FieldKey(f)])] else [];
          match CheckFrom(rtl, k + 1)
          case Failure(e) => Failure(e)
          case Success(rest) => Success(here + rest)
    }

    /**
     * verify_filtering_results: one error per field among total, rule 0
     * hits, rule 1 hits and dropped whose hardware value differs from the
     * prediction; the first missing key in that order raises.
     */
    function VerifyFilteringResults(rtl: map<string, int>): (r: Result<seq<FieldMismatch>, VerifyError>)
      reads this
      ensures r.Failure? <==> exists f: ResultField :: FieldKey(f) !in rtl
      ensures r.Failure? ==>
        exists f: ResultField :: FieldKey(f) !in rtl && r.error == MissingCounter(FieldKey(f))
          && forall g: ResultField :: FieldIndex(g) < FieldIndex(f) ==> FieldKey(g) in rtl
      ensures r.Success? ==> (r.value == [] <==> forall f: ResultField :: rtl[FieldKey(f)] == Expected(f))
      ensures r.Success? ==> forall m :: m in r.value <==>
        m == FieldMismatch(m.field, Expected(m.field), rtl[FieldKey(m.field)]) && m.expected != m.actual
    {
      var r := CheckFrom(rtl, 0);
      assert r.Success? && r.value != [] ==> r.value[0] in r.value;
      assert r.Success? ==> forall f: ResultField :: rtl[FieldKey(f)] != Expected(f) ==>
        FieldMismatch(f, Expected(f), rtl[FieldKey(f)]) in r.value;
      r
    }
  }
}
