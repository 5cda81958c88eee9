/**
 * The shared test utilities of the filter pipeline tests
 * (tb/tests/filter_rx_pipeline/utils/test_utils.py): the 384-bit rule
 * configuration register written by configure_rules, the statistics read
 * back from the status register, the output-side packet receiver with its
 * idle counter, the TestResult record, and the helpers that turn dotted
 * quads and rule arguments into register fields.
 *
 * Signal writes and reads become fields and parameters: cfgReg holds the
 * value written to cfg_reg, statusReg and the output samples are what the
 * DUT shows. Clock-edge waits are not modelled.
 */
module TestUtils {
  import opened Wrappers
  import Bits
  import Text
  import StatisticsChecker

  // ---------------------------------------------------------------------
  // ipv4_str_to_int

  /** IndexError for a missing part, ValueError for a part int() refuses. */
  datatype ParseError = MissingPart(index: nat) | NotANumber(part: string)

  /** int(parts[i]), with its IndexError. */
  function Part(parts: seq<string>, i: nat): (r: Result<nat, ParseError>)
    ensures r.Success? <==> i < |parts| && Text.ParseNat(parts[i]).Some?
    ensures r.Success? ==> Text.ParseNat(parts[i]) == Some(r.value)
  {
    if i >= |parts| then Failure(MissingPart(i))
    else match Text.ParseNat(parts[i])
      case None => Failure(NotANumber(parts[i]))
      case Some(v) => Success(v)
  }

  /** x << k. */
  function Shl(x: nat, k: nat): nat
  {
    x * Bits.Pow2(k)
  }

  /** (a << 24) | (b << 16) | (c << 8) | d, evaluated left to right as Python does. */
  function PackOctets(a: nat, b: nat, c: nat, d: nat): nat
  {
    Bits.BitOr(Bits.BitOr(Bits.BitOr(Shl(a, 24), Shl(b, 16)), Shl(c, 8)), d)
  }

  /**
   * ipv4_str_to_int: split on '.', convert parts 0 to 3 in order (the
   * first failure wins; parts after the fourth are ignored) and OR the
   * shifted values together.
   */
  function Ipv4StrToInt(s: string): (r: Result<nat, ParseError>)
    ensures r.Failure? <==> exists i :: 0 <= i < 4 && Part(Text.Split(s, '.'), i).Failure?
  {
    var parts := Text.Split(s, '.');
    match Part(parts, 0)
    case Failure(e) => Failure(e)
    case Success(a) =>
      match Part(parts, 1)
      case Failure(e) => Failure(e)
      case Success(b) =>
        match Part(parts, 2)
        case Failure(e) => Failure(e)
        case Success(c) =>
          match Part(parts, 3)
          case Failure(e) => Failure(e)
          case Success(d) => Success(PackOctets(a, b, c, d))
  }

  lemma Pow2Values()
    ensures Bits.Pow2(8) == 256 && Bits.Pow2(16) == 0x1_0000 && Bits.Pow2(24) == 0x100_0000
    ensures Bits.Pow2(32) == 0x1_0000_0000
  {
    assert Bits.Pow2(4) == 16 by {
      assert Bits.Pow2(2) == 4;
    }
    Bits.Pow2Add(4, 4);
    Bits.Pow2Add(8, 8);
    Bits.Pow2Add(16, 8);
    Bits.Pow2Add(16, 16);
  }

  /** The address a.b.c.d read as a base-256 number. */
  function Quad(a: nat, b: nat, c: nat, d: nat): nat
  {
    a * 0x100_0000 + b * 0x1_0000 + c * 0x100 + d
  }

  /** An address of four octets fits in 32 bits. */
  lemma QuadBound(a: nat, b: nat, c: nat, d: nat)
    requires a < 256 && b < 256 && c < 256 && d < 256
    ensures Quad(a, b, c, d) < 0x1_0000_0000
  {
  }

  /** With every part below 256 the ORs do not overlap: the result is the base-256 number a.b.c.d. */
  lemma {:induction false} PackOctetsIsBase256(a: nat, b: nat, c: nat, d: nat)
    requires a < 256 && b < 256 && c < 256 && d < 256
    ensures PackOctets(a, b, c, d) == Quad(a, b, c, d)
  {
    Pow2Values();
    var p8 := Bits.Pow2(8);
    Bits.Pow2Add(8, 8);
    Bits.Pow2Add(16, 8);
    // (a << 24) | (b << 16) == (a << 8 | b) << 16
    assert a * Bits.Pow2(24) == (a * p8) * Bits.Pow2(16);
    Bits.BitOrShift(a * p8, b, 16);
    Bits.OrDisjoint(a, b, 8);
    var ab := a * p8 + b;
    // ((ab << 16) | (c << 8)) == (ab << 8 | c) << 8
    assert ab * Bits.Pow2(16) == (ab * p8) * p8;
    Bits.BitOrShift(ab * p8, c, 8);
    Bits.OrDisjoint(ab, c, 8);
    var abc := ab * p8 + c;
    Bits.OrDisjoint(abc, d, 8);
  }

  /** The dotted-quad string of four numbers. */
  function Dotted(a: nat, b: nat, c: nat, d: nat): string
  {
    Text.NatToString(a) + "." + Text.NatToString(b) + "." + Text.NatToString(c) + "." + Text.NatToString(d)
  }

  lemma NoDot(n: nat)
    ensures '.' !in Text.NatToString(n)
  {
  }

  /** Four pieces without a dot, joined by dots, split back into the four pieces. */
  lemma SplitFour(sa: string, sb: string, sc: string, sd: string)
    requires '.' !in sa && '.' !in sb && '.' !in sc && '.' !in sd
    ensures Text.Split(sa + "." + sb + "." + sc + "." + sd, '.') == [sa, sb, sc, sd]
  {
    var tail2 := sc + ['.'] + sd;
    var tail1 := sb + ['.'] + tail2;
    assert Text.Split(tail2, '.') == [sc, sd] by {
      Text.SplitCons(sc, '.', sd);
      Text.SplitNone(sd, '.');
    }
    assert Text.Split(tail1, '.') == [sb, sc, sd] by {
      Text.SplitCons(sb, '.', tail2);
    }
    assert Text.Split(sa + ['.'] + tail1, '.') == [sa, sb, sc, sd] by {
      Text.SplitCons(sa, '.', tail1);
    }
    assert sa + "." + sb + "." + sc + "." + sd == sa + ['.'] + tail1 by {
      JoinRegroup(sa, sb, sc, sd);
    }
  }

  /** Regrouping the dotted join of four pieces from the right. */
  lemma JoinRegroup(sa: string, sb: string, sc: string, sd: string)
    ensures sa + "." + sb + "." + sc + "." + sd == sa + ['.'] + (sb + ['.'] + (sc + ['.'] + sd))
  {
  }

  /** Four dot-free parts that int() accepts, joined by dots, pack into PackOctets of their values. */
  lemma FourParts(sa: string, sb: string, sc: string, sd: string, a: nat, b: nat, c: nat, d: nat)
    requires '.' !in sa && '.' !in sb && '.' !in sc && '.' !in sd
    requires Text.ParseNat(sa) == Some(a) && Text.ParseNat(sb) == Some(b)
    requires Text.ParseNat(sc) == Some(c) && Text.ParseNat(sd) == Some(d)
    ensures Ipv4StrToInt(sa + "." + sb + "." + sc + "." + sd) == Success(PackOctets(a, b, c, d))
  {
    SplitFour(sa, sb, sc, sd);
  }

  /** The decimal string of n has no dot and int() reads n back from it. */
  lemma DecimalPart(n: nat)
    ensures '.' !in Text.NatToString(n) && Text.ParseNat(Text.NatToString(n)) == Some(n)
  {
    NoDot(n);
    Text.ParseNatToString(n);
  }

  /** ipv4_str_to_int inverts the dotted-quad notation of an address. */
  lemma Ipv4StrToIntDotted(a: nat, b: nat, c: nat, d: nat)
    requires a < 256 && b < 256 && c < 256 && d < 256
    ensures Ipv4StrToInt(Dotted(a, b, c, d)) == Success(Quad(a, b, c, d))
  {
    DecimalPart(a);
    DecimalPart(b);
    DecimalPart(c);
    DecimalPart(d);
    FourParts(Text.NatToString(a), Text.NatToString(b), Text.NatToString(c), Text.NatToString(d), a, b, c, d);
    PackOctetsIsBase256(a, b, c, d);
  }

  /** The address the tests configure most: 192.168.1.1 is 0xC0A80101. */
  lemma Ipv4Example()
    ensures Ipv4StrToInt("192.168.1.1") == Success(0xC0A80101)
  {
    assert Text.NatToString(192) == "192" && Text.NatToString(168) == "168" && Text.NatToString(1) == "1";
    assert Dotted(192, 168, 1, 1) == "192.168.1.1";
    Ipv4StrToIntDotted(192, 168, 1, 1);
  }

  // ---------------------------------------------------------------------
  // configure_rules: two rules of 192 bits each in the 384-bit cfg_reg.

  const P32: nat := 0x1_0000_0000
  const P64: nat := 0x1_0000_0000_0000_0000
  const P128: nat := 0x1_0000_0000_0000_0000_0000_0000_0000_0000
  const P192: nat := 0x1_0000_0000_0000_0000_0000_0000_0000_0000_0000_0000_0000_0000

  lemma Pow2At32()
    ensures Bits.Pow2(32) == P32
  {
    Pow2Values();
  }

  lemma Pow2At192()
    ensures Bits.Pow2(192) == P192
  {
    Pow2At32();
    Bits.Pow2Add(32, 32);
    assert Bits.Pow2(64) == P64;
    Bits.Pow2Add(64, 64);
    assert Bits.Pow2(128) == P128;
    Bits.Pow2Add(128, 64);
  }

  /** The keys of one rule's dictionary: ipv6_addr, ipv4_addr and port, each possibly absent. */
  datatype RuleFields = RuleFields(ipv6Addr: Option<int>, ipv4Addr: Option<int>, port: Option<int>)

  /**
   * value & ((1 << width) - 1) with modulus 2^width, and 0 for an absent
   * key; Python's & masks the two's complement of a negative value, which
   * is the non-negative remainder.
   */
  function Masked(value: Option<int>, modulus: nat): (r: nat)
    requires modulus > 0
    ensures r < modulus
    ensures value.Some? && 0 <= value.value < modulus ==> r == value.value
    ensures value.None? ==> r == 0
  {
    if value.None? then 0 else value.value % modulus
  }

  /**
   * One rule's 192 bits, built as the source does: the IPv6 address
   * (masked to 128 bits) shifted left by 64, OR the IPv4 address (masked
   * to 32 bits) shifted left by 32, OR the port (masked to 32 bits).
   */
  function RuleWord(f: RuleFields): nat
  {
    var v6 := if f.ipv6Addr.Some? then Bits.BitOr(0, Masked(f.ipv6Addr, P128) * P64) else 0;
    var v4 := if f.ipv4Addr.Some? then Bits.BitOr(v6, Masked(f.ipv4Addr, P32) * P32) else v6;
    if f.port.Some? then Bits.BitOr(v4, Masked(f.port, P32)) else v4
  }

  /** The fields of a rule word occupy disjoint bit ranges, so the ORs are additions and the word fits in 192 bits. */
  lemma RuleWordLayout(f: RuleFields)
    ensures RuleWord(f) == Masked(f.port, P32) + P32 * (Masked(f.ipv4Addr, P32) + P32 * Masked(f.ipv6Addr, P128))
    ensures RuleWord(f) < P192
  {
    var m6, m4, mp := Masked(f.ipv6Addr, P128), Masked(f.ipv4Addr, P32), Masked(f.port, P32);
    var v6 := if f.ipv6Addr.Some? then Bits.BitOr(0, m6 * P64) else 0;
    assert v6 == (m6 * P32) * P32;
    var v4 := if f.ipv4Addr.Some? then Bits.BitOr(v6, m4 * P32) else v6;
    assert v4 == (m6 * P32 + m4) * P32 by {
      if f.ipv4Addr.Some? {
        Pow2At32();
        Bits.BitOrShift(m6 * P32, m4, 32);
        Bits.OrDisjoint(m6, m4, 32);
      }
    }
    assert RuleWord(f) == v4 + mp by {
      if f.port.Some? {
        Pow2At32();
        Bits.OrDisjoint(m6 * P32 + m4, mp, 32);
      }
    }
  }

  /** A configuration is a dictionary: its rule indices are distinct. */
  predicate DistinctKeys(rules: seq<(int, RuleFields)>)
  {
    forall i, j :: 0 <= i < j < |rules| ==> rules[i].0 != rules[j].0
  }

  /** A negative rule index makes the shift raise ValueError. */
  datatype ConfigError = NegativeShift(ruleIndex: int)

  /**
   * The cfg_reg value configure_rules builds, rules taken in dictionary
   * order: an index of 2 or more is skipped, a negative one raises, and
   * rule i's word is OR-ed in shifted left by 192 * i.
   */
  function ConfigWord(rules: seq<(int, RuleFields)>): (r: Result<nat, ConfigError>)
    ensures r.Failure? <==> exists i :: 0 <= i < |rules| && rules[i].0 < 0
  {
    if rules == [] then Success(0)
    else
      var prefix := rules[..|rules| - 1];
      var (index, f) := rules[|rules| - 1];
      assert forall i :: 0 <= i < |rules| - 1 ==> prefix[i] == rules[i];
      match ConfigWord(prefix)
      case Failure(e) => Failure(e)
      case Success(v) =>
        if index >= 2 then Success(v)
        else if index < 0 then Failure(NegativeShift(index))
        else Success(Bits.BitOr(v, Placed(RuleWord(f), index)))
  }

  /** word << (192 * index): the rule's place in the configuration register. */
  function Placed(word: nat, index: nat): nat
  {
    word * Bits.Pow2(index * 192)
  }

  /** The fields configured under an index; a rule the dictionary lacks has none. */
  function Configured(rules: seq<(int, RuleFields)>, index: int): (r: RuleFields)
    ensures (forall i :: 0 <= i < |rules| ==> rules[i].0 != index) ==> r == RuleFields(None, None, None)
  {
    if rules == [] then RuleFields(None, None, None)
    else if rules[|rules| - 1].0 == index then rules[|rules| - 1].1
    else
      var prefix := rules[..|rules| - 1];
      assert forall i :: 0 <= i < |rules| - 1 ==> prefix[i] == rules[i];
      Configured(prefix, index)
  }

  lemma UnconfiguredWord()
    ensures RuleWord(RuleFields(None, None, None)) == 0
  {
  }

  /** Rule 0 fills bits 0-191 and rule 1 bits 192-383; nothing lands above. */
  lemma {:induction false} ConfigWordSlots(rules: seq<(int, RuleFields)>)
    requires DistinctKeys(rules) && ConfigWord(rules).Success?
    ensures ConfigWord(rules).value == RuleWord(Configured(rules, 0)) + P192 * RuleWord(Configured(rules, 1))
  {
    if rules == [] {
      UnconfiguredWord();
    } else {
      var prefix := rules[..|rules| - 1];
      assert forall i :: 0 <= i < |rules| - 1 ==> prefix[i] == rules[i];
      ConfigWordSlots(prefix);
      var index := rules[|rules| - 1].0;
      if index == 0 {
        SlotsAddRule0(rules);
      } else if index == 1 {
        SlotsAddRule1(rules);
      } else {
        assert ConfigWord(rules) == ConfigWord(prefix);
        assert Configured(rules, 1) == Configured(prefix, 1) && Configured(rules, 0) == Configured(prefix, 0);
      }
    }
  }

  /** The step of ConfigWordSlots that adds rule 0. */
  lemma SlotsAddRule0(rules: seq<(int, RuleFields)>)
    requires rules != [] && DistinctKeys(rules) && ConfigWord(rules).Success? && rules[|rules| - 1].0 == 0
    requires var prefix := rules[..|rules| - 1];
      ConfigWord(prefix).Success?
      && ConfigWord(prefix).value == RuleWord(Configured(prefix, 0)) + P192 * RuleWord(Configured(prefix, 1))
    ensures ConfigWord(rules).value == RuleWord(Configured(rules, 0)) + P192 * RuleWord(Configured(rules, 1))
  {
    var prefix := rules[..|rules| - 1];
    var (index, f) := rules[|rules| - 1];
    assert forall i :: 0 <= i < |rules| - 1 ==> prefix[i] == rules[i];
    var s0, s1 := RuleWord(Configured(prefix, 0)), RuleWord(Configured(prefix, 1));
    var v := ConfigWord(prefix).value;
    assert ConfigWord(rules) == Success(Bits.BitOr(v, Placed(RuleWord(f), index)));
    assert s0 == 0 by {
      UnconfiguredWord();
      assert forall i :: 0 <= i < |prefix| ==> prefix[i].0 != 0;
    }
    PlaceRule0(s1, f, index);
    assert Configured(rules, 0) == f && Configured(rules, 1) == Configured(prefix, 1);
  }

  /** The step of ConfigWordSlots that adds rule 1. */
  lemma SlotsAddRule1(rules: seq<(int, RuleFields)>)
    requires rules != [] && DistinctKeys(rules) && ConfigWord(rules).Success? && rules[|rules| - 1].0 == 1
    requires var prefix := rules[..|rules| - 1];
      ConfigWord(prefix).Success?
      && ConfigWord(prefix).value == RuleWord(Configured(prefix, 0)) + P192 * RuleWord(Configured(prefix, 1))
    ensures ConfigWord(rules).value == RuleWord(Configured(rules, 0)) + P192 * RuleWord(Configured(rules, 1))
  {
    var prefix := rules[..|rules| - 1];
    var (index, f) := rules[|rules| - 1];
    assert forall i :: 0 <= i < |rules| - 1 ==> prefix[i] == rules[i];
    var s0, s1 := RuleWord(Configured(prefix, 0)), RuleWord(Configured(prefix, 1));
    var v := ConfigWord(prefix).value;
    assert ConfigWord(rules) == Success(Bits.BitOr(v, Placed(RuleWord(f), index)));
    assert s1 == 0 by {
      UnconfiguredWord();
      assert forall i :: 0 <= i < |prefix| ==> prefix[i].0 != 1;
    }
    assert s0 < P192 by {
      RuleWordLayout(Configured(prefix, 0));
    }
    PlaceRule1(s0, f, index);
    assert Configured(rules, 1) == f && Configured(rules, 0) == Configured(prefix, 0);
  }

  /** OR-ing rule 0 into a word holding only rule 1 adds it in the low 192 bits. */
  lemma PlaceRule0(s1: nat, f: RuleFields, index: nat)
    requires index == 0
    ensures Bits.BitOr(P192 * s1, Placed(RuleWord(f), index)) == RuleWord(f) + P192 * s1
  {
    var w := RuleWord(f);
    assert w < Bits.Pow2(192) by { RuleWordLayout(f); Pow2At192(); }
    assert Placed(w, index) == w by { assert Bits.Pow2(index * 192) == 1; }
    assert P192 * s1 == s1 * Bits.Pow2(192) by { Pow2At192(); }
    Bits.OrDisjoint(s1, w, 192);
  }

  /** OR-ing rule 1 into a word holding only rule 0 adds it above bit 191. */
  lemma PlaceRule1(s0: nat, f: RuleFields, index: nat)
    requires s0 < P192 && index == 1
    ensures Bits.BitOr(s0 + P192 * 0, Placed(RuleWord(f), index)) == s0 + P192 * RuleWord(f)
  {
    Pow2At192();
    assert Bits.Pow2(index * 192) == P192;
    Bits.OrDisjointLow(s0, RuleWord(f), 192);
  }

  /** Divide by the scale below a field and reduce by its range: the field comes back. */
  lemma ReadField(v: nat, low: nat, scale: nat, field: nat, range: nat, high: nat)
    requires low < scale && field < range && v == low + scale * (field + range * high)
    ensures v / scale == field + range * high && (v / scale) % range == field
  {
    Bits.DivModUnique(v, scale, field + range * high, low);
    Bits.DivModUnique(field + range * high, range, high, field);
  }

  /** The three fields of a rule word placed at a given scale read back as the masked values. */
  lemma WordReadsBack(v: nat, low: nat, base: nat, f: RuleFields, high: nat)
    requires 0 <= low < base && v == low + base * (RuleWord(f) + P192 * high)
    ensures (v / base) % P32 == Masked(f.port, P32)
    ensures (v / (base * P32)) % P32 == Masked(f.ipv4Addr, P32)
    ensures (v / (base * P64)) % P128 == Masked(f.ipv6Addr, P128)
  {
    var m6, m4, mp := Masked(f.ipv6Addr, P128), Masked(f.ipv4Addr, P32), Masked(f.port, P32);
    RuleWordLayout(f);
    var q := RuleWord(f) + P192 * high;
    Bits.DivModUnique(v, base, q, low);
    assert q == mp + P32 * (m4 + P32 * (m6 + P128 * high));
    ReadField(q, mp, P32, m4, P32, m6 + P128 * high);
    assert q == (mp + P32 * m4) + P64 * (m6 + P128 * high);
    ReadField(q, mp + P32 * m4, P64, m6, P128, high);
    Bits.DivDiv(v, base, P32);
    Bits.DivDiv(v, base, P64);
  }

  /**
   * Every field of both rules reads back from the configuration word at
   * its offset: port at 192r, IPv4 address at 192r + 32, IPv6 address at
   * 192r + 64, and 0 for a rule or key the dictionary does not give.
   */
  lemma ConfigReadsBack(rules: seq<(int, RuleFields)>)
    requires DistinctKeys(rules) && ConfigWord(rules).Success?
    ensures var v, f0, f1 := ConfigWord(rules).value, Configured(rules, 0), Configured(rules, 1);
      && v % P32 == Masked(f0.port, P32)
      && (v / P32) % P32 == Masked(f0.ipv4Addr, P32)
      && (v / P64) % P128 == Masked(f0.ipv6Addr, P128)
      && (v / P192) % P32 == Masked(f1.port, P32)
      && (v / (P192 * P32)) % P32 == Masked(f1.ipv4Addr, P32)
      && (v / (P192 * P64)) % P128 == Masked(f1.ipv6Addr, P128)
      && v < P192 * P192
  {
    var v, f0, f1 := ConfigWord(rules).value, Configured(rules, 0), Configured(rules, 1);
    ConfigWordSlots(rules);
    RuleWordLayout(f0);
    RuleWordLayout(f1);
    WordReadsBack(v, 0, 1, f0, RuleWord(f1));
    WordReadsBack(v, RuleWord(f0), P192, f1, 0);
  }

  // ---------------------------------------------------------------------
  // create_rule_config

  /**
   * create_rule_config: a one-entry dictionary keyed by the rule index
   * whose rule has all three keys; a missing or empty address string
   * gives 0. The IPv6 conversion (the ipaddress module) is a parameter.
   */
  function CreateRuleConfig(ruleIndex: int, ipv4Addr: Option<string>, ipv6Addr: Option<string>, port: int,
                            ipv6ToInt: string -> int): (r: Result<seq<(int, RuleFields)>, ParseError>)
    ensures r.Failure? <==> ipv4Addr.Some? && ipv4Addr.value != "" && Ipv4StrToInt(ipv4Addr.value).Failure?
    ensures r.Success? ==> |r.value| == 1 && r.value[0].0 == ruleIndex && r.value[0].1.port == Some(port)
    ensures r.Success? ==> (ipv4Addr.None? || ipv4Addr.value == "") ==> r.value[0].1.ipv4Addr == Some(0)
    ensures r.Success? ==> (ipv6Addr.None? || ipv6Addr.value == "") ==> r.value[0].1.ipv6Addr == Some(0)
  {
    var v4 := if ipv4Addr.Some? && ipv4Addr.value != "" then Ipv4StrToInt(ipv4Addr.value) else Success(0);
    var v6 := if ipv6Addr.Some? && ipv6Addr.value != "" then ipv6ToInt(ipv6Addr.value) else 0;
    match v4
    case Failure(e) => Failure(e)
    case Success(a) => Success([(ruleIndex, RuleFields(Some(v6), Some(a), Some(port)))])
  }

  /** A configuration of one rule in slot 0 or 1 reads back that rule's fields, and 0 from the other slot. */
  lemma SingleRuleReadsBack(ruleIndex: nat, f: RuleFields)
    requires ruleIndex < 2
    ensures ConfigWord([(ruleIndex, f)]).Success?
    ensures var v, base, other := ConfigWord([(ruleIndex, f)]).value, (if ruleIndex == 0 then 1 else P192), (if ruleIndex == 0 then P192 else 1);
      && (v / base) % P32 == Masked(f.port, P32)
      && (v / (base * P32)) % P32 == Masked(f.ipv4Addr, P32)
      && (v / (base * P64)) % P128 == Masked(f.ipv6Addr, P128)
      && (v / other) % P32 == 0
  {
    var rules := [(ruleIndex as int, f)];
    ConfigReadsBack(rules);
    assert Configured(rules, ruleIndex) == f;
    assert Configured(rules, 1 - ruleIndex) == RuleFields(None, None, None);
  }

  /**
   * A rule made by create_rule_config from a dotted quad and a 32-bit port
   * and written by configure_rules reads back with that address and port
   * in its slot; the other slot stays 0.
   */
  lemma CreatedRuleReadsBack(ruleIndex: nat, a: nat, b: nat, c: nat, d: nat, port: nat, ipv6ToInt: string -> int)
    requires ruleIndex < 2 && a < 256 && b < 256 && c < 256 && d < 256 && port < P32
    ensures var r := CreateRuleConfig(ruleIndex, Some(Dotted(a, b, c, d)), None, port, ipv6ToInt);
      && r.Success? && ConfigWord(r.value).Success?
      && var v, base, other := ConfigWord(r.value).value, (if ruleIndex == 0 then 1 else P192), (if ruleIndex == 0 then P192 else 1);
      && (v / base) % P32 == port
      && (v / (base * P32)) % P32 == Quad(a, b, c, d)
      && (v / (base * P64)) % P128 == 0
      && (v / other) % P32 == 0
  {
    var f := RuleFields(Some(0), Some(Quad(a, b, c, d)), Some(port));
    CreatedDottedRule(ruleIndex, a, b, c, d, port, ipv6ToInt);
    SingleRuleReadsBack(ruleIndex, f);
    QuadBound(a, b, c, d);
  }

  lemma CreatedDottedRule(ruleIndex: int, a: nat, b: nat, c: nat, d: nat, port: int, ipv6ToInt: string -> int)
    requires a < 256 && b < 256 && c < 256 && d < 256
    ensures CreateRuleConfig(ruleIndex, Some(Dotted(a, b, c, d)), None, port, ipv6ToInt)
         == Success([(ruleIndex, RuleFields(Some(0), Some(Quad(a, b, c, d)), Some(port)))])
  {
    Ipv4StrToIntDotted(a, b, c, d);
    assert Dotted(a, b, c, d) != "" by {
      assert |Text.NatToString(a)| > 0;
    }
  }

  // ---------------------------------------------------------------------
  // TestResult

  class TestResult {
    const testName: string
    var passed: bool
    var errors: seq<string>
    var warnings: seq<string>
    var statistics: map<string, int>

    /** passed is cleared by the first error and never set again. */
    ghost predicate Valid()
      reads this
    {
      passed <==> errors == []
    }

    constructor (testName: string)
      ensures Valid() && this.testName == testName && passed
      ensures errors == [] && warnings == [] && statistics == map[]
    {
      this.testName := testName;
      passed := true;
      errors := [];
      warnings := [];
      statistics := map[];
    }

    method AddError(message: string)
      requires Valid()
      modifies this
      ensures Valid() && !passed
      ensures errors == old(errors) + [message] && warnings == old(warnings) && statistics == old(statistics)
    {
      errors := errors + [message];
      passed := false;
    }

    method AddWarning(message: string)
      requires Valid()
      modifies this
      ensures Valid() && passed == old(passed)
      ensures warnings == old(warnings) + [message] && errors == old(errors) && statistics == old(statistics)
    {
      warnings := warnings + [message];
    }

    /** add_statistics: dict.update, the new values overriding old ones under the same key. */
    method AddStatistics(stats: map<string, int>)
      requires Valid()
      modifies this
      ensures Valid() && passed == old(passed) && errors == old(errors) && warnings == old(warnings)
      ensures statistics.Keys == old(statistics).Keys + stats.Keys
      ensures forall k :: k in stats ==> statistics[k] == stats[k]
      ensures forall k :: k in old(statistics) && k !in stats ==> statistics[k] == old(statistics)[k]
    {
      statistics := statistics + stats;
    }

    /**
     * summary: "name: PASS" or "name: FAIL", then " (n errors)" when there
     * are errors and " (n warnings)" when there are warnings.
     */
    function Summary(): (r: string)
      reads this
      ensures |r| >= |testName| + 6 && r[..|testName| + 2] == testName + ": "
      ensures r[|testName| + 2..|testName| + 6] == (if passed then "PASS" else "FAIL")
      ensures |r| == |testName| + 6 <==> errors == [] && warnings == []
    {
      var head := testName + ": " + (if passed then "PASS" else "FAIL");
      var withErrors := if errors != [] then head + " (" + Text.NatToString(|errors|) + " errors)" else head;
      var full := if warnings != [] then withErrors + " (" + Text.NatToString(|warnings|) + " warnings)" else withErrors;
      assert full[..|head|] == head;
      full
    }

    /** The summary says PASS exactly when no error was added. */
    lemma SummaryReportsErrors()
      requires Valid()
      ensures Summary()[|testName| + 2..|testName| + 6] == "PASS" <==> errors == []
    {
    }
  }

  // ---------------------------------------------------------------------
  // The testbench's register access and output receiver.

  /** One output-side clock edge: the m_axis signals as sampled. */
  datatype OutputSample = OutputSample(tvalid: int, tready: int, tdata: nat, tkeep: nat, tlast: int, tuser: nat)

  /** A received beat: (tdata, tkeep, tlast, tuser) with tlast as a bool. */
  datatype Beat = Beat(tdata: nat, tkeep: nat, tlast: bool, tuser: nat)

  predicate Handshake(s: OutputSample)
  {
    s.tvalid == 1 && s.tready == 1
  }

  function BeatOf(s: OutputSample): Beat
  {
    Beat(s.tdata, s.tkeep, s.tlast != 0, s.tuser)
  }

  /** The beats captured on a run of edges: one per handshake, in order. */
  function Captures(samples: seq<OutputSample>): (r: seq<Beat>)
    ensures |r| <= |samples|
  {
    if samples == [] then []
    else
      var prefix := Captures(samples[..|samples| - 1]);
      if Handshake(samples[|samples| - 1]) then prefix + [BeatOf(samples[|samples| - 1])] else prefix
  }

  /** The number of edges since the last handshake: the idle counter receive_axi_stream_packet keeps. */
  function IdleRun(samples: seq<OutputSample>): (r: nat)
    ensures r <= |samples|
    ensures r < |samples| ==> Handshake(samples[|samples| - 1 - r])
    ensures forall k :: |samples| - r <= k < |samples| ==> !Handshake(samples[k])
  {
    if samples == [] || Handshake(samples[|samples| - 1]) then 0
    else IdleRun(samples[..|samples| - 1]) + 1
  }

  /** What receive_axi_stream_packet returns: the beats up to tlast, or None on timeout; or the samples ran out first. */
  datatype Reception = Received(beats: seq<Beat>) | TimedOut | SamplesExhausted

  /** A requested statistics key is unknown or differs; the first such key raises. */
  datatype StatisticsError = StatisticsMismatch(mismatch: StatisticsChecker.KeyMismatch)

  /**
   * read_statistics: the four 32-bit counters at bit offsets 0, 32, 64
   * and 96 of the status register, by name.
   */
  function ReadStatistics(statusReg: nat): (r: map<string, nat>)
    ensures r.Keys == {"total_packets", "dropped_packets", "rule0_hit_count", "rule1_hit_count"}
    ensures r["total_packets"] == statusReg % P32 && r["dropped_packets"] == (statusReg / P32) % P32
    ensures r["rule0_hit_count"] == (statusReg / P64) % P32
    ensures r["rule1_hit_count"] == (statusReg / (P64 * P32)) % P32
  {
    StatisticsChecker.StatsDict(StatisticsChecker.FromStatusReg(statusReg))
  }

  class FilterRxTestbench {
    /** The value last written to cfg_reg. */
    var cfgReg: nat
    var packetsSent: nat
    var packetsReceived: nat

    constructor ()
      ensures cfgReg == 0 && packetsSent == 0 && packetsReceived == 0
    {
      cfgReg := 0;
      packetsSent := 0;
      packetsReceived := 0;
    }

    /**
     * configure_rules: build the register value rule by rule in dictionary
     * order and write it; a negative rule index raises before the write.
     */
    method ConfigureRules(rules: seq<(int, RuleFields)>) returns (r: Outcome<ConfigError>)
      modifies this
      ensures r.Pass? <==> ConfigWord(rules).Success?
      ensures r.Pass? ==> cfgReg == ConfigWord(rules).value
      ensures r.Fail? ==> cfgReg == old(cfgReg) && r.error == ConfigWord(rules).error
      ensures packetsSent == old(packetsSent) && packetsReceived == old(packetsReceived)
    {
      var cfgValue := 0;
      var i := 0;
      while i < |rules|
        invariant 0 <= i <= |rules|
        invariant ConfigWord(rules[..i]) == Success(cfgValue)
      {
        assert rules[..i + 1][..i] == rules[..i];
        var (index, f) := rules[i];
        if index < 2 {
          if index < 0 {
            ConfigFailureSticks(rules, i + 1);
            return Fail(NegativeShift(index));
          }
          cfgValue := Bits.BitOr(cfgValue, Placed(RuleWord(f), index));
        }
        i := i + 1;
      }
      assert rules[..|rules|] == rules;
      cfgReg := cfgValue;
      return Pass;
    }

    /**
     * verify_statistics: check the given keys in order and raise at the
     * first one that is unknown or differs; keys not given are not checked.
     */
    method VerifyStatistics(statusReg: nat, expected: seq<(string, int)>) returns (r: Outcome<StatisticsError>)
      ensures r.Pass? <==> forall i :: 0 <= i < |expected| ==> StatisticsChecker.KeyAgrees(expected[i], ReadStatistics(statusReg))
      ensures r.Fail? ==>
        exists i :: 0 <= i < |expected|
          && (forall j :: 0 <= j < i ==> StatisticsChecker.KeyAgrees(expected[j], ReadStatistics(statusReg)))
          && !StatisticsChecker.KeyAgrees(expected[i], ReadStatistics(statusReg))
          && r.error == StatisticsMismatch(StatisticsChecker.Disagreement(expected[i], ReadStatistics(statusReg)))
    {
      var actual := ReadStatistics(statusReg);
      var i := 0;
      while i < |expected|
        invariant 0 <= i <= |expected|
        invariant forall j :: 0 <= j < i ==> StatisticsChecker.KeyAgrees(expected[j], actual)
      {
        var (counter, value) := expected[i];
        if counter !in actual {
          return Fail(StatisticsMismatch(StatisticsChecker.UnknownCounter(counter)));
        }
        if actual[counter] != value {
          return Fail(StatisticsMismatch(StatisticsChecker.ValueMismatch(counter, value, actual[counter])));
        }
        i := i + 1;
      }
      return Pass;
    }

    /**
     * send_axi_stream_packet: drive the beats in order, each held until
     * tready, up to and including the first with tlast, after which the
     * inputs are cleared; the packet is counted in every case, even with no
     * tlast beat or no beat at all.
     */
    method SendAxiStreamPacket(beats: seq<Beat>) returns (driven: seq<Beat>, cleared: bool)
      modifies this`packetsSent
      ensures driven <= beats
      ensures forall k :: 0 <= k < |driven| - 1 ==> !driven[k].tlast
      ensures cleared <==> exists k :: 0 <= k < |beats| && beats[k].tlast
      ensures cleared ==> driven != [] && driven[|driven| - 1].tlast
      ensures !cleared ==> driven == beats
      ensures packetsSent == old(packetsSent) + 1
    {
      driven := [];
      cleared := false;
      var i := 0;
      while i < |beats| && !cleared
        invariant 0 <= i <= |beats|
        invariant driven == beats[..i]
        invariant !cleared ==> forall k :: 0 <= k < i ==> !beats[k].tlast
        invariant cleared ==> 0 < i && beats[i - 1].tlast && forall k :: 0 <= k < i - 1 ==> !beats[k].tlast
      {
        driven := driven + [beats[i]];
        cleared := beats[i].tlast;
        i := i + 1;
      }
      if !cleared {
        assert beats[..i] == beats;
      }
      packetsSent := packetsSent + 1;
    }

    /**
     * receive_axi_stream_packet: receive one packet from the output
     * samples and count it when it arrives.
     */
    method ReceiveAxiStreamPacket(timeoutCycles: int, samples: seq<OutputSample>) returns (r: Reception, used: nat)
      modifies this`packetsReceived
      ensures used <= |samples|
      ensures forall k :: 0 <= k < used ==> IdleRun(samples[..k]) < timeoutCycles
      ensures forall k :: 0 <= k < used - 1 ==> !(Handshake(samples[k]) && samples[k].tlast != 0)
      ensures r.Received? ==> 0 < used && Handshake(samples[used - 1]) && samples[used - 1].tlast != 0
                              && r.beats == Captures(samples[..used])
      ensures r.TimedOut? ==> IdleRun(samples[..used]) >= timeoutCycles
      ensures r.SamplesExhausted? ==> used == |samples| && IdleRun(samples) < timeoutCycles
      ensures r.SamplesExhausted? ==> forall k :: 0 <= k < |samples| ==> !(Handshake(samples[k]) && samples[k].tlast != 0)
      ensures packetsReceived == old(packetsReceived) + (if r.Received? then 1 else 0)
    {
      r, used := CollectBeats(timeoutCycles, samples);
      if r.Received? {
        packetsReceived := packetsReceived + 1;
      }
    }
  }

  /**
   * The loop of receive_axi_stream_packet: collect the beat of every
   * handshake edge, stop at the first tlast beat, and give up once
   * timeout_cycles edges in a row have had no handshake; samples[i] is
   * edge i.
   */
  method CollectBeats(timeoutCycles: int, samples: seq<OutputSample>) returns (r: Reception, used: nat)
      ensures used <= |samples|
      ensures forall k :: 0 <= k < used ==> IdleRun(samples[..k]) < timeoutCycles
      ensures forall k :: 0 <= k < used - 1 ==> !(Handshake(samples[k]) && samples[k].tlast != 0)
      ensures r.Received? ==> 0 < used && Handshake(samples[used - 1]) && samples[used - 1].tlast != 0
                              && r.beats == Captures(samples[..used])
      ensures r.TimedOut? ==> IdleRun(samples[..used]) >= timeoutCycles
      ensures r.SamplesExhausted? ==> used == |samples| && IdleRun(samples) < timeoutCycles
      ensures r.SamplesExhausted? ==> forall k :: 0 <= k < |samples| ==> !(Handshake(samples[k]) && samples[k].tlast != 0)
  {
    var beats: seq<Beat> := [];
    var timeoutCount := 0;
    used := 0;
    while timeoutCount < timeoutCycles
      invariant used <= |samples|
      invariant beats == Captures(samples[..used]) && timeoutCount == IdleRun(samples[..used])
      invariant Quiet(samples, used, timeoutCycles)
      invariant forall k :: 0 <= k < used ==> !(Handshake(samples[k]) && samples[k].tlast != 0)
      decreases |samples| - used
    {
      if used == |samples| {
        assert samples[..used] == samples;
        return SamplesExhausted, used;
      }
      var s := samples[used];
      PrefixStep(samples, used);
      QuietStep(samples, used, timeoutCycles);
      used := used + 1;
      if Handshake(s) {
        beats := beats + [BeatOf(s)];
        if s.tlast != 0 {
          return Received(beats), used;
        }
        timeoutCount := 0;
      } else {
        timeoutCount := timeoutCount + 1;
      }
    }
    return TimedOut, used;
  }

  /** No timeout fired on the first n edges. */
  predicate Quiet(samples: seq<OutputSample>, n: nat, timeoutCycles: int)
    requires n <= |samples|
  {
    forall k :: 0 <= k < n ==> IdleRun(samples[..k]) < timeoutCycles
  }

  lemma QuietStep(samples: seq<OutputSample>, n: nat, timeoutCycles: int)
    requires n < |samples| && Quiet(samples, n, timeoutCycles) && IdleRun(samples[..n]) < timeoutCycles
    ensures Quiet(samples, n + 1, timeoutCycles)
  {
  }

  /** One more edge: a handshake adds its beat and clears the idle run, any other edge lengthens it. */
  lemma PrefixStep(samples: seq<OutputSample>, n: nat)
    requires n < |samples|
    ensures Captures(samples[..n + 1]) == Captures(samples[..n]) + (if Handshake(samples[n]) then [BeatOf(samples[n])] else [])
    ensures IdleRun(samples[..n + 1]) == if Handshake(samples[n]) then 0 else IdleRun(samples[..n]) + 1
  {
    assert samples[..n + 1][..n] == samples[..n];
  }

  /** Once a prefix of the rules fails, the whole configuration fails the same way. */
  lemma {:induction false} ConfigFailureSticks(rules: seq<(int, RuleFields)>, n: nat)
    requires n <= |rules| && ConfigWord(rules[..n]).Failure?
    ensures ConfigWord(rules) == ConfigWord(rules[..n])
    decreases |rules| - n
  {
    if n < |rules| {
      assert rules[..n + 1][..n] == rules[..n];
      ConfigFailureSticks(rules, n + 1);
    } else {
      assert rules[..n] == rules;
    }
  }
}
