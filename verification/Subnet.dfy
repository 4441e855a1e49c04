// IPv4 addresses as text and as 32-bit words, the hosts of a subnet that the discovery client
// probes, and the broadcast address computed octet by octet.
//
// The source's bitwise operators work on 32-bit words; a word is written here as the unsigned
// number that `>>> 0` makes of it.

module Subnet {
  import opened Basics
  import opened Bits
  import opened Text

  type Octets = s: seq<byte> | |s| == 4 witness [0, 0, 0, 0]

  // The usual reading of four octets, used as the reference for the shifts and masks below.
  function Word(o: Octets): nat {
    ((o[0] as nat * 0x100 + o[1] as nat) * 0x100 + o[2] as nat) * 0x100 + o[3] as nat
  }

  function OctetsOf(w: uint32): Octets {
    [w / 0x100_0000, w / 0x1_0000 % 0x100, w / 0x100 % 0x100, w % 0x100]
  }

  lemma WordBound(o: Octets)
    ensures Word(o) < 0x1_0000_0000
  {
  }

  lemma OctetsOfWord(o: Octets)
    ensures Word(o) < 0x1_0000_0000 && OctetsOf(Word(o)) == o
  {
    var h, l := o[0] as nat * 0x100 + o[1] as nat, o[2] as nat * 0x100 + o[3] as nat;
    assert Word(o) == h * 0x1_0000 + l;
    assert Word(o) / 0x100_0000 == o[0] as nat;
    assert Word(o) / 0x1_0000 == h;
    assert Word(o) / 0x100 == h * 0x100 + o[2] as nat;
  }

  lemma WordOfOctets(w: uint32)
    ensures Word(OctetsOf(w)) == w
  {
    var h := w / 0x100;
    var g := h / 0x100;
    assert OctetsOf(w) == [g / 0x100, g % 0x100, h % 0x100, w % 0x100];
  }

  // ----- text to word

  function Parts(value: string): (parts: seq<string>)
    ensures parts != []
  {
    Split(value, '.')
  }

  function Ipv4Octets(value: string): Option<Octets> {
    var raw := Parts(value);
    if |raw| != 4 || exists i :: 0 <= i < 4 && !IsNumeral(raw[i]) then None
    else if exists i :: 0 <= i < 4 && NumeralValue(raw[i]) > 255 then None
    else Some([NumeralValue(raw[0]), NumeralValue(raw[1]), NumeralValue(raw[2]), NumeralValue(raw[3])])
  }

  function Ipv4ToInt(value: string): Option<nat> {
    match Ipv4Octets(value)
    case None => None
    case Some(o) => Some(Or(Or(Or(Shl(o[0], 24), Shl(o[1], 16)), Shl(o[2], 8)), o[3]))
  }

  function Dotted(o: Octets): string {
    Join([Numeral(o[0]), Numeral(o[1]), Numeral(o[2]), Numeral(o[3])], '.')
  }

  // `w & 255`
  function LowOctet(w: nat): byte {
    LowByte(w);
    And(w, 0xff)
  }

  lemma LowOctetIs(w: nat)
    ensures LowOctet(w) == w % 0x100
  {
    LowByte(w);
  }

  // w >>> 24, w >>> 16, w >>> 8 and w
  function ShiftedRight(w: uint32, i: nat): nat
    requires i < 4
  {
    if i == 0 then w / 0x100_0000 else if i == 1 then w / 0x1_0000 else if i == 2 then w / 0x100 else w
  }

  function ShiftedOctets(w: uint32): Octets {
    seq(4, i requires 0 <= i < 4 => LowOctet(ShiftedRight(w, i)))
  }

  function IntToIpv4(value: uint32): string { Dotted(ShiftedOctets(value)) }

  // x << 16 is (x << 8) << 8, and so on.
  lemma ShlValues(x: nat)
    ensures Shl(x, 8) == x * 0x100 && Shl(x, 16) == x * 0x1_0000 && Shl(x, 24) == x * 0x100_0000
  {
    Pow2Values();
    ShlIsMultiplication(x, 8);
    ShlIsMultiplication(x, 16);
    ShlIsMultiplication(x, 24);
  }

  /** Shifting the octets into place and joining them with `|` is positional notation. */
  lemma OctetsToWord(o: Octets)
    ensures Or(Or(Or(Shl(o[0], 24), Shl(o[1], 16)), Shl(o[2], 8)), o[3]) == Word(o)
  {
    Pow2Values();
    ShlValues(o[0]);
    ShlValues(o[1]);
    ShlValues(o[2]);
    OrIsSum(o[0], Shl(o[1], 16), 24);
    var high := o[0] as nat * 0x100 + o[1] as nat;
    ShlValues(high);
    OrIsSum(high, Shl(o[2], 8), 16);
    var upper := high * 0x100 + o[2] as nat;
    ShlValues(upper);
    OrIsSum(upper, o[3], 8);
  }

  lemma MasksAreOctets(w: uint32)
    ensures ShiftedOctets(w) == OctetsOf(w)
  {
    forall i | 0 <= i < 4 ensures ShiftedOctets(w)[i] == OctetsOf(w)[i] {
      LowOctetIs(ShiftedRight(w, i));
    }
  }

  lemma Ipv4ToIntIsWord(value: string)
    requires Ipv4Octets(value).Some?
    ensures Ipv4ToInt(value) == Some(Word(Ipv4Octets(value).value))
    ensures Ipv4ToInt(value).value < 0x1_0000_0000
  {
    OctetsToWord(Ipv4Octets(value).value);
    WordBound(Ipv4Octets(value).value);
  }

  // ----- round trips

  lemma NumeralHasNoDot(n: nat)
    ensures '.' !in Numeral(n)
  {
    NumeralRoundTrip(n);
    assert forall i :: 0 <= i < |Numeral(n)| ==> IsDigit(Numeral(n)[i]);
  }

  lemma DottedParses(o: Octets)
    ensures Ipv4Octets(Dotted(o)) == Some(o)
  {
    var parts := [Numeral(o[0]), Numeral(o[1]), Numeral(o[2]), Numeral(o[3])];
    forall i | 0 <= i < 4
      ensures '.' !in parts[i] && IsNumeral(parts[i]) && NumeralValue(parts[i]) == o[i]
    {
      NumeralHasNoDot(o[i]);
      NumeralRoundTrip(o[i]);
    }
    SplitJoin(parts, '.');
    assert Parts(Dotted(o)) == parts;
    assert [NumeralValue(parts[0]), NumeralValue(parts[1]), NumeralValue(parts[2]), NumeralValue(parts[3])] == o;
  }

  /** Every word survives being written as an address and read back. */
  lemma IntRoundTrip(w: uint32)
    ensures Ipv4ToInt(IntToIpv4(w)) == Some(w)
  {
    MasksAreOctets(w);
    DottedParses(OctetsOf(w));
    Ipv4ToIntIsWord(IntToIpv4(w));
    WordOfOctets(w);
  }

  // No part has needless zeros in front.
  predicate IsCanonicalIpv4(value: string) {
    Ipv4Octets(value).Some? && forall i :: 0 <= i < 4 ==> IsCanonical(Parts(value)[i])
  }

  /** An address that is read is written back as it was exactly when it is in canonical form. */
  lemma TextRoundTrip(value: string)
    requires Ipv4Octets(value).Some?
    ensures Ipv4ToInt(value).Some? && Ipv4ToInt(value).value < 0x1_0000_0000
    ensures IntToIpv4(Ipv4ToInt(value).value) == value <==> IsCanonicalIpv4(value)
  {
    var o, raw := Ipv4Octets(value).value, Parts(value);
    Ipv4ToIntIsWord(value);
    OctetsOfWord(o);
    MasksAreOctets(Word(o));
    JoinSplit(value, '.');
    if IsCanonicalIpv4(value) {
      ValueRoundTrip(raw[0]);
      ValueRoundTrip(raw[1]);
      ValueRoundTrip(raw[2]);
      ValueRoundTrip(raw[3]);
      assert raw == [Numeral(o[0]), Numeral(o[1]), Numeral(o[2]), Numeral(o[3])];
    } else if Dotted(o) == value {
      DottedIsCanonical(o);
    }
  }

  lemma DottedIsCanonical(o: Octets)
    ensures IsCanonicalIpv4(Dotted(o))
  {
    var parts := [Numeral(o[0]), Numeral(o[1]), Numeral(o[2]), Numeral(o[3])];
    forall i | 0 <= i < 4
      ensures '.' !in parts[i] && IsCanonical(parts[i])
    {
      NumeralHasNoDot(o[i]);
      NumeralRoundTrip(o[i]);
    }
    SplitJoin(parts, '.');
    DottedParses(o);
  }

  // ----- the hosts of a subnet

  // `~m` on a word.
  function Not32(m: uint32): uint32 {
    Pow2Values();
    Not(m, 32)
  }

  function Network(a: uint32, m: uint32): uint32 {
    WordBitwise(AND, a, m);
    And(a, m)
  }

  function Broadcast(a: uint32, m: uint32): uint32 {
    WordBitwise(OR, Network(a, m), Not32(m));
    Or(Network(a, m), Not32(m))
  }

  lemma WordBitwise(op: Op, a: uint32, b: uint32)
    ensures Bitwise(op, a, b) < 0x1_0000_0000
  {
    Pow2Values();
    BitwiseBound(op, a, b, 32);
  }

  function FirstHost(network: uint32, broadcast: uint32): (first: nat)
    ensures network <= first
  {
    if broadcast - network - 1 > 0 then network + 1 else network
  }

  function LastHost(network: uint32, broadcast: uint32): (last: nat)
    ensures last <= broadcast
  {
    if broadcast - network - 1 > 0 then broadcast - 1 else broadcast
  }

  function Range(first: nat, last: uint32): seq<uint32> {
    if last < first then [] else seq(last - first + 1, i requires 0 <= i < last - first + 1 => first + i)
  }

  // The words probed: a range, or nothing when the range is larger than allowed.
  function ProbedWords(a: uint32, m: uint32, maxHosts: int): seq<uint32> {
    var network, broadcast := Network(a, m), Broadcast(a, m);
    var words := Range(FirstHost(network, broadcast), LastHost(network, broadcast));
    if |words| > maxHosts then [] else words
  }

  function Written(words: seq<uint32>): seq<string> {
    seq(|words|, i requires 0 <= i < |words| => IntToIpv4(words[i]))
  }

  function ProbedAddresses(address: string, netmask: string, maxHosts: int): seq<string> {
    if Ipv4Octets(address).None? || Ipv4Octets(netmask).None? || maxHosts <= 0 then []
    else
      Ipv4ToIntIsWord(address);
      Ipv4ToIntIsWord(netmask);
      Written(ProbedWords(Ipv4ToInt(address).value, Ipv4ToInt(netmask).value, maxHosts))
  }

  method GetSubnetProbeAddresses(address: string, netmask: string, maxHosts: int) returns (addresses: seq<string>)
    ensures addresses == ProbedAddresses(address, netmask, maxHosts)
  {
    var addressInt := Ipv4ToInt(address);
    var maskInt := Ipv4ToInt(netmask);
    if addressInt.None? || maskInt.None? || maxHosts <= 0 {
      return [];
    }
    Ipv4ToIntIsWord(address);
    Ipv4ToIntIsWord(netmask);
    addresses := ProbeAddresses(Network(addressInt.value, maskInt.value), Broadcast(addressInt.value, maskInt.value),
                                maxHosts);
  }

  method ProbeAddresses(network: uint32, broadcast: uint32, maxHosts: int) returns (addresses: seq<string>)
    requires maxHosts > 0
    ensures var words := Range(FirstHost(network, broadcast), LastHost(network, broadcast));
      addresses == Written(if |words| > maxHosts then [] else words)
  {
    var usableHosts := Max(0, broadcast - network - 1);
    var first := if usableHosts > 0 then network + 1 else network;
    var last := if usableHosts > 0 then broadcast - 1 else broadcast;
    var hostCount := if last >= first then last - first + 1 else 0;
    if hostCount == 0 || hostCount > maxHosts {
      return [];
    }
    addresses := [];
    var current := first;
    while current <= last
      invariant first <= current <= last + 1
      invariant |addresses| == current - first && WrittenFrom(addresses, first)
    {
      addresses := addresses + [IntToIpv4(current)];
      current := current + 1;
    }
    RangeIsWritten(addresses, first, last);
  }

  predicate WrittenFrom(addresses: seq<string>, first: nat) {
    forall i :: 0 <= i < |addresses| ==> first + i < 0x1_0000_0000 && addresses[i] == IntToIpv4(first + i)
  }

  lemma RangeIsWritten(addresses: seq<string>, first: nat, last: uint32)
    requires first <= last && |addresses| == last - first + 1 && WrittenFrom(addresses, first)
    ensures addresses == Written(Range(first, last))
  {
  }

  // ----- what the range means for a mask of p leading ones

  function PrefixMask(p: nat): uint32
    requires p <= 32
  {
    Pow2Values();
    Pow2Monotone(32 - p, 32);
    Pow2(32) - Pow2(32 - p)
  }

  lemma Division(a: nat, d: nat)
    requires d > 0
    ensures a / d >= 0 && 0 <= a % d < d && a == (a / d) * d + a % d
  {
  }

  function NetworkPart(a: nat, hostBits: nat): nat {
    Division(a, Pow2(hostBits));
    a / Pow2(hostBits)
  }

  function HostPart(a: nat, hostBits: nat): nat {
    Division(a, Pow2(hostBits));
    a % Pow2(hostBits)
  }

  // The hosts that share the network part of a; in a network of at least four addresses the first
  // and the last are not hosts.
  predicate IsHost(x: nat, a: nat, hostBits: nat) {
    NetworkPart(x, hostBits) == NetworkPart(a, hostBits)
    && (hostBits >= 2 ==> 0 < HostPart(x, hostBits) < Pow2(hostBits) - 1)
  }

  function HostCount(hostBits: nat): (count: int)
    ensures count > 0
  {
    if hostBits >= 2 then (assert Pow2(hostBits) == 4 * Pow2(hostBits - 2); Pow2(hostBits) - 2) else Pow2(hostBits)
  }

  lemma ProductAtLeast(k: nat, d: nat)
    requires k >= 1
    ensures k * d >= d
  {
  }

  lemma Difference(x: nat, y: nat, d: nat)
    ensures x * d - y * d == (x - y) * d
  {
  }

  // The multiples of d and the remainder determine each other.
  lemma DivisionUnique(w: nat, h: nat, v: nat, g: nat, d: nat)
    requires h < d && g < d && w * d + h == v * d + g
    ensures w == v && h == g
  {
    Difference(w, v, d);
    Difference(v, w, d);
    if w > v {
      ProductAtLeast(w - v, d);
    } else if v > w {
      ProductAtLeast(v - w, d);
    }
  }

  lemma PartsOfWord(a: nat, hostBits: nat)
    ensures a == NetworkPart(a, hostBits) * Pow2(hostBits) + HostPart(a, hostBits)
    ensures HostPart(a, hostBits) < Pow2(hostBits)
  {
    Division(a, Pow2(hostBits));
  }

  lemma PrefixMaskIs(p: nat)
    requires p <= 32
    ensures PrefixMask(p) == Shl(Pow2(p) - 1, 32 - p) && Not32(PrefixMask(p)) == Pow2(32 - p) - 1
  {
    Pow2Add(p, 32 - p);
    ShlIsMultiplication(Pow2(p) - 1, 32 - p);
    OneLess(Pow2(p), Pow2(32 - p));
  }

  lemma OneLess(x: nat, d: nat)
    ensures (x - 1) * d == x * d - d
  {
  }

  lemma NetworkPartBound(a: uint32, p: nat)
    requires p <= 32
    ensures NetworkPart(a, 32 - p) < Pow2(p)
  {
    Pow2Values();
    Pow2Add(p, 32 - p);
    PartsOfWord(a, 32 - p);
    if NetworkPart(a, 32 - p) >= Pow2(p) {
      MonotoneProduct(Pow2(p), NetworkPart(a, 32 - p), Pow2(32 - p));
    }
  }

  lemma MonotoneProduct(x: nat, y: nat, d: nat)
    requires x <= y
    ensures x * d <= y * d
  {
  }

  lemma NetworkIs(a: uint32, p: nat)
    requires p <= 32
    ensures Network(a, PrefixMask(p)) == NetworkPart(a, 32 - p) * Pow2(32 - p)
  {
    var q := 32 - p;
    PrefixMaskIs(p);
    PartsOfWord(a, q);
    NetworkPartBound(a, p);
    AndWithMask(NetworkPart(a, q), HostPart(a, q), p, q);
  }

  lemma AndWithMask(w: nat, h: nat, p: nat, q: nat)
    requires w < Pow2(p) && h < Pow2(q)
    ensures And(w * Pow2(q) + h, Shl(Pow2(p) - 1, q)) == w * Pow2(q)
  {
    ShlIsMultiplication(w, q);
    BitwiseSplit(AND, w, h, Pow2(p) - 1, 0, q);
    AndOnes(w, p);
    AndZero(h);
  }

  lemma BroadcastIs(a: uint32, p: nat)
    requires p <= 32
    ensures Broadcast(a, PrefixMask(p)) == NetworkPart(a, 32 - p) * Pow2(32 - p) + (Pow2(32 - p) - 1)
  {
    NetworkIs(a, p);
    PrefixMaskIs(p);
    OrWithOnes(NetworkPart(a, 32 - p), 32 - p);
  }

  lemma OrWithOnes(w: nat, q: nat)
    ensures Or(w * Pow2(q), Pow2(q) - 1) == w * Pow2(q) + (Pow2(q) - 1)
  {
    ShlIsMultiplication(w, q);
    OrIsSum(w, Pow2(q) - 1, q);
  }

  predicate StrictlyIncreasing(words: seq<uint32>) {
    forall i, j :: 0 <= i < j < |words| ==> words[i] < words[j]
  }

  // One address at each end of a network of at least four is not a host.
  function Margin(hostBits: nat): nat { if hostBits >= 2 then 1 else 0 }

  lemma HostCountIs(hostBits: nat)
    ensures HostCount(hostBits) == Pow2(hostBits) - 2 * Margin(hostBits)
  {
  }

  lemma HostRange(a: uint32, p: nat)
    requires p <= 32
    ensures var n, b := Network(a, PrefixMask(p)), Broadcast(a, PrefixMask(p));
      FirstHost(n, b) == n + Margin(32 - p) && LastHost(n, b) == n + Margin(32 - p) + HostCount(32 - p) - 1
  {
    NetworkIs(a, p);
    BroadcastIs(a, p);
    HostCountIs(32 - p);
    Pow2Small(32 - p);
  }

  lemma Pow2Small(q: nat)
    ensures q < 2 ==> 1 <= Pow2(q) <= 2
    ensures q >= 2 ==> Pow2(q) >= 4
  {
    if q >= 2 {
      assert Pow2(q) == 4 * Pow2(q - 2);
    } else {
      assert Pow2(0) == 1 && Pow2(1) == 2;
    }
  }

  lemma IsHostIsRange(x: nat, a: uint32, p: nat)
    requires p <= 32
    ensures var first := Network(a, PrefixMask(p)) + Margin(32 - p);
      IsHost(x, a, 32 - p) <==> first <= x < first + HostCount(32 - p)
  {
    var q := 32 - p;
    NetworkIs(a, p);
    HostCountIs(q);
    PartsOfWord(x, q);
    Pow2Small(q);
    var w, d := NetworkPart(a, q), Pow2(q);
    if w * d <= x < w * d + d {
      DivisionUnique(w, x - w * d, NetworkPart(x, q), HostPart(x, q), d);
    }
  }

  /** For a mask of p leading ones the words probed are exactly the hosts of the subnet, in strictly
      increasing order: 2^(32-p) - 2 of them for p <= 30, two for p = 31, one for p = 32; none when
      that is more than allowed. */
  lemma SubnetIsEnumerated(a: uint32, p: nat, maxHosts: int)
    requires p <= 32
    ensures var words := ProbedWords(a, PrefixMask(p), maxHosts);
      if HostCount(32 - p) > maxHosts then words == []
      else |words| == HostCount(32 - p) && StrictlyIncreasing(words)
           && forall x: uint32 :: x in words <==> IsHost(x, a, 32 - p)
  {
    HostRange(a, p);
    var words := ProbedWords(a, PrefixMask(p), maxHosts);
    var first := Network(a, PrefixMask(p)) + Margin(32 - p);
    if HostCount(32 - p) <= maxHosts {
      forall x: uint32
        ensures x in words <==> IsHost(x, a, 32 - p)
      {
        IsHostIsRange(x, a, p);
        if first <= x < first + HostCount(32 - p) {
          assert words[x - first] == x;
        }
      }
    }
  }

  /** For any mask, contiguous or not: what is probed lies strictly between network and broadcast address
      if anything does, and is both of them if not; each once, in order, or nothing if that is too much. */
  lemma AnyMaskIsEnumerated(a: uint32, m: uint32, maxHosts: int)
    ensures var n, b, words := Network(a, m), Broadcast(a, m), ProbedWords(a, m, maxHosts);
      var count := if b - n >= 2 then b - n - 1 else b - n + 1;
      if count > maxHosts || count < 0 then words == []
      else |words| == count && StrictlyIncreasing(words)
           && forall x: uint32 :: x in words <==> if b - n >= 2 then n < x < b else n <= x <= b
  {
    var n, b := Network(a, m), Broadcast(a, m);
    var first, last := FirstHost(n, b), LastHost(n, b);
    forall x: uint32
      ensures x in Range(first, last) <==> first <= x <= last
    {
      if first <= x <= last {
        assert Range(first, last)[x - first] == x;
      }
    }
  }

  /** The addresses written for a subnet are distinct, and reading them gives back its hosts. */
  lemma AddressesAreHosts(words: seq<uint32>, i: nat, j: nat)
    requires i < j < |words| && StrictlyIncreasing(words)
    ensures Written(words)[i] != Written(words)[j]
    ensures Ipv4ToInt(Written(words)[i]) == Some(words[i])
  {
    IntRoundTrip(words[i]);
    IntRoundTrip(words[j]);
  }

  // Read back, the texts are strictly increasing words.
  predicate Ascending(texts: seq<string>) {
    (forall i :: 0 <= i < |texts| ==> Ipv4ToInt(texts[i]).Some?)
    && forall i, j :: 0 <= i < j < |texts| ==> Ipv4ToInt(texts[i]).value < Ipv4ToInt(texts[j]).value
  }

  // The text is an address as it is written, and its word is a host.
  predicate IsHostText(text: string, a: nat, hostBits: nat) {
    IsCanonicalIpv4(text) && Ipv4ToInt(text).Some? && IsHost(Ipv4ToInt(text).value, a, hostBits)
  }

  lemma WrittenAscends(words: seq<uint32>)
    requires StrictlyIncreasing(words)
    ensures Ascending(Written(words))
  {
    forall i | 0 <= i < |words|
      ensures Ipv4ToInt(Written(words)[i]) == Some(words[i])
    {
      IntRoundTrip(words[i]);
    }
  }

  lemma WrittenHas(words: seq<uint32>, text: string)
    ensures text in Written(words) <==> IsCanonicalIpv4(text) && Ipv4ToInt(text).Some? && Ipv4ToInt(text).value in words
  {
    if text in Written(words) {
      var i :| 0 <= i < |words| && text == IntToIpv4(words[i]);
      IntRoundTrip(words[i]);
      TextRoundTrip(text);
    }
    if IsCanonicalIpv4(text) && Ipv4ToInt(text).Some? && Ipv4ToInt(text).value in words {
      TextRoundTrip(text);
      var i :| 0 <= i < |words| && words[i] == Ipv4ToInt(text).value;
      assert Written(words)[i] == text;
    }
  }

  /** From texts to texts: for an address and a mask of p leading ones the list holds exactly the
      canonical texts of the subnet's hosts, in increasing order and hence each once; it is empty
      when there are more than allowed. */
  lemma HostTextsAreEnumerated(address: string, netmask: string, p: nat, maxHosts: int)
    requires Ipv4Octets(address).Some? && Ipv4Octets(netmask).Some? && p <= 32 && Ipv4ToInt(netmask) == Some(PrefixMask(p))
    ensures var (a, texts) := (Ipv4ToInt(address).value, ProbedAddresses(address, netmask, maxHosts));
      if HostCount(32 - p) > maxHosts then texts == []
      else |texts| == HostCount(32 - p) && Ascending(texts) && forall h :: h in texts <==> IsHostText(h, a, 32 - p)
  {
    Ipv4ToIntIsWord(address);
    WordsToTexts(ProbedWords(Ipv4ToInt(address).value, PrefixMask(p), maxHosts), Ipv4ToInt(address).value, p, maxHosts);
  }

  lemma WordsToTexts(words: seq<uint32>, a: uint32, p: nat, maxHosts: int)
    requires p <= 32 && words == ProbedWords(a, PrefixMask(p), maxHosts)
    ensures if HostCount(32 - p) > maxHosts then Written(words) == []
      else |Written(words)| == HostCount(32 - p) && Ascending(Written(words))
           && forall h :: h in Written(words) <==> IsHostText(h, a, 32 - p)
  {
    SubnetIsEnumerated(a, p, maxHosts);
    if HostCount(32 - p) <= maxHosts {
      WrittenAscends(words);
      WrittenHosts(words, a, 32 - p);
    }
  }

  lemma WrittenHosts(words: seq<uint32>, a: uint32, hostBits: nat)
    requires forall x: uint32 :: x in words <==> IsHost(x, a, hostBits)
    ensures forall h :: h in Written(words) <==> IsHostText(h, a, hostBits)
  {
    forall h
      ensures h in Written(words) <==> IsHostText(h, a, hostBits)
    {
      WrittenHas(words, h);
      HostOrNot(words, a, hostBits, h);
    }
  }

  lemma HostOrNot(words: seq<uint32>, a: uint32, hostBits: nat, text: string)
    requires forall x: uint32 :: x in words <==> IsHost(x, a, hostBits)
    ensures IsCanonicalIpv4(text) && Ipv4ToInt(text).Some? && Ipv4ToInt(text).value in words
            <==> IsHostText(text, a, hostBits)
  {
    if IsCanonicalIpv4(text) {
      Ipv4ToIntIsWord(text);
    }
  }

  // ----- the broadcast address, octet by octet

  // One octet of the broadcast address, `(part | (~mask & 255)) & 255`.
  function BroadcastOctet(part: byte, mask: byte): byte { LowOctet(Or(part, LowOctet(Not32(mask)))) }

  // `number` is the language's conversion of a text to an integer (None for anything else).
  function ParseIpv4Address(value: string, number: string -> Option<int>): Option<Octets> {
    var parts := Parts(value);
    if |parts| != 4 then None
    else if exists i :: 0 <= i < 4 && (number(parts[i]).None? || !(0 <= number(parts[i]).value <= 255)) then None
    else Some([number(parts[0]).value, number(parts[1]).value, number(parts[2]).value, number(parts[3]).value])
  }

  function ToDiscoveryBroadcastAddress(address: string, netmask: string, number: string -> Option<int>): string {
    match (ParseIpv4Address(address, number), ParseIpv4Address(netmask, number))
    case (Some(a), Some(m)) => Dotted(BroadcastOctets(a, m))
    case _ => "255.255.255.255"
  }

  /** When either text is no address of four octets, the broadcast goes to everyone. */
  lemma UnreadableIsEveryone(address: string, netmask: string, number: string -> Option<int>)
    requires ParseIpv4Address(address, number).None? || ParseIpv4Address(netmask, number).None?
    ensures ToDiscoveryBroadcastAddress(address, netmask, number) == Dotted([255, 255, 255, 255])
  {
    NumeralOf255();
    assert Dotted([255, 255, 255, 255]) == Join(["255", "255", "255", "255"], '.');
  }

  lemma NumeralOf255()
    ensures Numeral(255) == "255"
  {
    assert Numeral(25) == "25";
  }

  // (a & m) | ~m is a | ~m.
  lemma {:induction false} NetworkDoesNotMatter(a: nat, m: nat, k: nat)
    requires a < Pow2(k) && m < Pow2(k)
    ensures Or(And(a, m), Not(m, k)) == Or(a, Not(m, k))
  {
    if k > 0 {
      NetworkDoesNotMatter(a / 2, m / 2, k - 1);
      NotUnfold(m, k);
      BitwiseUnfold(AND, a, m);
      BitwiseUnfold(OR, And(a, m), Not(m, k));
      BitwiseUnfold(OR, a, Not(m, k));
    }
  }

  lemma NotUnfold(m: nat, k: nat)
    requires k > 0 && m < Pow2(k)
    ensures Not(m, k) / 2 == Not(m / 2, k - 1) && Not(m, k) % 2 == 1 - m % 2
  {
  }

  // `|` acts on each octet by itself.
  lemma OrByOctets(a: Octets, m: Octets)
    ensures Or(Word(a), Word(m)) == Word(OredOctets(a, m))
  {
    var a1, m1 := a[0] as nat * 0x100 + a[1] as nat, m[0] as nat * 0x100 + m[1] as nat;
    var a2, m2 := a1 * 0x100 + a[2] as nat, m1 * 0x100 + m[2] as nat;
    OrLastOctet(a[0], a[1], m[0], m[1]);
    OrLastOctet(a1, a[2], m1, m[2]);
    OrLastOctet(a2, a[3], m2, m[3]);
  }

  lemma OrLastOctet(a: nat, x: byte, m: nat, y: byte)
    ensures Or(a * 0x100 + x, m * 0x100 + y) == Or(a, m) * 0x100 + Or(x, y)
  {
    Pow2Values();
    ShlIsMultiplication(a, 8);
    ShlIsMultiplication(m, 8);
    ShlIsMultiplication(Or(a, m), 8);
    BitwiseSplit(OR, a, x, m, y, 8);
  }

  function Inverted(m: Octets): Octets { [255 - m[0], 255 - m[1], 255 - m[2], 255 - m[3]] }

  lemma InvertedWord(m: Octets)
    ensures Word(m) < 0x1_0000_0000 && Not32(Word(m)) == Word(Inverted(m))
  {
    Pow2Values();
  }

  lemma BroadcastOctetIs(part: byte, mask: byte)
    ensures BroadcastOctet(part, mask) == Or(part, 255 - mask)
  {
    InvertedOctet(mask);
    LowOctetOfByte(OctetOr(part, 255 - mask));
  }

  lemma InvertedOctet(mask: byte)
    ensures LowOctet(Not32(mask)) == 255 - mask
  {
    NotOctet(mask);
    LowOctetIs(Not32(mask));
  }

  lemma NotOctet(mask: byte)
    ensures Not32(mask) % 0x100 == 255 - mask
  {
    Pow2Values();
  }

  lemma LowOctetOfByte(b: byte)
    ensures LowOctet(b) == b
  {
    LowOctetIs(b);
  }

  function OctetOr(x: byte, y: byte): byte {
    Pow2Values();
    BitwiseBound(OR, x, y, 8);
    Or(x, y)
  }

  function OredOctets(a: Octets, m: Octets): Octets {
    seq(4, i requires 0 <= i < 4 => OctetOr(a[i], m[i]))
  }

  function BroadcastOctets(a: Octets, m: Octets): Octets {
    seq(4, i requires 0 <= i < 4 => BroadcastOctet(a[i], m[i]))
  }

  lemma BroadcastOctetsAre(a: Octets, m: Octets)
    ensures BroadcastOctets(a, m) == OredOctets(a, Inverted(m))
  {
    forall i | 0 <= i < 4 ensures BroadcastOctets(a, m)[i] == OredOctets(a, Inverted(m))[i] {
      BroadcastOctetAt(a, m, i);
    }
  }

  lemma BroadcastOctetAt(a: Octets, m: Octets, i: nat)
    requires i < 4
    ensures BroadcastOctet(a[i], m[i]) == OctetOr(a[i], Inverted(m)[i])
  {
    BroadcastOctetIs(a[i], m[i]);
  }

  lemma OctetBroadcast(a: Octets, m: Octets)
    ensures Word(a) < 0x1_0000_0000 && Word(m) < 0x1_0000_0000
    ensures OctetsOf(Broadcast(Word(a), Word(m))) == BroadcastOctets(a, m)
  {
    WordBound(a);
    WordBound(m);
    BroadcastIsOr(Word(a), Word(m));
    InvertedWord(m);
    OrByOctets(a, Inverted(m));
    BroadcastOctetsAre(a, m);
    OctetsOfWord(OredOctets(a, Inverted(m)));
  }

  lemma BroadcastIsOr(a: uint32, m: uint32)
    ensures Broadcast(a, m) == Or(a, Not32(m))
  {
    Pow2Values();
    NetworkDoesNotMatter(a, m, 32);
  }

  lemma NumeralsParse(value: string, number: string -> Option<int>)
    requires forall s :: IsNumeral(s) ==> number(s) == Some(NumeralValue(s))
    requires Ipv4Octets(value).Some?
    ensures ParseIpv4Address(value, number) == Ipv4Octets(value)
  {
    var parts := Parts(value);
    assert forall i :: 0 <= i < 4 ==> number(parts[i]) == Some(NumeralValue(parts[i]));
  }

  /** The two implementations agree: for every address and every mask, contiguous or not, the
      octet-wise broadcast address is the 32-bit one. */
  lemma BroadcastsAgree(address: string, netmask: string, number: string -> Option<int>)
    requires forall s :: IsNumeral(s) ==> number(s) == Some(NumeralValue(s))
    requires Ipv4Octets(address).Some? && Ipv4Octets(netmask).Some?
    ensures Ipv4ToInt(address).Some? && Ipv4ToInt(address).value < 0x1_0000_0000
    ensures Ipv4ToInt(netmask).Some? && Ipv4ToInt(netmask).value < 0x1_0000_0000
    ensures ToDiscoveryBroadcastAddress(address, netmask, number)
            == IntToIpv4(Broadcast(Ipv4ToInt(address).value, Ipv4ToInt(netmask).value))
  {
    NumeralsParse(address, number);
    NumeralsParse(netmask, number);
    Ipv4ToIntIsWord(address);
    Ipv4ToIntIsWord(netmask);
    OctetBroadcast(Ipv4Octets(address).value, Ipv4Octets(netmask).value);
    MasksAreOctets(Broadcast(Ipv4ToInt(address).value, Ipv4ToInt(netmask).value));
  }
}
