/** IP addresses as octets, their order, and their names in the reverse zones. */
module Addresses {
  import opened Text

  type Octet = n: nat | n < 256

  datatype Address = V4(octets: seq<Octet>) | V6(octets: seq<Octet>)

  type IpAddr = a: Address | |a.octets| == (if a.V4? then 4 else 16) witness V4([0, 0, 0, 0])

  // ------------------------------------------------------- reverse-zone names

  function Digit(v: nat): char
    requires v < 16
  {
    if v < 10 then ('0' as int + v) as char else ('a' as int + v - 10) as char
  }

  function DigitValue(c: char): nat {
    if '0' <= c <= '9' then c as int - '0' as int
    else if 'a' <= c <= 'f' then c as int - 'a' as int + 10
    else 16
  }

  /** A number in decimal, without leading zeros. */
  function Decimal(n: nat): string {
    if n < 10 then [Digit(n)] else Decimal(n / 10) + [Digit(n % 10)]
  }

  function DecimalValue(text: string): nat {
    if text == "" then 0 else DecimalValue(text[..|text| - 1]) * 10 + DigitValue(text[|text| - 1])
  }

  lemma AppendDigit(text: string, v: nat)
    requires v < 16
    ensures DecimalValue(text + [Digit(v)]) == DecimalValue(text) * 10 + v
  {}

  lemma {:induction false} DecimalRoundTrip(n: nat)
    ensures DecimalValue(Decimal(n)) == n && '.' !in Decimal(n)
  {
    if n < 10 {
      AppendDigit("", n);
      assert "" + [Digit(n)] == [Digit(n)];
    } else {
      DecimalRoundTrip(n / 10);
      AppendDigit(Decimal(n / 10), n % 10);
    }
  }

  /** The decimal labels of the octets, last octet first. */
  function DecimalLabels(octets: seq<Octet>): (labels: seq<string>)
    ensures |labels| == |octets|
  {
    seq(|octets|, i requires 0 <= i < |octets| => Decimal(octets[|octets| - 1 - i]))
  }

  /** The nibbles of the octets, last octet first and its low nibble first. */
  function NibbleLabels(octets: seq<Octet>): (labels: seq<string>)
    ensures |labels| == 2 * |octets|
  {
    if octets == [] then [] else NibblePair(octets[|octets| - 1]) + NibbleLabels(octets[..|octets| - 1])
  }

  function NibblePair(n: Octet): (pair: seq<string>)
    ensures |pair| == 2
  {
    [[Digit(n % 16)], [Digit(n / 16)]]
  }

  function ReverseLookupName(ip: IpAddr): string {
    match ip
    case V4(octets) => Join(DecimalLabels(octets), '.') + ".in-addr.arpa"
    case V6(octets) => Join(NibbleLabels(octets), '.') + ".ip6.arpa"
  }

  function OctetFromLabel(text: string): Octet {
    DecimalValue(text) % 256
  }

  function OctetsFromDecimals(labels: seq<string>): (octets: seq<Octet>)
    ensures |octets| == |labels|
    ensures forall i :: 0 <= i < |labels| ==> octets[i] == OctetFromLabel(labels[|labels| - 1 - i])
  {
    seq(|labels|, i requires 0 <= i < |labels| => OctetFromLabel(labels[|labels| - 1 - i]))
  }

  function OctetsFromNibbles(labels: seq<string>): (octets: seq<Octet>)
    ensures |octets| == |labels| / 2
  {
    if |labels| < 2 then []
    else
      var low, high := NibbleValue(labels[0]), NibbleValue(labels[1]);
      OctetsFromNibbles(labels[2..]) + [high * 16 + low]
  }

  function NibbleValue(text: string): (v: nat)
    ensures v < 16
  {
    if |text| == 1 then DigitValue(text[0]) % 16 else 0
  }

  /** Reads a reverse-zone name back. */
  function AddressOfReverseName(name: string): Option<IpAddr> {
    if EndsWith(name, ".in-addr.arpa") then
      var labels := Split(name[..|name| - 13], '.');
      if |labels| == 4 then
        Some(V4(OctetsFromDecimals(labels)))
      else None
    else if EndsWith(name, ".ip6.arpa") then
      var labels := Split(name[..|name| - 9], '.');
      if |labels| == 32 then Some(V6(OctetsFromNibbles(labels))) else None
    else None
  }

  lemma NibblePairRoundTrip(n: Octet, rest: seq<string>)
    ensures OctetsFromNibbles(NibblePair(n) + rest) == OctetsFromNibbles(rest) + [n]
  {}

  lemma {:induction false} NibblesRoundTrip(octets: seq<Octet>)
    ensures OctetsFromNibbles(NibbleLabels(octets)) == octets
  {
    if octets != [] {
      var rest := octets[..|octets| - 1];
      NibblesRoundTrip(rest);
      NibblePairRoundTrip(octets[|octets| - 1], NibbleLabels(rest));
      assert octets == rest + [octets[|octets| - 1]];
    }
  }

  lemma {:induction false} NibblesDotFree(octets: seq<Octet>, i: nat)
    requires i < 2 * |octets|
    ensures '.' !in NibbleLabels(octets)[i]
  {
    var last, rest := octets[|octets| - 1], octets[..|octets| - 1];
    if i >= 2 { NibblesDotFree(rest, i - 2); }
  }

  lemma V4NameRoundTrip(ip: IpAddr)
    requires ip.V4?
    ensures AddressOfReverseName(ReverseLookupName(ip)) == Some(ip)
  {
    hide Join, DecimalValue;
    var name, labels := ReverseLookupName(ip), DecimalLabels(ip.octets);
    forall i | 0 <= i < 4 ensures '.' !in labels[i] && OctetFromLabel(labels[i]) == ip.octets[3 - i] {
      DecimalRoundTrip(ip.octets[3 - i]);
    }
    SplitJoin(labels, '.');
    assert name[..|name| - 13] == Join(labels, '.');
    assert OctetsFromDecimals(labels) == ip.octets;
  }

  lemma V6NameRoundTrip(ip: IpAddr)
    requires ip.V6?
    ensures AddressOfReverseName(ReverseLookupName(ip)) == Some(ip)
  {
    hide Split;
    var name, labels := ReverseLookupName(ip), NibbleLabels(ip.octets);
    NibblesRoundTrip(ip.octets);
    forall i | 0 <= i < 32 ensures '.' !in labels[i] { NibblesDotFree(ip.octets, i); }
    SplitJoin(labels, '.');
    assert name[..|name| - 9] == Join(labels, '.');
    assert name[|name| - 9] == '.' && ".in-addr.arpa"[4] != '.';
  }

  /** Reverse names can be read back, so they are distinct for distinct addresses of either family. */
  lemma ReverseNameRoundTrip(ip: IpAddr)
    ensures AddressOfReverseName(ReverseLookupName(ip)) == Some(ip)
  {
    if ip.V4? { V4NameRoundTrip(ip); } else { V6NameRoundTrip(ip); }
  }

  lemma ReverseNameInjective(a: IpAddr, b: IpAddr)
    requires ReverseLookupName(a) == ReverseLookupName(b)
    ensures a == b
  {
    ReverseNameRoundTrip(a);
    ReverseNameRoundTrip(b);
  }

  // -------------------------------------------------------------------- order

  function Value(octets: seq<Octet>): nat {
    if octets == [] then 0 else Value(octets[..|octets| - 1]) * 256 + octets[|octets| - 1]
  }

  /** The derived order of `IpAddr` as a number: IPv4 before IPv6, then by value. */
  function OrderKey(ip: IpAddr): nat {
    match ip
    case V4(octets) => Value(octets)
    case V6(octets) => 0x1_0000_0000 + Value(octets)
  }

  lemma {:induction false} ValueInjective(a: seq<Octet>, b: seq<Octet>)
    requires |a| == |b| && Value(a) == Value(b)
    ensures a == b
  {
    if a != [] {
      ValueInjective(a[..|a| - 1], b[..|b| - 1]);
      assert a == a[..|a| - 1] + [a[|a| - 1]];
    }
  }

  lemma ValueOfFour(octets: seq<Octet>)
    requires |octets| == 4
    ensures Value(octets) < 0x1_0000_0000
  {
    assert Value(octets[..3][..2][..1][..0]) == 0;
    assert Value(octets[..3][..2][..1]) < 0x100;
    assert Value(octets[..3][..2]) < 0x1_0000;
    assert Value(octets[..3]) < 0x100_0000;
  }

  /** The order is total on addresses: only equal addresses have equal keys. */
  lemma OrderKeyInjective(a: IpAddr, b: IpAddr)
    requires OrderKey(a) == OrderKey(b)
    ensures a == b
  {
    if a.V4? { ValueOfFour(a.octets); }
    if b.V4? { ValueOfFour(b.octets); }
    ValueInjective(a.octets, b.octets);
  }

  /** The first octet in which they differ is smaller. */
  ghost predicate Before(a: seq<Octet>, b: seq<Octet>) {
    exists k :: 0 <= k < |a| && k < |b| && a[..k] == b[..k] && a[k] < b[k]
  }

  lemma BeforeLonger(a: seq<Octet>, b: seq<Octet>)
    requires |a| == |b| > 0
    ensures var n := |a| - 1; Before(a, b) <==> Before(a[..n], b[..n]) || (a[..n] == b[..n] && a[n] < b[n])
  {
    var n := |a| - 1;
    assert forall k :: 0 <= k <= n ==> a[..n][..k] == a[..k] && b[..n][..k] == b[..k];
    if Before(a[..n], b[..n]) {
      var k :| 0 <= k < n && a[..n][..k] == b[..n][..k] && a[..n][k] < b[..n][k];
      assert a[..k] == b[..k] && a[k] < b[k];
    }
    if Before(a, b) {
      var k :| 0 <= k <= n && a[..k] == b[..k] && a[k] < b[k];
      if k < n { assert a[..n][..k] == b[..n][..k] && a[..n][k] < b[..n][k]; }
    }
  }

  lemma {:induction false} ValueIsLexicographic(a: seq<Octet>, b: seq<Octet>)
    requires |a| == |b|
    ensures Value(a) < Value(b) <==> Before(a, b)
  {
    hide Before;
    if a == [] {
      NothingBefore(a, b);
    } else {
      var n := |a| - 1;
      ValueIsLexicographic(a[..n], b[..n]);
      BeforeLonger(a, b);
      if Value(a[..n]) == Value(b[..n]) { ValueInjective(a[..n], b[..n]); }
    }
  }

  lemma NothingBefore(a: seq<Octet>, b: seq<Octet>)
    requires a == []
    ensures !Before(a, b)
  {}

  /** The order: IPv4 before IPv6, and within a family by the first octet that differs. */
  lemma OrderIsLexicographic(a: IpAddr, b: IpAddr)
    ensures OrderKey(a) < OrderKey(b) <==> if a.V4? == b.V4? then Before(a.octets, b.octets) else a.V4?
  {
    hide Value, Before;
    if a.V4? { ValueOfFour(a.octets); }
    if b.V4? { ValueOfFour(b.octets); }
    if a.V4? == b.V4? { ValueIsLexicographic(a.octets, b.octets); }
  }
}
