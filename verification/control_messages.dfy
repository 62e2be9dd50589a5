/**
 * Linux ancillary data on UDP sockets: parsing the control messages of a received datagram and
 * writing the one that goes with a reply (sections 5.2, 5.3 and 6.2 of RFC 3542). Word size, byte
 * order and the width of the length field are parameters.
 */
module ControlMessages {
  import opened Text
  import opened Numbers
  import opened Addresses

  datatype Endian = Little | Big

  /**
   * The length of a message takes up one word. On glibc it is as wide as that; on musl it is four
   * bytes wide, and on 64-bit hosts padding makes up the rest of the word.
   */
  datatype HostAbi = HostAbi(word: nat, lengthWidth: nat, endian: Endian)

  type Abi = a: HostAbi | (a.word == 4 || a.word == 8) && (a.lengthWidth == a.word || a.lengthWidth == 4)
    witness HostAbi(8, 8, Little)

  // ----------------------------------------------------------------- integers

  function ReadUint(bytes: seq<Octet>, endian: Endian): nat {
    if bytes == [] then 0
    else
      match endian
      case Little => ReadUint(bytes[1..], endian) * 256 + bytes[0]
      case Big => ReadUint(bytes[..|bytes| - 1], endian) * 256 + bytes[|bytes| - 1]
  }

  function UintBytes(n: nat, width: nat, endian: Endian): (bytes: seq<Octet>)
    ensures |bytes| == width
    decreases width
  {
    if width == 0 then []
    else
      match endian
      case Little => [n % 256] + UintBytes(n / 256, width - 1, endian)
      case Big => UintBytes(n / 256, width - 1, endian) + [n % 256]
  }

  function Limit(width: nat): nat {
    if width == 0 then 1 else 256 * Limit(width - 1)
  }

  lemma {:induction false} UintRoundTrip(n: nat, width: nat, endian: Endian)
    requires n < Limit(width)
    ensures ReadUint(UintBytes(n, width, endian), endian) == n
    decreases width
  {
    if width > 0 {
      UintRoundTrip(n / 256, width - 1, endian);
      var bytes := UintBytes(n, width, endian);
      var rest := UintBytes(n / 256, width - 1, endian);
      assert bytes == if endian == Little then [n % 256] + rest else rest + [n % 256];
      assert if endian == Little then bytes[1..] == rest else bytes[..width - 1] == rest;
    }
  }

  lemma LowByte(high: nat, low: Octet)
    ensures (high * 256 + low) % 256 == low && (high * 256 + low) / 256 == high
  {}

  /** The least significant byte, and the others. */
  lemma LeastFirst(bytes: seq<Octet>, endian: Endian) returns (low: Octet, rest: seq<Octet>)
    requires bytes != []
    ensures |rest| == |bytes| - 1 && bytes == (if endian == Little then [low] + rest else rest + [low])
    ensures ReadUint(bytes, endian) == ReadUint(rest, endian) * 256 + low
  {
    low := if endian == Little then bytes[0] else bytes[|bytes| - 1];
    rest := if endian == Little then bytes[1..] else bytes[..|bytes| - 1];
  }

  lemma OneByteMore(high: nat, low: Octet, width: nat, endian: Endian)
    ensures UintBytes(high * 256 + low, width + 1, endian) ==
            var rest := UintBytes(high, width, endian);
            if endian == Little then [low] + rest else rest + [low]
    ensures high < Limit(width) ==> high * 256 + low < Limit(width + 1)
  {
    LowByte(high, low);
  }

  lemma {:induction false} BytesRoundTrip(bytes: seq<Octet>, endian: Endian)
    ensures ReadUint(bytes, endian) < Limit(|bytes|)
    ensures UintBytes(ReadUint(bytes, endian), |bytes|, endian) == bytes
    decreases |bytes|
  {
    if bytes != [] {
      var low, rest := LeastFirst(bytes, endian);
      BytesRoundTrip(rest, endian);
      LongerRoundTrip(bytes, low, rest, ReadUint(rest, endian), ReadUint(bytes, endian), endian);
    }
  }

  lemma LongerRoundTrip(bytes: seq<Octet>, low: Octet, rest: seq<Octet>, n: nat, m: nat, endian: Endian)
    requires bytes == (if endian == Little then [low] + rest else rest + [low])
    requires UintBytes(n, |rest|, endian) == rest && n < Limit(|rest|) && m == n * 256 + low
    ensures m < Limit(|bytes|) && UintBytes(m, |bytes|, endian) == bytes
  {
    assert |bytes| == |rest| + 1;
    OneByteMore(n, low, |rest|, endian);
  }

  // ------------------------------------------------------------------- layout

  /** CMSG_LEN(0), which is also the size of the header: a word of length, then level and type. */
  function HeaderLength(abi: Abi): nat {
    abi.word + 8
  }

  predicate WordAligned(abi: Abi, n: nat) {
    if abi.word == 4 then n % 4 == 0 else n % 8 == 0
  }

  function Align(abi: Abi, n: nat): (r: nat)
    ensures n <= r < n + abi.word && WordAligned(abi, r)
  {
    if abi.word == 4 then RoundUp4(n) else RoundUp8(n)
  }

  function CmsgSpace(abi: Abi, n: nat): nat {
    HeaderLength(abi) + Align(abi, n)
  }

  /** The mask expression of the source rounds up to the word size. */
  lemma MaskRoundsUp(length: bv64)
    requires length <= 0xFFFF_FFFF_FFFF_FFF0
    ensures (length + 7) & !7 == ((length + 7) / 8) * 8
    ensures (length + 3) & !3 == ((length + 3) / 4) * 4
  {}

  /** A control message; level and type as the 32-bit patterns they are stored as. */
  datatype Record = Record(level: nat, kind: nat, payload: seq<Octet>)

  const IPPROTO_IP := 0
  const IP_PKTINFO := 8
  const IPPROTO_IPV6 := 41
  const IPV6_PKTINFO := 50

  /** Where the length stands in its word: always at the less significant end. */
  function LengthAt(abi: Abi): nat {
    if abi.endian == Big then abi.word - abi.lengthWidth else 0
  }

  function LengthWord(abi: Abi, n: nat, padding: seq<Octet>): (bytes: seq<Octet>)
    requires |padding| == abi.word - abi.lengthWidth
    ensures |bytes| == abi.word
  {
    var field := UintBytes(n, abi.lengthWidth, abi.endian);
    if abi.endian == Big then padding + field else field + padding
  }

  function ReadLength(abi: Abi, word: seq<Octet>): nat
    requires |word| == abi.word
  {
    ReadUint(word[LengthAt(abi)..LengthAt(abi) + abi.lengthWidth], abi.endian)
  }

  /** The length is read back, whatever the padding. */
  lemma LengthRoundTrip(abi: Abi, n: nat, padding: seq<Octet>)
    requires |padding| == abi.word - abi.lengthWidth && n < Limit(abi.lengthWidth)
    ensures ReadLength(abi, LengthWord(abi, n, padding)) == n
  {
    UintRoundTrip(n, abi.lengthWidth, abi.endian);
    var word, at := LengthWord(abi, n, padding), LengthAt(abi);
    assert word[at..at + abi.lengthWidth] == UintBytes(n, abi.lengthWidth, abi.endian);
  }

  function Header(abi: Abi, r: Record, padding: seq<Octet>): (bytes: seq<Octet>)
    requires |padding| == abi.word - abi.lengthWidth
    ensures |bytes| == HeaderLength(abi)
  {
    LengthWord(abi, HeaderLength(abi) + |r.payload|, padding)
    + UintBytes(r.level, 4, abi.endian) + UintBytes(r.kind, 4, abi.endian)
  }

  function Zeros(n: nat): (bytes: seq<Octet>)
    ensures |bytes| == n && forall i :: 0 <= i < n ==> bytes[i] == 0
  {
    seq(n, _ => 0)
  }

  function Encode(abi: Abi, r: Record): seq<Octet> {
    Header(abi, r, Zeros(abi.word - abi.lengthWidth)) + r.payload + Zeros(Align(abi, |r.payload|) - |r.payload|)
  }

  function EncodeAll(abi: Abi, records: seq<Record>): seq<Octet> {
    if records == [] then [] else Encode(abi, records[0]) + EncodeAll(abi, records[1..])
  }

  /** Fits the fields of its header. */
  predicate Encodable(abi: Abi, r: Record) {
    HeaderLength(abi) + |r.payload| < Limit(abi.lengthWidth) && r.level < Limit(4) && r.kind < Limit(4)
  }

  // ------------------------------------------------------------ packet info

  datatype PacketInfo = PacketInfo(localAddr: IpAddr, ifIndex: nat)

  datatype DecodeError = BadLength | BadIpv4Info | NonUnicast | BadIpv6Info | NotLocalUnicast | Duplicate | Missing

  predicate All(octets: seq<Octet>, value: Octet) {
    forall i :: 0 <= i < |octets| ==> octets[i] == value
  }

  predicate IsIpv4Mapped(octets: seq<Octet>) {
    |octets| == 16 && All(octets[..10], 0) && All(octets[10..12], 255)
  }

  predicate ValidInfo(info: PacketInfo, ipv6: bool) {
    && (match info.localAddr
        case V4(o) => !ipv6 && !All(o, 0) && !(224 <= o[0] <= 239) && !All(o, 255)
        case V6(o) => ipv6 && !All(o, 0) && o[0] != 255 && !IsIpv4Mapped(o))
    && info.ifIndex != 0 && (ipv6 || info.ifIndex <= 0x7FFF_FFFF)
  }

  /** The address as a number, the first octet highest. */
  function Number(o: seq<Octet>): nat
    requires |o| == 4
  {
    var a: nat, b: nat, c: nat, d: nat := o[0], o[1], o[2], o[3];
    a * 0x100_0000 + b * 0x1_0000 + c * 0x100 + d
  }

  /** Every IPv4 address is local unicast but 0.0.0.0, 224.0.0.0 to 239.255.255.255, and 255.255.255.255. */
  lemma Ipv4Unicast(info: PacketInfo)
    requires info.localAddr.V4?
    ensures var n := Number(info.localAddr.octets);
            ValidInfo(info, false) <==>
            && n != 0 && !(0xE000_0000 <= n <= 0xEFFF_FFFF) && n != 0xFFFF_FFFF
            && 0 < info.ifIndex <= 0x7FFF_FFFF
    ensures !ValidInfo(info, true)
  {
    var o := info.localAddr.octets;
    assert All(o, 0) <==> o[0] == 0 && o[1] == 0 && o[2] == 0 && o[3] == 0;
    assert All(o, 255) <==> o[0] == 255 && o[1] == 255 && o[2] == 255 && o[3] == 255;
  }

  /** Every IPv6 address is but `::`, those that start with `ff`, and `::ffff:` before an IPv4 address. */
  lemma Ipv6Unicast(info: PacketInfo)
    requires info.localAddr.V6?
    ensures var o := info.localAddr.octets;
            ValidInfo(info, true) <==>
            && o != Zeros(16) && o[0] != 0xff && o[..12] != Zeros(10) + [0xff, 0xff] && info.ifIndex != 0
    ensures !ValidInfo(info, false)
  {
    var o := info.localAddr.octets;
    assert All(o, 0) <==> o == Zeros(16);
    assert o[..12] == o[..10] + o[10..12];
    assert All(o[..10], 0) <==> o[..10] == Zeros(10);
    assert All(o[10..12], 255) <==> o[10..12] == [0xff, 0xff];
    if o[..12] == Zeros(10) + [0xff, 0xff] {
      assert o[..10] == o[..12][..10] == Zeros(10);
      assert o[10..12] == o[..12][10..] == [0xff, 0xff];
    }
  }

  predicate IsPacketInfo(r: Record) {
    (r.level == IPPROTO_IP && r.kind == IP_PKTINFO) || (r.level == IPPROTO_IPV6 && r.kind == IPV6_PKTINFO)
  }

  /** What one message says: nothing for other kinds, an error for unusable packet info. */
  function InfoIn(abi: Abi, r: Record, ipv6: bool): Result<Option<PacketInfo>, DecodeError> {
    var payload := r.payload;
    if r.level == IPPROTO_IP && r.kind == IP_PKTINFO then
      if ipv6 || |payload| != 12 then Err(BadIpv4Info)
      else
        var index := ReadUint(payload[..4], abi.endian);
        if payload[8..12] != payload[4..8] || index == 0 || index > 0x7FFF_FFFF then Err(NonUnicast)
        else Ok(Some(PacketInfo(V4(payload[4..8]), index)))
    else if r.level == IPPROTO_IPV6 && r.kind == IPV6_PKTINFO then
      if !ipv6 || |payload| != 20 then Err(BadIpv6Info)
      else Ok(Some(PacketInfo(V6(payload[..16]), ReadUint(payload[16..20], abi.endian))))
    else Ok(None)
  }

  function RecordAt(abi: Abi, rest: seq<Octet>, length: nat): Record
    requires HeaderLength(abi) <= length <= |rest|
  {
    var w := abi.word;
    Record(ReadUint(rest[w..w + 4], abi.endian), ReadUint(rest[w + 4..w + 8], abi.endian),
           rest[HeaderLength(abi)..length])
  }

  function Drop(bytes: seq<Octet>, n: nat): seq<Octet> {
    if n <= |bytes| then bytes[n..] else []
  }

  lemma DropTwice(bytes: seq<Octet>, m: nat, n: nat)
    ensures Drop(Drop(bytes, m), n) == Drop(bytes, m + n)
  {}

  // -------------------------------------------------------- the record scanner

  /** What stands at the front of the bytes left: too little for a header, a bad length, or a message. */
  datatype Frame = TooShort | BadFrame | Message(space: nat, record: Record)

  type Framing = seq<Octet> -> Frame

  type Verdict = (Record, Option<PacketInfo>) -> Result<Option<PacketInfo>, DecodeError>

  /** A message takes up room, in whole words. */
  ghost predicate Progresses(abi: Abi, frame: Framing) {
    forall rest :: frame(rest).Message? ==> 0 < frame(rest).space && rest != [] && WordAligned(abi, frame(rest).space)
  }

  /** The messages at the front of the bytes, and whether the chain ends because too little is left. */
  datatype Chain = Chain(records: seq<Record>, complete: bool)

  function Prepend(record: Record, chain: Chain): Chain {
    Chain([record] + chain.records, chain.complete)
  }

  ghost function ChainOf(abi: Abi, frame: Framing, rest: seq<Octet>): Chain
    requires Progresses(abi, frame)
    decreases |rest|
  {
    match frame(rest)
    case TooShort => Chain([], true)
    case BadFrame => Chain([], false)
    case Message(space, record) => Prepend(record, ChainOf(abi, frame, Drop(rest, space)))
  }

  /** The messages judged in order; an error ends the scan where it is met. */
  ghost function Judge(judge: Verdict, chain: Chain, found: Option<PacketInfo>): Result<PacketInfo, DecodeError>
    decreases |chain.records|
  {
    if chain.records == [] then
      if !chain.complete then Err(BadLength)
      else if found.Some? then Ok(found.value)
      else Err(Missing)
    else
      var next := judge(chain.records[0], found);
      if next.Err? then Err(next.error)
      else Judge(judge, Chain(chain.records[1..], chain.complete), next.value)
  }

  lemma JudgeFirst(judge: Verdict, record: Record, rest: Chain, found: Option<PacketInfo>)
    ensures var next := judge(record, found);
            Judge(judge, Prepend(record, rest), found) ==
            if next.Err? then Err(next.error) else Judge(judge, rest, next.value)
  {}

  lemma AlignedSum(abi: Abi, a: nat, b: nat)
    requires WordAligned(abi, a) && WordAligned(abi, b)
    ensures WordAligned(abi, a + b)
  {
    if abi.word == 4 { MultiplesOfFour(a / 4, b / 4); } else { MultiplesOfEight(a / 8, b / 8); }
  }

  lemma MultiplesOfFour(x: nat, y: nat)
    ensures (4 * x + 4 * y) % 4 == 0
  {}

  lemma MultiplesOfEight(x: nat, y: nat)
    ensures (8 * x + 8 * y) % 8 == 0
  {}

  /** The scanning loop: word-aligned at every step, and terminating on any bytes. */
  method Scan(abi: Abi, frame: Framing, judge: Verdict, control: seq<Octet>)
    returns (r: Result<PacketInfo, DecodeError>)
    requires Progresses(abi, frame)
    ensures r == Judge(judge, ChainOf(abi, frame, control), None)
  {
    hide Prepend;
    var offset := 0;
    var found: Option<PacketInfo> := None;
    ghost var goal := Judge(judge, ChainOf(abi, frame, control), None);
    while true
      invariant WordAligned(abi, offset)
      invariant Judge(judge, ChainOf(abi, frame, Drop(control, offset)), found) == goal
      decreases |control| - offset
    {
      ghost var rest := Drop(control, offset);
      match frame(Drop(control, offset)) {
        case TooShort =>
          return if found.Some? then Ok(found.value) else Err(Missing);
        case BadFrame =>
          return Err(BadLength);
        case Message(space, record) =>
          JudgeFirst(judge, record, ChainOf(abi, frame, Drop(rest, space)), found);
          var next := judge(record, found);
          if next.Err? {
            return Err(next.error);
          }
          found := next.value;
          DropTwice(control, offset, space);
          AlignedSum(abi, offset, space);
          offset := offset + space;
      }
    }
  }

  // ----------------------------------------------------------------- decoding

  function FrameAt(abi: Abi, rest: seq<Octet>): Frame {
    if |rest| < HeaderLength(abi) then TooShort
    else
      var length := ReadLength(abi, rest[..abi.word]);
      if length < HeaderLength(abi) || length > |rest| then BadFrame
      else Message(Align(abi, length), RecordAt(abi, rest, length))
  }

  function Frames(abi: Abi): Framing {
    (rest: seq<Octet>) => FrameAt(abi, rest)
  }

  lemma FramesProgress(abi: Abi)
    ensures Progresses(abi, Frames(abi))
  {}

  /** What one message does to the packet info found so far. */
  function Found(abi: Abi, ipv6: bool, record: Record, found: Option<PacketInfo>)
    : Result<Option<PacketInfo>, DecodeError>
  {
    var info := InfoIn(abi, record, ipv6);
    if info.Err? then info
    else if info.value.None? then Ok(found)
    else if !ValidInfo(info.value.value, ipv6) then Err(NotLocalUnicast)
    else if found.Some? then Err(Duplicate)
    else info
  }

  function InfoVerdict(abi: Abi, ipv6: bool): Verdict {
    (record: Record, found: Option<PacketInfo>) => Found(abi, ipv6, record, found)
  }

  ghost function MessagesIn(abi: Abi, control: seq<Octet>): Chain {
    FramesProgress(abi);
    ChainOf(abi, Frames(abi), control)
  }

  ghost function Decode(abi: Abi, control: seq<Octet>, ipv6: bool): Result<PacketInfo, DecodeError> {
    Judge(InfoVerdict(abi, ipv6), MessagesIn(abi, control), None)
  }

  /** The parser stays in range on any bytes and decides as `Decode`, which `DecodeExact` describes. */
  method DecodeInfo(abi: Abi, control: seq<Octet>, ipv6: bool) returns (r: Result<PacketInfo, DecodeError>)
    ensures r == Decode(abi, control, ipv6)
  {
    FramesProgress(abi);
    r := Scan(abi, Frames(abi), InfoVerdict(abi, ipv6), control);
  }

  // -------------------------------------------------- what parsing accepts

  /** The one message that carries `info` to a receiver. */
  function InfoRecord(abi: Abi, info: PacketInfo): Record {
    match info.localAddr
    case V4(o) => Record(IPPROTO_IP, IP_PKTINFO, UintBytes(info.ifIndex, 4, abi.endian) + o + o)
    case V6(o) => Record(IPPROTO_IPV6, IPV6_PKTINFO, o + UintBytes(info.ifIndex, 4, abi.endian))
  }

  predicate Carries(abi: Abi, r: Record, ipv6: bool, info: PacketInfo) {
    InfoIn(abi, r, ipv6) == Ok(Some(info)) && ValidInfo(info, ipv6)
  }

  /** A message carries valid `info` exactly if it is `InfoRecord(info)`, byte for byte. */
  lemma CarriesMeaning(abi: Abi, r: Record, ipv6: bool, info: PacketInfo)
    ensures Carries(abi, r, ipv6, info) <==>
            ValidInfo(info, ipv6) && info.ifIndex < Limit(4) && r == InfoRecord(abi, info)
  {
    if Carries(abi, r, ipv6, info) {
      if ipv6 { Ipv6Carried(abi, r, info); } else { Ipv4Carried(abi, r, info); }
    }
    if ValidInfo(info, ipv6) && info.ifIndex < Limit(4) && r == InfoRecord(abi, info) {
      InfoRecordCarries(abi, ipv6, info);
    }
  }

  lemma Ipv4Carried(abi: Abi, r: Record, info: PacketInfo)
    requires InfoIn(abi, r, false) == Ok(Some(info))
    ensures info.ifIndex < Limit(4) && r == InfoRecord(abi, info)
  {
    var p := r.payload;
    BytesRoundTrip(p[..4], abi.endian);
    assert p == p[..4] + p[4..8] + p[8..12];
  }

  lemma Ipv6Carried(abi: Abi, r: Record, info: PacketInfo)
    requires InfoIn(abi, r, true) == Ok(Some(info))
    ensures info.ifIndex < Limit(4) && r == InfoRecord(abi, info)
  {
    var p := r.payload;
    BytesRoundTrip(p[16..20], abi.endian);
    assert p == p[..16] + p[16..20];
  }

  lemma InfoRecordCarries(abi: Abi, ipv6: bool, info: PacketInfo)
    requires ValidInfo(info, ipv6) && info.ifIndex < Limit(4)
    ensures InfoIn(abi, InfoRecord(abi, info), ipv6) == Ok(Some(info))
  {
    UintRoundTrip(info.ifIndex, 4, abi.endian);
    var index, p := UintBytes(info.ifIndex, 4, abi.endian), InfoRecord(abi, info).payload;
    var o := info.localAddr.octets;
    if ipv6 {
      assert p[..16] == o && p[16..20] == index;
    } else {
      assert p[..4] == index && p[4..8] == o && p[8..12] == o;
    }
  }

  /** One message, at `k`, carries `info`, and no other message is packet info of either family. */
  ghost predicate OnlyInfo(abi: Abi, records: seq<Record>, k: nat, ipv6: bool, info: PacketInfo) {
    && k < |records| && records[k] == InfoRecord(abi, info)
    && forall j :: 0 <= j < |records| && j != k ==> !IsPacketInfo(records[j])
  }

  ghost predicate NoInfo(records: seq<Record>) {
    forall j :: 0 <= j < |records| ==> !IsPacketInfo(records[j])
  }

  lemma NoInfoFirst(r: Record, records: seq<Record>)
    ensures NoInfo([r] + records) <==> !IsPacketInfo(r) && NoInfo(records)
  {
    assert forall j :: 0 <= j < |records| ==> ([r] + records)[j + 1] == records[j];
    assert ([r] + records)[0] == r;
    if NoInfo([r] + records) {
      forall j | 0 <= j < |records| ensures !IsPacketInfo(records[j]) {
        assert ([r] + records)[j + 1] == records[j];
      }
    }
  }

  ghost predicate SomeOnlyInfo(abi: Abi, records: seq<Record>, ipv6: bool, info: PacketInfo) {
    exists k: nat :: OnlyInfo(abi, records, k, ipv6, info)
  }

  lemma OnlyInfoFirst(abi: Abi, r: Record, records: seq<Record>, ipv6: bool, info: PacketInfo)
    ensures SomeOnlyInfo(abi, [r] + records, ipv6, info) <==>
            if IsPacketInfo(r) then r == InfoRecord(abi, info) && NoInfo(records)
            else SomeOnlyInfo(abi, records, ipv6, info)
  {
    var all := [r] + records;
    assert all[0] == r && forall j :: 0 <= j < |records| ==> all[j + 1] == records[j];
    if k: nat :| OnlyInfo(abi, all, k, ipv6, info) {
      forall j | 0 <= j < |records| && j + 1 != k ensures !IsPacketInfo(records[j]) { assert all[j + 1] == records[j]; }
      if k > 0 { assert OnlyInfo(abi, records, k - 1, ipv6, info); }
    }
    if IsPacketInfo(r) && r == InfoRecord(abi, info) && NoInfo(records) {
      assert OnlyInfo(abi, all, 0, ipv6, info);
    }
    if !IsPacketInfo(r) && SomeOnlyInfo(abi, records, ipv6, info) {
      var k: nat :| OnlyInfo(abi, records, k, ipv6, info);
      assert OnlyInfo(abi, all, k + 1, ipv6, info);
    }
  }

  /** How the verdict on packet info works out, message by message. */
  ghost predicate FindsOnce(abi: Abi, judge: Verdict, ipv6: bool, info: PacketInfo) {
    && (forall r, found: Option<PacketInfo> :: !IsPacketInfo(r) ==> judge(r, found) == Ok(found))
    && (forall r, found: Option<PacketInfo> :: IsPacketInfo(r) && found.Some? ==> judge(r, found).Err?)
    && (forall r :: IsPacketInfo(r) ==> judge(r, None) != Ok(None))
    && (forall r :: IsPacketInfo(r) ==>
          (judge(r, None) == Ok(Some(info)) <==>
           ValidInfo(info, ipv6) && info.ifIndex < Limit(4) && r == InfoRecord(abi, info)))
  }

  lemma VerdictFindsOnce(abi: Abi, ipv6: bool, info: PacketInfo)
    ensures FindsOnce(abi, InfoVerdict(abi, ipv6), ipv6, info)
  {
    forall r: Record
      ensures Found(abi, ipv6, r, None) == Ok(Some(info)) <==>
              ValidInfo(info, ipv6) && info.ifIndex < Limit(4) && r == InfoRecord(abi, info)
    {
      CarriesMeaning(abi, r, ipv6, info);
    }
  }

  lemma {:induction false} JudgeAfterFound(abi: Abi, judge: Verdict, ipv6: bool, chain: Chain,
                                           found: PacketInfo, info: PacketInfo)
    requires FindsOnce(abi, judge, ipv6, info)
    ensures Judge(judge, chain, Some(found)) == Ok(info) <==> info == found && chain.complete && NoInfo(chain.records)
    decreases |chain.records|
  {
    if chain.records != [] {
      var first, rest := chain.records[0], Chain(chain.records[1..], chain.complete);
      assert chain.records == [first] + rest.records;
      JudgeAfterFound(abi, judge, ipv6, rest, found, info);
      NoInfoFirst(first, rest.records);
    }
  }

  lemma {:induction false} JudgeExact(abi: Abi, judge: Verdict, ipv6: bool, chain: Chain, info: PacketInfo)
    requires FindsOnce(abi, judge, ipv6, info)
    ensures Judge(judge, chain, None) == Ok(info) <==>
            && chain.complete && ValidInfo(info, ipv6) && info.ifIndex < Limit(4)
            && SomeOnlyInfo(abi, chain.records, ipv6, info)
    decreases |chain.records|
  {
    if chain.records != [] {
      var first, rest := chain.records[0], Chain(chain.records[1..], chain.complete);
      assert chain.records == [first] + rest.records;
      JudgeExact(abi, judge, ipv6, rest, info);
      var next := judge(first, None);
      if next.Ok? && next.value.Some? {
        JudgeAfterFound(abi, judge, ipv6, rest, next.value.value, info);
      }
      OnlyInfoFirst(abi, first, rest.records, ipv6, info);
    }
  }

  /**
   * Parsing is exact on arbitrary bytes: it yields `info` precisely when the bytes are a complete
   * chain of messages in which `InfoRecord(info)`, valid for the socket, is the only packet info.
   */
  lemma DecodeExact(abi: Abi, control: seq<Octet>, ipv6: bool, info: PacketInfo)
    ensures Decode(abi, control, ipv6) == Ok(info) <==>
            && MessagesIn(abi, control).complete && ValidInfo(info, ipv6) && info.ifIndex < Limit(4)
            && SomeOnlyInfo(abi, MessagesIn(abi, control).records, ipv6, info)
  {
    VerdictFindsOnce(abi, ipv6, info);
    JudgeExact(abi, InfoVerdict(abi, ipv6), ipv6, MessagesIn(abi, control), info);
  }

  // ---------------------------------------------------------- laid-out lists

  /** A part in the middle of a text, by its offset. */
  lemma Middle(front: seq<Octet>, part: seq<Octet>, rest: seq<Octet>, bytes: seq<Octet>)
    requires bytes == front + part + rest
    ensures bytes[|front|..|front| + |part|] == part
  {}

  lemma Slices(l: seq<Octet>, v: seq<Octet>, k: seq<Octet>, p: seq<Octet>, z: seq<Octet>, rest: seq<Octet>)
    ensures var bytes, i := l + v + k + p + z + rest, |l| + |v| + |k|;
            && bytes[..|l|] == l && bytes[|l|..|l| + |v|] == v && bytes[|l| + |v|..i] == k
            && bytes[i..i + |p|] == p && bytes[i + |p| + |z|..] == rest
  {
    var bytes := l + v + k + p + z + rest;
    assert bytes == l + (v + k + p + z + rest);
    assert bytes == l + v + (k + p + z + rest);
    assert bytes == l + v + k + (p + z + rest);
    assert bytes == l + v + k + p + (z + rest);
    Middle(l, v, k + p + z + rest, bytes);
    Middle(l + v, k, p + z + rest, bytes);
    Middle(l + v + k, p, z + rest, bytes);
  }

  /** Three header fields at the front of the bytes, read back. */
  lemma FrameOfFields(abi: Abi, r: Record, bytes: seq<Octet>, length: nat, padding: seq<Octet>)
    requires |bytes| >= length == HeaderLength(abi) + |r.payload| && Encodable(abi, r)
    requires |padding| == abi.word - abi.lengthWidth
    requires bytes[..abi.word] == LengthWord(abi, length, padding)
    requires bytes[abi.word..abi.word + 4] == UintBytes(r.level, 4, abi.endian)
    requires bytes[abi.word + 4..abi.word + 8] == UintBytes(r.kind, 4, abi.endian)
    requires bytes[HeaderLength(abi)..length] == r.payload
    ensures FrameAt(abi, bytes) == Message(Align(abi, length), r)
  {
    LengthRoundTrip(abi, length, padding);
    UintRoundTrip(r.level, 4, abi.endian);
    UintRoundTrip(r.kind, 4, abi.endian);
  }

  lemma ReadHeader(abi: Abi, r: Record, rest: seq<Octet>, bytes: seq<Octet>)
    requires Encodable(abi, r) && bytes == Encode(abi, r) + rest
    ensures FrameAt(abi, bytes) == Message(|Encode(abi, r)|, r)
    ensures Drop(bytes, |Encode(abi, r)|) == rest
  {
    hide UintBytes, Encodable, Zeros;
    var length := HeaderLength(abi) + |r.payload|;
    AlignPastHeader(abi, |r.payload|);
    var padding := Zeros(abi.word - abi.lengthWidth);
    Slices(LengthWord(abi, length, padding), UintBytes(r.level, 4, abi.endian), UintBytes(r.kind, 4, abi.endian),
           r.payload, Zeros(Align(abi, |r.payload|) - |r.payload|), rest);
    FrameOfFields(abi, r, bytes, length, padding);
  }

  lemma AlignPastHeader(abi: Abi, n: nat)
    ensures Align(abi, HeaderLength(abi) + n) == HeaderLength(abi) + Align(abi, n)
  {
    hide RoundUp4, RoundUp8;
    if abi.word == 4 { RoundUpAfter12(n); } else { RoundUpAfter16(n); }
  }

  lemma EncodeFirst(abi: Abi, first: Record, others: seq<Record>, tail: seq<Octet>)
    ensures EncodeAll(abi, [first] + others) + tail == Encode(abi, first) + (EncodeAll(abi, others) + tail)
  {}

  lemma ChainStep(abi: Abi, frame: Framing, bytes: seq<Octet>, rest: seq<Octet>, first: Record)
    requires Progresses(abi, frame)
    requires frame(bytes).Message? && frame(bytes).record == first && Drop(bytes, frame(bytes).space) == rest
    ensures ChainOf(abi, frame, bytes) == Prepend(first, ChainOf(abi, frame, rest))
  {}

  /** Reading back any list laid out with CMSG_LEN and CMSG_SPACE, with less than a header after it. */
  lemma {:induction false} MessagesRoundTrip(abi: Abi, records: seq<Record>, tail: seq<Octet>)
    requires forall r :: r in records ==> Encodable(abi, r)
    requires |tail| < HeaderLength(abi)
    ensures MessagesIn(abi, EncodeAll(abi, records) + tail) == Chain(records, true)
    decreases records
  {
    if records == [] {
      assert EncodeAll(abi, records) + tail == tail;
    } else {
      var first, others := records[0], records[1..];
      assert records == [first] + others;
      var rest := EncodeAll(abi, others) + tail;
      var bytes := EncodeAll(abi, records) + tail;
      MessagesRoundTrip(abi, others, tail);
      EncodeFirst(abi, first, others, tail);
      ReadHeader(abi, first, rest, bytes);
      ChainStep(abi, Frames(abi), bytes, rest, first);
    }
  }

  /** On laid-out lists: parsing succeeds exactly when the list holds one packet info in all, and it is good. */
  lemma DecodeLaidOut(abi: Abi, records: seq<Record>, tail: seq<Octet>, ipv6: bool, info: PacketInfo)
    requires forall r :: r in records ==> Encodable(abi, r)
    requires |tail| < HeaderLength(abi)
    ensures Decode(abi, EncodeAll(abi, records) + tail, ipv6) == Ok(info) <==>
            ValidInfo(info, ipv6) && info.ifIndex < Limit(4) && SomeOnlyInfo(abi, records, ipv6, info)
  {
    MessagesRoundTrip(abi, records, tail);
    DecodeExact(abi, EncodeAll(abi, records) + tail, ipv6, info);
  }

  // ------------------------------------------------------------------ sending

  /** The message sent with a reply; the destination field is ignored by the kernel and left zero. */
  function SentRecord(abi: Abi, info: PacketInfo): Record {
    match info.localAddr
    case V4(o) => Record(IPPROTO_IP, IP_PKTINFO, UintBytes(info.ifIndex, 4, abi.endian) + o + Zeros(4))
    case V6(o) => InfoRecord(abi, info)
  }

  /** The message sent is the one received but for the destination, which is zero for IPv4. */
  lemma SentFields(abi: Abi, info: PacketInfo)
    ensures var sent, received := SentRecord(abi, info), InfoRecord(abi, info);
            && sent.level == received.level && sent.kind == received.kind && |sent.payload| == |received.payload|
            && sent.payload[..8] == received.payload[..8]
            && sent.payload[8..] == if info.localAddr.V4? then Zeros(4) else received.payload[8..]
  {
    if info.localAddr.V4? {
      var index, o := UintBytes(info.ifIndex, 4, abi.endian), info.localAddr.octets;
      assert SentRecord(abi, info).payload[..8] == index + o == InfoRecord(abi, info).payload[..8];
    }
  }

  function Overwrite(s: seq<Octet>, at: nat, bytes: seq<Octet>): seq<Octet>
    requires at + |bytes| <= |s|
  {
    s[..at] + bytes + s[at + |bytes|..]
  }

  lemma FourFields(s: seq<Octet>, w: nat, at: nat, l: seq<Octet>, v: seq<Octet>, k: seq<Octet>, p: seq<Octet>)
    requires at + |l| <= w && w + |v| + |k| + |p| <= |s|
    ensures var i := w + |v| + |k|;
            Overwrite(Overwrite(Overwrite(Overwrite(s, w, v), w + |v|, k), at, l), i, p)
            == Overwrite(s[..w], at, l) + v + k + p + s[i + |p|..]
  {
    var i := w + |v| + |k|;
    var s1 := Overwrite(s, w, v);
    assert s1 == s[..w] + v + s[w + |v|..];
    var s2 := Overwrite(s1, w + |v|, k);
    assert s2 == s[..w] + v + k + s[i..];
    var s3 := Overwrite(s2, at, l);
    assert s3 == Overwrite(s[..w], at, l) + v + k + s[i..];
    assert s3[i + |p|..] == s[i + |p|..];
  }

  /** The bytes of a word that its length field leaves alone. */
  function PaddingOf(abi: Abi, word: seq<Octet>): (padding: seq<Octet>)
    requires |word| == abi.word
    ensures |padding| == abi.word - abi.lengthWidth
  {
    word[..LengthAt(abi)] + word[LengthAt(abi) + abi.lengthWidth..]
  }

  lemma OverwriteLength(abi: Abi, word: seq<Octet>, n: nat)
    requires |word| == abi.word
    ensures Overwrite(word, LengthAt(abi), UintBytes(n, abi.lengthWidth, abi.endian)) ==
            LengthWord(abi, n, PaddingOf(abi, word))
  {}

  method WriteBytes(control: array<Octet>, at: nat, bytes: seq<Octet>)
    requires at + |bytes| <= control.Length
    modifies control
    ensures control[..] == Overwrite(old(control[..]), at, bytes)
  {
    forall i | 0 <= i < |bytes| {
      control[at + i] := bytes[i];
    }
  }

  /** The four fields written over what was in the buffer. */
  lemma FieldsMakeMessage(abi: Abi, before: seq<Octet>, r: Record)
    requires |before| == 128 && HeaderLength(abi) + |r.payload| <= 128
    ensures var w, n := abi.word, HeaderLength(abi) + |r.payload|;
            var levels := Overwrite(Overwrite(before, w, UintBytes(r.level, 4, abi.endian)),
                                    w + 4, UintBytes(r.kind, 4, abi.endian));
            var sized := Overwrite(levels, LengthAt(abi), UintBytes(n, abi.lengthWidth, abi.endian));
            Overwrite(sized, HeaderLength(abi), r.payload) ==
            Header(abi, r, PaddingOf(abi, before[..w])) + r.payload + before[n..]
  {
    hide UintBytes, LengthWord, PaddingOf;
    var w, n := abi.word, HeaderLength(abi) + |r.payload|;
    var level, kind := UintBytes(r.level, 4, abi.endian), UintBytes(r.kind, 4, abi.endian);
    FourFields(before, w, LengthAt(abi), UintBytes(n, abi.lengthWidth, abi.endian), level, kind, r.payload);
    OverwriteLength(abi, before[..w], n);
  }

  /** Writes the sole message into the 128-byte buffer and returns its padded length. */
  method FillControl(abi: Abi, control: array<Octet>, record: Record) returns (length: nat)
    requires control.Length == 128 && |record.payload| <= 64
    modifies control
    ensures length == CmsgSpace(abi, |record.payload|) <= 128
    ensures control[..] ==
            Header(abi, record, PaddingOf(abi, old(control[..])[..abi.word]))
            + record.payload + old(control[..])[HeaderLength(abi) + |record.payload|..]
  {
    length := CmsgSpace(abi, |record.payload|);
    FieldsMakeMessage(abi, control[..], record);
    WriteBytes(control, abi.word, UintBytes(record.level, 4, abi.endian));
    WriteBytes(control, abi.word + 4, UintBytes(record.kind, 4, abi.endian));
    var size := UintBytes(HeaderLength(abi) + |record.payload|, abi.lengthWidth, abi.endian);
    WriteBytes(control, LengthAt(abi), size);
    WriteBytes(control, HeaderLength(abi), record.payload);
  }

  lemma ZerosAfter(message: seq<Octet>, total: nat, length: nat)
    requires |message| <= length <= total
    ensures (message + Zeros(total)[|message|..])[..length] == message + Zeros(length - |message|)
  {}

  method SendOnce(abi: Abi, info: PacketInfo) returns (control: array<Octet>, length: nat)
    ensures fresh(control) && length <= control.Length == 128
    ensures control[..length] == Encode(abi, SentRecord(abi, info))
  {
    hide Header, Zeros, HeaderLength, UintBytes, Align;
    control := new Octet[128](_ => 0);
    assert control[..] == Zeros(128);
    assert Zeros(128)[..abi.word] == Zeros(abi.word);
    var record := SentRecord(abi, info);
    length := FillControl(abi, control, record);
    assert PaddingOf(abi, Zeros(abi.word)) == Zeros(abi.word - abi.lengthWidth);
    ghost var message := Header(abi, record, Zeros(abi.word - abi.lengthWidth)) + record.payload;
    ZerosAfter(message, 128, length);
    assert control[..length] == control[..][..length];
  }

  lemma LimitValues()
    ensures Limit(4) == 0x1_0000_0000 && Limit(4) <= Limit(8)
  {}

  lemma OneRecord(abi: Abi, r: Record, ipv6: bool, info: PacketInfo)
    requires Encodable(abi, r) && IsPacketInfo(r)
    ensures Decode(abi, Encode(abi, r), ipv6) == Ok(info) <==>
            ValidInfo(info, ipv6) && info.ifIndex < Limit(4) && r == InfoRecord(abi, info)
  {
    DecodeLaidOut(abi, [r], [], ipv6, info);
    assert [r][1..] == [] && EncodeAll(abi, []) == [];
    assert EncodeAll(abi, [r]) + [] == Encode(abi, r);
    OnlyInfoFirst(abi, r, [], ipv6, info);
    assert [r] + [] == [r];
  }

  /** What arrives for valid packet info of either family decodes to that very info. */
  lemma ReceivedRoundTrip(abi: Abi, info: PacketInfo, ipv6: bool)
    requires ValidInfo(info, ipv6) && info.ifIndex < Limit(4)
    ensures Decode(abi, Encode(abi, InfoRecord(abi, info)), ipv6) == Ok(info)
  {
    LimitValues();
    OneRecord(abi, InfoRecord(abi, info), ipv6, info);
  }

  /**
   * Decoding what is sent: for IPv6 it is the info again; for IPv4 it never decodes, because the
   * sender leaves the destination zero and the receiver demands that it be the local address.
   */
  lemma SentRoundTrip(abi: Abi, info: PacketInfo, ipv6: bool)
    requires ValidInfo(info, ipv6) && info.ifIndex < Limit(4)
    ensures ipv6 ==> Decode(abi, Encode(abi, SentRecord(abi, info)), ipv6) == Ok(info)
    ensures !ipv6 ==> Decode(abi, Encode(abi, SentRecord(abi, info)), ipv6).Err?
  {
    hide Decode, Encode;
    LimitValues();
    if ipv6 {
      ReceivedRoundTrip(abi, info, ipv6);
    } else {
      var r, o := SentRecord(abi, info), info.localAddr.octets;
      assert r.payload[8..12] == Zeros(4) && r.payload[4..8] == o;
      forall other: PacketInfo ensures Decode(abi, Encode(abi, r), ipv6) != Ok(other) {
        OneRecord(abi, r, ipv6, other);
        var q := InfoRecord(abi, other).payload;
        if other.localAddr.V4? { assert q[8..12] == q[4..8]; }
      }
    }
  }

  // -------------------------------------------------------- receive and send

  datatype Peer = Peer(ip: IpAddr, port: nat, flowInfo: nat, scopeId: nat)

  datatype ReceiveError =
    | Truncated | BadPeer | MappedPeer | FamilyMismatch | BadControlLength | BadControl(e: DecodeError)

  const AF_INET := 2
  const AF_INET6 := 10

  /** Reads a `sockaddr_storage`: ports and flow info are big-endian, the rest in host order. */
  function DecodePeer(abi: Abi, address: seq<Octet>, length: nat): Result<Peer, ReceiveError>
    requires |address| == 128
  {
    var family := ReadUint(address[0..2], abi.endian);
    if family == AF_INET && length >= 16 then
      Ok(Peer(V4(address[4..8]), ReadUint(address[2..4], Big), 0, 0))
    else if family == AF_INET6 && length >= 28 then
      if IsIpv4Mapped(address[8..24]) then Err(MappedPeer)
      else Ok(Peer(V6(address[8..24]), ReadUint(address[2..4], Big),
                   ReadUint(address[4..8], Big), ReadUint(address[24..28], abi.endian)))
    else Err(BadPeer)
  }

  /** A `sockaddr_in` or `sockaddr_in6` for this peer, in its 128 bytes (section 3.3 of RFC 3493 for IPv6). */
  function SocketAddress(abi: Abi, peer: Peer): (bytes: seq<Octet>)
    ensures |bytes| == 128
  {
    match peer.ip
    case V4(o) => UintBytes(AF_INET, 2, abi.endian) + UintBytes(peer.port, 2, Big) + o + Zeros(120)
    case V6(o) =>
      UintBytes(AF_INET6, 2, abi.endian) + UintBytes(peer.port, 2, Big) + UintBytes(peer.flowInfo, 4, Big)
      + o + UintBytes(peer.scopeId, 4, abi.endian) + Zeros(100)
  }

  predicate InRange(peer: Peer) {
    && peer.port < Limit(2) && peer.flowInfo < Limit(4) && peer.scopeId < Limit(4)
    && (peer.ip.V4? ==> peer.flowInfo == peer.scopeId == 0)
  }

  lemma SmallLimits()
    ensures Limit(2) == 0x1_0000
  {}

  lemma Ipv4PeerReads(abi: Abi, peer: Peer, length: nat)
    requires InRange(peer) && peer.ip.V4? && length >= 16
    ensures DecodePeer(abi, SocketAddress(abi, peer), length) == Ok(peer)
  {
    SmallLimits();
    var bytes := SocketAddress(abi, peer);
    UintRoundTrip(AF_INET, 2, abi.endian);
    UintRoundTrip(peer.port, 2, Big);
    assert bytes[0..2] == UintBytes(AF_INET, 2, abi.endian) && bytes[2..4] == UintBytes(peer.port, 2, Big);
    assert bytes[4..8] == peer.ip.octets;
  }

  lemma Ipv6PeerReads(abi: Abi, peer: Peer, length: nat)
    requires InRange(peer) && peer.ip.V6? && length >= 28
    ensures DecodePeer(abi, SocketAddress(abi, peer), length) ==
            if IsIpv4Mapped(peer.ip.octets) then Err(MappedPeer) else Ok(peer)
  {
    hide IsIpv4Mapped, UintBytes, Limit;
    SmallLimits();
    var bytes := SocketAddress(abi, peer);
    UintRoundTrip(AF_INET6, 2, abi.endian);
    UintRoundTrip(peer.port, 2, Big);
    UintRoundTrip(peer.flowInfo, 4, Big);
    UintRoundTrip(peer.scopeId, 4, abi.endian);
    assert bytes[0..2] == UintBytes(AF_INET6, 2, abi.endian) && bytes[2..4] == UintBytes(peer.port, 2, Big);
    assert bytes[4..8] == UintBytes(peer.flowInfo, 4, Big) && bytes[8..24] == peer.ip.octets;
    assert bytes[24..28] == UintBytes(peer.scopeId, 4, abi.endian);
  }

  /** Every peer address is read back from its socket address, except mapped IPv4 ones, which are refused. */
  lemma PeerRoundTrip(abi: Abi, peer: Peer, length: nat)
    requires InRange(peer) && length >= (if peer.ip.V4? then 16 else 28)
    ensures DecodePeer(abi, SocketAddress(abi, peer), length) ==
            if peer.ip.V6? && IsIpv4Mapped(peer.ip.octets) then Err(MappedPeer) else Ok(peer)
  {
    if peer.ip.V4? { Ipv4PeerReads(abi, peer, length); } else { Ipv6PeerReads(abi, peer, length); }
  }

  /** What `recvmsg` left behind. */
  datatype Received = Received(
    truncated: bool, address: seq<Octet>, nameLength: nat, control: seq<Octet>, controlLength: nat)

  method RecvOnce(abi: Abi, m: Received, ipv6: bool) returns (r: Result<(Peer, PacketInfo), ReceiveError>)
    requires |m.address| == 128 && |m.control| == 128
    ensures r.Ok? ==> PassesSendChecks(r.value.0, r.value.1, ipv6)
    ensures forall peer, info :: r == Ok((peer, info)) <==>
              && !m.truncated && DecodePeer(abi, m.address, m.nameLength) == Ok(peer) && peer.ip.V6? == ipv6
              && m.controlLength <= 128
              && Decode(abi, m.control[..m.controlLength], ipv6) == Ok(info)
  {
    if m.truncated {
      return Err(Truncated);
    }
    var peer := DecodePeer(abi, m.address, m.nameLength);
    if peer.Err? {
      return Err(peer.error);
    }
    if peer.value.ip.V6? != ipv6 {
      return Err(FamilyMismatch);
    }
    if m.controlLength > |m.control| {
      return Err(BadControlLength);
    }
    var info := DecodeInfo(abi, m.control[..m.controlLength], ipv6);
    if info.Err? {
      return Err(BadControl(info.error));
    }
    DecodeExact(abi, m.control[..m.controlLength], ipv6, info.value);
    return Ok((peer.value, info.value));
  }

  /** The checks `send` makes before it writes anything. */
  predicate PassesSendChecks(peer: Peer, info: PacketInfo, ipv6: bool) {
    ValidInfo(info, ipv6) && peer.ip.V6? == ipv6
  }
}
