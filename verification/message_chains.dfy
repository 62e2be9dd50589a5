/** Which bytes are chains of control messages, whatever stands in their padding. */
module MessageChains {
  import opened Text
  import opened Addresses
  import opened ControlMessages

  /** One message with any padding in its length word and any bytes in the gap after its payload. */
  function Spelled(abi: Abi, r: Record, padding: seq<Octet>, gap: seq<Octet>): seq<Octet>
    requires |padding| == abi.word - abi.lengthWidth
  {
    Header(abi, r, padding) + r.payload + gap
  }

  function GapLength(abi: Abi, r: Record): nat {
    Align(abi, |r.payload|) - |r.payload|
  }

  /** The bytes begin with this message and go on with `rest`; only at the very end may the gap be short. */
  ghost predicate BeginsWith(abi: Abi, bytes: seq<Octet>, r: Record, rest: seq<Octet>) {
    exists padding, gap ::
      && |padding| == abi.word - abi.lengthWidth && bytes == Spelled(abi, r, padding, gap) + rest
      && Encodable(abi, r) && (|gap| == GapLength(abi, r) || (rest == [] && |gap| < GapLength(abi, r)))
  }

  /** The bytes are these messages one after the other, and then less than a header. */
  ghost predicate Spells(abi: Abi, bytes: seq<Octet>, records: seq<Record>)
    decreases records
  {
    if records == [] then |bytes| < HeaderLength(abi)
    else exists rest :: BeginsWith(abi, bytes, records[0], rest) && Spells(abi, rest, records[1..])
  }

  lemma WordAndPadding(abi: Abi, word: seq<Octet>)
    requires |word| == abi.word
    ensures LengthWord(abi, ReadLength(abi, word), PaddingOf(abi, word)) == word
    ensures ReadLength(abi, word) < Limit(abi.lengthWidth)
  {
    hide Limit, UintBytes;
    var at := LengthAt(abi);
    var field := word[at..at + abi.lengthWidth];
    BytesRoundTrip(field, abi.endian);
    assert word == word[..at] + field + word[at + abi.lengthWidth..];
  }

  lemma HeaderRead(abi: Abi, bytes: seq<Octet>, length: nat)
    requires HeaderLength(abi) <= length <= |bytes| && ReadLength(abi, bytes[..abi.word]) == length
    ensures var r := RecordAt(abi, bytes, length);
            && Encodable(abi, r) && HeaderLength(abi) + |r.payload| == length
            && Header(abi, r, PaddingOf(abi, bytes[..abi.word])) + r.payload == bytes[..length]
  {
    hide ReadUint;
    var w := abi.word;
    WordAndPadding(abi, bytes[..w]);
    BytesRoundTrip(bytes[w..w + 4], abi.endian);
    BytesRoundTrip(bytes[w + 4..w + 8], abi.endian);
    FourParts(bytes, w, length);
  }

  lemma FourParts(bytes: seq<Octet>, w: nat, length: nat)
    requires w + 8 <= length <= |bytes|
    ensures bytes[..length] == bytes[..w] + bytes[w..w + 4] + bytes[w + 4..w + 8] + bytes[w + 8..length]
  {}

  lemma SpaceOf(abi: Abi, r: Record)
    ensures Align(abi, HeaderLength(abi) + |r.payload|) == HeaderLength(abi) + |r.payload| + GapLength(abi, r)
  {
    AlignPastHeader(abi, |r.payload|);
  }

  lemma FrameParts(abi: Abi, bytes: seq<Octet>) returns (length: nat, r: Record, padding: seq<Octet>)
    requires FrameAt(abi, bytes).Message?
    ensures r == FrameAt(abi, bytes).record && FrameAt(abi, bytes).space == length + GapLength(abi, r)
    ensures HeaderLength(abi) <= length <= |bytes| && |padding| == abi.word - abi.lengthWidth && Encodable(abi, r)
    ensures bytes[..length] == Header(abi, r, padding) + r.payload
  {
    length, r := ReadLength(abi, bytes[..abi.word]), FrameAt(abi, bytes).record;
    padding := PaddingOf(abi, bytes[..abi.word]);
    HeaderRead(abi, bytes, length);
    SpaceOf(abi, r);
  }

  lemma BeginsIntro(abi: Abi, bytes: seq<Octet>, r: Record, padding: seq<Octet>, gap: seq<Octet>, rest: seq<Octet>)
    requires |padding| == abi.word - abi.lengthWidth && Encodable(abi, r)
    requires bytes == Header(abi, r, padding) + r.payload + gap + rest
    requires |gap| == GapLength(abi, r) || (rest == [] && |gap| < GapLength(abi, r))
    ensures BeginsWith(abi, bytes, r, rest)
  {
    assert bytes == Spelled(abi, r, padding, gap) + rest;
  }

  lemma CutAt(bytes: seq<Octet>, front: seq<Octet>, m: nat, n: nat)
    requires m <= n <= |bytes| && front == bytes[..m]
    ensures bytes == front + bytes[m..n] + bytes[n..]
  {}

  lemma FrameBegins(abi: Abi, bytes: seq<Octet>)
    requires FrameAt(abi, bytes).Message?
    ensures BeginsWith(abi, bytes, FrameAt(abi, bytes).record, Drop(bytes, FrameAt(abi, bytes).space))
  {
    var length, r, padding := FrameParts(abi, bytes);
    var end := length + GapLength(abi, r);
    var cut := if end <= |bytes| then end else |bytes|;
    CutAt(bytes, Header(abi, r, padding) + r.payload, length, cut);
    BeginsIntro(abi, bytes, r, padding, bytes[length..cut], bytes[cut..]);
  }

  lemma SpelledParts(abi: Abi, r: Record, padding: seq<Octet>, gap: seq<Octet>, rest: seq<Octet>, bytes: seq<Octet>)
    requires |padding| == abi.word - abi.lengthWidth && bytes == Spelled(abi, r, padding, gap) + rest
    ensures var w, n := abi.word, HeaderLength(abi) + |r.payload|;
            && n + |gap| + |rest| == |bytes| && bytes[..w] == LengthWord(abi, n, padding)
            && bytes[w..w + 4] == UintBytes(r.level, 4, abi.endian)
            && bytes[w + 4..w + 8] == UintBytes(r.kind, 4, abi.endian)
            && bytes[w + 8..n] == r.payload && bytes[n + |gap|..] == rest
  {
    Slices(LengthWord(abi, HeaderLength(abi) + |r.payload|, padding),
           UintBytes(r.level, 4, abi.endian), UintBytes(r.kind, 4, abi.endian), r.payload, gap, rest);
  }

  lemma SpelledFrame(abi: Abi, r: Record, padding: seq<Octet>, gap: seq<Octet>, rest: seq<Octet>, bytes: seq<Octet>)
    requires |padding| == abi.word - abi.lengthWidth && Encodable(abi, r)
    requires bytes == Spelled(abi, r, padding, gap) + rest
    ensures FrameAt(abi, bytes) == Message(HeaderLength(abi) + |r.payload| + GapLength(abi, r), r)
    ensures HeaderLength(abi) + |r.payload| + |gap| <= |bytes|
    ensures bytes[HeaderLength(abi) + |r.payload| + |gap|..] == rest
  {
    SpelledParts(abi, r, padding, gap, rest, bytes);
    FrameOfFields(abi, r, bytes, HeaderLength(abi) + |r.payload|, padding);
    SpaceOf(abi, r);
  }

  lemma BeginsFrame(abi: Abi, bytes: seq<Octet>, r: Record, rest: seq<Octet>)
    requires BeginsWith(abi, bytes, r, rest)
    ensures FrameAt(abi, bytes).Message? && FrameAt(abi, bytes).record == r
    ensures Drop(bytes, FrameAt(abi, bytes).space) == rest
  {
    var padding, gap :|
      && |padding| == abi.word - abi.lengthWidth && bytes == Spelled(abi, r, padding, gap) + rest
      && Encodable(abi, r) && (|gap| == GapLength(abi, r) || (rest == [] && |gap| < GapLength(abi, r)));
    SpelledFrame(abi, r, padding, gap, rest, bytes);
  }

  /** The walk finds exactly the messages that the bytes spell, up to a remainder shorter than a header. */
  lemma {:induction false} ChainExactly(abi: Abi, bytes: seq<Octet>, records: seq<Record>)
    ensures MessagesIn(abi, bytes) == Chain(records, true) <==> Spells(abi, bytes, records)
    decreases records
  {
    hide BeginsWith;
    var frame := FrameAt(abi, bytes);
    FramesProgress(abi);
    if records == [] {
      assert MessagesIn(abi, bytes) == Chain([], true) <==> frame.TooShort?;
    } else {
      if frame.Message? {
        FrameBegins(abi, bytes);
        ChainExactly(abi, Drop(bytes, frame.space), records[1..]);
        ChainStep(abi, Frames(abi), bytes, Drop(bytes, frame.space), frame.record);
        assert records == [records[0]] + records[1..];
      }
      if rest :| BeginsWith(abi, bytes, records[0], rest) && Spells(abi, rest, records[1..]) {
        BeginsFrame(abi, bytes, records[0], rest);
      }
    }
  }

  /** So parsing is exact in terms of the bytes alone. */
  lemma DecodeSpelled(abi: Abi, control: seq<Octet>, ipv6: bool, info: PacketInfo)
    ensures Decode(abi, control, ipv6) == Ok(info) <==>
            exists records :: Spells(abi, control, records) && ValidInfo(info, ipv6) && info.ifIndex < Limit(4)
                              && SomeOnlyInfo(abi, records, ipv6, info)
  {
    DecodeExact(abi, control, ipv6, info);
    var chain := MessagesIn(abi, control);
    if chain.complete { ChainExactly(abi, control, chain.records); }
    forall records | Spells(abi, control, records) ensures chain == Chain(records, true) {
      ChainExactly(abi, control, records);
    }
  }
}
