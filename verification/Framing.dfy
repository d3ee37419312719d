/** The stream decoder that the session's two reads make up (01_AsyncNet_Server/src/Session.cpp:65-123). */
module Framing {
  import opened MachineWords
  import opened Protocol

  /** What the next read or two find at the front of the stream. */
  datatype Frame =
    | NeedHeader
    | NeedPayload(h: Header)
    | BadMagic
    | TooLong(h: Header)
    | Whole(packet: Packet)

  datatype Decoded = Decoded(packets: seq<Packet>, consumed: nat, stuck: Frame)

  function NextFrame(s: seq<u8>): Frame {
    if |s| < HEADER_SIZE then NeedHeader
    else
      var h := ParseHeader(s);
      if h.magic != MAGIC_HEADER then BadMagic
      else if h.length > MAX_PAYLOAD_SIZE then TooLong(h)
      else if |s| < HEADER_SIZE + h.length then NeedPayload(h)
      else Whole(Packet(h, s[HEADER_SIZE..HEADER_SIZE + h.length]))
  }

  function FrameSize(p: Packet): nat {
    HEADER_SIZE + |p.payload|
  }

  /** `d`, found behind `packets` that took `size` bytes. */
  function After(packets: seq<Packet>, size: nat, d: Decoded): Decoded {
    Decoded(packets + d.packets, size + d.consumed, d.stuck)
  }

  function Decode(s: seq<u8>): Decoded
    decreases |s|
  {
    match NextFrame(s)
    case Whole(p) => After([p], FrameSize(p), Decode(s[FrameSize(p)..]))
    case stuck => Decoded([], 0, stuck)
  }

  lemma AfterBoth(a: seq<Packet>, m: nat, b: seq<Packet>, n: nat, d: Decoded)
    ensures After(a, m, After(b, n, d)) == After(a + b, m + n, d)
  {
    assert a + (b + d.packets) == (a + b) + d.packets;
  }

  /** What the framing can carry. */
  predicate Fits(p: Packet) {
    p.header.magic == MAGIC_HEADER && |p.payload| <= MAX_PAYLOAD_SIZE
  }

  predicate AllFit(packets: seq<Packet>) {
    forall p | p in packets :: Fits(p)
  }

  function NormalisedAll(packets: seq<Packet>): seq<Packet> {
    if packets == [] then [] else [Normalised(packets[0])] + NormalisedAll(packets[1..])
  }

  /** A packet comes back from its own encoding exactly when it fits. */
  lemma PacketRoundTrip(p: Packet, rest: seq<u8>)
    ensures NextFrame(EncodePacket(p) + rest) == Whole(Normalised(p)) <==> Fits(p)
  {
    hide EncodeHeader, ParseHeader;
    var s := EncodePacket(p) + rest;
    var h := Normalised(p).header;
    assert s == EncodeHeader(h) + (p.payload + rest);
    EncodeThenParse(h, p.payload + rest);
    if Fits(p) {
      assert s[HEADER_SIZE..HEADER_SIZE + |p.payload|] == p.payload;
    }
  }

  /** In bytes: a frame is refused for its first two, or for a length over 65536 in the last four of eight. */
  lemma RefusedWhen(s: seq<u8>)
    ensures NextFrame(s).BadMagic? <==> |s| >= 8 && s[..2] != [0x41, 0x4E]
    ensures NextFrame(s).TooLong?
            <==> && |s| >= 8 && s[..2] == [0x41, 0x4E]
                 && s[4] as int * 0x100_0000 + s[5] as int * 0x1_0000 + s[6] as int * 0x100 + s[7] as int > 65536
  {
    if |s| >= 8 {
      assert s[..2] == [s[0], s[1]];
    }
  }

  /** In numbers: the magic is 0x414E and a payload has at most 65536 bytes. */
  lemma {:induction false} PacketComesBackWhen(p: Packet)
    ensures Decode(EncodePacket(p)) == Decoded([p.(header := p.header.(length := |p.payload| % 0x1_0000_0000))],
                                               8 + |p.payload|, NeedHeader)
            <==> p.header.magic == 0x414E && |p.payload| <= 65536
  {
    PacketRoundTrip(p, []);
    var s := EncodePacket(p);
    assert s + [] == s;
    if Fits(p) {
      DecodeStep(Normalised(p), s, []);
    } else if NextFrame(s).Whole? {
      assert Decode(s).packets[0] == NextFrame(s).packet;
    }
  }

  lemma FrameIsItsEncoding(s: seq<u8>)
    requires NextFrame(s).Whole?
    ensures var p := NextFrame(s).packet;
            && Fits(p) && p == Normalised(p)
            && FrameSize(p) <= |s| && EncodePacket(p) == s[..FrameSize(p)]
  {
    hide EncodeHeader, ParseHeader;
    ParseThenEncode(s);
    var p := NextFrame(s).packet;
    assert s[..FrameSize(p)] == s[..HEADER_SIZE] + p.payload;
  }

  lemma {:induction false} DecodeStep(p: Packet, s: seq<u8>, t: seq<u8>)
    requires NextFrame(s) == Whole(p) && FrameSize(p) <= |s| && t == s[FrameSize(p)..]
    ensures Decode(s) == After([p], FrameSize(p), Decode(t))
  {
    hide NextFrame, After;
  }

  lemma {:induction false} EncodeCons(packets: seq<Packet>)
    requires packets != []
    ensures EncodeAll(packets) == EncodePacket(packets[0]) + EncodeAll(packets[1..])
    ensures NormalisedAll(packets) == [Normalised(packets[0])] + NormalisedAll(packets[1..])
  {
  }

  lemma {:induction false} DecodePastOne(p: Packet, encoded: seq<u8>, rest: seq<u8>)
    requires Fits(p)
    ensures Decode((EncodePacket(p) + encoded) + rest) == After([Normalised(p)], FrameSize(p), Decode(encoded + rest))
  {
    hide EncodePacket, NextFrame, Fits, Decode, After;
    var tail := encoded + rest;
    assert (EncodePacket(p) + encoded) + rest == EncodePacket(p) + tail;
    PacketRoundTrip(p, tail);
    DecodeStep(Normalised(p), EncodePacket(p) + tail, tail);
  }

  /** Decoding goes through the encodings of packets that fit and carries on with the rest. */
  lemma {:induction false} DecodePast(packets: seq<Packet>, rest: seq<u8>)
    requires AllFit(packets)
    ensures Decode(EncodeAll(packets) + rest)
         == After(NormalisedAll(packets), |EncodeAll(packets)|, Decode(rest))
  {
    if packets == [] {
      assert EncodeAll(packets) + rest == rest;
    } else {
      DecodePast(packets[1..], rest);
      EncodeCons(packets);
      hide EncodePacket, Decode, After, EncodeAll, NormalisedAll;
      DecodePastOne(packets[0], EncodeAll(packets[1..]), rest);
      AfterBoth([Normalised(packets[0])], FrameSize(packets[0]),
                NormalisedAll(packets[1..]), |EncodeAll(packets[1..])|, Decode(rest));
    }
  }

  /** A stream of encoded packets decodes to those packets, lengths normalised, and no more. */
  lemma {:induction false} StreamRoundTrip(packets: seq<Packet>)
    requires AllFit(packets)
    ensures Decode(EncodeAll(packets))
         == Decoded(NormalisedAll(packets), |EncodeAll(packets)|, NeedHeader)
  {
    DecodePast(packets, []);
    assert EncodeAll(packets) + [] == EncodeAll(packets);
  }

  /** Re-encoding what was decoded from any bytes at all gives back the bytes consumed. */
  lemma {:induction false} ReencodesConsumed(s: seq<u8>)
    ensures var d := Decode(s);
            && d.consumed <= |s| && EncodeAll(d.packets) == s[..d.consumed]
            && AllFit(d.packets) && NormalisedAll(d.packets) == d.packets
            && d.stuck == NextFrame(s[d.consumed..]) && !d.stuck.Whole?
    decreases |s|
  {
    hide NextFrame, EncodePacket;
    if NextFrame(s).Whole? {
      var p := NextFrame(s).packet;
      FrameIsItsEncoding(s);
      var t := s[FrameSize(p)..];
      ReencodesConsumed(t);
      var n := FrameSize(p) + Decode(t).consumed;
      assert s[..n] == s[..FrameSize(p)] + t[..Decode(t).consumed];
      assert s[n..] == t[Decode(t).consumed..];
    } else {
      assert s[0..] == s;
    }
  }

  /** A whole frame stays one when more bytes arrive. */
  lemma FramesAreStable(s: seq<u8>, more: seq<u8>)
    requires NextFrame(s).Whole? || NextFrame(s).BadMagic? || NextFrame(s).TooLong?
    ensures NextFrame(s + more) == NextFrame(s)
  {
    assert (s + more)[..HEADER_SIZE] == s[..HEADER_SIZE];
    assert ParseHeader(s + more) == ParseHeader(s);
    if NextFrame(s).Whole? {
      var n := FrameSize(NextFrame(s).packet);
      assert (s + more)[HEADER_SIZE..n] == s[HEADER_SIZE..n];
    }
  }

  /** Decoding is incremental: what is left over, with the bytes that arrive later, is decoded
      as if it had all come at once. So a truncated stream yields a prefix of the packets. */
  lemma {:induction false} DecodeResumes(s: seq<u8>, more: seq<u8>)
    ensures Decode(s).consumed <= |s|
    ensures var d := Decode(s);
            Decode(s + more) == After(d.packets, d.consumed, Decode(s[d.consumed..] + more))
    decreases |s|
  {
    hide NextFrame, EncodePacket, Normalised, Fits;
    if NextFrame(s).Whole? {
      var p := NextFrame(s).packet;
      FrameIsItsEncoding(s);
      FramesAreStable(s, more);
      var t := s[FrameSize(p)..];
      DecodeResumes(t, more);
      DecodeStep(p, s, t);
      assert (s + more)[FrameSize(p)..] == t + more;
      DecodeStep(p, s + more, t + more);
      assert s[Decode(s).consumed..] == t[Decode(t).consumed..];
      var d := Decode(t);
      AfterBoth([p], FrameSize(p), d.packets, d.consumed, Decode(t[d.consumed..] + more));
    } else {
      assert s[0..] == s;
    }
  }

  /** Cutting any stream short only drops packets from the end. */
  lemma {:induction false} TruncationYieldsPrefix(s: seq<u8>, cut: nat)
    requires cut <= |s|
    ensures Decode(s[..cut]).packets <= Decode(s).packets
    ensures Decode(s[..cut]).consumed <= Decode(s).consumed
  {
    DecodeResumes(s[..cut], s[cut..]);
    assert s[..cut] + s[cut..] == s;
  }

  /** Once a bad header is met no later u8 is looked at. */
  lemma {:induction false} RejectionIsFinal(s: seq<u8>, more: seq<u8>)
    requires Decode(s).stuck.BadMagic? || Decode(s).stuck.TooLong?
    ensures Decode(s + more) == Decode(s)
  {
    ReencodesConsumed(s);
    DecodeResumes(s, more);
    FramesAreStable(s[Decode(s).consumed..], more);
  }

  /** A cut in a stream of packets that fit is never mistaken for a bad header. */
  lemma {:induction false} TruncationIsNotAnError(packets: seq<Packet>, cut: nat)
    requires AllFit(packets) && cut <= |EncodeAll(packets)|
    ensures var d := Decode(EncodeAll(packets)[..cut]);
            && d.packets <= NormalisedAll(packets)
            && (d.stuck.NeedHeader? || d.stuck.NeedPayload?)
  {
    hide Decode, EncodeAll;
    var s := EncodeAll(packets);
    StreamRoundTrip(packets);
    TruncationYieldsPrefix(s, cut);
    ReencodesConsumed(s[..cut]);
    assert s[..cut] + s[cut..] == s;
    if Decode(s[..cut]).stuck.BadMagic? || Decode(s[..cut]).stuck.TooLong? {
      RejectionIsFinal(s[..cut], s[cut..]);
      assert false;
    }
  }
}
