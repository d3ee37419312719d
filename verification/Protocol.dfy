/** The wire format (01_AsyncNet_Server/include/Common.hpp, 01_AsyncNet_Server/src/Protocol.cpp). */
module Protocol {
  import opened MachineWords

  const MAGIC_HEADER: u16 := 0x414E
  const HEADER_SIZE: nat := 8
  const MAX_PAYLOAD_SIZE: nat := 65536

  /** `MessageType` is a 16-bit enumeration that any received value may inhabit. */
  const PING: u16 := 0x0001
  const PONG: u16 := 0x0002
  const ECHO_REQUEST: u16 := 0x0003
  const ECHO_RESPONSE: u16 := 0x0004
  const DISCONNECT: u16 := 0x00FF

  datatype Header = Header(magic: u16, kind: u16, length: u32)

  datatype Packet = Packet(header: Header, payload: seq<u8>)

  /** Two bytes in network order. */
  function Be16(x: u16): (b: seq<u8>)
    ensures |b| == 2
  {
    [x / 0x100, x % 0x100]
  }

  /** Four bytes in network order. */
  function Be32(x: u32): (b: seq<u8>)
    ensures |b| == 4
  {
    Be16(x / 0x1_0000) + Be16(x % 0x1_0000)
  }

  function FromBe16(hi: u8, lo: u8): u16 {
    hi * 0x100 + lo
  }

  function FromBe32(b0: u8, b1: u8, b2: u8, b3: u8): u32 {
    FromBe16(b0, b1) * 0x1_0000 + FromBe16(b2, b3)
  }

  function EncodeHeader(h: Header): (b: seq<u8>)
    ensures |b| == HEADER_SIZE
  {
    Be16(h.magic) + Be16(h.kind) + Be32(h.length)
  }

  /** The header spelled by the first eight bytes. */
  function ParseHeader(b: seq<u8>): Header
    requires |b| >= HEADER_SIZE
  {
    Header(FromBe16(b[0], b[1]), FromBe16(b[2], b[3]), FromBe32(b[4], b[5], b[6], b[7]))
  }

  /** The packet with the length that goes on the wire: 32 bits of its payload's size. */
  function Normalised(p: Packet): Packet {
    p.(header := p.header.(length := |p.payload| % U32))
  }

  function EncodePacket(p: Packet): (b: seq<u8>)
    ensures |b| == HEADER_SIZE + |p.payload|
  {
    EncodeHeader(Normalised(p).header) + p.payload
  }

  function EncodeAll(packets: seq<Packet>): seq<u8> {
    if packets == [] then [] else EncodePacket(packets[0]) + EncodeAll(packets[1..])
  }

  method SerializeHeader(header: Header) returns (buffer: array<u8>)
    ensures fresh(buffer) && buffer[..] == EncodeHeader(header) && buffer.Length == 8
    ensures buffer[0] as int * 0x100 + buffer[1] as int == header.magic
    ensures buffer[2] as int * 0x100 + buffer[3] as int == header.kind
    ensures buffer[4] as int * 0x100_0000 + buffer[5] as int * 0x1_0000 + buffer[6] as int * 0x100 + buffer[7] as int
         == header.length
  {
    buffer := new u8[HEADER_SIZE];
    buffer[0], buffer[1] := header.magic / 0x100, header.magic % 0x100;
    buffer[2], buffer[3] := header.kind / 0x100, header.kind % 0x100;
    var hi, lo := header.length / 0x1_0000, header.length % 0x1_0000;
    buffer[4], buffer[5] := hi / 0x100, hi % 0x100;
    buffer[6], buffer[7] := lo / 0x100, lo % 0x100;
  }

  /** Too few bytes leave the caller's header alone; a wrong magic still fills it in. */
  method DeserializeHeader(data: array<u8>, size: nat, was: Header) returns (ok: bool, header: Header)
    requires size <= data.Length
    ensures ok <==> size >= 8 && data[0] == 0x41 && data[1] == 0x4E
    ensures size < 8 ==> header == was
    ensures size >= 8 ==>
              && header.magic == data[0] as int * 0x100 + data[1] as int
              && header.kind == data[2] as int * 0x100 + data[3] as int
              && header.length == data[4] as int * 0x100_0000 + data[5] as int * 0x1_0000
                                  + data[6] as int * 0x100 + data[7] as int
    ensures size >= 8 ==> EncodeHeader(header) == data[..8]
  {
    if size < HEADER_SIZE {
      return false, was;
    }
    header := Header(
      FromBe16(data[0], data[1]),
      FromBe16(data[2], data[3]),
      FromBe32(data[4], data[5], data[6], data[7]));
    ParseThenEncode(data[..]);
    ok := header.magic == MAGIC_HEADER;
  }

  /** The length on the wire is that of the payload, in 32 bits, whatever the packet's header says. */
  method SerializePacket(packet: Packet) returns (buffer: seq<u8>)
    ensures buffer == EncodePacket(packet)
    ensures |buffer| == 8 + |packet.payload| && buffer[8..] == packet.payload
    ensures buffer[0] as int * 0x100 + buffer[1] as int == packet.header.magic
    ensures buffer[2] as int * 0x100 + buffer[3] as int == packet.header.kind
    ensures buffer[4] as int * 0x100_0000 + buffer[5] as int * 0x1_0000 + buffer[6] as int * 0x100 + buffer[7] as int
         == |packet.payload| % 0x1_0000_0000
  {
    var h := packet.header.(length := |packet.payload| % U32);
    var header := SerializeHeader(h);
    buffer := header[..] + packet.payload;
  }

  function CreateEchoResponse(payload: seq<u8>): Packet {
    Packet(Header(MAGIC_HEADER, ECHO_RESPONSE, |payload| % U32), payload)
  }

  function CreatePongPacket(): Packet {
    Packet(Header(MAGIC_HEADER, PONG, 0), [])
  }

  /** An encoded header is its three fields in network order: sixteen, sixteen and thirty-two bits, the most
      significant byte of each first. */
  lemma HeaderIsInNetworkOrder(h: Header)
    ensures var b := EncodeHeader(h);
            && |b| == 8
            && b[0] as int * 0x100 + b[1] as int == h.magic
            && b[2] as int * 0x100 + b[3] as int == h.kind
            && b[4] as int * 0x100_0000 + b[5] as int * 0x1_0000 + b[6] as int * 0x100 + b[7] as int == h.length
  {
  }

  lemma Be16RoundTrip(x: u16, a: u8, b: u8)
    ensures FromBe16(Be16(x)[0], Be16(x)[1]) == x
    ensures Be16(FromBe16(a, b)) == [a, b]
  {
  }

  /** Whatever follows it, an encoded header parses back to itself. */
  lemma EncodeThenParse(h: Header, rest: seq<u8>)
    ensures ParseHeader(EncodeHeader(h) + rest) == h
  {
    Be16RoundTrip(h.length / 0x1_0000, 0, 0);
    Be16RoundTrip(h.length % 0x1_0000, 0, 0);
  }

  lemma Be32OfFrom(b0: u8, b1: u8, b2: u8, b3: u8)
    ensures Be32(FromBe32(b0, b1, b2, b3)) == [b0, b1, b2, b3]
  {
    var hi: int, lo: int := FromBe16(b0, b1), FromBe16(b2, b3);
    assert (hi * 0x1_0000 + lo) / 0x1_0000 == hi;
  }

  /** Any eight bytes are the encoding of the header they spell. */
  lemma ParseThenEncode(b: seq<u8>)
    requires |b| >= HEADER_SIZE
    ensures EncodeHeader(ParseHeader(b)) == b[..HEADER_SIZE]
  {
    Be16RoundTrip(0, b[0], b[1]);
    Be16RoundTrip(0, b[2], b[3]);
    Be32OfFrom(b[4], b[5], b[6], b[7]);
    assert b[..HEADER_SIZE] == [b[0], b[1]] + [b[2], b[3]] + [b[4], b[5], b[6], b[7]];
  }
}
