/** The framed wire format of server/include/protocol.hpp: the eight-byte header, the two
    codecs that read and write it, and what they agree on.

    htonl/htons swap bytes on a little-endian host and do nothing on a big-endian one, and the
    codec then takes the bytes most significant first.  So the host is a parameter here. */
module Protocol {

  type byte = x: int | 0 <= x < 0x100
  type uint16 = x: int | 0 <= x < 0x1_0000
  type uint32 = x: int | 0 <= x < 0x1_0000_0000

  const MAX_PAYLOAD_SIZE: uint32 := 16 * 1024 * 1024
  const HEADER_SIZE := 8

  datatype Host = LittleEndian | BigEndian

  datatype Header = Header(payloadLength: uint32, messageType: uint16, flags: byte, reserved: byte)

  datatype Message = Message(header: Header, payload: seq<byte>)

  datatype Result<+T> = Ok(value: T) | Err

  // ---------------------------------------------------------------------------------------
  // Byte order

  /** The shifts and ors of the decoders, most significant byte first. */
  function Join16(b0: byte, b1: byte): uint16 {
    b0 * 0x100 + b1
  }

  function Join32(b0: byte, b1: byte, b2: byte, b3: byte): uint32 {
    b0 * 0x100_0000 + b1 * 0x1_0000 + b2 * 0x100 + b3
  }

  /** The n low bytes of x, most significant first. */
  function BigEndian(x: nat, n: nat): (bs: seq<byte>)
    ensures |bs| == n
  {
    if n == 0 then [] else BigEndian(x / 0x100, n - 1) + [x % 0x100]
  }

  /** The number whose bytes these are, most significant first. */
  function Value(bs: seq<byte>): nat {
    if bs == [] then 0 else Value(bs[..|bs| - 1]) * 0x100 + bs[|bs| - 1]
  }

  function Reversed(bs: seq<byte>): (r: seq<byte>)
    ensures |r| == |bs|
    ensures forall i :: 0 <= i < |bs| ==> r[i] == bs[|bs| - 1 - i]
  {
    seq(|bs|, i requires 0 <= i < |bs| => bs[|bs| - 1 - i])
  }

  lemma Bounded32(bs: seq<byte>)
    requires |bs| == 4
    ensures Value(bs) < 0x1_0000_0000 && Value(bs) == Join32(bs[0], bs[1], bs[2], bs[3])
  {
    Bounded16(bs[..2]);
    assert bs[..3][..2] == bs[..2] && bs[..4] == bs;
    assert Value(bs[..3]) == Value(bs[..2]) * 0x100 + bs[2];
  }

  lemma Bounded16(bs: seq<byte>)
    requires |bs| == 2
    ensures Value(bs) < 0x1_0000 && Value(bs) == Join16(bs[0], bs[1])
  {
    assert bs[..1][..0] == [];
    assert Value(bs[..1]) == bs[0];
  }

  /** The byte swaps of a little-endian host. */
  function Swap16(x: uint16): uint16 {
    Bounded16(Reversed(BigEndian(x, 2)));
    Value(Reversed(BigEndian(x, 2)))
  }

  function Swap32(x: uint32): uint32 {
    Bounded32(Reversed(BigEndian(x, 4)));
    Value(Reversed(BigEndian(x, 4)))
  }

  /** htonl and ntohl are the same map. */
  function NetworkOrder32(host: Host, x: uint32): uint32 {
    if host.BigEndian? then x else Swap32(x)
  }

  function NetworkOrder16(host: Host, x: uint16): uint16 {
    if host.BigEndian? then x else Swap16(x)
  }

  // ---------------------------------------------------------------------------------------
  // What ends up on the wire

  /** The header bytes the server and the load generator put on the wire: each integer in the
      byte order of the host they run on. */
  function HeaderBytes(host: Host, h: Header): (bs: seq<byte>)
    ensures |bs| == HEADER_SIZE
  {
    HostOrder(host, BigEndian(h.payloadLength, 4)) + HostOrder(host, BigEndian(h.messageType, 2)) + [h.flags, 0]
  }

  function HostOrder(host: Host, bs: seq<byte>): (r: seq<byte>)
    ensures |r| == |bs|
  {
    if host.BigEndian? then bs else Reversed(bs)
  }

  /** encode_header: network-order conversion, then most significant byte first, in place. */
  method EncodeHeader(host: Host, h: Header, out: array<byte>)
    requires out.Length >= HEADER_SIZE
    modifies out
    ensures out[..HEADER_SIZE] == HeaderBytes(host, h)
    ensures out[HEADER_SIZE..] == old(out[HEADER_SIZE..])
  {
    var netLen := NetworkOrder32(host, h.payloadLength);
    var netType := NetworkOrder16(host, h.messageType);
    out[0] := netLen / 0x100_0000;
    out[1] := netLen / 0x1_0000 % 0x100;
    out[2] := netLen / 0x100 % 0x100;
    out[3] := netLen % 0x100;
    out[4] := netType / 0x100;
    out[5] := netType % 0x100;
    out[6] := h.flags;
    out[7] := 0;
    Swap32Bytes(h.payloadLength);
    Swap16Bytes(h.messageType);
    BigEndian32(netLen);
    BigEndian16(netType);
    assert out[..HEADER_SIZE] == BigEndian(netLen, 4) + BigEndian(netType, 2) + [h.flags, 0];
  }

  /** The header eight bytes stand for: each integer read in the host's own byte order. */
  function HeaderOf(host: Host, bs: seq<byte>): Result<Header>
    requires |bs| == HEADER_SIZE
  {
    Bounded32(HostOrder(host, bs[..4]));
    Bounded16(HostOrder(host, bs[4..6]));
    var h := Header(Value(HostOrder(host, bs[..4])), Value(HostOrder(host, bs[4..6])), bs[6], bs[7]);
    if h.payloadLength > MAX_PAYLOAD_SIZE then Err else Ok(h)
  }

  /** decode_header; Err is the exception thrown for an oversized payload length. */
  function DecodeHeader(host: Host, bs: seq<byte>): Result<Header>
    requires |bs| == HEADER_SIZE
  {
    var netLen := Join32(bs[0], bs[1], bs[2], bs[3]);
    var netType := Join16(bs[4], bs[5]);
    var h := Header(NetworkOrder32(host, netLen), NetworkOrder16(host, netType), bs[6], bs[7]);
    if h.payloadLength > MAX_PAYLOAD_SIZE then Err else Ok(h)
  }

  /** Message::make: the length field keeps the low 32 bits of the payload's size. */
  function Make(kind: uint16, payload: seq<byte>, flags: byte): Message {
    Message(Header(|payload| % 0x1_0000_0000, kind, flags, 0), payload)
  }

  // ---------------------------------------------------------------------------------------
  // The dialog client's own codec (always big-endian)

  function UiHeaderBytes(payloadLength: uint32, kind: uint16, flags: byte): (bs: seq<byte>)
    ensures |bs| == HEADER_SIZE
  {
    BigEndian(payloadLength, 4) + BigEndian(kind, 2) + [flags, 0]
  }

  /** EncodeHeader of the dialog client. */
  method UiEncodeHeader(out: array<byte>, payloadLength: uint32, kind: uint16, flags: byte)
    requires out.Length >= HEADER_SIZE
    modifies out
    ensures out[..HEADER_SIZE] == UiHeaderBytes(payloadLength, kind, flags)
    ensures out[HEADER_SIZE..] == old(out[HEADER_SIZE..])
  {
    out[0] := payloadLength / 0x100_0000;
    out[1] := payloadLength / 0x1_0000 % 0x100;
    out[2] := payloadLength / 0x100 % 0x100;
    out[3] := payloadLength % 0x100;
    out[4] := kind / 0x100;
    out[5] := kind % 0x100;
    out[6] := flags;
    out[7] := 0;
    BigEndian32(payloadLength);
    BigEndian16(kind);
  }

  /** DecodeHeader of the dialog client: payload length and message type, no size check. */
  function UiDecodeHeader(bs: seq<byte>): (uint32, uint16)
    requires |bs| == HEADER_SIZE
  {
    (Join32(bs[0], bs[1], bs[2], bs[3]), Join16(bs[4], bs[5]))
  }

  // ---------------------------------------------------------------------------------------
  // Lemmas

  lemma BigEndian32(x: uint32)
    ensures BigEndian(x, 4) == [x / 0x100_0000, x / 0x1_0000 % 0x100, x / 0x100 % 0x100, x % 0x100]
  {
    assert BigEndian(x / 0x1_0000, 2) == [x / 0x100_0000, x / 0x1_0000 % 0x100] by {
      BigEndian16(x / 0x1_0000);
    }
  }

  lemma BigEndian16(x: uint16)
    ensures BigEndian(x, 2) == [x / 0x100, x % 0x100]
  {
    assert BigEndian(x / 0x100, 1) == [x / 0x100];
  }

  lemma {:induction false} ValueOfDigits(x: nat, n: nat)
    requires x < Power256(n)
    ensures Value(BigEndian(x, n)) == x
  {
    if n > 0 {
      ValueOfDigits(x / 0x100, n - 1);
      var bs := BigEndian(x, n);
      assert bs[..n - 1] == BigEndian(x / 0x100, n - 1);
    }
  }

  /** Base-256 digits are unique. */
  lemma {:induction false} DigitsOfValue(bs: seq<byte>)
    ensures BigEndian(Value(bs), |bs|) == bs
  {
    if bs != [] {
      var n := |bs| - 1;
      DigitsOfValue(bs[..n]);
      Shift(Value(bs[..n]), bs[n]);
      assert bs == bs[..n] + [bs[n]];
    }
  }

  lemma Shift(v: nat, b: byte)
    ensures (v * 0x100 + b) / 0x100 == v && (v * 0x100 + b) % 0x100 == b
  {
  }

  function Power256(n: nat): nat {
    if n == 0 then 1 else 0x100 * Power256(n - 1)
  }

  lemma Value32(x: uint32)
    ensures Value(BigEndian(x, 4)) == x
  {
    assert Power256(4) == 0x1_0000_0000;
    hide Value, BigEndian, Power256;
    ValueOfDigits(x, 4);
  }

  lemma Value16(x: uint16)
    ensures Value(BigEndian(x, 2)) == x
  {
    assert Power256(2) == 0x1_0000;
    hide Value, BigEndian, Power256;
    ValueOfDigits(x, 2);
  }

  lemma ReversedTwice(bs: seq<byte>)
    ensures Reversed(Reversed(bs)) == bs
  {
  }

  lemma SwapValue32(bs: seq<byte>)
    requires |bs| == 4
    ensures Value(bs) < 0x1_0000_0000 && Swap32(Value(bs)) == Value(Reversed(bs))
  {
    hide Value, BigEndian, Reversed;
    Bounded32(bs);
    DigitsOfValue(bs);
  }

  lemma SwapValue16(bs: seq<byte>)
    requires |bs| == 2
    ensures Value(bs) < 0x1_0000 && Swap16(Value(bs)) == Value(Reversed(bs))
  {
    hide Value, BigEndian, Reversed;
    Bounded16(bs);
    DigitsOfValue(bs);
  }

  /** decode_header reads the header the bytes stand for. */
  lemma DecodeHeaderMeaning(host: Host, bs: seq<byte>)
    requires |bs| == HEADER_SIZE
    ensures DecodeHeader(host, bs) == HeaderOf(host, bs)
  {
    hide Swap32, Swap16, Value, Reversed;
    Bounded32(bs[..4]);
    Bounded16(bs[4..6]);
    SwapValue32(bs[..4]);
    SwapValue16(bs[4..6]);
  }

  lemma Swap32Bytes(x: uint32)
    ensures BigEndian(Swap32(x), 4) == Reversed(BigEndian(x, 4))
  {
    hide Value, BigEndian, Reversed;
    DigitsOfValue(Reversed(BigEndian(x, 4)));
  }

  lemma Swap16Bytes(x: uint16)
    ensures BigEndian(Swap16(x), 2) == Reversed(BigEndian(x, 2))
  {
    hide Value, BigEndian, Reversed;
    DigitsOfValue(Reversed(BigEndian(x, 2)));
  }

  /** Decoding what was encoded on the same host gives the header back with `reserved`
      cleared, unless the length is over the limit, and then it is refused. */
  lemma HeaderRoundTrip(host: Host, h: Header)
    ensures DecodeHeader(host, HeaderBytes(host, h))
         == if h.payloadLength <= MAX_PAYLOAD_SIZE then Ok(h.(reserved := 0)) else Err
  {
    HeaderOfBytes(host, h);
    DecodeHeaderMeaning(host, HeaderBytes(host, h));
  }

  lemma HeaderOfBytes(host: Host, h: Header)
    ensures HeaderOf(host, HeaderBytes(host, h))
         == if h.payloadLength <= MAX_PAYLOAD_SIZE then Ok(h.(reserved := 0)) else Err
  {
    hide BigEndian, Value, Reversed;
    Value32(h.payloadLength);
    Value16(h.messageType);
    var bs := HeaderBytes(host, h);
    var n, t := BigEndian(h.payloadLength, 4), BigEndian(h.messageType, 2);
    assert bs[..4] == HostOrder(host, n) && bs[4..6] == HostOrder(host, t);
    ReversedTwice(n);
    ReversedTwice(t);
  }

  predicate Palindrome(bs: seq<byte>) {
    bs == Reversed(bs)
  }

  /** The two codecs put the same bytes on the wire exactly on a big-endian host, or when both
      integers read the same in either byte order. */
  lemma CodecsAgree(host: Host, h: Header)
    ensures HeaderBytes(host, h) == UiHeaderBytes(h.payloadLength, h.messageType, h.flags)
       <==> host.BigEndian? || (Palindrome(BigEndian(h.payloadLength, 4)) && Palindrome(BigEndian(h.messageType, 2)))
  {
    var bs, ui := HeaderBytes(host, h), UiHeaderBytes(h.payloadLength, h.messageType, h.flags);
    if host.LittleEndian? {
      if bs == ui {
        assert bs[..4] == Reversed(BigEndian(h.payloadLength, 4)) && ui[..4] == BigEndian(h.payloadLength, 4);
        assert bs[4..6] == Reversed(BigEndian(h.messageType, 2)) && ui[4..6] == BigEndian(h.messageType, 2);
      }
    }
  }

  /** What the server makes of a header sent by the dialog client: both integers in network
      order, which on a little-endian host is the wrong one. */
  lemma UiHeaderOnServer(host: Host, n: uint32, kind: uint16, flags: byte)
    ensures DecodeHeader(host, UiHeaderBytes(n, kind, flags))
         == if NetworkOrder32(host, n) > MAX_PAYLOAD_SIZE then Err
            else Ok(Header(NetworkOrder32(host, n), NetworkOrder16(host, kind), flags, 0))
  {
    hide BigEndian, Swap32, Swap16, Value;
    Value32(n);
    Value16(kind);
    var ui := UiHeaderBytes(n, kind, flags);
    assert ui[..4] == BigEndian(n, 4) && ui[4..6] == BigEndian(kind, 2);
    Bounded32(ui[..4]);
    Bounded16(ui[4..6]);
  }

  /** And what the dialog client makes of a header sent by the server. */
  lemma ServerHeaderInUi(host: Host, h: Header)
    ensures UiDecodeHeader(HeaderBytes(host, h))
         == (NetworkOrder32(host, h.payloadLength), NetworkOrder16(host, h.messageType))
  {
    hide BigEndian, Swap32, Swap16, Value;
    var n, t := BigEndian(h.payloadLength, 4), BigEndian(h.messageType, 2);
    Value32(h.payloadLength);
    Value16(h.messageType);
    var bs := HeaderBytes(host, h);
    assert bs[..4] == HostOrder(host, n) && bs[4..6] == HostOrder(host, t);
    Bounded32(bs[..4]);
    Bounded16(bs[4..6]);
    SwapValue32(n);
    SwapValue16(t);
  }

  lemma Swap16Is(x: uint16)
    ensures Swap16(x) == x % 0x100 * 0x100 + x / 0x100
  {
    var bs := BigEndian(x, 2);
    BigEndian16(x);
    hide BigEndian, Value;
    Bounded16(Reversed(bs));
  }

  /** Which lengths are over the limit in the wrong byte order: those whose low byte is above
      one, or is one with another byte set. */
  lemma SwapOverLimit(n: uint32)
    ensures Swap32(n) > MAX_PAYLOAD_SIZE <==> n % 0x100 >= 2 || (n % 0x100 == 1 && n > 1)
  {
    var bs := BigEndian(n, 4);
    assert bs[3] == n % 0x100;
    hide BigEndian, Value;
    Value32(n);
    Bounded32(bs);
    Bounded32(Reversed(bs));
  }

  /** So a server on a little-endian host refuses a dialog request exactly when the low byte of
      its length is above one, or is one with another byte set; among them all of 2 to 255. */
  lemma UiRequestRefused(n: uint32, kind: uint16, flags: byte)
    ensures DecodeHeader(LittleEndian, UiHeaderBytes(n, kind, flags)) == Err
       <==> n % 0x100 >= 2 || (n % 0x100 == 1 && n > 1)
  {
    hide BigEndian, Value, Swap32, Swap16, DecodeHeader, UiHeaderBytes;
    UiHeaderOnServer(LittleEndian, n, kind, flags);
    SwapOverLimit(n);
  }

  lemma UiRoundTrip(payloadLength: uint32, kind: uint16, flags: byte)
    ensures UiDecodeHeader(UiHeaderBytes(payloadLength, kind, flags)) == (payloadLength, kind)
  {
    hide BigEndian, Value;
    Value32(payloadLength);
    Value16(kind);
    var ui := UiHeaderBytes(payloadLength, kind, flags);
    assert ui[..4] == BigEndian(payloadLength, 4) && ui[4..6] == BigEndian(kind, 2);
    Bounded32(ui[..4]);
    Bounded16(ui[4..6]);
  }
}
