/** The stream of frames: printing messages, parsing a byte stream greedily, and what one
    says about the other. Both ends of a connection are measured against this parser. */
module Frames {
  import opened Protocol
  import opened Sequences

  function Serialize(host: Host, m: Message): (bs: seq<byte>)
    ensures |bs| == HEADER_SIZE + |m.payload|
  {
    HeaderBytes(host, m.header) + m.payload
  }

  /** Both ends copy header and payload into one buffer, to write it at once. */
  method PrintMessage(host: Host, m: Message) returns (buf: array<byte>)
    ensures fresh(buf) && buf[..] == Serialize(host, m)
  {
    hide HeaderBytes;
    var n := |m.payload|;
    buf := new byte[HEADER_SIZE + n](_ => 0);
    EncodeHeader(host, m.header, buf);
    forall i | 0 <= i < n {
      buf[HEADER_SIZE + i] := m.payload[i];
    }
    assert buf[..HEADER_SIZE] == HeaderBytes(host, m.header);
  }

  function SerializeAll(host: Host, ms: seq<Message>): seq<byte> {
    if ms == [] then [] else Serialize(host, ms[0]) + SerializeAll(host, ms[1..])
  }

  /** The complete frames of a stream, the bytes after the last one, and whether those
      begin with a header the decoder refuses. */
  datatype Parsed = Parsed(frames: seq<Message>, rest: seq<byte>, refused: bool)

  function Parse(host: Host, s: seq<byte>): Parsed {
    if |s| < HEADER_SIZE then Parsed([], s, false)
    else
      match HeaderOf(host, s[..HEADER_SIZE])
      case Err => Parsed([], s, true)
      case Ok(h) =>
        var end := HEADER_SIZE + h.payloadLength;
        if |s| < end then Parsed([], s, false)
        else
          var tail := Parse(host, s[end..]);
          Parsed([Message(h, s[HEADER_SIZE..end])] + tail.frames, tail.rest, tail.refused)
  }

  /** What Message::make builds from a payload whose size fits the length field. */
  predicate Canonical(m: Message) {
    m.header.payloadLength == |m.payload| && m.header.reserved == 0
  }

  predicate AllCanonical(ms: seq<Message>) {
    forall m <- ms :: Canonical(m)
  }

  /** The limit under which a message survives the trip. */
  predicate Deliverable(ms: seq<Message>) {
    forall m <- ms :: |m.payload| <= MAX_PAYLOAD_SIZE
  }

  // ---------------------------------------------------------------------------------------

  lemma SerializeAllUnfold(host: Host, ms: seq<Message>)
    requires ms != []
    ensures SerializeAll(host, ms) == Serialize(host, ms[0]) + SerializeAll(host, ms[1..])
  {
    hide Serialize;
  }

  lemma {:induction false} SerializeAllConcat(host: Host, xs: seq<Message>, ys: seq<Message>)
    ensures SerializeAll(host, xs + ys) == SerializeAll(host, xs) + SerializeAll(host, ys)
  {
    if xs == [] {
      assert xs + ys == ys;
    } else {
      hide SerializeAll, Serialize;
      SerializeAllConcat(host, xs[1..], ys);
      ConcatTail(xs, ys);
      SerializeAllUnfold(host, xs);
      SerializeAllUnfold(host, xs + ys);
      ConcatAssociative(Serialize(host, xs[0]), SerializeAll(host, xs[1..]), SerializeAll(host, ys));
    }
  }

  lemma SerializeAllSnoc(host: Host, xs: seq<Message>, y: Message)
    ensures SerializeAll(host, xs + [y]) == SerializeAll(host, xs) + Serialize(host, y)
  {
    hide Serialize;
    SerializeAllConcat(host, xs, [y]);
    assert SerializeAll(host, [y]) == Serialize(host, y) + [];
  }

  /** One step of the parser, on a stream split where the frame ends. */
  lemma ParseFrame(host: Host, h: Header, hb: seq<byte>, body: seq<byte>, t: seq<byte>)
    requires |hb| == HEADER_SIZE && HeaderOf(host, hb) == Ok(h) && |body| == h.payloadLength
    ensures var q := Parse(host, t);
            Parse(host, hb + body + t) == Parsed([Message(h, body)] + q.frames, q.rest, q.refused)
  {
    var s, end := hb + body + t, HEADER_SIZE + h.payloadLength;
    assert s[..HEADER_SIZE] == hb && s[HEADER_SIZE..end] == body && s[end..] == t;
  }

  /** The first frame of a stream, if it has one. */
  ghost predicate StartsWithFrame(host: Host, s: seq<byte>) {
    |s| >= HEADER_SIZE && HeaderOf(host, s[..HEADER_SIZE]).Ok?
    && |s| >= HEADER_SIZE + HeaderOf(host, s[..HEADER_SIZE]).value.payloadLength
  }

  lemma SplitFrame(host: Host, s: seq<byte>) returns (h: Header, hb: seq<byte>, body: seq<byte>, t: seq<byte>)
    requires StartsWithFrame(host, s)
    ensures s == hb + body + t && |hb| == HEADER_SIZE && HeaderOf(host, hb) == Ok(h) && |body| == h.payloadLength
  {
    hb := s[..HEADER_SIZE];
    h := HeaderOf(host, hb).value;
    body, t := s[HEADER_SIZE..HEADER_SIZE + h.payloadLength], s[HEADER_SIZE + h.payloadLength..];
  }

  lemma ParseNoFrame(host: Host, s: seq<byte>)
    requires !StartsWithFrame(host, s)
    ensures Parse(host, s) == Parsed([], s, |s| >= HEADER_SIZE && HeaderOf(host, s[..HEADER_SIZE]).Err?)
  {
  }

  /** Parsing is incremental: more input is parsed from where the frames so far ended. */
  lemma {:induction false} ParseAppend(host: Host, s: seq<byte>, t: seq<byte>)
    requires !Parse(host, s).refused
    ensures var p, q := Parse(host, s), Parse(host, Parse(host, s).rest + t);
            Parse(host, s + t) == Parsed(p.frames + q.frames, q.rest, q.refused)
    decreases |s|
  {
    hide Parse, HeaderOf;
    if StartsWithFrame(host, s) {
      var h, hb, body, u := SplitFrame(host, s);
      hide StartsWithFrame;
      ParseFrame(host, h, hb, body, u);
      ParseFrame(host, h, hb, body, u + t);
      ParseAppend(host, u, t);
      ConcatAssociative(hb + body, u, t);
    } else {
      ParseNoFrame(host, s);
    }
  }

  /** One more frame behind a stream of whole frames. */
  lemma FrameBehind(host: Host, framed: seq<byte>, frames: seq<Message>, h: Header, raw: seq<byte>, body: seq<byte>)
    requires Parse(host, framed) == Parsed(frames, [], false)
    requires |raw| == HEADER_SIZE && HeaderOf(host, raw) == Ok(h) && |body| == h.payloadLength
    ensures Parse(host, framed + (raw + body)) == Parsed(frames + [Message(h, body)], [], false)
  {
    hide Parse, HeaderOf;
    ParseAppend(host, framed, raw + body);
    ParseFrame(host, h, raw, body, []);
    ParseNoFrame(host, []);
    assert [] + (raw + body) == raw + body == raw + body + [];
  }

  /** A refused header ends the stream for good. */
  lemma {:induction false} ParseRefused(host: Host, s: seq<byte>, t: seq<byte>)
    requires Parse(host, s).refused
    ensures Parse(host, s + t).frames == Parse(host, s).frames && Parse(host, s + t).refused
    decreases |s|
  {
    hide Parse, HeaderOf;
    if StartsWithFrame(host, s) {
      var h, hb, body, u := SplitFrame(host, s);
      ParseFrame(host, h, hb, body, u);
      ParseFrame(host, h, hb, body, u + t);
      ParseRefused(host, u, t);
      assert s + t == hb + body + (u + t);
    } else {
      ParseNoFrame(host, s);
      assert (s + t)[..HEADER_SIZE] == s[..HEADER_SIZE];
      ParseNoFrame(host, s + t);
    }
  }

  /** More input never takes a frame back. */
  lemma ParseMonotone(host: Host, s: seq<byte>, t: seq<byte>)
    ensures Parse(host, s).frames <= Parse(host, s + t).frames
  {
    hide Parse;
    if Parse(host, s).refused {
      ParseRefused(host, s, t);
    } else {
      ParseAppend(host, s, t);
    }
  }

  /** A printed message within the limit is read back, and parsing goes on behind it. */
  lemma ParseOne(host: Host, m: Message, t: seq<byte>)
    requires Canonical(m) && |m.payload| <= MAX_PAYLOAD_SIZE
    ensures var q := Parse(host, t);
            Parse(host, Serialize(host, m) + t) == Parsed([m] + q.frames, q.rest, q.refused)
  {
    hide Parse, HeaderOf, HeaderBytes;
    HeaderOfBytes(host, m.header);
    ParseFrame(host, m.header, HeaderBytes(host, m.header), m.payload, t);
  }

  /** A message whose payload has not fully arrived, or is over the limit, is no frame. */
  lemma ParseIncomplete(host: Host, m: Message, s: seq<byte>)
    requires Canonical(m)
    requires |s| < HEADER_SIZE || HeaderBytes(host, m.header) <= s
    requires |s| < HEADER_SIZE + |m.payload| || |m.payload| > MAX_PAYLOAD_SIZE
    ensures Parse(host, s).frames == []
  {
    hide Parse, HeaderOf, HeaderBytes;
    HeaderOfBytes(host, m.header);
    assert |s| >= HEADER_SIZE ==> s[..HEADER_SIZE] == HeaderBytes(host, m.header);
    ParseNoFrame(host, s);
  }

  lemma {:induction false} ParseSerialized(host: Host, ms: seq<Message>, t: seq<byte>)
    requires AllCanonical(ms) && Deliverable(ms)
    ensures var q := Parse(host, t);
            Parse(host, SerializeAll(host, ms) + t) == Parsed(ms + q.frames, q.rest, q.refused)
  {
    hide Parse, Serialize;
    if ms == [] {
      assert SerializeAll(host, ms) + t == t;
    } else {
      var m, u := ms[0], SerializeAll(host, ms[1..]);
      ParseSerialized(host, ms[1..], t);
      ParseOne(host, m, u + t);
      assert SerializeAll(host, ms) + t == Serialize(host, m) + (u + t);
      assert [m] + ms[1..] == ms;
    }
  }

  /** No framing is lost: whatever part of a stream of messages has arrived, the frames read
      from it are the first of those messages, whatever the sizes of their payloads. */
  lemma {:induction false} ParsePrefix(host: Host, s: seq<byte>, ms: seq<Message>)
    requires AllCanonical(ms)
    requires s <= SerializeAll(host, ms)
    ensures Parse(host, s).frames <= ms
    decreases |ms|
  {
    hide Parse, HeaderOf, HeaderBytes;
    if ms == [] {
      ParseNoFrame(host, s);
    } else {
      var m, u := ms[0], SerializeAll(host, ms[1..]);
      var n := HEADER_SIZE + |m.payload|;
      assert SerializeAll(host, ms) == Serialize(host, m) + u;
      if |m.payload| <= MAX_PAYLOAD_SIZE && n <= |s| {
        assert s[..n] == Serialize(host, m) && s[n..] <= u;
        ParsePrefix(host, s[n..], ms[1..]);
        ParseOne(host, m, s[n..]);
        assert s == s[..n] + s[n..];
      } else {
        ParseIncomplete(host, m, s);
      }
    }
  }

  /** A stream of messages made by Message::make is read back exactly when every payload is
      within the limit, whatever the sizes. */
  lemma {:induction false} ReadBackIff(host: Host, ms: seq<Message>)
    requires forall m <- ms :: m == Make(m.header.messageType, m.payload, m.header.flags)
    ensures Parse(host, SerializeAll(host, ms)).frames == ms <==> Deliverable(ms)
  {
    hide Parse, Serialize;
    if ms == [] {
      ParseNoFrame(host, []);
    } else {
      var m, u := ms[0], SerializeAll(host, ms[1..]);
      ReadBackIff(host, ms[1..]);
      if |m.payload| <= MAX_PAYLOAD_SIZE {
        ParseOne(host, m, u);
        assert Parse(host, SerializeAll(host, ms)).frames[1..] == Parse(host, u).frames;
        assert forall x <- ms :: x == m || x in ms[1..];
      } else {
        OversizedNotRead(host, m, u);
      }
    }
  }

  /** An oversized payload is never read back: its header is refused, or, past 2^32 bytes,
      announces a shorter payload. */
  lemma OversizedNotRead(host: Host, m: Message, t: seq<byte>)
    requires m.header.payloadLength == |m.payload| % 0x1_0000_0000
    requires |m.payload| > MAX_PAYLOAD_SIZE
    ensures var fs := Parse(host, Serialize(host, m) + t).frames; fs == [] || fs[0] != m
  {
    hide Parse, HeaderOf, HeaderBytes;
    var s := Serialize(host, m) + t;
    HeaderOfBytes(host, m.header);
    assert s[..HEADER_SIZE] == HeaderBytes(host, m.header);
    if StartsWithFrame(host, s) {
      var h, hb, body, u := SplitFrame(host, s);
      ParseFrame(host, h, hb, body, u);
    } else {
      ParseNoFrame(host, s);
    }
  }
}
