/** ui_client/src/MainDlg.cpp, SendAll, RecvAll, SendMsg and RecvMsg: whole messages over a
    socket that moves any number of bytes at a time, or none. */
module Transfer {
  import opened Protocol
  import opened Sequences

  /** What the next calls on the socket are allowed to move, a number below one meaning that the
      call closes or fails; and the bytes waiting to be received. */
  datatype Line = Line(script: seq<int>, queue: seq<byte>)

  function Granted(script: seq<int>, len: nat): (n: int)
    ensures n <= len
  {
    if script == [] then -1 else if script[0] > len then len else script[0]
  }

  function Later(script: seq<int>): seq<int> {
    if script == [] then [] else script[1..]
  }

  // ---------------------------------------------------------------------------------------
  // Sending

  datatype Pushed = Pushed(moved: nat, script: seq<int>)

  /** How far a send of len bytes gets. */
  function Push(script: seq<int>, len: nat): (p: Pushed)
    ensures p.moved <= len
    decreases len
  {
    var n := Granted(script, len);
    if len == 0 then Pushed(0, script)
    else if n <= 0 then Pushed(0, Later(script))
    else
      var p := Push(Later(script), len - n);
      Pushed(n + p.moved, p.script)
  }

  // ---------------------------------------------------------------------------------------
  // Receiving

  datatype Pulled = Pulled(bytes: seq<byte>, line: Line)

  function Available(line: Line, len: nat): (n: int)
    ensures n <= len && n <= |line.queue|
  {
    Granted(line.script, if len < |line.queue| then len else |line.queue|)
  }

  /** What a receive of len bytes gets: always the next bytes of the queue. */
  function Pull(line: Line, len: nat): (p: Pulled)
    ensures |p.bytes| <= len && line.queue == p.bytes + p.line.queue
    decreases len
  {
    var n := Available(line, len);
    if len == 0 then Pulled([], line)
    else if n <= 0 then Pulled([], Line(Later(line.script), line.queue))
    else
      var p := Pull(Line(Later(line.script), line.queue[n..]), len - n);
      assert line.queue == line.queue[..n] + line.queue[n..];
      ConcatAssociative(line.queue[..n], p.bytes, p.line.queue);
      Pulled(line.queue[..n] + p.bytes, p.line)
  }

  lemma PullNone(line: Line)
    ensures Pull(line, 0) == Pulled([], line)
  {
  }

  lemma PullStep(line: Line, len: nat)
    requires len > 0
    ensures var n := Available(line, len);
            if n <= 0 then Pull(line, len) == Pulled([], Line(Later(line.script), line.queue))
            else
              var p := Pull(Line(Later(line.script), line.queue[n..]), len - n);
              Pull(line, len) == Pulled(line.queue[..n] + p.bytes, p.line)
  {
  }

  // ---------------------------------------------------------------------------------------
  // The socket, and the loops

  class Socket {
    var script: seq<int>
    var outgoing: seq<byte>
    var incoming: seq<byte>

    function In(): Line
      reads this
    {
      Line(script, incoming)
    }

    /** send(): moves bytes, or returns SOCKET_ERROR or zero. */
    method Send(data: array<byte>, offset: nat, len: nat) returns (n: int)
      requires offset + len <= data.Length
      modifies this`script, this`outgoing
      ensures n == Granted(old(script), len) && script == Later(old(script))
      ensures outgoing == if n > 0 then old(outgoing) + data[offset..offset + n] else old(outgoing)
    {
      n := Granted(script, len);
      script := Later(script);
      if n > 0 {
        outgoing := outgoing + data[offset..offset + n];
      }
    }

    /** recv(). */
    method Recv(data: array<byte>, offset: nat, len: nat) returns (n: int)
      requires offset + len <= data.Length
      modifies this`script, this`incoming, data
      ensures n == Available(old(In()), len) && script == Later(old(script))
      ensures incoming == if n > 0 then old(incoming)[n..] else old(incoming)
      ensures var m := if n > 0 then n else 0;
              && data[..offset + m] == old(data[..offset]) + old(incoming)[..m]
              && data[offset + m..] == old(data[..])[offset + m..]
    {
      n := Available(In(), len);
      script := Later(script);
      if n > 0 {
        var queue := incoming;
        forall i | 0 <= i < n {
          data[offset + i] := queue[i];
        }
        incoming := incoming[n..];
      }
    }

    method SendAll(data: array<byte>, len: nat) returns (ok: bool)
      requires len <= data.Length
      modifies this`script, this`outgoing
      ensures var p := Push(old(script), len);
              && ok == (p.moved == len) && script == p.script
              && outgoing == old(outgoing) + data[..p.moved]
    {
      var sent := 0;
      while sent < len
        invariant 0 <= sent <= len
        invariant var p, q := Push(old(script), len), Push(script, len - sent);
                  p.moved == sent + q.moved && p.script == q.script
        invariant outgoing == old(outgoing) + data[..sent]
      {
        var n := Send(data, sent, len - sent);
        if n <= 0 {
          return false;
        }
        ConcatAssociative(old(outgoing), data[..sent], data[sent..sent + n]);
        assert data[..sent + n] == data[..sent] + data[sent..sent + n];
        sent := sent + n;
      }
      ok := true;
    }

    method RecvAll(data: array<byte>, len: nat) returns (ok: bool)
      requires len <= data.Length
      modifies this`script, this`incoming, data
      ensures var p := Pull(old(In()), len);
              && ok == (|p.bytes| == len) && In() == p.line && data[..|p.bytes|] == p.bytes
    {
      hide Pull, Available, Granted, Later;
      ghost var line := In();
      PullNone(line);
      var received := 0;
      while received < len
        invariant 0 <= received <= len
        invariant Pull(line, len).bytes == data[..received] + Pull(In(), len - received).bytes
        invariant Pull(line, len).line == Pull(In(), len - received).line
      {
        ghost var was, before := data[..received], In();
        var n := Recv(data, received, len - received);
        PullStep(before, len - received);
        if n <= 0 {
          assert was + [] == was;
          return false;
        }
        assert In() == Line(Later(before.script), before.queue[n..]);
        received := received + n;
        assert data[..received] == was + before.queue[..n];
        ConcatAssociative(was, before.queue[..n], Pull(In(), len - received).bytes);
      }
      PullNone(In());
      ok := true;
    }

    method SendMsg(kind: uint16, payload: seq<byte>) returns (ok: bool)
      requires |payload| < 0x8000_0000
      modifies this`script, this`outgoing
      ensures var p := PushMessage(old(script), |payload|);
              && ok == (p.moved == HEADER_SIZE + |payload|) && script == p.script
              && outgoing == old(outgoing) + Wire(kind, payload)[..p.moved]
    {
      hide Push, UiHeaderBytes;
      var n := |payload|;
      ghost var was := outgoing;
      var header := new byte[HEADER_SIZE];
      UiEncodeHeader(header, n % 0x1_0000_0000, kind, 0);
      assert header[..HEADER_SIZE] == Wire(kind, payload)[..HEADER_SIZE];
      ghost var p := Push(script, HEADER_SIZE);
      ok := SendAll(header, HEADER_SIZE);
      assert header[..p.moved] == Wire(kind, payload)[..p.moved];
      if !ok {
        return;
      }
      if n > 0 {
        var data := new byte[n](i requires 0 <= i < n => payload[i]);
        assert data[..] == payload;
        ghost var q := Push(script, n);
        ok := SendAll(data, n);
        assert data[..q.moved] == payload[..q.moved];
        ConcatAssociative(was, Wire(kind, payload)[..HEADER_SIZE], payload[..q.moved]);
        assert Wire(kind, payload)[..HEADER_SIZE + q.moved] == Wire(kind, payload)[..HEADER_SIZE] + payload[..q.moved];
      }
    }

    method RecvMsg() returns (ok: bool, kind: uint16, payload: seq<byte>)
      modifies this`script, this`incoming
      ensures match Receive(old(In()))
              case Got(k, p, line) => ok && kind == k && payload == p && In() == line
              case Broken(line) => !ok && In() == line
    {
      hide Pull, UiDecodeHeader;
      kind, payload := 0, [];
      var header := new byte[HEADER_SIZE](_ => 0);
      ok := RecvAll(header, HEADER_SIZE);
      if !ok {
        return;
      }
      assert header[..HEADER_SIZE] == header[..];
      var decoded := UiDecodeHeader(header[..]);
      var n := decoded.0;
      kind := decoded.1;
      if n > MAX_PAYLOAD_SIZE {
        ok := false;
        return;
      }
      var data := new byte[n](_ => 0);
      PullNone(In());
      if n > 0 {
        ok := RecvAll(data, n);
        if !ok {
          return;
        }
      }
      payload := data[..];
      assert data[..n] == data[..];
    }
  }

  // ---------------------------------------------------------------------------------------
  // Whole messages

  /** What the dialog puts on the wire. */
  function Wire(kind: uint16, payload: seq<byte>): (bs: seq<byte>)
    ensures |bs| == HEADER_SIZE + |payload|
  {
    UiHeaderBytes(|payload| % 0x1_0000_0000, kind, 0) + payload
  }

  function PushMessage(script: seq<int>, n: nat): (p: Pushed)
    ensures p.moved <= HEADER_SIZE + n
  {
    var p := Push(script, HEADER_SIZE);
    if p.moved < HEADER_SIZE || n == 0 then p
    else
      var q := Push(p.script, n);
      Pushed(HEADER_SIZE + q.moved, q.script)
  }

  datatype Received = Got(kind: uint16, payload: seq<byte>, line: Line) | Broken(line: Line)

  function Receive(line: Line): Received {
    var header := Pull(line, HEADER_SIZE);
    if |header.bytes| < HEADER_SIZE then Broken(header.line)
    else
      var decoded := UiDecodeHeader(header.bytes);
      if decoded.0 > MAX_PAYLOAD_SIZE then Broken(header.line)
      else
        var body := Pull(header.line, decoded.0);
        if |body.bytes| < decoded.0 then Broken(body.line) else Got(decoded.1, body.bytes, body.line)
  }

  /** The next n calls each move at least one byte. */
  predicate Patient(script: seq<int>, n: nat) {
    |script| >= n && forall i :: 0 <= i < n ==> script[i] >= 1
  }

  lemma PatientLater(script: seq<int>, n: nat, m: nat)
    requires Patient(script, n) && m < n
    ensures script != [] && script[0] >= 1 && Patient(Later(script), m)
  {
  }

  lemma {:induction false} PushPatient(script: seq<int>, len: nat, more: nat)
    requires Patient(script, len + more)
    ensures Push(script, len).moved == len && Patient(Push(script, len).script, more)
    decreases len
  {
    hide Patient;
    if len > 0 {
      var n := Granted(script, len);
      PatientLater(script, len + more, len + more - 1);
      PatientLater(script, len + more, len - n + more);
      PushPatient(Later(script), len - n, more);
    }
  }

  lemma {:induction false} PullPatient(line: Line, len: nat, more: nat)
    requires Patient(line.script, len + more) && len <= |line.queue|
    ensures |Pull(line, len).bytes| == len && Patient(Pull(line, len).line.script, more)
    decreases len
  {
    hide Patient;
    if len > 0 {
      var n := Available(line, len);
      PatientLater(line.script, len + more, len + more - 1);
      PatientLater(line.script, len + more, len - n + more);
      PullPatient(Line(Later(line.script), line.queue[n..]), len - n, more);
    }
  }

  /** A sent message whose calls all move something is on the wire whole. */
  lemma SentWhole(script: seq<int>, n: nat)
    requires Patient(script, HEADER_SIZE + n)
    ensures PushMessage(script, n).moved == HEADER_SIZE + n
  {
    hide Push;
    PushPatient(script, HEADER_SIZE, n);
    PushPatient(Push(script, HEADER_SIZE).script, n, 0);
  }

  /** With a message at the front of what is sent, whatever pieces it comes in and however much
      of it is late: what is received is that message and nothing behind it; and when nothing is
      received, some of the message is left, or all of its payload if it is too long. */
  lemma ReceivedExactly(line: Line, kind: uint16, payload: seq<byte>, rest: seq<byte>, late: seq<byte>)
    requires line.queue + late == Wire(kind, payload) + rest && |payload| < 0x1_0000_0000
    ensures match Receive(line)
            case Got(k, p, l) =>
              |payload| <= MAX_PAYLOAD_SIZE && k == kind && p == payload && l.queue + late == rest
            case Broken(l) =>
              && |rest| < |l.queue| + |late| && |l.queue| <= |line.queue|
              && line.queue[|line.queue| - |l.queue|..] == l.queue
    ensures Patient(line.script, HEADER_SIZE + |payload|) && |late| <= |rest| ==>
              if |payload| <= MAX_PAYLOAD_SIZE then Receive(line).Got?
              else Receive(line).Broken? && Receive(line).line.queue + late == payload + rest
  {
    hide Pull, UiHeaderBytes, UiDecodeHeader;
    var n := |payload|;
    UiRoundTrip(n, kind, 0);
    var header := Pull(line, HEADER_SIZE);
    var hb := UiHeaderBytes(n, kind, 0);
    ConcatAssociative(hb, payload, rest);
    ConcatAssociative(header.bytes, header.line.queue, late);
    if Patient(line.script, HEADER_SIZE + n) && |late| <= |rest| {
      PullPatient(line, HEADER_SIZE, n);
    }
    if |header.bytes| == HEADER_SIZE {
      SplitUnique(header.bytes, header.line.queue + late, hb, payload + rest);
      if n <= MAX_PAYLOAD_SIZE {
        var body := Pull(header.line, n);
        if Patient(line.script, HEADER_SIZE + n) && |late| <= |rest| {
          PullPatient(header.line, n, 0);
        }
        ConcatAssociative(hb, body.bytes, body.line.queue);
        ConcatAssociative(body.bytes, body.line.queue, late);
        if |body.bytes| == n {
          SplitUnique(body.bytes, body.line.queue + late, payload, rest);
        }
      }
    }
  }

  lemma SplitUnique(a: seq<byte>, b: seq<byte>, c: seq<byte>, d: seq<byte>)
    requires a + b == c + d && |a| == |c|
    ensures a == c && b == d
  {
    assert a == (a + b)[..|a|] && c == (c + d)[..|a|];
    assert b == (a + b)[|a|..] && d == (c + d)[|a|..];
  }

  // ---------------------------------------------------------------------------------------
  // Successive messages

  datatype Note = Note(kind: uint16, payload: seq<byte>)

  function WireAll(notes: seq<Note>): seq<byte> {
    if notes == [] then [] else Wire(notes[0].kind, notes[0].payload) + WireAll(notes[1..])
  }

  /** The messages received by n calls of RecvMsg, up to the first that fails, and the line
      behind them. */
  function ReceiveAll(line: Line, n: nat): (seq<Note>, Line)
    decreases n
  {
    if n == 0 then ([], line)
    else
      match Receive(line)
      case Broken(l) => ([], l)
      case Got(kind, payload, l) =>
        var more := ReceiveAll(l, n - 1);
        ([Note(kind, payload)] + more.0, more.1)
  }

  /** Messages stay aligned: for any pattern of pieces and whatever is late, what is received is
      a prefix of what is sent; and when nothing fails, what is left or late is exactly what is
      sent behind it. */
  lemma {:induction false} StaysAligned(line: Line, notes: seq<Note>, n: nat, late: seq<byte>)
    requires line.queue + late == WireAll(notes)
    requires forall note <- notes :: |note.payload| < 0x1_0000_0000
    ensures var got := ReceiveAll(line, n);
            && got.0 <= notes
            && (|got.0| == n ==> n <= |notes| && got.1.queue + late == WireAll(notes[n..]))
    decreases n
  {
    hide Receive, Wire;
    if n == 0 {
      assert notes[0..] == notes;
    } else if notes == [] {
      NothingReceived(line);
    } else {
      var note := notes[0];
      assert note in notes;
      ReceivedExactly(line, note.kind, note.payload, WireAll(notes[1..]), late);
      var r := Receive(line);
      if r.Got? {
        StaysAligned(r.line, notes[1..], n - 1, late);
        assert [note] + notes[1..] == notes;
        assert n <= |notes| ==> notes[1..][n - 1..] == notes[n..];
      }
    }
  }

  lemma NothingReceived(line: Line)
    requires |line.queue| < HEADER_SIZE
    ensures Receive(line).Broken?
  {
    hide Pull;
  }

  /** With calls that all move something, everything that is sent is received. */
  lemma {:induction false} AllReceived(line: Line, notes: seq<Note>)
    requires line.queue == WireAll(notes) && Patient(line.script, |line.queue|)
    requires forall note <- notes :: |note.payload| <= MAX_PAYLOAD_SIZE
    ensures ReceiveAll(line, |notes|).0 == notes
    decreases |notes|
  {
    hide Receive, Wire, Patient;
    if notes != [] {
      var note, rest := notes[0], WireAll(notes[1..]);
      assert note in notes;
      ReceivedExactly(line, note.kind, note.payload, rest, []);
      StaysPatient(line, note, rest);
      var l := Receive(line).line;
      assert l.queue + [] == l.queue;
      AllReceived(l, notes[1..]);
      assert [note] + notes[1..] == notes;
    }
  }

  lemma StaysPatient(line: Line, note: Note, rest: seq<byte>)
    requires line.queue == Wire(note.kind, note.payload) + rest && |note.payload| <= MAX_PAYLOAD_SIZE
    requires Patient(line.script, |line.queue|)
    ensures Receive(line).Got? && Patient(Receive(line).line.script, |rest|)
  {
    hide Pull, UiHeaderBytes, UiDecodeHeader;
    var n := |note.payload|;
    UiRoundTrip(n, note.kind, 0);
    var hb := UiHeaderBytes(n, note.kind, 0);
    PullPatient(line, HEADER_SIZE, n + |rest|);
    var header := Pull(line, HEADER_SIZE);
    ConcatAssociative(hb, note.payload, rest);
    SplitUnique(header.bytes, header.line.queue, hb, note.payload + rest);
    PullPatient(header.line, n, |rest|);
  }
}
