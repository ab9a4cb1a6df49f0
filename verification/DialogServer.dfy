/** The dialog client against the server: what becomes of its commands on a big-endian and on a
    little-endian host.  On the wire between them only bytes are shared; the server's end is the
    session machine, the client's is SendMsg and RecvMsg. */
module DialogServer {
  import opened Protocol
  import opened Frames
  import opened Router
  import opened Sequences
  import opened Services
  import opened SessionMachine
  import opened Transfer

  // ---------------------------------------------------------------------------------------
  // Commands and answers as messages

  function MessageOf(note: Note): Message {
    Make(note.kind, note.payload, 0)
  }

  function MessagesOf(notes: seq<Note>): (ms: seq<Message>)
    ensures |ms| == |notes|
  {
    seq(|notes|, k requires 0 <= k < |notes| => MessageOf(notes[k]))
  }

  function NoteOf(m: Message): Note {
    Note(m.header.messageType, m.payload)
  }

  /** The answers to the first commands, one for each environment. */
  function Answers(cfg: Config, envs: seq<Env>, notes: seq<Note>): (answers: seq<Note>)
    requires |envs| <= |notes|
    ensures |answers| == |envs|
  {
    seq(|envs|, k requires 0 <= k < |envs| => NoteOf(Dispatch(cfg.table, envs[k], MessageOf(notes[k])).response))
  }

  /** The dialog's byte order is a big-endian host's. */
  lemma SameBytes(m: Message)
    requires m == Make(m.header.messageType, m.payload, 0)
    ensures Serialize(BigEndian, m) == Wire(m.header.messageType, m.payload)
  {
    CodecsAgree(BigEndian, m.header);
  }

  lemma {:induction false} SameStream(notes: seq<Note>)
    ensures SerializeAll(BigEndian, MessagesOf(notes)) == WireAll(notes)
  {
    hide Serialize, Wire;
    if notes != [] {
      SameBytes(MessageOf(notes[0]));
      SameStream(notes[1..]);
      assert MessagesOf(notes)[1..] == MessagesOf(notes[1..]);
    }
  }

  lemma AnswerIsMade(table: Table, env: Env, request: Message)
    ensures var r := Dispatch(table, env, request).response; r == MessageOf(NoteOf(r))
  {
  }

  /** What the session prints are the answers in the dialog's own format. */
  lemma OutputIsAnswers(cfg: Config, envs: seq<Env>, requests: seq<Message>, notes: seq<Note>)
    requires cfg.host.BigEndian? && |envs| == |requests| && requests <= MessagesOf(notes)
    ensures Output(cfg, envs, requests) == WireAll(Answers(cfg, envs, notes))
  {
    hide SerializeAll, Dispatch, NoteOf, Wire, WireAll;
    forall k | 0 <= k < |envs|
      ensures Replies(cfg, envs, requests)[k] == MessagesOf(Answers(cfg, envs, notes))[k]
    {
      assert requests[k] == MessagesOf(notes)[k] == MessageOf(notes[k]);
      AnswerIsMade(cfg.table, envs[k], requests[k]);
    }
    assert Replies(cfg, envs, requests) == MessagesOf(Answers(cfg, envs, notes));
    SameStream(Answers(cfg, envs, notes));
  }

  // ---------------------------------------------------------------------------------------
  // A big-endian server

  /** In every reachable state of a session that has read nothing but the dialog's commands,
      failures, stops and destruction included: it dispatched a first part of them, in order,
      and whatever the dialog has received by then, in whatever pieces, is a first part of the
      answers. */
  lemma CommandsAnswered(cfg: Config, events: seq<Event>, notes: seq<Note>, script: seq<int>, n: nat)
    requires cfg.host.BigEndian? && forall note <- notes :: |note.payload| < 0x1_0000_0000
    requires Run(cfg, events).taken <= WireAll(notes)
    requires var s := Run(cfg, events);
             |s.envs| <= |notes| ==> forall a <- Answers(cfg, s.envs, notes) :: |a.payload| < 0x1_0000_0000
    ensures var s := Run(cfg, events);
            && s.requests <= MessagesOf(notes) && |s.envs| == |s.requests|
            && ReceiveAll(Line(script, s.sent), n).0 <= Answers(cfg, s.envs, notes)
  {
    hide *;
    var s := Run(cfg, events);
    SessionSafety(cfg, events);
    FramesAreCommands(s.taken, notes);
    OutputIsAnswers(cfg, s.envs, s.requests, notes);
    var answers := Answers(cfg, s.envs, notes);
    var late := WireAll(answers)[|s.sent|..];
    assert s.sent + late == WireAll(answers);
    StaysAligned(Line(script, s.sent), answers, n, late);
  }

  lemma FramesAreCommands(taken: seq<byte>, notes: seq<Note>)
    requires taken <= WireAll(notes) && forall note <- notes :: |note.payload| < 0x1_0000_0000
    ensures Parse(BigEndian, taken).frames <= MessagesOf(notes)
  {
    hide Parse, WireAll, SerializeAll;
    SameStream(notes);
    ParsePrefix(BigEndian, taken, MessagesOf(notes));
  }

  /** The shipped services answer every command: when a session that went undisturbed has nothing
      left to do and the dialog's calls all move something, the dialog has received for each of
      its commands, in order, the response type and the text of the service it asked. */
  lemma CommandsServed(market: Market, events: seq<Event>, notes: seq<Note>, script: seq<int>)
    requires Tidy(market) && (forall e <- events :: !Disturbs(e))
    requires forall note <- notes :: SQL_QUERY <= note.kind <= PING && |note.payload| <= 600_000
    requires var s := Run(Config(BigEndian, ServiceTable(market)), events);
             DoneWith(s, WireAll(notes)) && Patient(script, |s.sent|)
    ensures var s := Run(Config(BigEndian, ServiceTable(market)), events);
            var got := ReceiveAll(Line(script, s.sent), |notes|).0;
            && !s.closed && |s.envs| == |notes| && |got| == |notes|
            && forall k :: 0 <= k < |notes| ==>
                 && got[k].kind == notes[k].kind + 0x8000
                 && Text(got[k].payload) == Answer(market, notes[k].kind, s.envs[k], Text(notes[k].payload))
  {
    hide Run, Parse, WireAll, DoneWith, Tidy, ServiceTable, Answer, ReceiveAll, Output, Answers, Patient, Text;
    hide MessagesOf, Disturbs;
    var cfg := Config(BigEndian, ServiceTable(market));
    var s := Run(cfg, events);
    SessionRefinesStream(cfg, events, WireAll(notes));
    AllFrames(notes);
    OutputIsAnswers(cfg, s.envs, s.requests, notes);
    var answers := Answers(cfg, s.envs, notes);
    AllServed(market, s.envs, notes);
    AllReceived(Line(script, s.sent), answers);
  }

  lemma AllFrames(notes: seq<Note>)
    requires forall note <- notes :: |note.payload| <= MAX_PAYLOAD_SIZE
    ensures Parse(BigEndian, WireAll(notes)) == Parsed(MessagesOf(notes), [], false)
  {
    hide Parse, WireAll, SerializeAll;
    SameStream(notes);
    ParseSerialized(BigEndian, MessagesOf(notes), []);
    ParseNoFrame(BigEndian, []);
    assert WireAll(notes) + [] == WireAll(notes);
  }

  lemma AllServed(market: Market, envs: seq<Env>, notes: seq<Note>)
    requires Tidy(market) && |envs| <= |notes|
    requires forall note <- notes :: SQL_QUERY <= note.kind <= PING && |note.payload| <= 600_000
    ensures var answers := Answers(Config(BigEndian, ServiceTable(market)), envs, notes);
            forall k :: 0 <= k < |envs| ==>
              && answers[k].kind == notes[k].kind + 0x8000 && |answers[k].payload| <= MAX_PAYLOAD_SIZE
              && Text(answers[k].payload) == Answer(market, notes[k].kind, envs[k], Text(notes[k].payload))
  {
    hide Tidy, Dispatch, ServiceTable, Answer, Text;
    forall k | 0 <= k < |envs|
      ensures var r := Dispatch(ServiceTable(market), envs[k], MessageOf(notes[k])).response;
              && r.header.messageType == notes[k].kind + 0x8000 && |r.payload| <= MAX_PAYLOAD_SIZE
              && Text(r.payload) == Answer(market, notes[k].kind, envs[k], Text(notes[k].payload))
    {
      assert notes[k] in notes;
      Served(market, envs[k], MessageOf(notes[k]));
    }
  }

  // ---------------------------------------------------------------------------------------
  // A little-endian server

  /** The header of a command there: length and type with their bytes swapped, or refused. */
  lemma CommandHeader(kind: uint16, payload: seq<byte>)
    requires |payload| < 0x1_0000_0000
    ensures var n := |payload|;
            HeaderOf(LittleEndian, UiHeaderBytes(n, kind, 0))
            == if n % 0x100 >= 2 || (n % 0x100 == 1 && n > 1) then Err
               else Ok(Header(Swap32(n), Swap16(kind), 0, 0))
  {
    hide HeaderOf, DecodeHeader, UiHeaderBytes, Swap32, Swap16;
    DecodeHeaderMeaning(LittleEndian, UiHeaderBytes(|payload|, kind, 0));
    UiHeaderOnServer(LittleEndian, |payload|, kind, 0);
    SwapOverLimit(|payload|);
  }

  /** Whatever has arrived of a stream that begins with a command: no frame at all if the
      command's header is refused, and otherwise a first frame of the swapped type, if any. */
  lemma FirstFrame(taken: seq<byte>, kind: uint16, payload: seq<byte>, rest: seq<byte>)
    requires taken <= Wire(kind, payload) + rest && |payload| < 0x1_0000_0000
    ensures var n, q := |payload|, Parse(LittleEndian, taken);
            && (n % 0x100 >= 2 || (n % 0x100 == 1 && n > 1) ==>
                  q.frames == [] && (q.refused <==> |taken| >= HEADER_SIZE))
            && (q.frames != [] ==> q.frames[0].header.messageType == Swap16(kind))
  {
    hide Parse, HeaderOf, UiHeaderBytes, Swap32, Swap16;
    var hb := UiHeaderBytes(|payload|, kind, 0);
    CommandHeader(kind, payload);
    assert |taken| >= HEADER_SIZE ==> taken[..HEADER_SIZE] == hb;
    if StartsWithFrame(LittleEndian, taken) {
      var h, raw, body, t := SplitFrame(LittleEndian, taken);
      assert raw == taken[..HEADER_SIZE];
      ParseFrame(LittleEndian, h, raw, body, t);
    } else {
      ParseNoFrame(LittleEndian, taken);
    }
  }

  /** A command whose length has a low byte above one, or one with another byte set, 2 to 255
      among them, is the end of its connection: nothing is dispatched and nothing sent, in any
      run, and an undisturbed session that has nothing left to do is closed. */
  lemma CommandRefused(cfg: Config, events: seq<Event>, kind: uint16, payload: seq<byte>, rest: seq<byte>)
    requires cfg.host.LittleEndian? && |payload| < 0x1_0000_0000
    requires var n := |payload|; n % 0x100 >= 2 || (n % 0x100 == 1 && n > 1)
    requires Run(cfg, events).taken <= Wire(kind, payload) + rest
    ensures var s := Run(cfg, events);
            && s.requests == [] && s.sent == []
            && ((forall e <- events :: !Disturbs(e)) && DoneWith(s, Wire(kind, payload) + rest) ==> s.closed)
  {
    hide Run, Parse, Wire, Disturbs, DoneWith;
    var s := Run(cfg, events);
    var input := Wire(kind, payload) + rest;
    SessionSafety(cfg, events);
    FirstFrame(s.taken, kind, payload, rest);
    if (forall e <- events :: !Disturbs(e)) && DoneWith(s, input) {
      FirstFrame(input, kind, payload, rest);
      SessionRefinesStream(cfg, events, input);
    }
  }

  /** The answer to a type no handler is registered for. */
  lemma UnknownType(table: Table, env: Env, request: Message)
    requires request.header.messageType !in table
    ensures var r := Dispatch(table, env, request).response; 2 <= |r.payload| < 0x100 && Canonical(r)
  {
    assert |"{\"code\":404,\"message\":\"" + "Unknown message type\"}"| == 45;
  }

  /** The dialog gives up on a little-endian server's header of a message of 2 to 255 bytes. */
  lemma HeaderGivenUp(line: Line, m: Message, rest: seq<byte>, late: seq<byte>)
    requires line.queue + late == Serialize(LittleEndian, m) + rest && Canonical(m) && 2 <= |m.payload| < 0x100
    ensures Transfer.Receive(line).Broken?
  {
    hide Pull, HeaderBytes, UiDecodeHeader, Swap32;
    var header := Pull(line, HEADER_SIZE);
    if |header.bytes| == HEADER_SIZE {
      ConcatAssociative(header.bytes, header.line.queue, late);
      ConcatAssociative(HeaderBytes(LittleEndian, m.header), m.payload, rest);
      SplitUnique(header.bytes, header.line.queue + late, HeaderBytes(LittleEndian, m.header), m.payload + rest);
      ServerHeaderInUi(LittleEndian, m.header);
      SwapOverLimit(m.header.payloadLength);
    }
  }

  /** Any other command is no better off: its type arrives swapped, which no service has, and
      the answer to that has a length the dialog takes for one over the limit.  So in no run of
      a little-endian session does the dialog receive an answer to the command it sent. */
  lemma NeverAnswered(
    cfg: Config, events: seq<Event>, kind: uint16, payload: seq<byte>, rest: seq<byte>, script: seq<int>)
    requires cfg.host.LittleEndian? && Swap16(kind) !in cfg.table && |payload| < 0x1_0000_0000
    requires Run(cfg, events).taken <= Wire(kind, payload) + rest
    ensures Transfer.Receive(Line(script, Run(cfg, events).sent)).Broken?
  {
    hide Run, Parse, Wire, Transfer.Receive, Dispatch, Serialize, Swap16;
    var s := Run(cfg, events);
    var line := Line(script, s.sent);
    SessionSafety(cfg, events);
    FirstFrame(s.taken, kind, payload, rest);
    if s.requests == [] {
      assert s.sent == [];
      NothingReceived(line);
    } else {
      var replies := Replies(cfg, s.envs, s.requests);
      assert s.requests[0].header.messageType == Swap16(kind);
      UnknownType(cfg.table, s.envs[0], s.requests[0]);
      SerializeAllUnfold(LittleEndian, replies);
      var all := SerializeAll(LittleEndian, replies);
      assert s.sent + all[|s.sent|..] == all;
      HeaderGivenUp(line, replies[0], SerializeAll(LittleEndian, replies[1..]), all[|s.sent|..]);
    }
  }

  /** Altogether: the shipped server answers a dialog command exactly if it runs on a big-endian
      host. */
  lemma AnsweredIff(
    host: Host, market: Market, events: seq<Event>, kind: uint16, payload: seq<byte>, script: seq<int>)
    requires Tidy(market) && (forall e <- events :: !Disturbs(e))
    requires SQL_QUERY <= kind <= PING && |payload| <= 600_000
    requires var s := Run(Config(host, ServiceTable(market)), events);
             DoneWith(s, Wire(kind, payload)) && Patient(script, |s.sent|)
    ensures var s := Run(Config(host, ServiceTable(market)), events);
            Transfer.Receive(Line(script, s.sent)).Got? <==> host.BigEndian?
  {
    hide Run, Tidy, Disturbs, Enabled, Useful, Patient, Answer, Transfer.Receive, Wire, Swap16;
    var cfg := Config(host, ServiceTable(market));
    var notes := [Note(kind, payload)];
    assert notes[1..] == [] && WireAll(notes) == Wire(kind, payload) + [] == Wire(kind, payload);
    if host.BigEndian? {
      CommandsServed(market, events, notes, script);
      assert ReceiveAll(Line(script, Run(cfg, events).sent), 1).0 != [];
    } else {
      Swap16Is(kind);
      NeverAnswered(cfg, events, kind, payload, [], script);
    }
  }
}
