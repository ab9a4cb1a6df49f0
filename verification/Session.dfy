/** server/src/session.cpp: one connection's read, dispatch, write loop.

    The machine has one step per completion handler.  Each asynchronous operation moves its
    bytes in pieces of any size (Receive, Transmit) before its handler may run (Complete), and
    may instead fail at any time.  The session may be destroyed at any time, even with an
    operation outstanding, whose handler is then dropped, as the end of the io_context does.
    Events that cannot occur in a state leave it as it is. */
module SessionMachine {
  import opened Protocol
  import opened Frames
  import opened Sequences
  import opened Router

  datatype Config = Config(host: Host, table: Table)

  /** The asynchronous operation in progress, with the bytes it has moved so far. */
  datatype Op =
    | Idle
    | ReadingHeader(got: seq<byte>)
    | ReadingBody(raw: seq<byte>, got: seq<byte>)
    | Writing(out: seq<byte>, written: nat)

  /** The session's fields, and the history of the run: all bytes taken from the socket, those
      of the frames dispatched so far, all bytes given to the socket, the requests dispatched
      and what each handler call found in its environment. */
  datatype State = State(
    op: Op,
    current: Header,
    closed: bool,
    closeCalls: nat,
    failed: bool,
    destroyed: bool,
    taken: seq<byte>,
    framed: seq<byte>,
    sent: seq<byte>,
    requests: seq<Message>,
    envs: seq<Env>)

  datatype Event = Receive(chunk: seq<byte>) | Transmit(n: nat) | Complete(env: Env) | Fail | Stop | Destroy

  function Start(): State {
    State(ReadingHeader([]), Header(0, 6, 0, 0), false, 0, false, false, [], [], [], [], [])
  }

  /** What a session that still exists may do. */
  predicate Possible(s: State, e: Event) {
    match e
    case Receive(chunk) =>
      !s.closed && 0 < |chunk|
      && (match s.op
          case ReadingHeader(got) => |got| + |chunk| <= HEADER_SIZE
          case ReadingBody(_, got) => |got| + |chunk| <= s.current.payloadLength
          case _ => false)
    case Transmit(n) => !s.closed && s.op.Writing? && 0 < n <= |s.op.out| - s.op.written
    case Complete(_) =>
      (match s.op
       case ReadingHeader(got) => |got| == HEADER_SIZE
       case ReadingBody(_, got) => |got| == s.current.payloadLength
       case Writing(out, written) => written == |out|
       case Idle => false)
    case Fail => !s.op.Idle?
    case Stop => true
    case Destroy => true
  }

  predicate Enabled(s: State, e: Event) {
    !s.destroyed && Possible(s, e)
  }

  function Close(s: State): State {
    if s.closed then s else s.(closed := true, closeCalls := s.closeCalls + 1)
  }

  function DoWrite(cfg: Config, s: State, response: Message): State {
    s.(op := Writing(Serialize(cfg.host, response), 0))
  }

  function DispatchAndWrite(cfg: Config, s: State, body: seq<byte>, env: Env): State {
    var request := Message(s.current, body);
    var t := s.(framed := s.taken, requests := s.requests + [request], envs := s.envs + [env]);
    DoWrite(cfg, t, Dispatch(cfg.table, env, request).response)
  }

  function OnHeader(cfg: Config, s: State, env: Env): State
    requires s.op.ReadingHeader? && |s.op.got| == HEADER_SIZE
  {
    match HeaderOf(cfg.host, s.op.got)
    case Err => Close(s.(op := Idle))
    case Ok(h) =>
      var t := s.(current := h);
      if h.payloadLength == 0 then DispatchAndWrite(cfg, t, [], env)
      else t.(op := ReadingBody(s.op.got, []))
  }

  function Step(cfg: Config, s: State, e: Event): State {
    if !Enabled(s, e) then s
    else
      match e
      case Receive(chunk) =>
        var t := s.(taken := s.taken + chunk);
        if s.op.ReadingHeader? then t.(op := ReadingHeader(s.op.got + chunk))
        else t.(op := ReadingBody(s.op.raw, s.op.got + chunk))
      case Transmit(n) =>
        s.(op := s.op.(written := s.op.written + n), sent := s.sent + s.op.out[s.op.written..s.op.written + n])
      case Complete(env) =>
        (match s.op
         case ReadingHeader(_) => OnHeader(cfg, s, env)
         case ReadingBody(_, got) => DispatchAndWrite(cfg, s, got, env)
         case _ => s.(op := ReadingHeader([])))
      case Fail => Close(s.(op := Idle, failed := true))
      case Stop => Close(s)
      case Destroy => Close(s.(op := Idle, failed := s.failed || !s.op.Idle?, destroyed := true))
  }

  /** Whether the handler that is due dispatches a request, and which. */
  predicate Dispatches(cfg: Config, s: State) {
    match s.op
    case ReadingHeader(got) =>
      |got| == HEADER_SIZE && HeaderOf(cfg.host, got).Ok? && HeaderOf(cfg.host, got).value.payloadLength == 0
    case ReadingBody(_, got) => |got| == s.current.payloadLength
    case _ => false
  }

  function DueRequest(cfg: Config, s: State): Message
    requires Dispatches(cfg, s)
  {
    match s.op
    case ReadingHeader(got) => Message(HeaderOf(cfg.host, got).value, [])
    case ReadingBody(_, got) => Message(s.current, got)
  }

  /** What a handler run in env leaves in the order counter. */
  function OrdersAfter(cfg: Config, s: State, env: Env): nat {
    if Dispatches(cfg, s) then Dispatch(cfg.table, env, DueRequest(cfg, s)).orders else env.orders
  }

  function Run(cfg: Config, events: seq<Event>): State {
    if events == [] then Start() else Step(cfg, Run(cfg, events[..|events| - 1]), events[|events| - 1])
  }

  // ---------------------------------------------------------------------------------------
  // The specification: parse frames, map dispatch, print frames

  function Replies(cfg: Config, envs: seq<Env>, requests: seq<Message>): (rs: seq<Message>)
    requires |envs| == |requests|
    ensures |rs| == |requests|
    ensures forall k :: 0 <= k < |rs| ==> rs[k] == Dispatch(cfg.table, envs[k], requests[k]).response
  {
    seq(|requests|, k requires 0 <= k < |requests| => Dispatch(cfg.table, envs[k], requests[k]).response)
  }

  function Output(cfg: Config, envs: seq<Env>, requests: seq<Message>): seq<byte>
    requires |envs| == |requests|
  {
    SerializeAll(cfg.host, Replies(cfg, envs, requests))
  }

  /** Bytes the current operation has taken from the socket that belong to no dispatched frame. */
  function Partial(op: Op): seq<byte> {
    match op
    case ReadingHeader(got) => got
    case ReadingBody(raw, got) => raw + got
    case _ => []
  }

  function Unsent(op: Op): seq<byte>
    requires op.Writing? ==> op.written <= |op.out|
  {
    if op.Writing? then op.out[op.written..] else []
  }

  /** What every step keeps. */
  ghost predicate Inv(cfg: Config, s: State) {
    && s.closeCalls == (if s.closed then 1 else 0)
    && |s.envs| == |s.requests|
    && (s.op.Idle? ==> s.closed) && (s.destroyed ==> s.op.Idle?)
    && (s.op.Writing? ==> s.op.written <= |s.op.out|)
    && (s.op.ReadingHeader? ==> |s.op.got| <= HEADER_SIZE)
    && (s.op.ReadingBody? ==>
          && |s.op.raw| == HEADER_SIZE && HeaderOf(cfg.host, s.op.raw) == Ok(s.current)
          && |s.op.got| <= s.current.payloadLength && 0 < s.current.payloadLength)
    && (!s.op.Idle? ==>
          && s.taken == s.framed + Partial(s.op)
          && Parse(cfg.host, s.framed) == Parsed(s.requests, [], false)
          && s.sent + Unsent(s.op) == Output(cfg, s.envs, s.requests))
    && (s.op.Idle? ==>
          && s.requests <= Parse(cfg.host, s.taken).frames
          && |Parse(cfg.host, s.taken).frames| <= |s.requests| + 1
          && s.sent <= Output(cfg, s.envs, s.requests)
          && (!s.failed ==>
                && Parse(cfg.host, s.taken).refused
                && s.requests == Parse(cfg.host, s.taken).frames
                && s.sent == Output(cfg, s.envs, s.requests)))
  }

  // ---------------------------------------------------------------------------------------
  // Preservation

  lemma FramesTaken(cfg: Config, s: State)
    requires Inv(cfg, s) && !s.op.Idle?
    ensures var q := Parse(cfg.host, Partial(s.op));
            Parse(cfg.host, s.taken) == Parsed(s.requests + q.frames, q.rest, q.refused)
  {
    hide Parse, HeaderOf, Output;
    ParseAppend(cfg.host, s.framed, Partial(s.op));
    assert [] + Partial(s.op) == Partial(s.op);
  }

  lemma OutputSnoc(cfg: Config, envs: seq<Env>, requests: seq<Message>, env: Env, request: Message)
    requires |envs| == |requests|
    ensures Output(cfg, envs + [env], requests + [request])
         == Output(cfg, envs, requests) + Serialize(cfg.host, Dispatch(cfg.table, env, request).response)
  {
    hide Dispatch, Serialize, SerializeAll;
    var r := Dispatch(cfg.table, env, request).response;
    assert Replies(cfg, envs + [env], requests + [request]) == Replies(cfg, envs, requests) + [r];
    SerializeAllSnoc(cfg.host, Replies(cfg, envs, requests), r);
  }

  lemma DispatchKeeps(cfg: Config, s: State, raw: seq<byte>, body: seq<byte>, env: Env)
    requires !s.destroyed && |s.envs| == |s.requests| && s.closeCalls == (if s.closed then 1 else 0)
    requires s.taken == s.framed + (raw + body)
    requires Parse(cfg.host, s.framed) == Parsed(s.requests, [], false)
    requires s.sent == Output(cfg, s.envs, s.requests)
    requires |raw| == HEADER_SIZE && HeaderOf(cfg.host, raw) == Ok(s.current) && |body| == s.current.payloadLength
    ensures Inv(cfg, DispatchAndWrite(cfg, s, body, env))
  {
    hide Parse, HeaderOf, Output, Dispatch, Serialize;
    var request := Message(s.current, body);
    FrameBehind(cfg.host, s.framed, s.requests, s.current, raw, body);
    OutputSnoc(cfg, s.envs, s.requests, env, request);
    var t := DispatchAndWrite(cfg, s, body, env);
    assert t.op.out[0..] == t.op.out;
    assert t.taken == t.framed + [];
  }

  lemma OnHeaderKeeps(cfg: Config, s: State, env: Env)
    requires Inv(cfg, s) && s.op.ReadingHeader? && |s.op.got| == HEADER_SIZE
    ensures Inv(cfg, OnHeader(cfg, s, env))
  {
    hide Parse, HeaderOf, Output, DispatchAndWrite;
    var got := s.op.got;
    assert s.sent + [] == s.sent;
    match HeaderOf(cfg.host, got)
    case Err =>
      FramesTaken(cfg, s);
      ParseNoFrame(cfg.host, got);
      assert got[..HEADER_SIZE] == got;
    case Ok(h) =>
      var t := s.(current := h);
      if h.payloadLength == 0 {
        assert got + [] == got;
        DispatchKeeps(cfg, t, got, [], env);
      } else {
        assert got + [] == got;
      }
  }

  lemma FailKeeps(cfg: Config, s: State)
    requires Inv(cfg, s) && !s.op.Idle?
    ensures Inv(cfg, Close(s.(op := Idle, failed := true)))
  {
    hide Parse, HeaderOf, Output;
    FramesTaken(cfg, s);
    PartialFrames(cfg, s);
  }

  lemma DestroyKeeps(cfg: Config, s: State)
    requires Inv(cfg, s)
    ensures Inv(cfg, Close(s.(op := Idle, failed := s.failed || !s.op.Idle?, destroyed := true)))
  {
    hide Parse, HeaderOf, Output;
    if !s.op.Idle? {
      FramesTaken(cfg, s);
      PartialFrames(cfg, s);
    }
  }

  lemma MoveKeeps(cfg: Config, s: State, e: Event)
    requires Inv(cfg, s) && Enabled(s, e) && (e.Receive? || e.Transmit?)
    ensures Inv(cfg, Step(cfg, s, e))
  {
    hide Parse, HeaderOf, Output;
    match e
    case Receive(chunk) =>
      ConcatAssociative(s.framed, Partial(s.op), chunk);
      if s.op.ReadingBody? {
        ConcatAssociative(s.op.raw, s.op.got, chunk);
      }
    case Transmit(n) =>
      var out, w := s.op.out, s.op.written;
      assert out[w..] == out[w..w + n] + out[w + n..];
      ConcatAssociative(s.sent, out[w..w + n], out[w + n..]);
  }

  /** Handlers, failures and closing move no bytes themselves. */
  lemma OtherStepsMoveNothing(cfg: Config, s: State, e: Event)
    requires !e.Receive? && !e.Transmit?
    ensures var t := Step(cfg, s, e); t.taken == s.taken && t.sent == s.sent
  {
    hide HeaderOf, Dispatch, Serialize;
  }

  lemma StepKeeps(cfg: Config, s: State, e: Event)
    requires Inv(cfg, s)
    ensures Inv(cfg, Step(cfg, s, e))
  {
    hide Parse, HeaderOf, Output, OnHeader, DispatchAndWrite;
    if Enabled(s, e) {
      match e
      case Receive(_) => MoveKeeps(cfg, s, e);
      case Transmit(_) => MoveKeeps(cfg, s, e);
      case Complete(env) =>
        match s.op {
          case ReadingHeader(_) => OnHeaderKeeps(cfg, s, env);
          case ReadingBody(raw, got) =>
            assert s.sent + [] == s.sent;
            DispatchKeeps(cfg, s, raw, got, env);
          case Writing(out, w) =>
            assert out[w..] == [];
          case Idle =>
        }
      case Fail => FailKeeps(cfg, s);
      case Stop =>
      case Destroy => DestroyKeeps(cfg, s);
    }
  }

  lemma {:induction false} RunKeeps(cfg: Config, events: seq<Event>)
    ensures Inv(cfg, Run(cfg, events))
  {
    hide Inv, Step;
    if events == [] {
      StartHolds(cfg);
    } else {
      RunKeeps(cfg, events[..|events| - 1]);
      StepKeeps(cfg, Run(cfg, events[..|events| - 1]), events[|events| - 1]);
    }
  }

  lemma StartHolds(cfg: Config)
    ensures Inv(cfg, Start())
  {
    hide Parse;
    ParseNoFrame(cfg.host, []);
    assert Replies(cfg, [], []) == [];
  }

  // ---------------------------------------------------------------------------------------
  // Main results

  /** In every reachable state, whatever failures, stops and destructions the run contains:
      the requests dispatched are the first frames of the input, all of them but possibly the
      last; what was sent is a prefix of the replies to them, in order; and the close callback
      ran once if the session is closed and never before.  Stopping or destroying the session at
      any point, or a failure of its outstanding operation, leaves it closed with exactly one
      callback, whichever closes first; and while it is open there is an operation outstanding. */
  lemma SessionSafety(cfg: Config, events: seq<Event>)
    ensures var s := Run(cfg, events);
            && s.requests <= Parse(cfg.host, s.taken).frames
            && |Parse(cfg.host, s.taken).frames| <= |s.requests| + 1
            && |s.envs| == |s.requests| && s.sent <= Output(cfg, s.envs, s.requests)
            && s.closeCalls == (if s.closed then 1 else 0)
            && (s.closed || !s.op.Idle?)
            && var t, u, v := Step(cfg, s, Destroy), Step(cfg, s, Stop), Step(cfg, s, Fail);
               t.destroyed && t.closed && t.closeCalls == u.closeCalls == v.closeCalls == 1 && u.closed && v.closed
  {
    hide Run, Parse, HeaderOf, Output;
    RunKeeps(cfg, events);
    var s := Run(cfg, events);
    if !s.op.Idle? {
      FramesTaken(cfg, s);
      PartialFrames(cfg, s);
    }
  }

  /** A closed session moves no more bytes. */
  lemma ClosedMovesNothing(cfg: Config, s: State, e: Event)
    requires s.closed
    ensures var t := Step(cfg, s, e); t.closed && t.taken == s.taken && t.sent == s.sent
  {
    hide HeaderOf, Dispatch, Serialize;
  }

  /** The bytes of an unfinished operation hold at most the one frame whose handler is due. */
  lemma PartialFrames(cfg: Config, s: State)
    requires Inv(cfg, s) && !s.op.Idle?
    ensures |Parse(cfg.host, Partial(s.op)).frames| <= 1
    ensures (forall env :: !Enabled(s, Complete(env))) ==> Parse(cfg.host, Partial(s.op)).frames == []
    ensures !Parse(cfg.host, Partial(s.op)).refused || (s.op.ReadingHeader? && |s.op.got| == HEADER_SIZE)
  {
    hide Parse, Output, HeaderOf;
    var p := Partial(s.op);
    assert Enabled(s, Complete(Env(0, 0))) || forall env :: !Enabled(s, Complete(env));
    ParseNoFrame(cfg.host, []);
    match s.op {
      case ReadingHeader(got) =>
        if StartsWithFrame(cfg.host, p) {
          var h, hb, body, u := SplitFrame(cfg.host, p);
          assert hb == p && body == [] && u == [];
          ParseFrame(cfg.host, h, hb, body, u);
        } else {
          ParseNoFrame(cfg.host, p);
        }
      case ReadingBody(raw, got) =>
        assert p[..HEADER_SIZE] == raw;
        if |got| == s.current.payloadLength {
          ParseFrame(cfg.host, s.current, raw, got, []);
          assert raw + got + [] == p;
        } else {
          ParseNoFrame(cfg.host, p);
        }
      case _ =>
    }
  }

  /** Events by which a session gets on with an input. */
  predicate Useful(s: State, e: Event, input: seq<byte>) {
    e.Transmit? || e.Complete? || (e.Receive? && s.taken + e.chunk <= input)
  }

  /** The session has taken only from the input, and no useful event can occur. */
  ghost predicate DoneWith(s: State, input: seq<byte>) {
    s.taken <= input && forall e :: Useful(s, e, input) ==> !Enabled(s, e)
  }

  predicate Disturbs(e: Event) {
    e.Fail? || e.Stop? || e.Destroy?
  }

  lemma UndisturbedStep(cfg: Config, s: State, e: Event)
    requires !Disturbs(e) && !s.failed && (s.closed ==> s.op.Idle?)
    ensures var t := Step(cfg, s, e); !t.failed && (t.closed ==> t.op.Idle?)
  {
    hide HeaderOf, Dispatch, Serialize;
  }

  lemma {:induction false} UndisturbedStaysOpen(cfg: Config, events: seq<Event>)
    requires forall e <- events :: !Disturbs(e)
    ensures var s := Run(cfg, events); !s.failed && (s.closed ==> s.op.Idle?)
  {
    hide Step;
    if events != [] {
      UndisturbedStaysOpen(cfg, events[..|events| - 1]);
      UndisturbedStep(cfg, Run(cfg, events[..|events| - 1]), events[|events| - 1]);
    }
  }

  /** The session is the pure function `parse frames, map dispatch, print frames`: when an
      undisturbed run has nothing left to do on its input, it has dispatched exactly the frames
      of the input, up to the first refused header or the truncated tail, and sent exactly
      their printed replies; and it is closed exactly if the input has a refused header. */
  lemma SessionRefinesStream(cfg: Config, events: seq<Event>, input: seq<byte>)
    requires forall e <- events :: !Disturbs(e)
    requires DoneWith(Run(cfg, events), input)
    ensures var s := Run(cfg, events);
            && s.requests == Parse(cfg.host, input).frames
            && |s.envs| == |s.requests| && s.sent == Output(cfg, s.envs, s.requests)
            && (s.closed <==> Parse(cfg.host, input).refused)
  {
    hide Run, Parse, HeaderOf, Output;
    var s := Run(cfg, events);
    RunKeeps(cfg, events);
    UndisturbedStaysOpen(cfg, events);
    var rest := input[|s.taken|..];
    assert s.taken + rest == input;
    if s.op.Idle? {
      ParseRefused(cfg.host, s.taken, rest);
    } else {
      assert !Enabled(s, Complete(Env(0, 0)));
      assert forall env :: !Enabled(s, Complete(env));
      var n := if s.op.Writing? then |s.op.out| - s.op.written else 0;
      assert !Enabled(s, Transmit(n));
      var chunk := if rest == [] then [] else [rest[0]];
      assert s.taken + chunk <= input;
      assert !Enabled(s, Receive(chunk));
      FramesTaken(cfg, s);
      PartialFrames(cfg, s);
      assert input == s.taken;
      assert s.sent + [] == s.sent;
    }
  }

  /** How the bytes arrive and leave makes no difference. */
  lemma FragmentationIrrelevant(cfg: Config, events: seq<Event>, other: seq<Event>, input: seq<byte>)
    requires forall e <- events + other :: !Disturbs(e)
    requires DoneWith(Run(cfg, events), input) && DoneWith(Run(cfg, other), input)
    requires Run(cfg, events).envs == Run(cfg, other).envs
    ensures Run(cfg, events).sent == Run(cfg, other).sent
  {
    hide Run, Enabled, Useful, Output;
    assert forall e <- events :: e in events + other;
    assert forall e <- other :: e in events + other;
    SessionRefinesStream(cfg, events, input);
    SessionRefinesStream(cfg, other, input);
  }

  /** Rank of an operation within one reading of the input. */
  function Rank(s: State): nat {
    match s.op
    case Idle => 0
    case ReadingBody(_, got) => if |got| == s.current.payloadLength then 4 else 1
    case ReadingHeader(got) => if |got| == HEADER_SIZE then 5 else 2
    case Writing(_, _) => 3
  }

  function UnsentBytes(s: State): nat {
    if s.op.Writing? && s.op.written <= |s.op.out| then |Unsent(s.op)| else 0
  }

  /** More of the input taken, or a lower rank, or less to send. */
  predicate Nearer(s: State, t: State) {
    || |t.taken| > |s.taken|
    || (t.taken == s.taken && Rank(t) < Rank(s))
    || (t.taken == s.taken && Rank(t) == Rank(s) && UnsentBytes(t) < UnsentBytes(s))
  }

  lemma CompleteNearer(cfg: Config, s: State, env: Env)
    requires s.op.Writing? ==> s.op.written <= |s.op.out|
    requires Enabled(s, Complete(env))
    ensures var t := Step(cfg, s, Complete(env));
            t.taken == s.taken && (t.op.Writing? ==> t.op.written <= |t.op.out|) && Rank(t) < Rank(s)
  {
    hide HeaderOf, Dispatch, Serialize;
  }

  lemma MoveNearer(cfg: Config, s: State, e: Event)
    requires s.op.Writing? ==> s.op.written <= |s.op.out|
    requires Enabled(s, e) && (e.Receive? || e.Transmit?)
    ensures var t := Step(cfg, s, e);
            && t.taken == (if e.Receive? then s.taken + e.chunk else s.taken)
            && (t.op.Writing? ==> t.op.written <= |t.op.out|) && Nearer(s, t)
  {
    hide HeaderOf, Dispatch, Serialize, OnHeader, DispatchAndWrite;
  }

  /** Every useful step brings the session nearer to having nothing left to do. */
  lemma UsefulStepNearer(cfg: Config, s: State, e: Event, input: seq<byte>)
    requires Inv(cfg, s) && s.taken <= input && Useful(s, e, input) && Enabled(s, e)
    ensures var t := Step(cfg, s, e);
            t.taken <= input && (t.op.Writing? ==> t.op.written <= |t.op.out|) && Nearer(s, t) && !Disturbs(e)
  {
    hide Parse, HeaderOf, Output, Step, Enabled, Rank, UnsentBytes;
    assert s.op.Writing? ==> s.op.written <= |s.op.out|;
    hide Inv;
    if e.Complete? {
      CompleteNearer(cfg, s, e.env);
    } else {
      MoveNearer(cfg, s, e);
    }
  }

  lemma RunSnoc(cfg: Config, events: seq<Event>, e: Event)
    ensures Run(cfg, events + [e]) == Step(cfg, Run(cfg, events), e)
  {
    hide Step;
    assert (events + [e])[..|events|] == events;
  }

  /** So for every input, and from every undisturbed run on it, some way of going on has nothing
      left to do. */
  lemma {:induction false} InputIsFinished(cfg: Config, events: seq<Event>, input: seq<byte>) returns (more: seq<Event>)
    requires (forall e <- events :: !Disturbs(e)) && Run(cfg, events).taken <= input
    ensures events <= more && (forall e <- more :: !Disturbs(e)) && DoneWith(Run(cfg, more), input)
    decreases |input| - |Run(cfg, events).taken|, Rank(Run(cfg, events)), UnsentBytes(Run(cfg, events))
  {
    hide Run, Inv, Step, Enabled, Useful, Disturbs, Rank, UnsentBytes;
    var s := Run(cfg, events);
    RunKeeps(cfg, events);
    if e :| Useful(s, e, input) && Enabled(s, e) {
      UsefulStepNearer(cfg, s, e, input);
      RunSnoc(cfg, events, e);
      more := InputIsFinished(cfg, events + [e], input);
    } else {
      more := events;
    }
  }

  /** So every input is answered: some undisturbed run dispatches exactly its frames and sends
      exactly their replies. */
  lemma InputIsAnswered(cfg: Config, input: seq<byte>) returns (events: seq<Event>)
    ensures (forall e <- events :: !Disturbs(e)) && DoneWith(Run(cfg, events), input)
    ensures var s := Run(cfg, events);
            && s.requests == Parse(cfg.host, input).frames
            && |s.envs| == |s.requests| && s.sent == Output(cfg, s.envs, s.requests)
            && (s.closed <==> Parse(cfg.host, input).refused)
  {
    hide Enabled, Useful, Parse, Output;
    assert Run(cfg, []).taken == [];
    hide Run;
    events := InputIsFinished(cfg, [], input);
    SessionRefinesStream(cfg, events, input);
  }
}
