/** load_generator/src/client_session.cpp: one simulated client's connect, send, read loop.

    One step per completion handler, except that a handler's accesses to what the clients
    share are steps of their own: counting a success, storing its sample, counting an error,
    loading the stop flag, and finishing. */
module ClientMachine {
  import opened Protocol
  import opened Frames
  import opened Sequences
  import Lcg
  import LoadMix
  import R = Requests

  datatype Op =
    | Resolving
    | Connecting
    | Loading                                   // do_send_request, about to load the stop flag
    | Writing(out: seq<byte>, written: nat)
    | ReadingHeader(got: seq<byte>)
    | ReadingBody(raw: seq<byte>, got: seq<byte>)
    | Pushing                                   // record_success, between the count and the sample
    | Closing                                   // an error was counted, finish is next
    | Finished

  /** The client's scenario, the seed of its generator and the generator's state; and the
      client's state and history: bytes read, those of completed responses, bytes sent,
      requests begun, responses completed, samples stored, errors counted, errors counted once
      a request was begun, and calls of finish. */
  datatype State = State(
    scenario: LoadMix.Scenario,
    seed: Lcg.uint64,
    rng: Lcg.uint64,
    op: Op,
    current: Header,
    taken: seq<byte>,
    framed: seq<byte>,
    sent: seq<byte>,
    requests: seq<Message>,
    responses: seq<Message>,
    samples: nat,
    errors: nat,
    sendErrors: nat,
    finishes: nat)

  /** Complete: the pending operation succeeded and its handler runs.  Load(stop):
      do_send_request finds the flag in that state. */
  datatype Event =
    | Receive(chunk: seq<byte>)
    | Transmit(n: nat)
    | Complete
    | Fail
    | Push
    | Load(stop: bool)
    | Finish

  function Start(scenario: LoadMix.Scenario, seed: Lcg.uint64): State {
    State(scenario, seed, seed, Resolving, Header(0, 6, 0, 0), [], [], [], [], [], 0, 0, 0, 0)
  }

  /** The generator's state before the k-th request. */
  function Drawn(w: LoadMix.Scenario, seed: Lcg.uint64, k: nat): Lcg.uint64 {
    if k == 0 then seed
    else
      var s := Drawn(w, seed, k - 1);
      Lcg.After(R.Draws(R.KindFrom(w, s)), s)
  }

  /** The request next_request makes now. */
  function NextRequest(s: State): Message {
    R.RequestFrom(s.scenario, s.rng)
  }

  /** A request has been begun and its response is neither completed nor given up. */
  predicate Outstanding(s: State) {
    s.op.Writing? || s.op.ReadingHeader? || s.op.ReadingBody?
  }

  predicate Enabled(s: State, e: Event) {
    match e
    case Receive(chunk) =>
      0 < |chunk|
      && (match s.op
          case ReadingHeader(got) => |got| + |chunk| <= HEADER_SIZE
          case ReadingBody(_, got) => |got| + |chunk| <= s.current.payloadLength
          case _ => false)
    case Transmit(n) => s.op.Writing? && 0 < n <= |s.op.out| - s.op.written
    case Complete =>
      (match s.op
       case Resolving => true
       case Connecting => true
       case Writing(out, written) => written == |out|
       case ReadingHeader(got) => |got| == HEADER_SIZE
       case ReadingBody(_, got) => |got| == s.current.payloadLength
       case _ => false)
    case Fail => s.op.Resolving? || s.op.Connecting? || Outstanding(s)
    case Push => s.op.Pushing?
    case Load(_) => s.op.Loading?
    case Finish => s.op.Closing?
  }

  /** record_error, with finish to follow. */
  function RecordError(s: State): State {
    s.(op := Closing, errors := s.errors + 1, sendErrors := s.sendErrors + (if Outstanding(s) then 1 else 0))
  }

  function DoFinish(s: State): State {
    s.(op := Finished, finishes := s.finishes + 1)
  }

  /** A whole response has been read: the first half of record_success. */
  function Succeed(s: State, response: Message): State {
    s.(op := Pushing, framed := s.taken, responses := s.responses + [response])
  }

  function DoSendRequest(host: Host, s: State): State {
    var request := NextRequest(s);
    s.(op := Writing(Serialize(host, request), 0), requests := s.requests + [request],
       rng := Lcg.After(R.Draws(R.KindFrom(s.scenario, s.rng)), s.rng))
  }

  function OnHeader(host: Host, s: State): State
    requires s.op.ReadingHeader? && |s.op.got| == HEADER_SIZE
  {
    match HeaderOf(host, s.op.got)
    case Err => RecordError(s)
    case Ok(h) => WithHeader(s, h)
  }

  /** A body of no bytes is complete at once. */
  function WithHeader(s: State, h: Header): State
    requires s.op.ReadingHeader?
  {
    if h.payloadLength == 0 then Succeed(s.(current := h), Message(h, []))
    else s.(current := h, op := ReadingBody(s.op.got, []))
  }

  function Step(host: Host, s: State, e: Event): State {
    if !Enabled(s, e) then s
    else
      match e
      case Receive(chunk) =>
        var t := s.(taken := s.taken + chunk);
        if s.op.ReadingHeader? then t.(op := ReadingHeader(s.op.got + chunk))
        else t.(op := ReadingBody(s.op.raw, s.op.got + chunk))
      case Transmit(n) =>
        s.(op := s.op.(written := s.op.written + n), sent := s.sent + s.op.out[s.op.written..s.op.written + n])
      case Complete =>
        (match s.op
         case Resolving => s.(op := Connecting)
         case Connecting => s.(op := Loading)
         case Writing(_, _) => s.(op := ReadingHeader([]))
         case ReadingHeader(_) => OnHeader(host, s)
         case _ => Succeed(s, Message(s.current, s.op.got)))
      case Fail => RecordError(s)
      case Push => s.(op := Loading, samples := s.samples + 1)
      case Load(stop) => if stop then DoFinish(s) else DoSendRequest(host, s)
      case Finish => DoFinish(s)
  }

  // ---------------------------------------------------------------------------------------

  function Partial(op: Op): seq<byte> {
    match op
    case ReadingHeader(got) => got
    case ReadingBody(raw, got) => raw + got
    case _ => []
  }

  function Unsent(op: Op): seq<byte>
    requires op.Writing? ==> op.written <= |op.out|
  {
    if op.Writing? then op.out[op.written..] else []
  }

  /** The counters: at most one error and one finish, every begun request either answered,
      outstanding or given up, every success sampled but the one being recorded. */
  ghost predicate Books(s: State) {
    && s.errors <= 1 && s.sendErrors <= s.errors
    && (s.errors == 1 ==> s.op.Closing? || s.op.Finished?)
    && (s.op.Closing? ==> s.errors == 1)
    && s.finishes == (if s.op.Finished? then 1 else 0)
    && |s.requests| == |s.responses| + s.sendErrors + (if Outstanding(s) then 1 else 0)
    && |s.responses| == s.samples + (if s.op.Pushing? then 1 else 0)
  }

  /** The requests begun are the ones the generator determines, in order. */
  ghost predicate Generated(w: LoadMix.Scenario, seed: Lcg.uint64, rng: Lcg.uint64, requests: seq<Message>) {
    && rng == Drawn(w, seed, |requests|)
    && forall k :: 0 <= k < |requests| ==> requests[k] == R.RequestFrom(w, Drawn(w, seed, k))
  }

  ghost predicate Inv(host: Host, s: State) {
    && Books(s) && Generated(s.scenario, s.seed, s.rng, s.requests)
    && AllCanonical(s.requests) && Deliverable(s.requests)
    && (s.op.Writing? ==> s.op.written <= |s.op.out|)
    && (s.op.ReadingHeader? ==> |s.op.got| <= HEADER_SIZE)
    && (s.op.ReadingBody? ==>
          && |s.op.raw| == HEADER_SIZE && HeaderOf(host, s.op.raw) == Ok(s.current)
          && |s.op.got| <= s.current.payloadLength && 0 < s.current.payloadLength)
    && s.sent <= SerializeAll(host, s.requests)
    && s.responses <= Parse(host, s.taken).frames
    && (s.errors == 0 ==>
          && s.sent + Unsent(s.op) == SerializeAll(host, s.requests)
          && s.taken == s.framed + Partial(s.op)
          && Parse(host, s.framed) == Parsed(s.responses, [], false))
  }

  lemma StartHolds(host: Host, scenario: LoadMix.Scenario, seed: Lcg.uint64)
    ensures Inv(host, Start(scenario, seed))
  {
    hide Parse;
    ParseNoFrame(host, []);
  }

  lemma FramesTaken(host: Host, s: State)
    requires s.taken == s.framed + Partial(s.op)
    requires Parse(host, s.framed) == Parsed(s.responses, [], false)
    ensures var q := Parse(host, Partial(s.op));
            Parse(host, s.taken) == Parsed(s.responses + q.frames, q.rest, q.refused)
  {
    hide Parse;
    ParseAppend(host, s.framed, Partial(s.op));
    assert [] + Partial(s.op) == Partial(s.op);
  }

  lemma SucceedBooks(s: State, response: Message)
    requires Books(s) && Outstanding(s) && s.errors == 0
    ensures Books(Succeed(s, response))
  {
  }

  lemma SucceedKeeps(host: Host, s: State, raw: seq<byte>, body: seq<byte>)
    requires Books(s) && Outstanding(s) && s.errors == 0 && Generated(s.scenario, s.seed, s.rng, s.requests)
    requires AllCanonical(s.requests) && Deliverable(s.requests) && s.sent == SerializeAll(host, s.requests)
    requires s.taken == s.framed + (raw + body)
    requires Parse(host, s.framed) == Parsed(s.responses, [], false)
    requires |raw| == HEADER_SIZE && HeaderOf(host, raw) == Ok(s.current) && |body| == s.current.payloadLength
    ensures Inv(host, Succeed(s, Message(s.current, body)))
  {
    hide Parse, HeaderOf, SerializeAll, AllCanonical, Deliverable, Generated;
    SucceedBooks(s, Message(s.current, body));
    FrameBehind(host, s.framed, s.responses, s.current, raw, body);
    assert s.taken == s.taken + [];
    assert s.sent == s.sent + [];
    hide Books, Outstanding;
  }

  lemma OnHeaderKeeps(host: Host, s: State)
    requires Inv(host, s) && s.op.ReadingHeader? && |s.op.got| == HEADER_SIZE
    ensures Inv(host, OnHeader(host, s))
  {
    hide Parse, HeaderOf, SerializeAll, Canonical, Generated;
    var got := s.op.got;
    assert s.sent + [] == s.sent;
    assert got + [] == got;
    match HeaderOf(host, got)
    case Err =>
    case Ok(h) =>
      if h.payloadLength == 0 {
        SucceedKeeps(host, s.(current := h), got, []);
      }
  }

  lemma MoveKeeps(host: Host, s: State, e: Event)
    requires Inv(host, s) && Enabled(s, e) && (e.Receive? || e.Transmit?)
    ensures Inv(host, Step(host, s, e))
  {
    hide Parse, HeaderOf, SerializeAll, Canonical, Generated;
    match e
    case Receive(chunk) =>
      ConcatAssociative(s.framed, Partial(s.op), chunk);
      if s.op.ReadingBody? {
        ConcatAssociative(s.op.raw, s.op.got, chunk);
      }
      ParseMonotone(host, s.taken, chunk);
    case Transmit(n) =>
      var out, w := s.op.out, s.op.written;
      assert out[w..] == out[w..w + n] + out[w + n..];
      ConcatAssociative(s.sent, out[w..w + n], out[w + n..]);
  }

  lemma SendKeepsGenerated(host: Host, s: State)
    requires Generated(s.scenario, s.seed, s.rng, s.requests)
    ensures var t := DoSendRequest(host, s); Generated(t.scenario, t.seed, t.rng, t.requests)
  {
    hide R.RequestFrom, R.KindFrom, Lcg.After, Serialize;
  }

  lemma LoadKeeps(host: Host, s: State, e: Event)
    requires Inv(host, s) && Enabled(s, e) && e.Load?
    ensures Inv(host, Step(host, s, e))
  {
    hide Parse, HeaderOf, SerializeAll, Serialize, Generated, R.RequestFrom, R.KindFrom, Lcg.After;
    SendKeepsGenerated(host, s);
    var request := NextRequest(s);
    R.RequestIsSendable(s.scenario, s.rng);
    SerializeAllSnoc(host, s.requests, request);
    var out := Serialize(host, request);
    assert out[0..] == out;
    assert s.sent + [] == s.sent;
    assert forall m <- s.requests + [request] :: m in s.requests || m == request;
  }

  lemma KeepsSeed(host: Host, s: State, e: Event)
    ensures var t := Step(host, s, e); t.scenario == s.scenario && t.seed == s.seed
  {
    hide HeaderOf, Serialize, R.RequestFrom, R.KindFrom, Lcg.After;
  }

  lemma OtherStepsMoveNothing(host: Host, s: State, e: Event)
    requires !e.Receive? && !e.Transmit?
    ensures var t := Step(host, s, e); t.taken == s.taken && t.sent == s.sent
  {
    hide HeaderOf, Serialize;
  }

  lemma StepKeeps(host: Host, s: State, e: Event)
    requires Inv(host, s)
    ensures Inv(host, Step(host, s, e))
  {
    hide Parse, HeaderOf, SerializeAll, OnHeader, DoSendRequest, Canonical, Generated;
    if Enabled(s, e) {
      match e {
        case Receive(_) => MoveKeeps(host, s, e);
        case Transmit(_) => MoveKeeps(host, s, e);
        case Complete =>
          if s.op.ReadingHeader? {
            OnHeaderKeeps(host, s);
          } else if s.op.ReadingBody? {
            assert s.sent + [] == s.sent;
            SucceedKeeps(host, s, s.op.raw, s.op.got);
          } else if s.op.Writing? {
            assert s.op.out[s.op.written..] == [];
          }
        case Load(_) => LoadKeeps(host, s, e);
        case _ =>
      }
    }
  }

  /** The responses completed, and the one that only waits for its handler. */
  lemma ResponsesRead(host: Host, s: State)
    requires Inv(host, s) && s.errors == 0
    ensures var fs := Parse(host, s.taken).frames;
            s.responses <= fs && (!Enabled(s, Complete) ==> fs == s.responses)
  {
    hide Parse, HeaderOf, SerializeAll, Canonical, Generated;
    FramesTaken(host, s);
    ParseNoFrame(host, []);
    var p := Partial(s.op);
    if !Enabled(s, Complete) {
      match s.op {
        case ReadingHeader(got) => ParseNoFrame(host, p);
        case ReadingBody(raw, got) =>
          assert p[..HEADER_SIZE] == raw;
          ParseNoFrame(host, p);
        case _ =>
      }
    }
  }
}
