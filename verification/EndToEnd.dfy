/** What holds of the composed system in every reachable state, for any number of clients, any
    interleaving of their handlers and the sessions', and any fragmentation of the streams. */
module EndToEnd {
  import opened Protocol
  import opened Frames
  import opened Router
  import opened System
  import Lcg
  import R = Requests
  import C = ClientMachine
  import S = SessionMachine

  /** The replies a session has produced so far. */
  function RepliesOf(cfg: S.Config, c: Conn): seq<Message>
    requires |c.session.envs| == |c.session.requests|
  {
    S.Replies(cfg, c.session.envs, c.session.requests)
  }

  // ---------------------------------------------------------------------------------------
  // Requests and responses

  lemma RequestsMatch(cfg: S.Config, c: Conn)
    requires ConnInv(cfg, c)
    ensures c.session.requests <= c.client.requests && Deliverable(c.session.requests)
  {
    hide Parse, HeaderOf, SerializeAll;
    var host, requests := cfg.host, c.client.requests;
    var frames := Parse(host, c.session.taken).frames;
    assert c.session.requests <= frames by {
      if !c.session.op.Idle? {
        S.FramesTaken(cfg, c.session);
      }
    }
    assert c.session.taken <= SerializeAll(host, requests);
    ParsePrefix(host, c.session.taken, requests);
  }

  lemma RepliesMatch(cfg: S.Config, c: Conn)
    requires ConnInv(cfg, c) && AllCanonical(RepliesOf(cfg, c))
    ensures c.session.requests <= c.client.requests
    ensures c.client.responses <= RepliesOf(cfg, c)
  {
    hide Parse, HeaderOf, SerializeAll, S.Replies;
    RequestsMatch(cfg, c);
    var host, replies := cfg.host, RepliesOf(cfg, c);
    assert c.client.taken <= SerializeAll(host, replies) by {
      SentIsPrefix(cfg, c.session);
    }
    ParsePrefix(host, c.client.taken, replies);
  }

  /** What the clients ask, over every run: the k-th request of client i is the one its
      generator, seeded with i, determines after the draws of the k before. */
  lemma RequestsFollowGenerator(cfg: S.Config, load: Load, events: seq<Event>, i: nat)
    requires i < load.clients
    ensures var c, w := Run(cfg, load, events).conns[i].client, load.scenario;
            && c.rng == C.Drawn(w, Lcg.Seed(i), |c.requests|)
            && forall k :: 0 <= k < |c.requests| ==> c.requests[k] == R.RequestFrom(w, C.Drawn(w, Lcg.Seed(i), k))
  {
    hide Run, S.Inv, Tallies, Chained, Logged, C.Drawn, R.RequestFrom, Parse, HeaderOf, SerializeAll;
    RunKeeps(cfg, load, events);
    SeedsKept(cfg, load, events);
    assert ConnInv(cfg, Run(cfg, load, events).conns[i]);
  }

  lemma SentIsPrefix(cfg: S.Config, s: S.State)
    requires S.Inv(cfg, s)
    ensures s.sent <= S.Output(cfg, s.envs, s.requests)
  {
    hide Parse, HeaderOf, S.Output;
  }

  /** The k-th response a client completes is what dispatch made of its k-th request, whatever
      the other connections do, as long as this session's replies fit the length field. */
  lemma KthResponseAnswersKthRequest(cfg: S.Config, load: Load, events: seq<Event>, i: nat, k: nat)
    requires i < load.clients
    requires var c := Run(cfg, load, events).conns[i];
             |c.session.envs| == |c.session.requests| && AllCanonical(RepliesOf(cfg, c)) && k < |c.client.responses|
    ensures var c := Run(cfg, load, events).conns[i];
            && k < |c.session.requests| <= |c.client.requests|
            && c.session.requests[k] == c.client.requests[k]
            && c.client.responses[k] == Dispatch(cfg.table, c.session.envs[k], c.client.requests[k]).response
  {
    hide Run, ConnInv, Tallies, Chained, Logged, Dispatch;
    RunKeeps(cfg, load, events);
    var c := Run(cfg, load, events).conns[i];
    assert ConnInv(cfg, c);
    RepliesMatch(cfg, c);
  }

  /** No byte is lost, duplicated or reordered: what an end has read, what is queued and what
      the other end has yet to send make up the printed messages. */
  lemma BytesConserved(cfg: S.Config, load: Load, events: seq<Event>, i: nat)
    requires i < load.clients
    ensures var c := Run(cfg, load, events).conns[i];
            && |c.session.envs| == |c.session.requests|
            && (c.client.op.Writing? ==> c.client.op.written <= |c.client.op.out|)
            && (c.session.op.Writing? ==> c.session.op.written <= |c.session.op.out|)
            && (c.client.errors == 0 ==>
                  c.session.taken + c.up + C.Unsent(c.client.op) == SerializeAll(cfg.host, c.client.requests))
            && (!c.session.op.Idle? ==>
                  c.client.taken + c.down + S.Unsent(c.session.op) == SerializeAll(cfg.host, RepliesOf(cfg, c)))
            && c.session.taken + c.up <= SerializeAll(cfg.host, c.client.requests)
            && c.client.taken + c.down <= SerializeAll(cfg.host, RepliesOf(cfg, c))
  {
    hide Run, Tallies, Chained, Logged, Parse, HeaderOf, SerializeAll;
    RunKeeps(cfg, load, events);
    var c := Run(cfg, load, events).conns[i];
    assert ConnInv(cfg, c);
    SentIsPrefix(cfg, c.session);
  }

  // ---------------------------------------------------------------------------------------
  // Counters

  /** in_flight is the number of unfinished clients, no client finishes twice or records two
      errors, every request begun is accounted for, and the count of successes exceeds the
      stored samples by the clients caught between the two halves of record_success. */
  lemma CountersConserved(cfg: S.Config, load: Load, events: seq<Event>)
    ensures var s := Run(cfg, load, events);
            && s.inFlight == Sum(s.conns, Unfinished) && 0 <= s.inFlight <= load.clients
            && (forall c <- s.conns :: c.client.errors <= 1 && c.client.finishes == 1 - Unfinished(c))
            && Sum(s.conns, Requests) == s.successes + Sum(s.conns, SendErrors) + Sum(s.conns, Awaiting)
            && s.successes == |s.samples| + Sum(s.conns, Recording)
            && s.errors == Sum(s.conns, Errors)
  {
    hide Run, S.Inv, Chained, Logged, Parse, HeaderOf, SerializeAll;
    RunKeeps(cfg, load, events);
    var conns := Run(cfg, load, events).conns;
    forall c <- conns ensures C.Books(c.client) {
      assert ConnInv(cfg, c);
    }
    hide ConnInv, AllConns;
    SumsAddUp(conns, Requests, Responses, SendErrors, Awaiting);
    SumsAddUp(conns, Responses, Samples, Recording, Nothing);
    SumOfEqual(conns, Nothing, 0);
    UnfinishedBounds(conns);
  }

  lemma {:induction false} UnfinishedBounds(conns: seq<Conn>)
    ensures 0 <= Sum(conns, Unfinished) <= |conns|
  {
    if conns != [] {
      UnfinishedBounds(conns[..|conns| - 1]);
    }
  }

  /** When all clients have finished, the report's count is the number of samples, which is the
      number of responses completed, and in_flight is back to zero. */
  lemma FinalReport(cfg: S.Config, load: Load, events: seq<Event>)
    requires forall c <- Run(cfg, load, events).conns :: c.client.op.Finished?
    ensures var s := Run(cfg, load, events);
            && s.inFlight == 0
            && s.successes == |s.samples| == Sum(s.conns, Responses)
            && Sum(s.conns, Requests) == s.successes + Sum(s.conns, SendErrors)
  {
    hide Run;
    RunKeeps(cfg, load, events);
    CountersConserved(cfg, load, events);
    var conns := Run(cfg, load, events).conns;
    SumOfEqual(conns, Unfinished, 0);
    SumOfEqual(conns, Awaiting, 0);
    SumOfEqual(conns, Recording, 0);
  }

  // ---------------------------------------------------------------------------------------
  // No deadlock

  /** A step of the connection other than a failure or a close. */
  ghost predicate CanAdvance(c: Conn, stop: bool, orders: nat) {
    || (exists e: C.Event :: !e.Fail? && ClientMay(c, stop, e))
    || (exists e: S.Event :: (e.Receive? || e.Transmit? || e.Complete?) && SessionMay(c, orders, e))
  }

  /** A client whose connection has not failed, and whose replies are within the limit, is never
      stuck: it has finished, or its connection has a step to take. */
  lemma NoDeadlock(cfg: S.Config, load: Load, events: seq<Event>, i: nat)
    requires i < load.clients
    requires var c := Run(cfg, load, events).conns[i];
             && |c.session.envs| == |c.session.requests|
             && AllCanonical(RepliesOf(cfg, c)) && Deliverable(RepliesOf(cfg, c))
             && !c.session.closed && !c.client.op.Finished?
    ensures var s := Run(cfg, load, events); CanAdvance(s.conns[i], s.stop, s.orders)
  {
    hide Run, ConnInv, Tallies, Chained, Logged, CanAdvance, AllCanonical, Deliverable, Canonical;
    RunKeeps(cfg, load, events);
    var s := Run(cfg, load, events);
    assert ConnInv(cfg, s.conns[i]);
    ConnAdvances(cfg, s.conns[i], s.stop, s.orders);
  }

  lemma ConnAdvances(cfg: S.Config, c: Conn, stop: bool, orders: nat)
    requires ConnInv(cfg, c) && AllCanonical(RepliesOf(cfg, c)) && Deliverable(RepliesOf(cfg, c))
    requires !c.session.closed && !c.client.op.Finished?
    ensures CanAdvance(c, stop, orders)
  {
    hide Parse, HeaderOf, HeaderBytes, SerializeAll, S.Replies, AllCanonical, Deliverable;
    if !CanAdvance(c, stop, orders) {
      ClientWaits(c, stop, orders);
      SessionWaits(cfg, c, stop, orders);
      EverythingAnswered(cfg, c);
      assert false;
    }
  }

  /** A stuck client is in the middle of reading a response, with nothing queued for it. */
  lemma ClientWaits(c: Conn, stop: bool, orders: nat)
    requires !CanAdvance(c, stop, orders) && !c.client.op.Finished?
    requires c.client.op.Writing? ==> c.client.op.written <= |c.client.op.out|
    requires c.client.op.ReadingHeader? ==> |c.client.op.got| <= HEADER_SIZE
    requires c.client.op.ReadingBody? ==> |c.client.op.got| <= c.client.current.payloadLength
    ensures (c.client.op.ReadingHeader? || c.client.op.ReadingBody?) && c.down == []
    ensures !C.Enabled(c.client, C.Complete)
  {
    assert !ClientMay(c, stop, C.Complete);
    assert !ClientMay(c, stop, C.Push);
    assert !ClientMay(c, stop, C.Finish);
    assert !ClientMay(c, stop, C.Load(stop));
    var n := if c.client.op.Writing? then |c.client.op.out| - c.client.op.written else 0;
    assert !ClientMay(c, stop, C.Transmit(n));
    var chunk := if c.down == [] then [] else [c.down[0]];
    assert chunk <= c.down;
    assert !ClientMay(c, stop, C.Receive(chunk));
  }

  /** A stuck session is in the middle of reading a request, with nothing queued for it. */
  lemma SessionWaits(cfg: S.Config, c: Conn, stop: bool, orders: nat)
    requires !CanAdvance(c, stop, orders) && !c.session.closed && S.Inv(cfg, c.session)
    ensures (c.session.op.ReadingHeader? || c.session.op.ReadingBody?) && c.up == []
    ensures forall env :: !S.Enabled(c.session, S.Complete(env))
  {
    hide Parse, HeaderOf, S.Output;
    assert !SessionMay(c, orders, S.Complete(Env(orders, 0)));
    var n := if c.session.op.Writing? then |c.session.op.out| - c.session.op.written else 0;
    assert !SessionMay(c, orders, S.Transmit(n));
    var chunk := if c.up == [] then [] else [c.up[0]];
    assert chunk <= c.up;
    assert !SessionMay(c, orders, S.Receive(chunk));
  }

  /** With both queues empty and both ends waiting to read, every request has been answered and
      every answer completed, which leaves nothing for the client to wait for. */
  lemma EverythingAnswered(cfg: S.Config, c: Conn)
    requires ConnInv(cfg, c) && AllCanonical(RepliesOf(cfg, c)) && Deliverable(RepliesOf(cfg, c))
    requires c.up == [] && c.down == [] && (forall env :: !S.Enabled(c.session, S.Complete(env)))
    requires (c.session.op.ReadingHeader? || c.session.op.ReadingBody?) && !C.Enabled(c.client, C.Complete)
    ensures !c.client.op.ReadingHeader? && !c.client.op.ReadingBody?
  {
    hide Parse, HeaderOf, SerializeAll, S.Replies, AllCanonical, Deliverable, S.Enabled;
    var host, requests, replies := cfg.host, c.client.requests, RepliesOf(cfg, c);
    if c.client.op.ReadingHeader? || c.client.op.ReadingBody? {
      S.FramesTaken(cfg, c.session);
      S.PartialFrames(cfg, c.session);
      C.ResponsesRead(host, c.client);
      Deliverables(cfg, c);
      assert c.session.taken == SerializeAll(host, requests) + [];
      assert c.client.taken == SerializeAll(host, replies) + [];
      ParseNoFrame(host, []);
      ParseSerialized(host, requests, []);
      ParseSerialized(host, replies, []);
      assert false;
    }
  }

  lemma Deliverables(cfg: S.Config, c: Conn)
    requires ConnInv(cfg, c)
    ensures AllCanonical(c.client.requests) && Deliverable(c.client.requests)
  {
    hide Parse, HeaderOf, SerializeAll, S.Replies;
  }

  // ---------------------------------------------------------------------------------------
  // Shutdown

  function ClientRank(op: C.Op): nat {
    match op
    case Resolving => 8
    case Connecting => 7
    case Writing(_, _) => 6
    case ReadingHeader(_) => 5
    case ReadingBody(_, _) => 4
    case Pushing => 3
    case Loading => 2
    case Closing => 1
    case Finished => 0
  }

  ghost function Measure(c: Conn): (m: seq<nat>)
    requires c.client.op.Writing? ==> c.client.op.written <= |c.client.op.out|
    requires c.session.op.Writing? ==> c.session.op.written <= |c.session.op.out|
    ensures |m| == 6
  {
    [|C.Unsent(c.client.op)|, |c.up|, S.Rank(c.session), |S.Unsent(c.session.op)|, |c.down|, ClientRank(c.client.op)]
  }

  /** n is lexicographically below m. */
  ghost predicate Below(n: seq<nat>, m: seq<nat>)
    requires |n| == |m|
  {
    exists j :: 0 <= j < |m| && n[j] < m[j] && forall i :: 0 <= i < j ==> n[i] == m[i]
  }

  /** Once the stop flag is set, no client begins a request, and every step of a connection,
      failures included, lowers its measure: each client completes at most the request it has
      begun, and finishes. */
  lemma ShutdownClient(cfg: S.Config, c: Conn, e: C.Event)
    requires ConnInv(cfg, c) && ClientMay(c, true, e)
    ensures ConnInv(cfg, ClientStep(cfg.host, c, true, e))
    ensures var d := ClientStep(cfg.host, c, true, e);
            && d.client.requests == c.client.requests
            && |d.client.responses| <= |d.client.requests|
            && Below(Measure(d), Measure(c))
  {
    ClientStepKeeps(cfg, c, true, e);
    ClientRanks(cfg, c, e);
    var d := ClientStep(cfg.host, c, true, e);
    assert |d.client.responses| <= |d.client.requests|;
    hide *;
    MeasureBelow(c, d, if |C.Unsent(d.client.op)| < |C.Unsent(c.client.op)| then 0 else if e.Receive? then 4 else 5);
  }

  /** The components of the measure, compared one by one. */
  lemma MeasureBelow(c: Conn, d: Conn, j: nat)
    requires c.client.op.Writing? ==> c.client.op.written <= |c.client.op.out|
    requires c.session.op.Writing? ==> c.session.op.written <= |c.session.op.out|
    requires d.client.op.Writing? ==> d.client.op.written <= |d.client.op.out|
    requires d.session.op.Writing? ==> d.session.op.written <= |d.session.op.out|
    requires j < 6
    requires 0 < j ==> |C.Unsent(d.client.op)| == |C.Unsent(c.client.op)|
    requires 1 < j ==> |d.up| == |c.up|
    requires 2 < j ==> S.Rank(d.session) == S.Rank(c.session)
    requires 3 < j ==> |S.Unsent(d.session.op)| == |S.Unsent(c.session.op)|
    requires 4 < j ==> |d.down| == |c.down|
    requires j == 0 ==> |C.Unsent(d.client.op)| < |C.Unsent(c.client.op)|
    requires j == 1 ==> |d.up| < |c.up|
    requires j == 2 ==> S.Rank(d.session) < S.Rank(c.session)
    requires j == 3 ==> |S.Unsent(d.session.op)| < |S.Unsent(c.session.op)|
    requires j == 4 ==> |d.down| < |c.down|
    requires j == 5 ==> ClientRank(d.client.op) < ClientRank(c.client.op)
    ensures Below(Measure(d), Measure(c))
  {
    hide S.Rank, ClientRank, C.Unsent, S.Unsent;
    assert Measure(d)[j] < Measure(c)[j];
  }

  lemma ClientRanks(cfg: S.Config, c: Conn, e: C.Event)
    requires C.Inv(cfg.host, c.client) && ClientMay(c, true, e)
    ensures var d := ClientStep(cfg.host, c, true, e);
            && d.client.requests == c.client.requests && d.session == c.session
            && (d.client.op.Writing? ==> d.client.op.written <= |d.client.op.out|)
            && |C.Unsent(d.client.op)| <= |C.Unsent(c.client.op)|
            && (e.Transmit? ==> |C.Unsent(d.client.op)| < |C.Unsent(c.client.op)|)
            && (!e.Transmit? ==> d.up == c.up)
            && (e.Receive? ==> |d.down| < |c.down| && C.Unsent(d.client.op) == C.Unsent(c.client.op))
            && (!e.Receive? ==> d.down == c.down)
            && (!e.Transmit? && !e.Receive? ==> ClientRank(d.client.op) < ClientRank(c.client.op))
  {
    hide Parse, HeaderOf, SerializeAll, Serialize;
  }

  lemma ShutdownSession(cfg: S.Config, c: Conn, orders: nat, e: S.Event)
    requires ConnInv(cfg, c) && SessionMay(c, orders, e) && !e.Stop? && !e.Destroy?
    ensures ConnInv(cfg, SessionStep(cfg, c, orders, e))
    ensures var d := SessionStep(cfg, c, orders, e);
            && d.client == c.client
            && Below(Measure(d), Measure(c))
  {
    SessionStepKeeps(cfg, c, orders, e);
    SessionRanks(cfg, c, orders, e);
    var d := SessionStep(cfg, c, orders, e);
    assert c.client.op.Writing? ==> c.client.op.written <= |c.client.op.out|;
    assert c.session.op.Writing? ==> c.session.op.written <= |c.session.op.out|;
    hide *;
    MeasureBelow(c, d, if e.Receive? then 1 else if e.Transmit? then 3 else 2);
  }

  lemma SessionRanks(cfg: S.Config, c: Conn, orders: nat, e: S.Event)
    requires S.Inv(cfg, c.session) && SessionMay(c, orders, e) && !e.Stop? && !e.Destroy?
    ensures var d := SessionStep(cfg, c, orders, e);
            && d.client == c.client
            && (d.session.op.Writing? ==> d.session.op.written <= |d.session.op.out|)
            && (e.Receive? ==> |d.up| < |c.up|)
            && (!e.Receive? ==> d.up == c.up)
            && (e.Transmit? ==> S.Rank(d.session) == S.Rank(c.session)
                                && |S.Unsent(d.session.op)| < |S.Unsent(c.session.op)|)
            && (e.Complete? || e.Fail? ==> S.Rank(d.session) < S.Rank(c.session))
  {
    if e.Complete? {
      S.CompleteNearer(cfg, c.session, e.env);
    }
    hide Parse, HeaderOf, SerializeAll, S.Output, S.OnHeader, S.DispatchAndWrite;
  }

  /** What Client and Serve events may do in a state; closing a session is not counted. */
  ghost predicate Effective(s: State, e: Event) {
    match e
    case Client(i, ce, _) => i < |s.conns| && ClientMay(s.conns[i], s.stop, ce)
    case Serve(i, se) => i < |s.conns| && SessionMay(s.conns[i], s.orders, se) && !se.Stop? && !se.Destroy?
    case Timeout => false
  }

  /** Shutdown terminates.  Once the stop flag is set it stays set, no client begins another
      request, and every effective step, failures included, lowers the measure of the one
      connection it touches. */
  lemma ShutdownStep(cfg: S.Config, s: State, e: Event)
    requires Inv(cfg, s) && s.stop && Effective(s, e)
    ensures var t := Step(cfg, s, e);
            && Inv(cfg, t) && t.stop
            && (forall j :: 0 <= j < |s.conns| && j != e.i ==> t.conns[j] == s.conns[j])
            && t.conns[e.i].client.requests == s.conns[e.i].client.requests
            && ConnInv(cfg, s.conns[e.i]) && ConnInv(cfg, t.conns[e.i])
            && Below(Measure(t.conns[e.i]), Measure(s.conns[e.i]))
  {
    hide Step, ConnInv, Inv, Below, Measure, ClientStep, SessionStep, ClientMay, SessionMay;
    StepKeeps(cfg, s, e);
    TouchesOne(cfg, s, e);
    var c, d := s.conns[e.i], Step(cfg, s, e).conns[e.i];
    ConnKept(cfg, s, e.i);
    ConnKept(cfg, Step(cfg, s, e), e.i);
    match e
    case Client(i, ce, us) => ShutdownClient(cfg, c, ce);
    case Serve(i, se) => ShutdownSession(cfg, c, s.orders, se);
  }

  lemma ConnKept(cfg: S.Config, s: State, i: nat)
    requires Inv(cfg, s) && i < |s.conns|
    ensures ConnInv(cfg, s.conns[i])
  {
    hide ConnInv;
  }

  lemma TouchesOne(cfg: S.Config, s: State, e: Event)
    requires Effective(s, e)
    ensures var d := if e.Client? then ClientStep(cfg.host, s.conns[e.i], s.stop, e.e)
                     else SessionStep(cfg, s.conns[e.i], s.orders, e.se);
            Step(cfg, s, e).conns == s.conns[e.i := d] && Step(cfg, s, e).stop == s.stop
  {
    hide ClientStep, SessionStep, S.Dispatches;
  }
}
