/** What the load test achieves while nothing disturbs it: clients keep asking and are answered,
    and none finishes before it is told to. */
module Progress {
  import opened Protocol
  import opened Frames
  import opened Services
  import opened System
  import opened EndToEnd
  import opened LoadTest
  import opened Shutdown
  import C = ClientMachine
  import S = SessionMachine
  import Lcg
  import LoadMix
  import Requests

  /** A failed operation, a stopped or destroyed session, or the timer. */
  predicate Disturbs(e: Event) {
    e.Timeout? || (e.Client? && e.e.Fail?) || (e.Serve? && S.Disturbs(e.se))
  }

  // ---------------------------------------------------------------------------------------
  // Nobody finishes early

  /** A client finishes without an error only once the timer has run. */
  lemma {:induction false} FinishesOnlyWhenTold(cfg: S.Config, load: Load, events: seq<Event>)
    ensures var s := Run(cfg, load, events);
            && (s.stop <==> Timeout in events)
            && (Timeout !in events ==>
                  forall c <- s.conns :: c.client.op.Finished? || c.client.op.Closing? ==> c.client.errors > 0)
  {
    hide Step;
    if events != [] {
      var n := |events| - 1;
      FinishesOnlyWhenTold(cfg, load, events[..n]);
      assert events == events[..n] + [events[n]];
      FinishStep(cfg, Run(cfg, load, events[..n]), events[n]);
    }
  }

  lemma FinishStep(cfg: S.Config, s: State, e: Event)
    ensures Step(cfg, s, e).stop <==> s.stop || e.Timeout?
    ensures !s.stop && !e.Timeout?
            && (forall c <- s.conns :: c.client.op.Finished? || c.client.op.Closing? ==> c.client.errors > 0) ==>
              forall c <- Step(cfg, s, e).conns :: c.client.op.Finished? || c.client.op.Closing? ==> c.client.errors > 0
  {
    hide S.Step, S.Dispatches, S.OrdersAfter, S.DueRequest, HeaderOf, Serialize;
  }

  // ---------------------------------------------------------------------------------------
  // Nobody asks unconnected

  /** How often an operation of client i has succeeded. */
  function Completions(events: seq<Event>, i: nat): nat {
    if events == [] then 0
    else
      var last := events[|events| - 1];
      Completions(events[..|events| - 1], i) + if last.Client? && last.i == i && last.e.Complete? then 1 else 0
  }

  /** What must have succeeded for a client to be where it is: resolving and connecting, and for
      every response the write of its request and the read of its header. */
  function Succeeded(c: C.State): nat {
    var n := 2 + 2 * |c.responses|;
    match c.op
    case Resolving => 0
    case Connecting => 1
    case ReadingHeader(_) => n + 1
    case ReadingBody(_, _) => n + 2
    case Loading => n
    case _ => if c.requests == [] then 0 else n
  }

  lemma StepSucceeds(host: Host, s: C.State, e: C.Event)
    requires C.Books(s) && (s.op.Resolving? || s.op.Connecting? ==> s.requests == [])
    ensures var t := C.Step(host, s, e);
            && Succeeded(t) <= Succeeded(s) + (if e.Complete? then 1 else 0)
            && (t.op.Resolving? || t.op.Connecting? ==> t.requests == [])
  {
    hide HeaderOf, Serialize, Requests.RequestFrom;
  }

  lemma ClientBehind(cfg: S.Config, s: State, e: Event, i: nat)
    requires i < |s.conns|
    ensures var c, d := s.conns[i].client, Step(cfg, s, e).conns[i].client;
            d == c || (e.Client? && e.i == i && d == C.Step(cfg.host, c, e.e))
  {
    hide C.Step, S.Step, C.Enabled, S.Enabled, S.Dispatches, S.OrdersAfter, S.DueRequest;
  }

  lemma SystemStepSucceeds(cfg: S.Config, s: State, e: Event, i: nat)
    requires Inv(cfg, s) && i < |s.conns|
    requires var c := s.conns[i].client; c.op.Resolving? || c.op.Connecting? ==> c.requests == []
    ensures var c, d := s.conns[i].client, Step(cfg, s, e).conns[i].client;
            && Succeeded(d) <= Succeeded(c) + (if e.Client? && e.i == i && e.e.Complete? then 1 else 0)
            && (d.op.Resolving? || d.op.Connecting? ==> d.requests == [])
  {
    ConnKept(cfg, s, i);
    BooksKept(cfg, s.conns[i]);
    ClientBehind(cfg, s, e, i);
    hide Inv, ConnInv, C.Books, C.Step, Step, Succeeded;
    if e.Client? && e.i == i {
      StepSucceeds(cfg.host, s.conns[i].client, e.e);
    }
  }

  lemma BooksKept(cfg: S.Config, c: Conn)
    requires ConnInv(cfg, c)
    ensures C.Books(c.client)
  {
    hide Parse, HeaderOf, SerializeAll, S.Inv;
  }

  lemma {:induction false} RunSucceeds(cfg: S.Config, load: Load, events: seq<Event>, i: nat)
    requires i < load.clients
    ensures var c := Run(cfg, load, events).conns[i].client;
            Succeeded(c) <= Completions(events, i) && (c.op.Resolving? || c.op.Connecting? ==> c.requests == [])
  {
    hide Step, Inv;
    if events != [] {
      var n := |events| - 1;
      RunSucceeds(cfg, load, events[..n], i);
      RunKeeps(cfg, load, events[..n]);
      SystemStepSucceeds(cfg, Run(cfg, load, events[..n]), events[n], i);
    }
  }

  /** Over every run no client begins a request before resolving and connecting have succeeded,
      nor completes a response without a write and a read besides. */
  lemma ConnectedFirst(cfg: S.Config, load: Load, events: seq<Event>, i: nat)
    requires i < load.clients
    ensures var c := Run(cfg, load, events).conns[i].client;
            c.requests != [] ==> Completions(events, i) >= 2 + 2 * |c.responses|
  {
    hide Run;
    RunSucceeds(cfg, load, events, i);
  }

  // ---------------------------------------------------------------------------------------
  // Nothing fails by itself

  ghost predicate Healthy(c: Conn) {
    !c.session.closed && c.client.errors == 0 && !c.client.op.Finished?
  }

  /** No part of a stream of deliverable messages is refused. */
  lemma NeverRefused(host: Host, s: seq<byte>, ms: seq<Message>)
    requires AllCanonical(ms) && Deliverable(ms) && s <= SerializeAll(host, ms)
    ensures !Parse(host, s).refused
  {
    hide Parse, SerializeAll;
    var all := SerializeAll(host, ms);
    ParseSerialized(host, ms, []);
    ParseNoFrame(host, []);
    assert all + [] == all && s + all[|s|..] == all;
    if Parse(host, s).refused {
      ParseRefused(host, s, all[|s|..]);
      assert false;
    }
  }

  /** The header a client waits for is never refused. */
  lemma ReplyAccepted(host: Host, market: Market, c: Conn)
    requires Tidy(market) && ConnInv(Shipped(host, market), c) && c.client.errors == 0
    requires c.client.op.ReadingHeader? && |c.client.op.got| == HEADER_SIZE
    ensures HeaderOf(host, c.client.op.got).Ok?
  {
    hide Parse, HeaderOf, SerializeAll, S.Replies, ServiceTable, Tidy, Deliverable, AllCanonical;
    var cfg := Shipped(host, market);
    RepliesFit(host, market, c);
    SentIsPrefix(cfg, c.session);
    NeverRefused(host, c.client.taken, RepliesOf(cfg, c));
    C.FramesTaken(host, c.client);
    assert c.client.op.got[..HEADER_SIZE] == c.client.op.got;
    if HeaderOf(host, c.client.op.got).Err? {
      ParseNoFrame(host, c.client.op.got);
      assert false;
    }
  }

  /** Nor is the one a session waits for. */
  lemma RequestAccepted(cfg: S.Config, c: Conn)
    requires ConnInv(cfg, c) && c.session.op.ReadingHeader? && |c.session.op.got| == HEADER_SIZE
    ensures HeaderOf(cfg.host, c.session.op.got).Ok?
  {
    hide Parse, HeaderOf, SerializeAll, S.Replies, Deliverable, AllCanonical;
    Deliverables(cfg, c);
    NeverRefused(cfg.host, c.session.taken, c.client.requests);
    S.FramesTaken(cfg, c.session);
    assert c.session.op.got[..HEADER_SIZE] == c.session.op.got;
    if HeaderOf(cfg.host, c.session.op.got).Err? {
      ParseNoFrame(cfg.host, c.session.op.got);
      assert false;
    }
  }

  lemma ClientStaysHealthy(host: Host, market: Market, c: Conn, e: C.Event)
    requires Tidy(market) && ConnInv(Shipped(host, market), c) && Healthy(c)
    requires ClientMay(c, false, e) && !e.Fail?
    ensures Healthy(ClientStep(host, c, false, e))
  {
    hide ConnInv, Tidy, ServiceTable;
    BooksKept(Shipped(host, market), c);
    assert c.client.errors == 0 && !c.client.op.Closing?;
    assert e.Complete? && c.client.op.ReadingHeader? ==> |c.client.op.got| == HEADER_SIZE;
    hide *;
    if e.Complete? && c.client.op.ReadingHeader? {
      ReplyAccepted(host, market, c);
    }
    KeepsHealth(host, c, e);
  }

  lemma KeepsHealth(host: Host, c: Conn, e: C.Event)
    requires Healthy(c) && ClientMay(c, false, e) && !e.Fail? && !c.client.op.Closing?
    requires e.Complete? && c.client.op.ReadingHeader? ==> HeaderOf(host, c.client.op.got).Ok?
    ensures Healthy(ClientStep(host, c, false, e))
  {
    hide HeaderOf, Serialize, Requests.RequestFrom;
  }

  lemma SessionStaysHealthy(cfg: S.Config, c: Conn, orders: nat, e: S.Event)
    requires ConnInv(cfg, c) && Healthy(c) && SessionMay(c, orders, e) && !S.Disturbs(e)
    ensures Healthy(SessionStep(cfg, c, orders, e))
  {
    if e.Complete? && c.session.op.ReadingHeader? {
      RequestAccepted(cfg, c);
    }
    hide ConnInv, HeaderOf, Serialize, Router.Dispatch;
  }

  ghost predicate AllHealthy(s: State) {
    !s.stop && forall c <- s.conns :: Healthy(c)
  }

  lemma StepStaysHealthy(host: Host, market: Market, s: State, e: Event)
    requires Tidy(market) && Inv(Shipped(host, market), s) && AllHealthy(s) && !Disturbs(e)
    ensures AllHealthy(Step(Shipped(host, market), s, e))
  {
    hide Tidy, ServiceTable, ConnInv, Healthy, ClientMay, SessionMay, ClientStep, SessionStep, Tallies, Chained, Logged;
    hide S.Dispatches, S.OrdersAfter, S.DueRequest;
    var cfg := Shipped(host, market);
    match e
    case Client(i, ce, us) =>
      if i < |s.conns| && ClientMay(s.conns[i], s.stop, ce) {
        ConnKept(cfg, s, i);
        ClientStaysHealthy(host, market, s.conns[i], ce);
      }
    case Serve(i, se) =>
      if i < |s.conns| && SessionMay(s.conns[i], s.orders, se) {
        ConnKept(cfg, s, i);
        SessionStaysHealthy(cfg, s.conns[i], s.orders, se);
      }
    case Timeout =>
  }

  /** In an undisturbed run with the shipped services no client errs or finishes, and no session
      closes. */
  lemma {:induction false} NothingFails(host: Host, market: Market, load: Load, events: seq<Event>)
    requires Tidy(market) && forall e <- events :: !Disturbs(e)
    ensures AllHealthy(Run(Shipped(host, market), load, events))
  {
    hide Inv, Step, Disturbs, ServiceTable, Tidy;
    if events != [] {
      var n := |events| - 1;
      NothingFails(host, market, load, events[..n]);
      RunKeeps(Shipped(host, market), load, events[..n]);
      StepStaysHealthy(host, market, Run(Shipped(host, market), load, events[..n]), events[n]);
    }
  }

  // ---------------------------------------------------------------------------------------
  // Every client gets on

  /** How far a client is from having begun its next request. */
  function Stage(op: C.Op): nat {
    match op
    case Resolving => 4
    case Connecting => 3
    case Pushing => 2
    case Loading => 1
    case _ => 0
  }

  /** Another response, or nearer to it. */
  ghost predicate Onward(c: Conn, d: Conn)
    requires Measurable(c) && Measurable(d)
  {
    var m, n := |c.client.responses|, |d.client.responses|;
    || n > m
    || (n == m && Stage(d.client.op) < Stage(c.client.op))
    || (n == m && Stage(d.client.op) == Stage(c.client.op) && Below(Measure(d), Measure(c)))
  }

  /** What a client's step does to its responses and its stage. */
  lemma ClientStages(host: Host, c: Conn, e: C.Event)
    requires ClientMay(c, false, e) && Healthy(ClientStep(host, c, false, e)) && !e.Fail?
    ensures var d := ClientStep(host, c, false, e);
            || |d.client.responses| > |c.client.responses|
            || (|d.client.responses| == |c.client.responses|
                && (Stage(d.client.op) < Stage(c.client.op) || (Stage(d.client.op) == Stage(c.client.op) && !e.Load?)))
  {
    hide HeaderOf, Serialize;
  }

  lemma SameStep(host: Host, c: Conn, e: C.Event)
    requires !e.Load? && ClientMay(c, false, e)
    ensures ClientMay(c, true, e) && ClientStep(host, c, true, e) == ClientStep(host, c, false, e)
  {
    hide C.Step, C.Enabled;
  }

  lemma ClientOnward(host: Host, market: Market, c: Conn, e: C.Event)
    requires Tidy(market) && ConnInv(Shipped(host, market), c) && Healthy(c) && ClientMay(c, false, e) && !e.Fail?
    ensures var d := ClientStep(host, c, false, e); Measurable(c) && Measurable(d) && Onward(c, d)
  {
    hide ConnInv, Healthy, Tidy, ServiceTable, ClientMay, ClientStep, Measurable, Measure, Stage, Below;
    var cfg := Shipped(host, market);
    var d := ClientStep(host, c, false, e);
    ClientStaysHealthy(host, market, c, e);
    ClientStages(host, c, e);
    ClientStepKeeps(cfg, c, false, e);
    IsMeasurable(cfg, c);
    IsMeasurable(cfg, d);
    if !e.Load? {
      SameStep(host, c, e);
      ShutdownClient(cfg, c, e);
    }
  }

  /** The connection of a client in an undisturbed run has a step to take, and taking it is
      getting on. */
  lemma StepOnward(host: Host, market: Market, load: Load, events: seq<Event>, i: nat) returns (e: Event)
    requires Tidy(market) && i < load.clients && forall e <- events :: !Disturbs(e)
    ensures !Disturbs(e)
    ensures var c, d := Run(Shipped(host, market), load, events).conns[i],
                        Run(Shipped(host, market), load, events + [e]).conns[i];
            Measurable(c) && Measurable(d) && Onward(c, d)
  {
    var cfg := Shipped(host, market);
    var s := Run(cfg, load, events);
    NothingFails(host, market, load, events);
    assert s.conns[i] in s.conns && Healthy(s.conns[i]);
    LoadNeverStuck(host, market, load, events, i);
    e := ConnStep(s, i);
    RunKeeps(cfg, load, events);
    hide *;
    RunSnoc(cfg, load, events, e);
    EventOnward(host, market, s, e);
  }

  lemma RunSnoc(cfg: S.Config, load: Load, events: seq<Event>, e: Event)
    ensures Run(cfg, load, events + [e]) == Step(cfg, Run(cfg, load, events), e)
  {
    hide Step;
    assert (events + [e])[..|events|] == events;
  }

  lemma ConnStep(s: State, i: nat) returns (e: Event)
    requires i < |s.conns| && CanAdvance(s.conns[i], s.stop, s.orders)
    ensures !Disturbs(e) && !e.Timeout? && e.i == i && Effective(s, e)
  {
    hide ClientMay, SessionMay;
    var c := s.conns[i];
    if ce: C.Event :| !ce.Fail? && ClientMay(c, s.stop, ce) {
      e := Client(i, ce, 0);
    } else {
      var se: S.Event :| (se.Receive? || se.Transmit? || se.Complete?) && SessionMay(c, s.orders, se);
      e := Serve(i, se);
    }
  }

  lemma EventOnward(host: Host, market: Market, s: State, e: Event)
    requires Tidy(market) && Inv(Shipped(host, market), s) && AllHealthy(s)
    requires !Disturbs(e) && Effective(s, e)
    ensures var c, d := s.conns[e.i], Step(Shipped(host, market), s, e).conns[e.i];
            Measurable(c) && Measurable(d) && Onward(c, d)
  {
    hide Inv, Healthy, Tidy, ServiceTable, ClientMay, SessionMay, ClientStep, SessionStep, Step, Measurable, Measure;
    hide Below, ConnInv;
    var cfg := Shipped(host, market);
    ConnKept(cfg, s, e.i);
    TouchesOne(cfg, s, e);
    var c := s.conns[e.i];
    assert Healthy(c);
    if e.Client? {
      ClientOnward(host, market, c, e.e);
    } else {
      ShutdownSession(cfg, c, s.orders, e.se);
      IsMeasurable(cfg, c);
      IsMeasurable(cfg, SessionStep(cfg, c, s.orders, e.se));
    }
  }

  /** What is left until client i has n responses. */
  ghost function Missing(c: Conn, n: nat): nat {
    if |c.client.responses| < n then n - |c.client.responses| else 0
  }

  ghost function Component(c: Conn, j: nat): nat
    requires j < 6
  {
    if Measurable(c) then Measure(c)[j] else 0
  }

  /** From every undisturbed run of the load test, and for every client and number, the run can
      go on undisturbed until that client has completed so many responses. */
  lemma {:induction false} ClientIsAnswered(
    host: Host, market: Market, load: Load, events: seq<Event>, i: nat, n: nat) returns (more: seq<Event>)
    requires Tidy(market) && i < load.clients && forall e <- events :: !Disturbs(e)
    ensures events <= more && (forall e <- more :: !Disturbs(e))
    ensures |Run(Shipped(host, market), load, more).conns[i].client.responses| >= n
    decreases Missing(Run(Shipped(host, market), load, events).conns[i], n),
      Stage(Run(Shipped(host, market), load, events).conns[i].client.op),
      Component(Run(Shipped(host, market), load, events).conns[i], 0),
      Component(Run(Shipped(host, market), load, events).conns[i], 1),
      Component(Run(Shipped(host, market), load, events).conns[i], 2),
      Component(Run(Shipped(host, market), load, events).conns[i], 3),
      Component(Run(Shipped(host, market), load, events).conns[i], 4),
      Component(Run(Shipped(host, market), load, events).conns[i], 5)
  {
    hide Run, Tidy, ServiceTable, Measurable, Measure, Disturbs, Stage;
    if |Run(Shipped(host, market), load, events).conns[i].client.responses| >= n {
      more := events;
    } else {
      var e := StepOnward(host, market, load, events, i);
      more := ClientIsAnswered(host, market, load, events + [e], i, n);
    }
  }

  lemma StepGrows(cfg: S.Config, s: State, e: Event, j: nat)
    requires j < |s.conns|
    ensures s.conns[j].client.responses <= Step(cfg, s, e).conns[j].client.responses
  {
    hide S.Step, S.Dispatches, S.OrdersAfter, S.DueRequest, HeaderOf, Serialize;
  }

  /** A completed response stays completed. */
  lemma {:induction false} RunGrows(cfg: S.Config, load: Load, events: seq<Event>, more: seq<Event>, j: nat)
    requires j < load.clients && events <= more
    ensures Run(cfg, load, events).conns[j].client.responses <= Run(cfg, load, more).conns[j].client.responses
    decreases |more|
  {
    hide Run, Step;
    if |events| < |more| {
      var n := |more| - 1;
      RunGrows(cfg, load, events, more[..n], j);
      assert more == more[..n] + [more[n]];
      RunSnoc(cfg, load, more[..n], more[n]);
      StepGrows(cfg, Run(cfg, load, more[..n]), more[n], j);
    } else {
      assert events == more;
    }
  }

  /** The load goes on: from every undisturbed run of any number of clients with the shipped
      services, and for every n, the run can go on undisturbed until each of the first m clients
      has completed n responses, m being all of them or fewer. */
  lemma {:induction false} LoadGoesOn(
    host: Host, market: Market, load: Load, events: seq<Event>, m: nat, n: nat) returns (more: seq<Event>)
    requires Tidy(market) && m <= load.clients && forall e <- events :: !Disturbs(e)
    ensures events <= more && (forall e <- more :: !Disturbs(e))
    ensures forall i :: 0 <= i < m ==> |Run(Shipped(host, market), load, more).conns[i].client.responses| >= n
    decreases m
  {
    hide Run, Tidy, ServiceTable, Disturbs;
    more := events;
    if m > 0 {
      var before := LoadGoesOn(host, market, load, events, m - 1, n);
      more := ClientIsAnswered(host, market, load, before, m - 1, n);
      forall i | 0 <= i < m - 1 ensures |Run(Shipped(host, market), load, more).conns[i].client.responses| >= n {
        RunGrows(Shipped(host, market), load, before, more, i);
      }
    }
  }

  // ---------------------------------------------------------------------------------------
  // How much the generators are used

  /** How many of the requests have one of the given types. */
  function OfTypes(ms: seq<Message>, kinds: set<int>): nat {
    if ms == [] then 0
    else OfTypes(ms[..|ms| - 1], kinds) + if ms[|ms| - 1].header.messageType in kinds then 1 else 0
  }

  /** Two draws for a statement or a position, three for a price history, four for an order. */
  function Used(ms: seq<Message>): nat {
    2 * OfTypes(ms, {1, 4}) + 3 * OfTypes(ms, {5}) + 4 * OfTypes(ms, {2, 3})
  }

  /** No draw is lost or used twice: over every run a client's generator stands exactly as many
      states behind its seed as its requests take. */
  lemma DrawsCounted(cfg: S.Config, load: Load, events: seq<Event>, i: nat)
    requires i < load.clients
    ensures var c := Run(cfg, load, events).conns[i].client; c.rng == Lcg.After(Used(c.requests), Lcg.Seed(i))
  {
    hide *;
    RequestsFollowGenerator(cfg, load, events, i);
    DrawnCounted(load.scenario, Lcg.Seed(i), Run(cfg, load, events).conns[i].client.requests);
  }

  lemma {:induction false} DrawnCounted(w: LoadMix.Scenario, seed: Lcg.uint64, ms: seq<Message>)
    requires forall k :: 0 <= k < |ms| ==> ms[k] == Requests.RequestFrom(w, C.Drawn(w, seed, k))
    ensures C.Drawn(w, seed, |ms|) == Lcg.After(Used(ms), seed)
  {
    hide Lcg.After, Requests.KindFrom, Requests.RequestFrom, Requests.Draws, Used;
    if ms == [] {
      NoneUsed(seed);
    } else {
      var n := |ms| - 1;
      DrawnCounted(w, seed, ms[..n]);
      var s := C.Drawn(w, seed, n);
      UsedByOne(ms, w, s);
      LoadMix.AfterAdd(Requests.Draws(Requests.KindFrom(w, s)), Used(ms[..n]), seed);
    }
  }

  lemma NoneUsed(seed: Lcg.uint64)
    ensures Used([]) == 0 && Lcg.After(0, seed) == seed
  {
  }

  lemma UsedByOne(ms: seq<Message>, w: LoadMix.Scenario, s: Lcg.uint64)
    requires ms != [] && ms[|ms| - 1] == Requests.RequestFrom(w, s)
    ensures Used(ms) == Requests.Draws(Requests.KindFrom(w, s)) + Used(ms[..|ms| - 1])
  {
    hide Requests.KindFrom, Requests.TextFrom;
  }
}
