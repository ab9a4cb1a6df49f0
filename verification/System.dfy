/** The whole load test: any number of clients, each on its own connection to one server, with
    every TCP direction a queue of bytes.  load_generator/src/main.cpp starts the clients and
    sets the stop flag; the server shares its order counter among all sessions. */
module System {
  import opened Protocol
  import opened Frames
  import opened Sequences
  import opened Router
  import Lcg
  import LoadMix
  import C = ClientMachine
  import S = SessionMachine

  /** One connection: both ends, and the bytes on their way up (to the server) and down. */
  datatype Conn = Conn(client: C.State, session: S.State, up: seq<byte>, down: seq<byte>)

  /** One handler call: on which connection, for what request, in which environment. */
  datatype Call = Call(conn: nat, request: Message, env: Env)

  datatype State = State(
    conns: seq<Conn>,
    stop: bool,
    successes: nat,
    errors: nat,
    samples: seq<int>,
    inFlight: int,
    orders: nat,
    calls: seq<Call>)

  /** Client(i, e, us): client i takes step e; us is the latency if it stores a sample.
      Serve(i, e): session i takes step e.  Timeout: the timer sets the stop flag. */
  datatype Event =
    | Client(i: nat, e: C.Event, us: int)
    | Serve(i: nat, se: S.Event)
    | Timeout

  /** What the load generator is started with. */
  datatype Load = Load(clients: nat, scenario: LoadMix.Scenario)

  /** The launch loop numbers the clients, and each seeds its generator from its number. */
  function Start(load: Load): State {
    var conns := seq(load.clients, i requires 0 <= i < load.clients =>
                       Conn(C.Start(load.scenario, Lcg.Seed(i)), S.Start(), [], []));
    State(conns, false, 0, 0, [], load.clients, 1, [])
  }

  // ---------------------------------------------------------------------------------------
  // One connection

  /** What the step may read from the network and from the shared state. */
  predicate ClientMay(c: Conn, stop: bool, e: C.Event) {
    && C.Enabled(c.client, e)
    && (e.Receive? ==> e.chunk <= c.down)
    && (e.Load? ==> e.stop == stop)
  }

  predicate SessionMay(c: Conn, orders: nat, e: S.Event) {
    && S.Enabled(c.session, e)
    && (e.Receive? ==> e.chunk <= c.up)
    && (e.Complete? ==> e.env.orders == orders)
  }

  function ClientStep(host: Host, c: Conn, stop: bool, e: C.Event): Conn
    requires ClientMay(c, stop, e)
  {
    var t := C.Step(host, c.client, e);
    match e
    case Transmit(n) =>
      c.(client := t, up := c.up + c.client.op.out[c.client.op.written..c.client.op.written + n])
    case Receive(chunk) => c.(client := t, down := c.down[|chunk|..])
    case _ => c.(client := t)
  }

  function SessionStep(cfg: S.Config, c: Conn, orders: nat, e: S.Event): Conn
    requires SessionMay(c, orders, e)
  {
    var t := S.Step(cfg, c.session, e);
    match e
    case Transmit(n) =>
      c.(session := t, down := c.down + c.session.op.out[c.session.op.written..c.session.op.written + n])
    case Receive(chunk) => c.(session := t, up := c.up[|chunk|..])
    case _ => c.(session := t)
  }

  // ---------------------------------------------------------------------------------------
  // All of them

  function Step(cfg: S.Config, s: State, e: Event): (t: State)
    ensures |t.conns| == |s.conns|
  {
    match e
    case Timeout => s.(stop := true)
    case Client(i, e, us) =>
      if i >= |s.conns| || !ClientMay(s.conns[i], s.stop, e) then s
      else
        var c := s.conns[i];
        var d := ClientStep(cfg.host, c, s.stop, e);
        s.(conns := s.conns[i := d],
           successes := s.successes + (if d.client.op.Pushing? then 1 else 0),
           samples := if e.Push? then s.samples + [us] else s.samples,
           errors := s.errors + (if d.client.op.Closing? then 1 else 0),
           inFlight := s.inFlight - (if d.client.op.Finished? then 1 else 0))
    case Serve(i, e) =>
      if i >= |s.conns| || !SessionMay(s.conns[i], s.orders, e) then s
      else
        var c := s.conns[i];
        var t := s.(conns := s.conns[i := SessionStep(cfg, c, s.orders, e)]);
        if e.Complete? && S.Dispatches(cfg, c.session) then
          t.(orders := S.OrdersAfter(cfg, c.session, e.env),
             calls := s.calls + [Call(i, S.DueRequest(cfg, c.session), e.env)])
        else t
  }

  function Run(cfg: S.Config, load: Load, events: seq<Event>): (s: State)
    ensures |s.conns| == load.clients
  {
    if events == [] then Start(load)
    else Step(cfg, Run(cfg, load, events[..|events| - 1]), events[|events| - 1])
  }

  // ---------------------------------------------------------------------------------------
  // What every step keeps on a connection

  ghost predicate ConnInv(cfg: S.Config, c: Conn) {
    && C.Inv(cfg.host, c.client) && S.Inv(cfg, c.session)
    && c.client.sent == c.session.taken + c.up
    && c.session.sent == c.client.taken + c.down
  }

  lemma ClientStepKeeps(cfg: S.Config, c: Conn, stop: bool, e: C.Event)
    requires ConnInv(cfg, c) && ClientMay(c, stop, e)
    ensures ConnInv(cfg, ClientStep(cfg.host, c, stop, e))
  {
    hide C.Inv, S.Inv, C.OnHeader;
    C.StepKeeps(cfg.host, c.client, e);
    if !e.Receive? && !e.Transmit? {
      C.OtherStepsMoveNothing(cfg.host, c.client, e);
    }
    match e {
      case Transmit(n) =>
        var piece := c.client.op.out[c.client.op.written..c.client.op.written + n];
        ConcatAssociative(c.session.taken, c.up, piece);
      case Receive(chunk) =>
        assert c.down == chunk + c.down[|chunk|..];
        ConcatAssociative(c.client.taken, chunk, c.down[|chunk|..]);
      case _ =>
    }
  }

  lemma SessionStepKeeps(cfg: S.Config, c: Conn, orders: nat, e: S.Event)
    requires ConnInv(cfg, c) && SessionMay(c, orders, e)
    ensures ConnInv(cfg, SessionStep(cfg, c, orders, e))
  {
    hide C.Inv, S.Inv, S.OnHeader, S.DispatchAndWrite;
    S.StepKeeps(cfg, c.session, e);
    if !e.Receive? && !e.Transmit? {
      S.OtherStepsMoveNothing(cfg, c.session, e);
    }
    match e {
      case Transmit(n) =>
        var piece := c.session.op.out[c.session.op.written..c.session.op.written + n];
        ConcatAssociative(c.client.taken, c.down, piece);
      case Receive(chunk) =>
        assert c.up == chunk + c.up[|chunk|..];
        ConcatAssociative(c.session.taken, chunk, c.up[|chunk|..]);
      case _ =>
    }
  }

  // ---------------------------------------------------------------------------------------
  // What every step keeps of the whole

  function Sum(conns: seq<Conn>, f: Conn -> int): int {
    if conns == [] then 0 else Sum(conns[..|conns| - 1], f) + f(conns[|conns| - 1])
  }

  lemma {:induction false} SumUpdate(conns: seq<Conn>, f: Conn -> int, i: nat, c: Conn)
    requires i < |conns|
    ensures Sum(conns[i := c], f) == Sum(conns, f) - f(conns[i]) + f(c)
  {
    var n := |conns| - 1;
    if i < n {
      SumUpdate(conns[..n], f, i, c);
      assert conns[i := c][..n] == conns[..n][i := c];
    } else {
      assert conns[i := c][..n] == conns[..n];
    }
  }

  lemma {:induction false} SumOfEqual(conns: seq<Conn>, f: Conn -> int, v: int)
    requires forall c <- conns :: f(c) == v
    ensures Sum(conns, f) == v * |conns|
  {
    if conns != [] {
      SumOfEqual(conns[..|conns| - 1], f, v);
    }
  }

  lemma {:induction false} SumsAddUp(conns: seq<Conn>, f: Conn -> int, g: Conn -> int, h: Conn -> int, k: Conn -> int)
    requires forall c <- conns :: f(c) == g(c) + h(c) + k(c)
    ensures Sum(conns, f) == Sum(conns, g) + Sum(conns, h) + Sum(conns, k)
  {
    if conns != [] {
      SumsAddUp(conns[..|conns| - 1], f, g, h, k);
    }
  }

  function Requests(c: Conn): int {
    |c.client.requests|
  }

  function Responses(c: Conn): int {
    |c.client.responses|
  }

  function Samples(c: Conn): int {
    c.client.samples
  }

  function Errors(c: Conn): int {
    c.client.errors
  }

  function SendErrors(c: Conn): int {
    c.client.sendErrors
  }

  function Awaiting(c: Conn): int {
    if C.Outstanding(c.client) then 1 else 0
  }

  function Recording(c: Conn): int {
    if c.client.op.Pushing? then 1 else 0
  }

  function Unfinished(c: Conn): int {
    if c.client.op.Finished? then 0 else 1
  }

  function Nothing(c: Conn): int {
    0
  }

  /** The shared counters are the sums of what the clients did. */
  ghost predicate Tallies(s: State) {
    && s.successes == Sum(s.conns, Responses)
    && s.errors == Sum(s.conns, Errors)
    && |s.samples| == Sum(s.conns, Samples)
    && s.inFlight == Sum(s.conns, Unfinished)
  }

  /** The handler calls on connection i, in order. */
  function RequestsOf(calls: seq<Call>, i: nat): seq<Message> {
    if calls == [] then []
    else
      var last := calls[|calls| - 1];
      RequestsOf(calls[..|calls| - 1], i) + if last.conn == i then [last.request] else []
  }

  function EnvsOf(calls: seq<Call>, i: nat): seq<Env> {
    if calls == [] then []
    else
      var last := calls[|calls| - 1];
      EnvsOf(calls[..|calls| - 1], i) + if last.conn == i then [last.env] else []
  }

  /** The order counter left by the calls, each of which found what the one before it left. */
  ghost predicate Chained(table: Table, calls: seq<Call>, orders: nat) {
    if calls == [] then orders == 1
    else
      var last := calls[|calls| - 1];
      && Chained(table, calls[..|calls| - 1], last.env.orders)
      && orders == Dispatch(table, last.env, last.request).orders
  }

  /** Each session's history is its part of the calls. */
  ghost predicate Logged(conns: seq<Conn>, calls: seq<Call>) {
    forall i :: 0 <= i < |conns| ==>
      conns[i].session.requests == RequestsOf(calls, i) && conns[i].session.envs == EnvsOf(calls, i)
  }

  ghost predicate AllConns(cfg: S.Config, conns: seq<Conn>) {
    forall c <- conns :: ConnInv(cfg, c)
  }

  ghost predicate Inv(cfg: S.Config, s: State) {
    && AllConns(cfg, s.conns)
    && Tallies(s)
    && Chained(cfg.table, s.calls, s.orders)
    && Logged(s.conns, s.calls)
  }

  lemma StartHolds(cfg: S.Config, load: Load)
    ensures Inv(cfg, Start(load))
  {
    hide C.Inv, S.Inv;
    S.StartHolds(cfg);
    var conns := Start(load).conns;
    forall c <- conns ensures ConnInv(cfg, c) {
      C.StartHolds(cfg.host, c.client.scenario, c.client.seed);
    }
    SumOfEqual(conns, Responses, 0);
    SumOfEqual(conns, Errors, 0);
    SumOfEqual(conns, Samples, 0);
    SumOfEqual(conns, Unfinished, 1);
  }

  /** How one client step changes what the tallies count. */
  lemma ClientStepCounts(host: Host, c: Conn, stop: bool, e: C.Event)
    requires ClientMay(c, stop, e)
    ensures var d := ClientStep(host, c, stop, e);
            && Responses(d) == Responses(c) + (if d.client.op.Pushing? then 1 else 0)
            && Errors(d) == Errors(c) + (if d.client.op.Closing? then 1 else 0)
            && Samples(d) == Samples(c) + (if e.Push? then 1 else 0)
            && Unfinished(d) == Unfinished(c) - (if d.client.op.Finished? then 1 else 0)
            && d.session == c.session
  {
    hide HeaderOf, Serialize;
  }

  lemma ClientKeeps(cfg: S.Config, s: State, i: nat, e: C.Event, us: int)
    requires Inv(cfg, s) && i < |s.conns| && ClientMay(s.conns[i], s.stop, e)
    ensures Inv(cfg, Step(cfg, s, Client(i, e, us)))
  {
    hide ConnInv, ClientMay, ClientStep, Chained, Logged;
    var c := s.conns[i];
    var d := ClientStep(cfg.host, c, s.stop, e);
    assert ConnInv(cfg, c);
    ClientStepKeeps(cfg, c, s.stop, e);
    ClientStepCounts(cfg.host, c, s.stop, e);
    SameLogged(s.conns, s.calls, i, d);
    SumUpdate(s.conns, Responses, i, d);
    SumUpdate(s.conns, Errors, i, d);
    SumUpdate(s.conns, Samples, i, d);
    SumUpdate(s.conns, Unfinished, i, d);
  }

  lemma SessionStepRequests(cfg: S.Config, c: Conn, orders: nat, e: S.Event)
    requires SessionMay(c, orders, e)
    ensures var d := SessionStep(cfg, c, orders, e);
            && d.client == c.client
            && (if e.Complete? && S.Dispatches(cfg, c.session)
                then d.session.requests == c.session.requests + [S.DueRequest(cfg, c.session)]
                     && d.session.envs == c.session.envs + [e.env]
                else d.session.requests == c.session.requests && d.session.envs == c.session.envs)
  {
    hide HeaderOf, Serialize, Dispatch;
  }

  lemma ServeTallies(s: State, i: nat, d: Conn)
    requires Tallies(s) && i < |s.conns| && d.client == s.conns[i].client
    ensures Tallies(s.(conns := s.conns[i := d]))
  {
    SumUpdate(s.conns, Responses, i, d);
    SumUpdate(s.conns, Errors, i, d);
    SumUpdate(s.conns, Samples, i, d);
    SumUpdate(s.conns, Unfinished, i, d);
  }

  lemma CallLogged(conns: seq<Conn>, calls: seq<Call>, d: Conn, call: Call)
    requires Logged(conns, calls) && call.conn < |conns|
    requires d.session.requests == conns[call.conn].session.requests + [call.request]
    requires d.session.envs == conns[call.conn].session.envs + [call.env]
    ensures Logged(conns[call.conn := d], calls + [call])
  {
    assert (calls + [call])[..|calls|] == calls;
  }

  /** What a session's step changes of the whole. */
  lemma ServeChanges(cfg: S.Config, s: State, i: nat, e: S.Event)
    requires i < |s.conns| && SessionMay(s.conns[i], s.orders, e)
    ensures var c := s.conns[i];
            var t := Step(cfg, s, Serve(i, e));
            && t == s.(conns := s.conns[i := SessionStep(cfg, c, s.orders, e)], orders := t.orders, calls := t.calls)
            && if e.Complete? && S.Dispatches(cfg, c.session) then
                 && t.orders == Dispatch(cfg.table, e.env, S.DueRequest(cfg, c.session)).orders
                 && t.calls == s.calls + [Call(i, S.DueRequest(cfg, c.session), e.env)]
               else t.orders == s.orders && t.calls == s.calls
  {
    hide SessionStep, SessionMay, S.Dispatches, S.DueRequest, Dispatch;
  }

  lemma ServeKeeps(cfg: S.Config, s: State, i: nat, e: S.Event)
    requires Inv(cfg, s) && i < |s.conns| && SessionMay(s.conns[i], s.orders, e)
    ensures Inv(cfg, Step(cfg, s, Serve(i, e)))
  {
    var c := s.conns[i];
    assert ConnInv(cfg, c);
    assert e.Complete? ==> e.env.orders == s.orders;
    ServeChanges(cfg, s, i, e);
    hide Step, S.Inv, C.Inv, S.OrdersAfter;
    hide ConnInv, SessionStep, SessionMay, S.Dispatches, S.DueRequest, Dispatch, Logged, Tallies, Chained, AllConns;
    var d := SessionStep(cfg, c, s.orders, e);
    SessionStepKeeps(cfg, c, s.orders, e);
    AllConnsUpdate(cfg, s.conns, i, d);
    SessionStepRequests(cfg, c, s.orders, e);
    ServeTallies(s, i, d);
    var t := Step(cfg, s, Serve(i, e));
    TalliesReadCounters(s.(conns := t.conns), t);
    if e.Complete? && S.Dispatches(cfg, c.session) {
      CallLogged(s.conns, s.calls, d, Call(i, S.DueRequest(cfg, c.session), e.env));
      ChainedCall(cfg.table, s.calls, s.orders, Call(i, S.DueRequest(cfg, c.session), e.env));
    } else {
      SameLogged(s.conns, s.calls, i, d);
    }
  }

  lemma AllConnsUpdate(cfg: S.Config, conns: seq<Conn>, i: nat, d: Conn)
    requires AllConns(cfg, conns) && i < |conns| && ConnInv(cfg, d)
    ensures AllConns(cfg, conns[i := d])
  {
    hide ConnInv;
  }

  lemma ChainedCall(table: Table, calls: seq<Call>, orders: nat, call: Call)
    requires Chained(table, calls, orders) && call.env.orders == orders
    ensures Chained(table, calls + [call], Dispatch(table, call.env, call.request).orders)
  {
    hide Dispatch;
    assert (calls + [call])[..|calls|] == calls;
  }

  lemma TalliesReadCounters(s: State, t: State)
    requires Tallies(s) && t == s.(orders := t.orders, calls := t.calls)
    ensures Tallies(t)
  {
  }

  lemma SameLogged(conns: seq<Conn>, calls: seq<Call>, i: nat, d: Conn)
    requires Logged(conns, calls) && i < |conns|
    requires d.session.requests == conns[i].session.requests && d.session.envs == conns[i].session.envs
    ensures Logged(conns[i := d], calls)
  {
  }

  lemma StepKeeps(cfg: S.Config, s: State, e: Event)
    requires Inv(cfg, s)
    ensures Inv(cfg, Step(cfg, s, e))
  {
    hide ConnInv, ClientStep, SessionStep, ClientMay, SessionMay;
    match e
    case Timeout =>
    case Client(i, ce, us) =>
      if i < |s.conns| && ClientMay(s.conns[i], s.stop, ce) {
        ClientKeeps(cfg, s, i, ce, us);
      }
    case Serve(i, se) =>
      if i < |s.conns| && SessionMay(s.conns[i], s.orders, se) {
        ServeKeeps(cfg, s, i, se);
      }
  }

  lemma {:induction false} RunKeeps(cfg: S.Config, load: Load, events: seq<Event>)
    ensures Inv(cfg, Run(cfg, load, events))
  {
    hide Inv;
    if events == [] {
      StartHolds(cfg, load);
    } else {
      RunKeeps(cfg, load, events[..|events| - 1]);
      StepKeeps(cfg, Run(cfg, load, events[..|events| - 1]), events[|events| - 1]);
    }
  }

  /** Every client keeps the scenario and the seed it was started with. */
  ghost predicate Seeded(load: Load, conns: seq<Conn>) {
    forall i :: 0 <= i < |conns| ==>
      conns[i].client.scenario == load.scenario && conns[i].client.seed == Lcg.Seed(i)
  }

  lemma {:induction false} SeedsKept(cfg: S.Config, load: Load, events: seq<Event>)
    ensures Seeded(load, Run(cfg, load, events).conns)
  {
    hide Step;
    if events != [] {
      SeedsKept(cfg, load, events[..|events| - 1]);
      StepKeepsSeeds(cfg, load, Run(cfg, load, events[..|events| - 1]), events[|events| - 1]);
    }
  }

  lemma StepKeepsSeeds(cfg: S.Config, load: Load, s: State, e: Event)
    requires Seeded(load, s.conns)
    ensures Seeded(load, Step(cfg, s, e).conns)
  {
    hide S.Step, C.Step, S.Dispatches, S.OrdersAfter, S.DueRequest;
    if e.Client? && e.i < |s.conns| {
      C.KeepsSeed(cfg.host, s.conns[e.i].client, e.e);
    }
  }
}
