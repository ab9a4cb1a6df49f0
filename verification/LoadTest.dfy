/** The load generator against the shipped services: the composed system with the concrete
    handler table and the requests its clients really make. */
module LoadTest {
  import opened Protocol
  import opened Frames
  import opened Router
  import opened System
  import opened EndToEnd
  import opened JsonText
  import opened Documents
  import opened LoadMix
  import opened Requests
  import opened Scanning
  import opened Services
  import C = ClientMachine
  import S = SessionMachine
  import Decimal
  import Lcg
  import Positions
  import PriceHistory
  import Sql
  import Trade

  function Shipped(host: Host, market: Market): S.Config {
    S.Config(host, ServiceTable(market))
  }

  lemma RequestsAreSmall(cfg: S.Config, c: Conn)
    requires ConnInv(cfg, c)
    ensures forall m <- c.client.requests :: |m.payload| <= 100
  {
    hide Parse, HeaderOf, SerializeAll, S.Replies, RequestFrom, C.Drawn;
    var client := c.client;
    forall k | 0 <= k < |client.requests| ensures |client.requests[k].payload| <= 100 {
      RequestIsSendable(client.scenario, C.Drawn(client.scenario, client.seed, k));
    }
  }

  /** The shipped services give the load generator's clients replies that never overflow the
      length field and that the clients can read. */
  lemma RepliesFit(host: Host, market: Market, c: Conn)
    requires Tidy(market) && ConnInv(Shipped(host, market), c)
    ensures AllCanonical(RepliesOf(Shipped(host, market), c)) && Deliverable(RepliesOf(Shipped(host, market), c))
  {
    hide ConnInv, Tidy, Dispatch, Canonical, ServiceTable;
    var cfg := Shipped(host, market);
    RequestsMatch(cfg, c);
    EnvsPerRequest(cfg, c);
    RequestsAreSmall(cfg, c);
    var replies := RepliesOf(cfg, c);
    forall k | 0 <= k < |replies| ensures Canonical(replies[k]) && |replies[k].payload| <= MAX_PAYLOAD_SIZE {
      var request, env := c.session.requests[k], c.session.envs[k];
      assert request in c.session.requests && request == c.client.requests[k] && request in c.client.requests;
      if SQL_QUERY <= request.header.messageType <= PING {
        Served(market, env, request);
      } else {
        Unserved(market, env, request);
      }
    }
  }

  /** Every response a client completes is the answer to the request it belongs to, with no
      condition on the replies. */
  lemma ResponsesAnswerRequests(host: Host, market: Market, load: Load, events: seq<Event>, i: nat, k: nat)
    requires Tidy(market) && i < load.clients
    requires k < |Run(Shipped(host, market), load, events).conns[i].client.responses|
    ensures var c := Run(Shipped(host, market), load, events).conns[i];
            && k < |c.client.requests| && k < |c.session.envs|
            && c.client.responses[k] == Dispatch(ServiceTable(market), c.session.envs[k], c.client.requests[k]).response
  {
    hide Run, Tidy, ConnInv, Tallies, Chained, Logged, Dispatch, ServiceTable, AllCanonical;
    var cfg := Shipped(host, market);
    RunKeeps(cfg, load, events);
    var c := Run(cfg, load, events).conns[i];
    assert ConnInv(cfg, c);
    RequestsMatch(cfg, c);
    EnvsPerRequest(cfg, c);
    RepliesFit(host, market, c);
    KthResponseAnswersKthRequest(cfg, load, events, i, k);
  }

  lemma EnvsPerRequest(cfg: S.Config, c: Conn)
    requires ConnInv(cfg, c)
    ensures |c.session.envs| == |c.session.requests|
  {
    hide Parse, HeaderOf, SerializeAll, S.Replies;
  }

  /** A load-generator client on an unbroken connection is never stuck. */
  lemma LoadNeverStuck(host: Host, market: Market, load: Load, events: seq<Event>, i: nat)
    requires Tidy(market) && i < load.clients
    requires var c := Run(Shipped(host, market), load, events).conns[i];
             !c.session.closed && !c.client.op.Finished?
    ensures var s := Run(Shipped(host, market), load, events); CanAdvance(s.conns[i], s.stop, s.orders)
  {
    hide Run, Tidy, ConnInv, Tallies, Chained, Logged, CanAdvance, ServiceTable, AllCanonical, Deliverable;
    var cfg := Shipped(host, market);
    RunKeeps(cfg, load, events);
    var c := Run(cfg, load, events).conns[i];
    assert ConnInv(cfg, c);
    EnvsPerRequest(cfg, c);
    RepliesFit(host, market, c);
    NoDeadlock(cfg, load, events, i);
  }

  // ---------------------------------------------------------------------------------------
  // What a client learns

  /** The response to a request of the load generator says what was asked: the statement and
      three rows; the order with its number; the account, its three holdings in order and the
      cash; or the symbol with a candle per day, oldest first, each as the market has it. */
  ghost predicate SaysWhatWasAsked(
    w: Scenario, s: Lcg.uint64, quote: PriceHistory.Quote, number: Trade.Counter, text: string)
  {
    var symbol := Symbol(Lcg.After(2, s));
    match KindFrom(w, s)
    case SqlQuery =>
      && Sql.Unescape(FieldOf(text, "query"))
         == "SELECT symbol, " + "price FROM " + "quotes WHERE " + "symbol='" + symbol + "'"
      && CountAfter(text, KeyNeedle("symbol")) == 3 && Sql.ShowsRows(text)
    case GetPosition => FieldOf(text, "account") == "ACC-001" && Positions.ShowsHoldings(text)
    case GetPriceHistory => FieldOf(text, "symbol") == symbol && ShowsDays(symbol, Days(Lcg.After(3, s)), quote, text)
    case _ =>
      && Trade.ShowsNumber(FieldOf(text, "order_id"), number)
      && FieldOf(text, "symbol") == symbol
      && FieldOf(text, "side") == (if KindFrom(w, s) == BuyOrder then "BUY" else "SELL")
      && FieldOf(text, "account") == "ACC-001"
      && FieldOf(text, "qty") == Decimal.Print(Quantity(Lcg.After(3, s)))
      && FieldOf(text, "price") == PriceText(Cents(Lcg.After(4, s)))
      && FieldOf(text, "status") == "FILLED"
  }

  /** One date and one entry per day, from the oldest to today; the dialog shows the first five. */
  ghost predicate ShowsDays(symbol: string, days: nat, quote: PriceHistory.Quote, text: string) {
    var es, shown := EntriesIn(text, "date"), PriceHistory.Shown(text);
    && CountAfter(text, KeyNeedle("date")) == |es| == days && |shown| == 5 <= days
    && (forall k :: 0 <= k < days ==> PriceHistory.CandleIn(es[k]) == quote(symbol, days - 1 - k))
    && (forall k :: 0 <= k < 5 ==> shown[k] == quote(symbol, days - 1 - k))
  }

  lemma RequestAnswered(market: Market, env: Env, w: Scenario, s: Lcg.uint64)
    requires Tidy(market)
    ensures var m := RequestFrom(w, s);
            var response := Dispatch(ServiceTable(market), env, m).response;
            && response.header.messageType == m.header.messageType + 0x8000
            && SaysWhatWasAsked(w, s, market(env.now), OrderNumber(env), Text(response.payload))
  {
    hide Dispatch, ServiceTable, TextFrom, Tidy, SaysWhatWasAsked, Answer, KindFrom;
    var m, text := RequestFrom(w, s), TextFrom(w, s);
    RequestIsSendable(w, s);
    Served(market, env, m);
    AnswerSays(market, env, w, s);
  }

  lemma AnswerSays(market: Market, env: Env, w: Scenario, s: Lcg.uint64)
    requires Tidy(market)
    ensures SaysWhatWasAsked(w, s, market(env.now), OrderNumber(env),
                             Answer(market, Code(KindFrom(w, s)), env, TextFrom(w, s)))
  {
    hide Lcg.After, Selected, Decimal.Print, PriceText, Symbol, StringOf, FieldOf, CountAfter, ShortCandle;
    hide PriceHistory.CleanCandle, Sql.Unescape, TextFrom, Sql.Result, Trade.Ack, Trade.OrderIn, Positions.Holdings;
    hide PriceHistory.History, PriceHistory.IntOf, PriceHistory.Shown, EntriesIn;
    hide Positions.ShowsHoldings, PriceHistory.CandleIn, Trade.ShowsNumber, Sql.ShowsRows;
    var text := TextFrom(w, s);
    RequestUnderstood(w, s);
    match KindFrom(w, s)
    case SqlQuery => StatementAnswered(text, Symbol(Lcg.After(2, s)));
    case GetPosition =>
      Positions.AccountReadsBack(text);
      Positions.ShowsPositions(text);
      assert ACCOUNT[0] == 'A';
    case GetPriceHistory =>
      PriceHistory.CountsDays(text, market(env.now));
      PriceHistory.SymbolReadsBack(text, market(env.now));
      PriceHistory.OldestFirst(text, market(env.now));
      PriceHistory.ShowsFirstFive(text, market(env.now));
    case BuyOrder =>
      SidesAreQuoteFree();
      Trade.AckReadsBack(OrderNumber(env), text, "BUY");
    case SellOrder =>
      SidesAreQuoteFree();
      Trade.AckReadsBack(OrderNumber(env), text, "SELL");
  }

  lemma SidesAreQuoteFree()
    ensures QuoteFree("BUY") && QuoteFree("SELL")
  {
  }

  lemma StatementAnswered(request: string, symbol: string)
    requires Unescaped(request) == Statement(symbol)
    ensures CountAfter(Sql.Result(request), KeyNeedle("symbol")) == 3 && Sql.ShowsRows(Sql.Result(request))
  {
    assert Statement(symbol)[0] == 'S';
    hide StringOf, FieldOf, CountAfter, Statement, Sql.Result, Sql.ShowsRows;
    Sql.ResultReadsBack(request);
    Sql.RowsReadBack(request);
    assert Sql.Unescape("") == "";
  }

  /** End to end: over every run of the load test, the k-th request of client i is the one its
      generator determines, and its k-th response says what was asked, whatever the other
      clients do and however the bytes are split. */
  lemma LoadResponseSays(host: Host, market: Market, load: Load, events: seq<Event>, i: nat, k: nat)
    requires Tidy(market) && i < load.clients
    requires k < |Run(Shipped(host, market), load, events).conns[i].client.responses|
    ensures var c := Run(Shipped(host, market), load, events).conns[i];
            var s := C.Drawn(load.scenario, Lcg.Seed(i), k);
            && k < |c.client.requests| && k < |c.session.envs|
            && c.client.requests[k] == RequestFrom(load.scenario, s)
            && c.client.responses[k].header.messageType == c.client.requests[k].header.messageType + 0x8000
            && SaysWhatWasAsked(load.scenario, s, market(c.session.envs[k].now), OrderNumber(c.session.envs[k]),
                                Text(c.client.responses[k].payload))
  {
    hide *;
    ResponsesAnswerRequests(host, market, load, events, i, k);
    RequestsFollowGenerator(Shipped(host, market), load, events, i);
    var c := Run(Shipped(host, market), load, events).conns[i];
    RequestAnswered(market, c.session.envs[k], load.scenario, C.Drawn(load.scenario, Lcg.Seed(i), k));
  }

  // ---------------------------------------------------------------------------------------
  // Order numbers over a run

  /** The numbers given to orders, in the order of the calls, over all connections. */
  function Issued(calls: seq<Call>): (ids: seq<Trade.Counter>)
    ensures |ids| <= |calls|
  {
    if calls == [] then []
    else
      var last := calls[|calls| - 1];
      Issued(calls[..|calls| - 1]) + if IsOrder(last.request.header.messageType) then [OrderNumber(last.env)] else []
  }

  lemma DispatchCounts(market: Market, env: Env, request: Message)
    ensures Dispatch(ServiceTable(market), env, request).orders
         == if IsOrder(request.header.messageType) then (env.orders + 1) % Trade.COUNTER_RANGE else env.orders
  {
    hide Answer;
  }

  lemma CountOn(n: nat)
    ensures (n % 0x1_0000_0000_0000_0000 + 1) % 0x1_0000_0000_0000_0000 == (n + 1) % 0x1_0000_0000_0000_0000
    ensures n % 0x1_0000_0000_0000_0000 % 0x1_0000_0000_0000_0000 == n % 0x1_0000_0000_0000_0000
  {
  }

  lemma {:induction false} ChainedNumbers(market: Market, calls: seq<Call>, orders: nat)
    requires Chained(ServiceTable(market), calls, orders)
    ensures var ids := Issued(calls);
            && orders == (1 + |ids|) % 0x1_0000_0000_0000_0000
            && forall j :: 0 <= j < |ids| ==> ids[j] == (1 + j) % 0x1_0000_0000_0000_0000
  {
    hide Dispatch, ServiceTable;
    if calls != [] {
      var last := calls[|calls| - 1];
      ChainedNumbers(market, calls[..|calls| - 1], last.env.orders);
      DispatchCounts(market, last.env, last.request);
      CountOn(1 + |Issued(calls[..|calls| - 1])|);
    }
  }

  /** Over any run, on any number of connections, orders are numbered 1, 2, 3 and so on in the
      order they are served, modulo 2^64; within the counter's 64 bits no two get the same. */
  lemma OrdersNumbered(host: Host, market: Market, load: Load, events: seq<Event>)
    ensures var ids := Issued(Run(Shipped(host, market), load, events).calls);
            && (forall j :: 0 <= j < |ids| ==> ids[j] == (j + 1) % 0x1_0000_0000_0000_0000)
            && (forall j, k :: 0 <= j < k < |ids| && k < 0x1_0000_0000_0000_0000 ==> ids[j] != ids[k])
  {
    hide Run, Issued, AllConns, Tallies, Logged, Chained, ServiceTable;
    var cfg := Shipped(host, market);
    RunKeeps(cfg, load, events);
    var s := Run(cfg, load, events);
    ChainedNumbers(market, s.calls, s.orders);
  }

  lemma {:induction false} ChainedPrefix(market: Market, calls: seq<Call>, orders: nat, p: nat)
    requires Chained(ServiceTable(market), calls, orders) && p < |calls|
    ensures Chained(ServiceTable(market), calls[..p], calls[p].env.orders)
  {
    hide Dispatch, ServiceTable;
    var n := |calls| - 1;
    if p < n {
      ChainedPrefix(market, calls[..n], calls[n].env.orders, p);
      assert calls[..n][..p] == calls[..p];
    }
  }

  /** An order is issued one number more than those before it. */
  lemma {:induction false} IssuedGrows(calls: seq<Call>, p: nat)
    requires p < |calls| && IsOrder(calls[p].request.header.messageType)
    ensures |Issued(calls[..p])| < |Issued(calls)|
  {
    var n := |calls| - 1;
    if p < n {
      IssuedGrows(calls[..n], p);
      assert calls[..n][..p] == calls[..p];
    }
  }

  lemma {:induction false} AsManyEnvs(calls: seq<Call>, i: nat)
    ensures |RequestsOf(calls, i)| == |EnvsOf(calls, i)|
  {
    if calls != [] {
      AsManyEnvs(calls[..|calls| - 1], i);
    }
  }

  /** Where the k-th call of connection i stands among all calls. */
  lemma {:induction false} CallFound(calls: seq<Call>, i: nat, k: nat) returns (p: nat)
    requires k < |EnvsOf(calls, i)|
    ensures p < |calls| && calls[p].conn == i && |EnvsOf(calls[..p], i)| == k
    ensures k < |RequestsOf(calls, i)| && calls[p].request == RequestsOf(calls, i)[k]
    ensures calls[p].env == EnvsOf(calls, i)[k]
  {
    var n := |calls| - 1;
    AsManyEnvs(calls, i);
    AsManyEnvs(calls[..n], i);
    if k < |EnvsOf(calls[..n], i)| {
      p := CallFound(calls[..n], i, k);
      assert calls[..n][..p] == calls[..p];
    } else {
      p := n;
    }
  }

  predicate IsOrderResponse(response: Message) {
    response.header.messageType == BUY_ORDER + 0x8000 || response.header.messageType == SELL_ORDER + 0x8000
  }

  /** The id in the k-th response of client i, an order's: its number counts the orders among
      the calls of all connections up to its own. */
  lemma OrderIdTold(host: Host, market: Market, load: Load, events: seq<Event>, i: nat, k: nat) returns (p: nat)
    requires Tidy(market) && i < load.clients
    requires var c := Run(Shipped(host, market), load, events).conns[i];
             k < |c.client.responses| && IsOrderResponse(c.client.responses[k])
    ensures var s := Run(Shipped(host, market), load, events);
            && p < |s.calls| && s.calls[p].conn == i && |EnvsOf(s.calls[..p], i)| == k
            && IsOrder(s.calls[p].request.header.messageType)
            && Trade.ShowsNumber(FieldOf(Text(s.conns[i].client.responses[k].payload), "order_id"),
                                 (1 + |Issued(s.calls[..p])|) % 0x1_0000_0000_0000_0000)
  {
    hide *;
    var cfg := Shipped(host, market);
    LoadResponseSays(host, market, load, events, i, k);
    RunKeeps(cfg, load, events);
    var s := Run(cfg, load, events);
    var c := s.conns[i];
    CallIsRequest(cfg, s, i, k);
    p := CallFound(s.calls, i, k);
    NumberAt(host, market, s, p);
    OrderSays(load.scenario, C.Drawn(load.scenario, Lcg.Seed(i), k), market(c.session.envs[k].now),
              OrderNumber(c.session.envs[k]), c.client.requests[k], c.client.responses[k]);
  }

  lemma CallIsRequest(cfg: S.Config, s: State, i: nat, k: nat)
    requires Inv(cfg, s) && i < |s.conns| && k < |s.conns[i].session.envs|
    ensures var c := s.conns[i];
            && c.session.envs == EnvsOf(s.calls, i) && c.session.requests == RequestsOf(s.calls, i)
            && k < |c.session.requests| && k < |c.client.requests| && c.session.requests[k] == c.client.requests[k]
  {
    hide ConnInv, Tallies, Chained, EnvsOf, RequestsOf, Deliverable;
    var c := s.conns[i];
    assert c in s.conns;
    RequestsMatch(cfg, c);
    EnvsPerRequest(cfg, c);
  }

  lemma NumberAt(host: Host, market: Market, s: State, p: nat)
    requires Inv(Shipped(host, market), s) && p < |s.calls|
    ensures OrderNumber(s.calls[p].env) == (1 + |Issued(s.calls[..p])|) % 0x1_0000_0000_0000_0000
  {
    hide AllConns, Tallies, Logged, Chained, Issued, ServiceTable;
    ChainedPrefix(market, s.calls, s.orders, p);
    ChainedNumbers(market, s.calls[..p], s.calls[p].env.orders);
    CountOn(1 + |Issued(s.calls[..p])|);
  }

  lemma OrderSays(
    w: Scenario, s: Lcg.uint64, quote: PriceHistory.Quote, number: Trade.Counter, request: Message, response: Message)
    requires request == RequestFrom(w, s) && response.header.messageType == request.header.messageType + 0x8000
    requires SaysWhatWasAsked(w, s, quote, number, Text(response.payload)) && IsOrderResponse(response)
    ensures IsOrder(request.header.messageType)
    ensures Trade.ShowsNumber(FieldOf(Text(response.payload), "order_id"), number)
  {
    hide FieldOf, Text, TextFrom, KindFrom, Decimal.Print, CountAfter, Trade.ShowsNumber;
    hide Positions.ShowsHoldings, ShowsDays, Sql.ShowsRows;
  }

  /** No order id is told twice: over any run with no more orders than the counter has values,
      two different order responses, of one client or of two, carry different ids. */
  lemma OrderIdsToldDiffer(
    host: Host, market: Market, load: Load, events: seq<Event>, i: nat, k: nat, j: nat, l: nat)
    requires Tidy(market) && i < load.clients && j < load.clients && (i != j || k != l)
    requires var s := Run(Shipped(host, market), load, events);
             var a, b := s.conns[i].client.responses, s.conns[j].client.responses;
             && k < |a| && IsOrderResponse(a[k]) && l < |b| && IsOrderResponse(b[l])
             && |Issued(s.calls)| <= 0x1_0000_0000_0000_0000
    ensures var s := Run(Shipped(host, market), load, events);
            var a, b := s.conns[i].client.responses, s.conns[j].client.responses;
            FieldOf(Text(a[k].payload), "order_id") != FieldOf(Text(b[l].payload), "order_id")
  {
    hide Run, Issued, EnvsOf, Text, FieldOf, Trade.ShowsNumber, Shipped, Tidy, IsOrderResponse;
    var calls := Run(Shipped(host, market), load, events).calls;
    var p := OrderIdTold(host, market, load, events, i, k);
    var q := OrderIdTold(host, market, load, events, j, l);
    assert p != q;
    CountsDiffer(calls, p, q);
    OneNumber();
  }

  /** A text shows at most one number. */
  lemma OneNumber()
    ensures forall text, m, n :: Trade.ShowsNumber(text, m) && Trade.ShowsNumber(text, n) ==> m == n
  {
  }

  lemma CountsDiffer(calls: seq<Call>, p: nat, q: nat)
    requires p < |calls| && q < |calls| && p != q && |Issued(calls)| <= 0x1_0000_0000_0000_0000
    requires IsOrder(calls[p].request.header.messageType) && IsOrder(calls[q].request.header.messageType)
    ensures (1 + |Issued(calls[..p])|) % 0x1_0000_0000_0000_0000 != (1 + |Issued(calls[..q])|) % 0x1_0000_0000_0000_0000
  {
    hide Issued;
    IssuedGrows(calls, p);
    IssuedGrows(calls, q);
    if p < q {
      IssuedGrows(calls[..q], p);
      assert calls[..q][..p] == calls[..p];
    } else {
      IssuedGrows(calls[..p], q);
      assert calls[..p][..q] == calls[..q];
    }
  }
}
