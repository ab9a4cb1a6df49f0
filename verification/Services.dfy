/** server/src/main.cpp, register_services: the shipped handler table, and what the services'
    properties become on the wire and over whole runs. */
module Services {
  import opened Protocol
  import opened Router
  import opened JsonText
  import opened Documents
  import opened Sequences
  import opened Sizes
  import Frames
  import opened Positions
  import Decimal
  import PriceHistory
  import Sql
  import Trade

  /** What the price service's clock and random walk yield: the quotes as of a time. */
  type Market = nat -> PriceHistory.Quote

  const SQL_QUERY: uint16 := 1
  const BUY_ORDER: uint16 := 2
  const SELL_ORDER: uint16 := 3
  const GET_POSITION: uint16 := 4
  const GET_PRICE_HISTORY: uint16 := 5
  const PING: uint16 := 6

  // ---------------------------------------------------------------------------------------
  // The table

  function Pong(request: string): string {
    Trade.Default(request, "{\"seq\":0}")
  }

  function OrderNumber(env: Env): Trade.Counter {
    env.orders % Trade.COUNTER_RANGE
  }

  /** The text a service answers with. */
  function Answer(market: Market, kind: uint16, env: Env, request: string): string {
    if kind == SQL_QUERY then Sql.Result(request)
    else if kind == BUY_ORDER then Trade.Ack(OrderNumber(env), request, "BUY")
    else if kind == SELL_ORDER then Trade.Ack(OrderNumber(env), request, "SELL")
    else if kind == GET_POSITION then Holdings(request)
    else if kind == GET_PRICE_HISTORY then PriceHistory.History(request, market(env.now))
    else Pong(request)
  }

  predicate IsOrder(kind: uint16) {
    kind == BUY_ORDER || kind == SELL_ORDER
  }

  function Serve(market: Market, kind: uint16, env: Env, payload: seq<byte>): Handled {
    Handled(Reply(Octets(Answer(market, kind, env, Text(payload)))),
            if IsOrder(kind) then (env.orders + 1) % Trade.COUNTER_RANGE else env.orders)
  }

  function HandlerOf(market: Market, kind: uint16): Handler {
    (env: Env, payload: seq<byte>) => Serve(market, kind, env, payload)
  }

  function ServiceTable(market: Market): Table {
    map kind: uint16 | SQL_QUERY <= kind <= PING :: HandlerOf(market, kind)
  }

  /** register_services, on a new router. */
  method RegisterServices(router: ServiceRouter, market: Market)
    requires router.handlers == map[]
    modifies router
    ensures router.handlers == ServiceTable(market)
  {
    hide HandlerOf, ServiceTable;
    var ok := router.RegisterHandler(SQL_QUERY, HandlerOf(market, SQL_QUERY));
    ok := router.RegisterHandler(BUY_ORDER, HandlerOf(market, BUY_ORDER));
    ok := router.RegisterHandler(SELL_ORDER, HandlerOf(market, SELL_ORDER));
    ok := router.RegisterHandler(GET_POSITION, HandlerOf(market, GET_POSITION));
    ok := router.RegisterHandler(GET_PRICE_HISTORY, HandlerOf(market, GET_PRICE_HISTORY));
    ok := router.RegisterHandler(PING, HandlerOf(market, PING));
    assert ok;
    TableIs(market);
  }

  lemma TableIs(market: Market)
    ensures ServiceTable(market)
         == map[SQL_QUERY := HandlerOf(market, SQL_QUERY)][BUY_ORDER := HandlerOf(market, BUY_ORDER)]
            [SELL_ORDER := HandlerOf(market, SELL_ORDER)][GET_POSITION := HandlerOf(market, GET_POSITION)]
            [GET_PRICE_HISTORY := HandlerOf(market, GET_PRICE_HISTORY)][PING := HandlerOf(market, PING)]
  {
    hide HandlerOf;
  }

  // ---------------------------------------------------------------------------------------
  // How long the answers are

  predicate ShortCandle(c: PriceHistory.Candle) {
    && Short(c.date, 100) && Short(c.open, 100) && Short(c.high, 100) && Short(c.low, 100) && Short(c.close, 100)
    && Short(c.volume, 100)
  }

  /** Quotes the dialog can take apart, with fields of at most 100 chars. */
  ghost predicate Tidy(market: Market) {
    forall now, symbol, i :: PriceHistory.CleanCandle(market(now)(symbol, i)) && ShortCandle(market(now)(symbol, i))
  }

  /** No answer is longer than this, for a request of n chars. */
  function AnswerBound(n: nat): nat {
    24 * n + 1_000_000
  }

  lemma OrderIsShort(request: string, n: nat)
    requires Short(request, n)
    ensures var o := Trade.OrderIn(request);
            Short(o.symbol, n + 30) && Short(o.qty, n + 30) && Short(o.price, n + 30) && Short(o.account, n + 30)
  {
    assert Short("UNKNOWN", n + 30) && Short("N/A", n + 30) && Short("0", n + 30);
    hide Short, StringOf, NumberOf;
    StringOfShort(request, "symbol", n);
    NumberOfShort(request, "qty", n);
    NumberOfShort(request, "price", n);
    StringOfShort(request, "account", n);
    var o := Trade.OrderIn(request);
    Shorter(StringOf(request, "symbol"), n, n + 30);
    Shorter(NumberOf(request, "qty"), n + 1, n + 30);
    Shorter(NumberOf(request, "price"), n + 1, n + 30);
    Shorter(StringOf(request, "account"), n, n + 30);
  }

  lemma NumberIsShort(id: Trade.Counter, n: nat)
    ensures Short(Trade.OrderId(id), n + 30)
  {
    assert Short("ORD-", 4);
    assert Power(20) >= Trade.COUNTER_RANGE by {
      assert Power(5) == 100_000;
      PowerAdd(5, 5);
      PowerAdd(10, 10);
    }
    hide Short, Decimal.Print;
    DigitsAreShort(id, 20);
    ShortConcat("ORD-", 4, Decimal.Print(id), 20);
    Shorter(Trade.OrderId(id), 24, n + 30);
  }

  /** Two adjoining documents. */
  lemma AllSlim(a: seq<Item>, b: seq<Item>, n: nat)
    requires (forall item <- a :: Slim(item, n)) && forall item <- b :: Slim(item, n)
    ensures forall item <- a + b :: Slim(item, n)
  {
  }

  lemma AckKeys(n: nat)
    ensures Short("{", 3) && Short(",", 3) && Short("}", 3)
    ensures Short("order_id", 10) && Short("symbol", 10) && Short("side", 10) && Short("account", 10)
    ensures Short("qty", 10) && Short("price", 10) && Short("status", 10) && Short("FILLED", n + 30)
  {
  }

  lemma AckIsSlim(id: Trade.Counter, o: Trade.Order, side: string, n: nat)
    requires Short(o.symbol, n + 30) && Short(o.qty, n + 30) && Short(o.price, n + 30) && Short(o.account, n + 30)
    requires Short(side, n + 30)
    ensures var doc := Trade.AckDoc(id, o.symbol, side, o.account, o.qty, o.price);
            |doc| == 7 && forall item <- doc :: Slim(item, n + 30)
  {
    hide Short, Trade.OrderId;
    NumberIsShort(id, n);
    AckKeys(n);
  }

  lemma AckIsShort(id: Trade.Counter, request: string, side: string, n: nat)
    requires Short(request, n) && Short(side, n + 30)
    ensures Short(Trade.Ack(id, request, side), AnswerBound(n))
  {
    hide Short, Slim, Print, Trade.AckDoc, Trade.OrderIn;
    OrderIsShort(request, n);
    AckKeys(n);
    var o := Trade.OrderIn(request);
    var doc := Trade.AckDoc(id, o.symbol, side, o.account, o.qty, o.price);
    AckIsSlim(id, o, side, n);
    DocumentIsShort(doc, "}", n + 30, 3);
    Shorter(Print(doc, "}"), 7 * (n + 48) + 3, AnswerBound(n));
  }

  lemma {:induction false} EscapeIsShort(s: string, n: nat)
    requires Short(s, n)
    ensures Short(Sql.Escape(s), 2 * n)
  {
    if s != "" {
      assert s[0] in s && forall c <- s[1..] :: c in s;
      assert Short(Sql.EscapeChar(s[0]), 2);
      EscapeIsShort(s[1..], n - 1);
      ShortConcat(Sql.EscapeChar(s[0]), 2, Sql.Escape(s[1..]), 2 * (n - 1));
    }
  }

  lemma RowKeys(n: nat)
    ensures Short("symbol", 10) && Short("price", 10) && Short("volume", 10) && Short(",", 3)
    ensures Short("{", 3) && Short("},{", 3) && Short("}],", 3) && Short("}", 3)
  {
  }

  lemma RowIsSlim(lead: string, symbol: string, price: string, volume: string, n: nat)
    requires Short(lead, 3) && Short(symbol, n) && Short(price, n) && Short(volume, n)
    ensures forall item <- Sql.Row(lead, symbol, price, volume) :: Slim(item, n)
  {
    RowKeys(n);
    hide Short;
  }

  lemma RowTexts(n: nat)
    ensures Short("AAPL", n + 30) && Short("182.50", n + 30) && Short("52000000", n + 30)
    ensures Short("MSFT", n + 30) && Short("310.10", n + 30) && Short("28000000", n + 30)
    ensures Short("GOOGL", n + 30) && Short("140.75", n + 30) && Short("18000000", n + 30)
  {
  }

  lemma QueryKeys(n: nat)
    ensures Short("rows", 10) && Short("affected", 10) && Short("query", 10) && Short("error", 10)
    ensures Short("[", n + 30) && Short("0", n + 30) && Short("missing 'sql' field", n + 30)
  {
  }

  lemma ResultIsSlim(query: string, n: nat)
    requires Short(query, n + 30)
    ensures forall item <- Sql.ResultDoc(query) :: Slim(item, n + 30)
    ensures forall item <- Sql.ErrorDoc() :: Slim(item, n + 30)
  {
    hide Short;
    RowKeys(n);
    RowTexts(n);
    QueryKeys(n);
    RowIsSlim("{", "AAPL", "182.50", "52000000", n + 30);
    RowIsSlim("},{", "MSFT", "310.10", "28000000", n + 30);
    RowIsSlim("},{", "GOOGL", "140.75", "18000000", n + 30);
    var first, affected := Item("{", "rows", Bare("[")), Item("}],", "affected", Bare("0"));
    var last := Item(",", "query", Str(query));
    assert Slim(first, n + 30) && Slim(affected, n + 30) && Slim(last, n + 30);
    assert Slim(Item("{", "error", Str("missing 'sql' field")), n + 30);
    hide Slim, Sql.Row;
    var r1, r2 := Sql.Row("{", "AAPL", "182.50", "52000000"), Sql.Row("},{", "MSFT", "310.10", "28000000");
    var r3 := Sql.Row("},{", "GOOGL", "140.75", "18000000");
    AllSlim([first], r1, n + 30);
    AllSlim([first] + r1, r2, n + 30);
    AllSlim([first] + r1 + r2, r3, n + 30);
    AllSlim([first] + r1 + r2 + r3, [affected], n + 30);
    AllSlim([first] + r1 + r2 + r3 + [affected], [last], n + 30);
  }

  lemma ResultIsShort(request: string, n: nat)
    requires Short(request, n)
    ensures Short(Sql.Result(request), AnswerBound(n))
  {
    assert |Sql.Row("{", "AAPL", "182.50", "52000000")| == 3 && |Sql.Row("},{", "MSFT", "310.10", "28000000")| == 3;
    assert |Sql.Row("},{", "GOOGL", "140.75", "18000000")| == 3;
    hide Short, StringOf, Sql.Escape, Sql.Row;
    var query := Sql.Escape(StringOf(request, "sql"));
    StringOfShort(request, "sql", n);
    EscapeIsShort(StringOf(request, "sql"), n);
    Shorter(query, 2 * n, 2 * n + 30);
    ResultIsSlim(query, 2 * n);
    RowKeys(n);
    var doc, error := Sql.ResultDoc(query), Sql.ErrorDoc();
    assert |doc| == 12 && |error| == 1;
    hide Print, Slim, Sql.ResultDoc, Sql.ErrorDoc;
    DocumentIsShort(doc, "}", 2 * n + 30, 3);
    DocumentIsShort(error, "}", 2 * n + 30, 3);
    Shorter(Print(doc, "}"), 12 * (2 * n + 48) + 3, AnswerBound(n));
    Shorter(Print(error, "}"), 2 * n + 51, AnswerBound(n));
  }

  lemma PositionKeys()
    ensures Short("account", 10) && Short("positions", 10) && Short("cash", 10) && Short("avg_cost", 10)
    ensures Short("current", 10) && Short("pnl", 10) && Short("qty", 10)
  {
  }

  predicate ShortHolding(h: Holding, n: nat) {
    Short(h.symbol, n) && Short(h.qty, n) && Short(h.cost, n) && Short(h.current, n) && Short(h.pnl, n)
  }

  lemma HoldingTexts(n: nat)
    ensures ShortHolding(AAPL, n + 30) && ShortHolding(MSFT, n + 30)
  {
  }

  lemma MoreHoldingTexts(n: nat)
    ensures ShortHolding(GOOGL, n + 30) && Short(CASH, n + 30) && Short("[", n + 30) && Short("UNKNOWN", n + 30)
  {
  }

  lemma PositionIsSlim(lead: string, h: Holding, n: nat)
    requires Short(lead, 3) && ShortHolding(h, n)
    ensures |Position(lead, h)| == 5 && forall item <- Position(lead, h) :: Slim(item, n)
  {
    RowKeys(n);
    PositionKeys();
    hide Short;
  }

  lemma HoldingsAreShort(request: string, n: nat)
    requires Short(request, n)
    ensures Short(Holdings(request), AnswerBound(n))
  {
    hide Short, ShortHolding, StringOf;
    RowKeys(n);
    PositionKeys();
    HoldingTexts(n);
    MoreHoldingTexts(n);
    StringOfShort(request, "account", n);
    Shorter(StringOf(request, "account"), n, n + 30);
    var account := AccountIn(request);
    var p1, p2, p3 := Position("{", AAPL), Position("},{", MSFT), Position("},{", GOOGL);
    var a, b, c := Item("{", "account", Str(account)), Item(",", "positions", Bare("[")), Cash();
    assert Slim(a, n + 30) && Slim(b, n + 30) && Slim(c, n + 30);
    var doc := PositionsDoc(account);
    assert doc == [a] + [b] + p1 + p2 + p3 + [c];
    PositionIsSlim("{", AAPL, n + 30);
    PositionIsSlim("},{", MSFT, n + 30);
    PositionIsSlim("},{", GOOGL, n + 30);
    hide Slim, Position, Print;
    AllSlim([a], [b], n + 30);
    AllSlim([a] + [b], p1, n + 30);
    AllSlim([a] + [b] + p1, p2, n + 30);
    AllSlim([a] + [b] + p1 + p2, p3, n + 30);
    AllSlim([a] + [b] + p1 + p2 + p3, [c], n + 30);
    DocumentIsShort(doc, "}", n + 30, 3);
    Shorter(Print(doc, "}"), 18 * (n + 48) + 3, AnswerBound(n));
  }

  lemma CandleKeys()
    ensures Short("date", 10) && Short("open", 10) && Short("high", 10) && Short("low", 10) && Short("close", 10)
    ensures Short("volume", 10) && Short("symbol", 10) && Short("history", 10) && Short("[", 100)
    ensures Short("{", 3) && Short("},{", 3) && Short(",", 3) && Short("}]}", 3)
  {
  }

  lemma CandleIsSlim(lead: string, c: PriceHistory.Candle)
    requires Short(lead, 3) && ShortCandle(c)
    ensures forall item <- PriceHistory.CandleItems(lead, c) :: Slim(item, 100)
    ensures |PriceHistory.CandleItems(lead, c)| == 6
  {
    CandleKeys();
    hide Short;
  }

  lemma {:induction false} CandlesAreSlim(lead: string, cs: seq<PriceHistory.Candle>)
    requires Short(lead, 3) && forall c <- cs :: ShortCandle(c)
    ensures forall item <- PriceHistory.Candles(lead, cs) :: Slim(item, 100)
    ensures |PriceHistory.Candles(lead, cs)| == 6 * |cs|
    decreases |cs|
  {
    hide Short, Slim, ShortCandle, PriceHistory.CandleItems;
    if cs != [] {
      assert cs[0] in cs;
      CandleKeys();
      CandleIsSlim(lead, cs[0]);
      CandlesAreSlim("},{", cs[1..]);
      AllSlim(PriceHistory.CandleItems(lead, cs[0]), PriceHistory.Candles("},{", cs[1..]), 100);
    }
  }

  lemma HistoryIsShort(request: string, quote: PriceHistory.Quote, n: nat)
    requires Short(request, n) && forall symbol, i :: ShortCandle(quote(symbol, i))
    ensures Short(PriceHistory.History(request, quote), AnswerBound(n))
  {
    assert Short("AAPL", n + 100);
    hide Short, StringOf, ShortCandle, PriceHistory.IntOf;
    CandleKeys();
    StringOfShort(request, "symbol", n);
    Shorter(StringOf(request, "symbol"), n, n + 100);
    Shorter("[", 100, n + 100);
    var symbol := PriceHistory.SymbolIn(request);
    var days := PriceHistory.Clamp(PriceHistory.IntOf(request, "days", 30));
    var cs := PriceHistory.LastDays(symbol, quote, days);
    var head, candles := PriceHistory.Head(symbol), PriceHistory.Candles("{", cs);
    assert |head| == 2 && forall item <- head :: Slim(item, n + 100);
    hide Slim, Print, PriceHistory.Candles, PriceHistory.Head, PriceHistory.Clamp;
    CandlesAreSlim("{", cs);
    DocumentIsShort(candles, "}]}", 100, 3);
    var m := |candles| * 118 + 3;
    DocumentIsShort(head, Print(candles, "}]}"), n + 100, m);
    PrintConcat(head, candles, "}]}");
    Shorter(PriceHistory.History(request, quote), 2 * (n + 118) + m, AnswerBound(n));
  }

  lemma SideTexts(n: nat)
    ensures Short("BUY", n + 30) && Short("SELL", n + 30) && Short("{\"seq\":0}", 9)
  {
  }

  lemma PongIsShort(request: string, n: nat)
    requires Short(request, n)
    ensures Short(Pong(request), AnswerBound(n))
  {
    hide Short;
    SideTexts(n);
    Shorter(request, n, AnswerBound(n));
    Shorter("{\"seq\":0}", 9, AnswerBound(n));
  }

  /** Every answer is a text of eight-bit chars within the bound. */
  lemma AnswerIsShort(market: Market, kind: uint16, env: Env, request: string, n: nat)
    requires Tidy(market) && Short(request, n)
    ensures Short(Answer(market, kind, env, request), AnswerBound(n))
  {
    hide Short, AnswerBound, Sql.Result, Trade.Ack, Holdings, Pong, PriceHistory.History;
    hide PriceHistory.CleanCandle, ShortCandle;
    SideTexts(n);
    if kind == SQL_QUERY {
      ResultIsShort(request, n);
    } else if IsOrder(kind) {
      AckIsShort(OrderNumber(env), request, if kind == BUY_ORDER then "BUY" else "SELL", n);
    } else if kind == GET_POSITION {
      HoldingsAreShort(request, n);
    } else if kind == GET_PRICE_HISTORY {
      HistoryIsShort(request, market(env.now), n);
    } else {
      PongIsShort(request, n);
    }
  }

  // ---------------------------------------------------------------------------------------
  // Dispatch with the table

  /** A request of a known type is answered with that type's text, exactly as printed, in a
      frame whose header is right; the reply can be read back by the client if the request has
      at most 600,000 bytes. */
  lemma Served(market: Market, env: Env, request: Message)
    requires Tidy(market) && |request.payload| <= MAX_PAYLOAD_SIZE
    requires SQL_QUERY <= request.header.messageType <= PING
    ensures var kind := request.header.messageType;
            var d := Dispatch(ServiceTable(market), env, request);
            && d.response.header.messageType == kind + 0x8000
            && Text(d.response.payload) == Answer(market, kind, env, Text(request.payload))
            && Frames.Canonical(d.response)
            && (|request.payload| <= 600_000 ==> |d.response.payload| <= MAX_PAYLOAD_SIZE)
            && d.orders == (if IsOrder(kind) then (env.orders + 1) % Trade.COUNTER_RANGE else env.orders)
  {
    hide Answer, Tidy;
    var kind, text, n := request.header.messageType, Text(request.payload), |request.payload|;
    OctetsOfText(request.payload);
    AnswerIsShort(market, kind, env, text, n);
    TextOfOctets(Answer(market, kind, env, text));
  }

  /** Any other request is answered with a short error. */
  lemma Unserved(market: Market, env: Env, request: Message)
    requires !(SQL_QUERY <= request.header.messageType <= PING)
    ensures var d := Dispatch(ServiceTable(market), env, request);
            && d.response.header.messageType == ERROR && d.orders == env.orders
            && Frames.Canonical(d.response) && |d.response.payload| <= 100
  {
    hide HandlerOf;
  }

  /** A ping comes back: with the payload it was sent with, or with a sequence number of zero. */
  lemma PingEchoed(market: Market, env: Env, request: Message)
    requires request.header.messageType == PING
    ensures var d := Dispatch(ServiceTable(market), env, request);
            && d.response.header.messageType == 0x8006 && d.orders == env.orders
            && (request.payload != [] ==> d.response.payload == request.payload)
            && (request.payload == [] ==> Text(d.response.payload) == "{\"seq\":0}")
  {
    OctetsOfText(request.payload);
    TextOfOctets("{\"seq\":0}");
    assert |Text(request.payload)| == |request.payload|;
  }

  /** The error a reader finds in the answer to a type nobody serves, whatever the table; and in
      the answer when a handler throws, with what it threw if that is free of quotes. */
  lemma ErrorsTold(table: Table, env: Env, request: Message, what: string)
    requires request.header.messageType in table ==>
               table[request.header.messageType](env, request.payload).outcome == Throw(Octets(what))
    requires QuoteFree(what) && EightBit(what)
    ensures var d := Dispatch(table, env, request);
            var text := Text(d.response.payload);
            && d.response.header.messageType == ERROR
            && FieldOf(text, "code") == (if request.header.messageType in table then "500" else "404")
            && FieldOf(text, "message")
            == (if request.header.messageType in table then what else "Unknown message type")
  {
    hide FieldOf, Print, ErrorItems, QuoteFree, EightBit, Octets, Text;
    if request.header.messageType !in table {
      UnknownText();
      ErrorFields("404", "Unknown message type");
    } else {
      ThrownText(what);
      ErrorFields("500", what);
    }
  }

  function ErrorItems(code: string, message: string): seq<Item> {
    [Item("{", "code", Bare(code))] + [Item(",", "message", Str(message))]
  }

  lemma ErrorText(code: string, message: string)
    ensures Print(ErrorItems(code, message), "}")
         == "{" + "\"code\":" + code + "," + "\"message\":\"" + message + "\"}"
  {
    var first := [Item("{", "code", Bare(code))];
    assert Print([], "{") == "{" && [] + first == first;
    assert "\"code\":" == "\"" + "code" + "\":" && "\"message\":\"" == "\"" + "message" + "\":\"";
    assert "\"}" == "\"" + "}";
    hide Print;
    AppendBare([], "{", "code", code, "\"code\":", ",");
    AppendStr(first, ",", "message", message, "\"message\":\"", "\"}", "}");
  }

  lemma UnknownPieces()
    ensures "{\"code\":404,\"message\":\"" == "{" + "\"code\":" + "404" + "," + "\"message\":\""
    ensures "Unknown message type\"}" == "Unknown message type" + "\"}"
    ensures QuoteFree("Unknown message type")
  {
  }

  lemma UnknownClean()
    ensures EightBit("{\"code\":404,\"message\":\"") && EightBit("Unknown message type\"}")
  {
  }

  lemma UnknownText()
    ensures Text(Octets("{\"code\":404,\"message\":\"" + "Unknown message type\"}"))
         == Print(ErrorItems("404", "Unknown message type"), "}")
    ensures QuoteFree("Unknown message type")
  {
    var front, back := "{\"code\":404,\"message\":\"", "Unknown message type\"}";
    hide Print, ErrorItems, Octets, Text, QuoteFree;
    UnknownPieces();
    UnknownClean();
    assert EightBit(front + back);
    hide EightBit;
    ErrorText("404", "Unknown message type");
    ConcatAssociative(front, "Unknown message type", "\"}");
    TextOfOctets(front + back);
  }

  lemma ThrownPieces()
    ensures "{\"code\":500,\"message\":\"" == "{" + "\"code\":" + "500" + "," + "\"message\":\""
    ensures EightBit("{\"code\":500,\"message\":\"") && EightBit("\"}")
  {
  }

  lemma TextConcat(a: seq<byte>, b: seq<byte>)
    ensures Text(a + b) == Text(a) + Text(b)
  {
  }

  lemma ThrownText(what: string)
    requires EightBit(what)
    ensures Text(Octets("{\"code\":500,\"message\":\"") + Octets(what) + Octets("\"}"))
         == Print(ErrorItems("500", what), "}")
  {
    hide *;
    var a, b := "{\"code\":500,\"message\":\"", "\"}";
    ThrownPieces();
    ErrorText("500", what);
    TextOfOctets(a);
    TextOfOctets(what);
    TextOfOctets(b);
    TextConcat(Octets(a), Octets(what));
    TextConcat(Octets(a) + Octets(what), Octets(b));
  }

  lemma ErrorFields(code: string, message: string)
    requires code == "404" || code == "500"
    requires QuoteFree(message)
    ensures FieldOf(Print(ErrorItems(code, message), "}"), "code") == code
    ensures FieldOf(Print(ErrorItems(code, message), "}"), "message") == message
  {
    var doc := ErrorItems(code, message);
    assert WellFormed(doc, "}") && doc[0].key == "code" && doc[1].key == "message" && "code" != "message";
    assert Reads(FieldChar, Blank, doc, "}", 0);
    hide FieldOf, Print, WellFormed, Reads;
    BareFieldAt(doc, "}", 0);
    FieldAt(doc, "}", 1);
  }
}
