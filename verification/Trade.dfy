/** server/src/services/trade_service.cpp, with the dialog client's order requests and the way
    it reads the acknowledgements. */
module Trade {
  import opened JsonText
  import opened Documents
  import Decimal

  // ---------------------------------------------------------------------------------------
  // Printing

  /** The request both clients print. */
  function PrintOrder(symbol: string, qty: string, price: string, account: string): string {
    "{" + "\"symbol\":\"" + symbol + "\","
        + "\"qty\":" + qty + ","
        + "\"price\":" + price + ","
        + "\"account\":\"" + account + "\"}"
  }

  function OrderDoc(symbol: string, qty: string, price: string, account: string): seq<Item> {
    [Item("{", "symbol", Str(symbol))] + [Item(",", "qty", Bare(qty))]
    + [Item(",", "price", Bare(price))] + [Item(",", "account", Str(account))]
  }

  lemma PrintOrderIsDoc(symbol: string, qty: string, price: string, account: string)
    ensures PrintOrder(symbol, qty, price, account) == Print(OrderDoc(symbol, qty, price, account), "}")
  {
    var d1 := [Item("{", "symbol", Str(symbol))];
    var d2 := d1 + [Item(",", "qty", Bare(qty))];
    var d3 := d2 + [Item(",", "price", Bare(price))];
    assert Print([], "{") == "{";
    assert [] + d1 == d1;
    hide Print;
    AckOpenings();
    AppendStrComma([], "{", "symbol", symbol, "\"symbol\":\"");
    AppendBare(d1, ",", "qty", qty, "\"qty\":", ",");
    AppendBare(d2, ",", "price", price, "\"price\":", ",");
    AppendStr(d3, ",", "account", account, "\"account\":\"", "\"}", "}");
  }

  function OrderId(id: nat): string {
    "ORD-" + Decimal.Print(id)
  }

  /** The text is "ORD-" and the digits of the number, without leading zeros. */
  predicate ShowsNumber(text: string, number: nat) {
    && "ORD-" <= text
    && (forall c <- text[4..] :: Decimal.IsDigit(c))
    && Decimal.Value(text[4..]) == number
    && text[4..] != "" && (text[4] == '0' ==> |text| == 5)
  }

  function AckDoc(id: nat, symbol: string, side: string, account: string, qty: string, price: string): seq<Item> {
    [Item("{", "order_id", Str(OrderId(id)))] + [Item(",", "symbol", Str(symbol))]
    + [Item(",", "side", Str(side))] + [Item(",", "account", Str(account))]
    + [Item(",", "qty", Bare(qty))] + [Item(",", "price", Bare(price))] + [Item(",", "status", Str("FILLED"))]
  }

  // ---------------------------------------------------------------------------------------
  // The handler

  datatype Order = Order(symbol: string, qty: string, price: string, account: string)

  function Default(s: string, default: string): string {
    if s == "" then default else s
  }

  /** The order the service takes a request for, whatever its text. */
  function OrderIn(request: string): Order {
    Order(Default(StringOf(request, "symbol"), "UNKNOWN"), Default(NumberOf(request, "qty"), "0"),
          Default(NumberOf(request, "price"), "0"), Default(StringOf(request, "account"), "N/A"))
  }

  /** The acknowledgement of a request that is given the order number `id`. */
  function Ack(id: nat, request: string, side: string): string {
    var order := OrderIn(request);
    Print(AckDoc(id, order.symbol, side, order.account, order.qty, order.price), "}")
  }

  const COUNTER_RANGE := 0x1_0000_0000_0000_0000

  type Counter = x: int | 0 <= x < COUNTER_RANGE

  class TradeService {
    /** g_order_counter, which wraps around at 64 bits. */
    var orderCounter: Counter

    constructor ()
      ensures orderCounter == 1
    {
      orderCounter := 1;
    }

    /** build_order_ack: every call takes the next order number and answers with it. */
    method BuildOrderAck(request: string, side: string) returns (ack: string)
      modifies this
      ensures orderCounter == (old(orderCounter) + 1) % 0x1_0000_0000_0000_0000
      ensures ack == Ack(old(orderCounter), request, side)
    {
      hide StringOf, NumberOf, ExtractString, Print, Decimal.Print;
      var symbol := ExtractString(request, "symbol");
      var qty := ExtractNumber(request, "qty");
      var price := ExtractNumber(request, "price");
      var account := ExtractString(request, "account");
      ExtractStringReads(request, "symbol");
      ExtractStringReads(request, "account");
      if symbol == "" { symbol := "UNKNOWN"; }
      if qty == "" { qty := "0"; }
      if price == "" { price := "0"; }
      var id := orderCounter;
      orderCounter := (orderCounter + 1) % COUNTER_RANGE;
      account := if account == "" then "N/A" else account;
      ack := PrintAck(id, symbol, side, account, qty, price);
    }

    /** The text build_order_ack writes to its stream. */
    static method PrintAck(id: nat, symbol: string, side: string, account: string, qty: string, price: string)
      returns (oss: string)
      ensures oss == Print(AckDoc(id, symbol, side, account, qty, price), "}")
    {
      hide Decimal.Print;
      AckOpenings();
      var number := "ORD-" + Decimal.Print(id);
      ghost var d1 := [Item("{", "order_id", Str(number))];
      ghost var d2 := d1 + [Item(",", "symbol", Str(symbol))];
      ghost var d3 := d2 + [Item(",", "side", Str(side))];
      ghost var d4 := d3 + [Item(",", "account", Str(account))];
      ghost var d5 := d4 + [Item(",", "qty", Bare(qty))];
      ghost var d6 := d5 + [Item(",", "price", Bare(price))];
      oss := "{";
      assert oss == Print([], "{") && [] + d1 == d1;
      hide Print;
      oss := oss + "\"order_id\":\"" + number + "\",";
      AppendStrComma([], "{", "order_id", number, "\"order_id\":\"");
      oss := oss + "\"symbol\":\"" + symbol + "\",";
      AppendStrComma(d1, ",", "symbol", symbol, "\"symbol\":\"");
      oss := oss + "\"side\":\"" + side + "\",";
      AppendStrComma(d2, ",", "side", side, "\"side\":\"");
      oss := oss + "\"account\":\"" + account + "\",";
      AppendStrComma(d3, ",", "account", account, "\"account\":\"");
      oss := oss + "\"qty\":" + qty + ",";
      AppendBare(d4, ",", "qty", qty, "\"qty\":", ",");
      oss := oss + "\"price\":" + price + ",";
      AppendBare(d5, ",", "price", price, "\"price\":", ",");
      oss := oss + "\"status\":\"" + "FILLED" + "\"}";
      AppendStr(d6, ",", "status", "FILLED", "\"status\":\"", "\"}", "}");
    }
  }

  lemma AckOpenings()
    ensures "\"order_id\":\"" == "\"" + "order_id" + "\":\"" && "\"symbol\":\"" == "\"" + "symbol" + "\":\""
    ensures "\"side\":\"" == "\"" + "side" + "\":\"" && "\"account\":\"" == "\"" + "account" + "\":\""
    ensures "\"qty\":" == "\"" + "qty" + "\":" && "\"price\":" == "\"" + "price" + "\":"
    ensures "\"status\":\"" == "\"" + "status" + "\":\"" && "\"}" == "\"" + "}"
  {
  }

  // ---------------------------------------------------------------------------------------
  // What the clients read

  predicate NumberText(s: string) {
    forall c <- s :: NumberChar(c)
  }

  /** Number texts are read exactly by both number readers. */
  lemma NumberTextReads(doc: seq<Item>, tail: string, i: nat)
    requires i < |doc| && doc[i].value.Bare? && NumberText(doc[i].value.text)
    requires Behind(doc, tail, i) == "," || Behind(doc, tail, i) == "}"
    ensures Reads(FieldChar, Blank, doc, tail, i) && Reads(NumberChar, Blank, doc, tail, i)
  {
    var text := doc[i].value.text;
    assert text != "" ==> text[0] in text;
  }

  lemma OrderInIsClean(request: string)
    ensures var o := OrderIn(request);
            QuoteFree(o.symbol) && QuoteFree(o.account) && NumberText(o.qty) && NumberText(o.price)
  {
  }

  /** Whatever the request, the dialog reads back from the acknowledgement exactly what the
      service took from the request. */
  lemma AckReadsBack(id: nat, request: string, side: string)
    requires QuoteFree(side)
    ensures var ack, order := Ack(id, request, side), OrderIn(request);
            && ShowsNumber(FieldOf(ack, "order_id"), id)
            && FieldOf(ack, "symbol") == order.symbol
            && FieldOf(ack, "side") == side
            && FieldOf(ack, "account") == order.account
            && FieldOf(ack, "qty") == order.qty
            && FieldOf(ack, "price") == order.price
            && FieldOf(ack, "status") == "FILLED"
  {
    hide OrderIn, Print, FieldOf, Decimal.Print, IndexOf, OrderId, ShowsNumber;
    OrderIdShows(id);
    var o := OrderIn(request);
    OrderInIsClean(request);
    var doc := AckDoc(id, o.symbol, side, o.account, o.qty, o.price);
    AckWellFormed(id, o.symbol, side, o.account, o.qty, o.price);
    AckStrings(doc, id, o.symbol, side, o.account, o.qty, o.price);
    AckNumbers(doc, id, o.symbol, side, o.account, o.qty, o.price);
  }

  lemma OrderIdShows(id: nat)
    ensures ShowsNumber(OrderId(id), id)
  {
    var digits := Decimal.Print(id);
    assert OrderId(id)[4..] == digits;
    Decimal.ValueOfPrint(id);
    Decimal.NoLeadingZero(id);
    hide Decimal.Print;
  }

  lemma AckWellFormed(id: nat, symbol: string, side: string, account: string, qty: string, price: string)
    requires QuoteFree(symbol) && QuoteFree(account) && QuoteFree(side) && NumberText(qty) && NumberText(price)
    ensures WellFormed(AckDoc(id, symbol, side, account, qty, price), "}")
  {
    hide Decimal.Print;
    var n := Decimal.Print(id);
    assert forall c <- n :: Decimal.IsDigit(c);
  }

  lemma AckKeys(doc: seq<Item>, id: nat, symbol: string, side: string, account: string, qty: string, price: string)
    requires doc == AckDoc(id, symbol, side, account, qty, price)
    ensures |doc| == 7
    ensures doc[0].key == "order_id" && doc[1].key == "symbol" && doc[2].key == "side" && doc[3].key == "account"
    ensures doc[4].key == "qty" && doc[5].key == "price" && doc[6].key == "status"
    ensures doc[0].value == Str(OrderId(id)) && doc[1].value == Str(symbol) && doc[2].value == Str(side)
    ensures doc[3].value == Str(account) && doc[4].value == Bare(qty) && doc[5].value == Bare(price)
    ensures doc[6].value == Str("FILLED") && doc[5].lead == "," && doc[6].lead == ","
    ensures Plain("qty") && Plain("price")
  {
    hide Decimal.Print;
  }

  lemma StringKeysDiffer()
    ensures "order_id" != "symbol" && "order_id" != "side" && "order_id" != "account" && "order_id" != "status"
    ensures "symbol" != "side" && "symbol" != "account" && "symbol" != "status"
    ensures "side" != "account" && "side" != "status" && "account" != "status"
  {
    assert "symbol"[1] != "status"[1];
  }

  lemma AckStrings(doc: seq<Item>, id: nat, symbol: string, side: string, account: string, qty: string, price: string)
    requires doc == AckDoc(id, symbol, side, account, qty, price) && WellFormed(doc, "}")
    ensures var ack := Print(doc, "}");
            && FieldOf(ack, "order_id") == OrderId(id) && FieldOf(ack, "symbol") == symbol
            && FieldOf(ack, "side") == side && FieldOf(ack, "account") == account && FieldOf(ack, "status") == "FILLED"
  {
    hide *;
    AckKeys(doc, id, symbol, side, account, qty, price);
    StringKeysDiffer();
    FieldAt(doc, "}", 0);
    FieldAt(doc, "}", 1);
    FieldAt(doc, "}", 2);
    FieldAt(doc, "}", 3);
    FieldAt(doc, "}", 6);
  }

  lemma AckNumbers(doc: seq<Item>, id: nat, symbol: string, side: string, account: string, qty: string, price: string)
    requires doc == AckDoc(id, symbol, side, account, qty, price) && WellFormed(doc, "}")
    requires NumberText(qty) && NumberText(price)
    ensures var ack := Print(doc, "}"); FieldOf(ack, "qty") == qty && FieldOf(ack, "price") == price
  {
    AckKeys(doc, id, symbol, side, account, qty, price);
    hide Print, FieldOf, Decimal.Print, IndexOf, WellFormed, AckDoc, Plain;
    IndexIs(doc, "qty", true, 7);
    IndexIs(doc, "qty", false, 4);
    NumberTextReads(doc, "}", 4);
    FieldReads(doc, "}", "qty");
    IndexIs(doc, "price", true, 7);
    IndexIs(doc, "price", false, 5);
    NumberTextReads(doc, "}", 5);
    FieldReads(doc, "}", "price");
  }

  lemma OrderShape(doc: seq<Item>, symbol: string, qty: string, price: string, account: string)
    requires doc == OrderDoc(symbol, qty, price, account)
    requires QuoteFree(symbol) && QuoteFree(account) && NumberText(qty) && NumberText(price)
    ensures WellFormed(doc, "}") && |doc| == 4 && doc[2].lead == doc[3].lead == ","
    ensures doc[0].key == "symbol" && doc[1].key == "qty" && doc[2].key == "price" && doc[3].key == "account"
    ensures doc[0].value == Str(symbol) && doc[1].value == Bare(qty) && doc[2].value == Bare(price)
    ensures doc[3].value == Str(account)
    ensures "symbol" != "qty" && "symbol" != "price" && "symbol" != "account" && "qty" != "price"
    ensures Behind(doc, "}", 1) == "," && Behind(doc, "}", 2) == ","
  {
  }

  lemma OrderParts(doc: seq<Item>, symbol: string, qty: string, price: string, account: string)
    requires doc == OrderDoc(symbol, qty, price, account)
    requires QuoteFree(symbol) && QuoteFree(account) && NumberText(qty) && NumberText(price)
    ensures var text := Print(doc, "}");
            && StringOf(text, "symbol") == symbol && NumberOf(text, "qty") == qty
            && NumberOf(text, "price") == price && StringOf(text, "account") == account
  {
    hide *;
    OrderShape(doc, symbol, qty, price, account);
    StringAt(doc, "}", 0);
    NumberTextReads(doc, "}", 1);
    NumberAt(doc, "}", 1);
    NumberTextReads(doc, "}", 2);
    NumberAt(doc, "}", 2);
    StringAt(doc, "}", 3);
  }

  /** The service takes exactly what was ordered, with the defaults for what was left empty. */
  lemma OrderReads(symbol: string, qty: string, price: string, account: string)
    requires QuoteFree(symbol) && QuoteFree(account) && NumberText(qty) && NumberText(price)
    ensures OrderIn(PrintOrder(symbol, qty, price, account))
         == Order(Default(symbol, "UNKNOWN"), Default(qty, "0"), Default(price, "0"), Default(account, "N/A"))
  {
    hide Print, StringOf, NumberOf, NumberText, OrderDoc, PrintOrder;
    PrintOrderIsDoc(symbol, qty, price, account);
    OrderParts(OrderDoc(symbol, qty, price, account), symbol, qty, price, account);
  }

  /** Round trip: for quote-free texts and number texts, request and acknowledgement bring back
      what was ordered, with the defaults for what was left empty. */
  lemma OrderRoundTrip(id: nat, symbol: string, qty: string, price: string, account: string, side: string)
    requires QuoteFree(symbol) && QuoteFree(account) && QuoteFree(side) && NumberText(qty) && NumberText(price)
    ensures var ack := Ack(id, PrintOrder(symbol, qty, price, account), side);
            && FieldOf(ack, "symbol") == Default(symbol, "UNKNOWN")
            && FieldOf(ack, "account") == Default(account, "N/A")
            && FieldOf(ack, "qty") == Default(qty, "0") && FieldOf(ack, "price") == Default(price, "0")
            && FieldOf(ack, "side") == side && ShowsNumber(FieldOf(ack, "order_id"), id)
  {
    hide FieldOf, PrintOrder, OrderIn, Ack, ShowsNumber;
    OrderReads(symbol, qty, price, account);
    AckReadsBack(id, PrintOrder(symbol, qty, price, account), side);
  }

  /** For any texts at all, the symbol survives exactly when it is quote-free and not empty. */
  lemma SymbolSurvivesIff(id: nat, symbol: string, qty: string, price: string, account: string, side: string)
    requires QuoteFree(side)
    ensures FieldOf(Ack(id, PrintOrder(symbol, qty, price, account), side), "symbol") == symbol
       <==> QuoteFree(symbol) && symbol != ""
  {
    hide FieldOf, StringOf, NumberOf, Ack, AfterFirst, ShowsNumber;
    var request := PrintOrder(symbol, qty, price, account);
    AckReadsBack(id, request, side);
    OrderInIsClean(request);
    if QuoteFree(symbol) {
      SymbolComesFirst(symbol, qty, price, account);
    }
    assert "UNKNOWN"[0] == 'U';
  }

  lemma SymbolComesFirst(symbol: string, qty: string, price: string, account: string)
    requires QuoteFree(symbol)
    ensures StringOf(PrintOrder(symbol, qty, price, account), "symbol") == symbol
  {
    hide UntilQuote;
    var request := PrintOrder(symbol, qty, price, account);
    var rest := "," + "\"qty\":" + qty + "," + "\"price\":" + price + "," + "\"account\":\"" + account + "\"}";
    assert request == "{" + ("\"symbol\":\"" + (symbol + "\"" + rest));
    NeedleForms("symbol");
    assert StringNeedle("symbol") == "\"symbol\":\"";
    var s := "\"symbol\":\"" + (symbol + "\"" + rest);
    SkipPlain("{", s, "symbol", ":\"");
    assert s[..10] == "\"symbol\":\"" && s[10..] == symbol + "\"" + rest;
    UntilQuoteExact(symbol, rest);
  }

  /** Acknowledgements of different order numbers carry different order ids. */
  lemma OrderIdsDiffer(id: nat, request: string, side: string, id': nat, request': string, side': string)
    requires QuoteFree(side) && QuoteFree(side') && id != id'
    ensures FieldOf(Ack(id, request, side), "order_id") != FieldOf(Ack(id', request', side'), "order_id")
  {
    hide FieldOf, Ack, OrderIn;
    AckReadsBack(id, request, side);
    AckReadsBack(id', request', side');
  }
}
