/** load_generator/src/client_session.cpp, next_request: the messages a client sends, and that
    the services understand them. */
module Requests {
  import opened Lcg
  import opened LoadMix
  import opened JsonText
  import opened Documents
  import opened Protocol
  import opened Router
  import opened Sizes
  import Frames
  import Decimal
  import Trade
  import Sql
  import PriceHistory

  const SYMBOLS := ["AAPL", "MSFT", "GOOGL", "AMZN", "TSLA"]
  const ACCOUNT := "ACC-001"

  function Symbol(r: nat): string {
    SYMBOLS[r % |SYMBOLS|]
  }

  function Statement(symbol: string): string {
    "SELECT symbol, " + "price FROM " + "quotes WHERE " + "symbol='" + symbol + "'"
  }

  /** How a stream prints 100 + cents / 100, without trailing zeros. */
  function PriceText(cents: nat): (s: string)
    ensures Trade.NumberText(s) && s != ""
  {
    var units, rest := Decimal.Print(100 + cents / 100), cents % 100;
    if rest == 0 then units
    else if rest % 10 == 0 then units + "." + Decimal.Print(rest / 10)
    else units + "." + Decimal.Print(rest / 10) + Decimal.Print(rest % 10)
  }

  function Quantity(r: nat): nat {
    10 + r % 491
  }

  function Cents(r: nat): nat {
    r % 20000
  }

  function Days(r: nat): nat {
    7 + r % 24
  }

  function Code(kind: Kind): uint16 {
    match kind
    case SqlQuery => 1
    case BuyOrder => 2
    case SellOrder => 3
    case GetPosition => 4
    case GetPriceHistory => 5
  }

  /** The payload, given the second draw and those after it. */
  function Payload(kind: Kind, r2: nat, r3: nat, r4: nat): string {
    match kind
    case SqlQuery => Sql.PrintQuery(Statement(Symbol(r2)))
    case BuyOrder => Trade.PrintOrder(Symbol(r2), Decimal.Print(Quantity(r3)), PriceText(Cents(r4)), ACCOUNT)
    case SellOrder => Trade.PrintOrder(Symbol(r2), Decimal.Print(Quantity(r3)), PriceText(Cents(r4)), ACCOUNT)
    case GetPosition => "{\"account\":\"ACC-001\"}"
    case GetPriceHistory => PriceHistory.PrintRequest(Symbol(r2), Days(r3))
  }

  /** How many draws a request of the kind takes. */
  function Draws(kind: Kind): nat {
    match kind
    case SqlQuery => 2
    case BuyOrder => 4
    case SellOrder => 4
    case GetPosition => 2
    case GetPriceHistory => 3
  }

  function KindFrom(w: Scenario, s: uint64): Kind {
    Selected(w, After(1, s))
  }

  function TextFrom(w: Scenario, s: uint64): string {
    Payload(KindFrom(w, s), After(2, s), After(3, s), After(4, s))
  }

  /** The next request of a client whose generator is in state s. */
  function RequestFrom(w: Scenario, s: uint64): Message {
    Make(Code(KindFrom(w, s)), Octets(TextFrom(w, s)), 0)
  }

  // ---------------------------------------------------------------------------------------

  lemma SymbolIsClean(r: nat)
    ensures QuoteFree(Symbol(r)) && Short(Symbol(r), 5) && Symbol(r) != ""
  {
  }

  /** A price as printed: the amount 100 + cents / 100 to the cent, with a decimal point only in
      front of digits, and no zero at its end. */
  lemma PriceShows(cents: nat) returns (units: string, rest: string)
    ensures units != "" && (forall c <- units :: Decimal.IsDigit(c)) && (units[0] == '0' ==> |units| == 1)
    ensures |rest| <= 2 && (forall c <- rest :: Decimal.IsDigit(c)) && (rest != "" ==> rest[|rest| - 1] != '0')
    ensures PriceText(cents) == if rest == "" then units else units + "." + rest
    ensures 100 * Decimal.Value(units) + (if |rest| == 1 then 10 else 1) * Decimal.Value(rest) == 10000 + cents
  {
    units := Decimal.Print(100 + cents / 100);
    Decimal.ValueOfPrint(100 + cents / 100);
    Decimal.NoLeadingZero(100 + cents / 100);
    hide Decimal.Print, Decimal.Value;
    var n := cents % 100;
    Digits(n);
    if n == 0 {
      rest := "";
    } else if n % 10 == 0 {
      rest := Decimal.Print(n / 10);
    } else {
      rest := Decimal.Print(n / 10) + Decimal.Print(n % 10);
      assert units + "." + Decimal.Print(n / 10) + Decimal.Print(n % 10) == units + "." + rest;
    }
  }

  lemma Digits(n: nat)
    requires n < 100
    ensures Decimal.Print(n / 10) == [Decimal.DigitChar(n / 10)]
    ensures Decimal.Print(n % 10) == [Decimal.DigitChar(n % 10)]
    ensures Decimal.Value("") == 0 && Decimal.Value(Decimal.Print(n / 10)) == n / 10
    ensures Decimal.Value(Decimal.Print(n / 10) + Decimal.Print(n % 10)) == n
  {
    var a, b := Decimal.DigitChar(n / 10), Decimal.DigitChar(n % 10);
    assert [a][..0] == "" && ([a] + [b])[..1] == [a];
  }

  /** What can be drawn: each of five symbols, every quantity from 10 to 500, every price from
      100.00 to 299.99, every number of days from 7 to 30, and nothing else. */
  lemma DrawsCover(symbol: string, quantity: int, cents: int, days: int)
    ensures (exists r: uint64 :: Symbol(r) == symbol) <==> symbol in ["AAPL", "MSFT", "GOOGL", "AMZN", "TSLA"]
    ensures (exists r: uint64 :: Quantity(r) == quantity) <==> 10 <= quantity <= 500
    ensures (exists r: uint64 :: Cents(r) == cents) <==> 0 <= cents < 20000
    ensures (exists r: uint64 :: Days(r) == days) <==> 7 <= days <= 30
  {
    assert Symbol(0) == "AAPL" && Symbol(1) == "MSFT" && Symbol(2) == "GOOGL";
    assert Symbol(3) == "AMZN" && Symbol(4) == "TSLA";
    assert 10 <= quantity <= 500 ==> Quantity(quantity - 10) == quantity;
    assert 0 <= cents < 20000 ==> Cents(cents) == cents;
    assert 7 <= days <= 30 ==> Days(days - 7) == days;
  }

  lemma PriceIsShort(cents: nat)
    requires cents < 20000
    ensures Short(PriceText(cents), 6)
  {
    assert Power(3) == 1000;
    hide Decimal.Print, Short;
    var units, rest := Decimal.Print(100 + cents / 100), cents % 100;
    DigitsAreShort(100 + cents / 100, 3);
    DigitsAreShort(rest / 10, 1);
    DigitsAreShort(rest % 10, 1);
    PointIsShort();
    ShortConcat(units, 3, ".", 1);
    ShortConcat(units + ".", 4, Decimal.Print(rest / 10), 1);
    ShortConcat(units + "." + Decimal.Print(rest / 10), 5, Decimal.Print(rest % 10), 1);
    Shorter(units, 3, 6);
    Shorter(units + "." + Decimal.Print(rest / 10), 5, 6);
  }

  lemma PointIsShort()
    ensures Short(".", 1)
  {
  }

  lemma Pieces()
    ensures Short("{", 1) && Short("}", 1) && Short("\"}", 2) && Short(",", 1) && Short("\",", 2)
    ensures Short("\"symbol\":\"", 10) && Short("\"days\":", 7)
  {
  }

  lemma OrderPieces()
    ensures Short("\"qty\":", 6) && Short("\"price\":", 8) && Short("\"account\":\"", 11) && Short(ACCOUNT, 7)
  {
  }

  lemma StatementPieces()
    ensures Short("SELECT symbol, ", 15) && Short("price FROM ", 11) && Short("quotes WHERE ", 13)
    ensures Short("symbol='", 8) && Short("'", 1) && Short("{\"sql\":\"", 8)
  {
  }

  lemma PositionIsShort()
    ensures Short("{\"account\":\"ACC-001\"}", 21)
  {
  }

  lemma QueryIsShort(symbol: string)
    requires Short(symbol, 5)
    ensures Short(Sql.PrintQuery(Statement(symbol)), 100)
  {
    hide Short;
    Pieces();
    StatementPieces();
    var query := "{\"sql\":\"";
    var s := "SELECT symbol, " + "price FROM ";
    ShortConcat("SELECT symbol, ", 15, "price FROM ", 11);
    ShortConcat(s, 26, "quotes WHERE ", 13);
    ShortConcat(s + "quotes WHERE ", 39, "symbol='", 8);
    s := s + "quotes WHERE " + "symbol='";
    ShortConcat(s, 47, symbol, 5);
    ShortConcat(s + symbol, 52, "'", 1);
    ShortConcat(query, 8, Statement(symbol), 53);
    ShortConcat(query + Statement(symbol), 61, "\"}", 2);
    Shorter(Sql.PrintQuery(Statement(symbol)), 63, 100);
  }

  lemma OrderIsShort(symbol: string, qty: string, price: string)
    requires Short(symbol, 5) && Short(qty, 3) && Short(price, 6)
    ensures Short(Trade.PrintOrder(symbol, qty, price, ACCOUNT), 100)
  {
    hide Short;
    Pieces();
    OrderPieces();
    var s := "{" + "\"symbol\":\"";
    ShortConcat("{", 1, "\"symbol\":\"", 10);
    ShortConcat(s, 11, symbol, 5);
    ShortConcat(s + symbol, 16, "\",", 2);
    s := s + symbol + "\",";
    ShortConcat(s, 18, "\"qty\":", 6);
    ShortConcat(s + "\"qty\":", 24, qty, 3);
    ShortConcat(s + "\"qty\":" + qty, 27, ",", 1);
    s := s + "\"qty\":" + qty + ",";
    ShortConcat(s, 28, "\"price\":", 8);
    ShortConcat(s + "\"price\":", 36, price, 6);
    ShortConcat(s + "\"price\":" + price, 42, ",", 1);
    s := s + "\"price\":" + price + ",";
    ShortConcat(s, 43, "\"account\":\"", 11);
    ShortConcat(s + "\"account\":\"", 54, ACCOUNT, 7);
    ShortConcat(s + "\"account\":\"" + ACCOUNT, 61, "\"}", 2);
    Shorter(Trade.PrintOrder(symbol, qty, price, ACCOUNT), 63, 100);
  }

  lemma HistoryIsShort(symbol: string, days: nat)
    requires Short(symbol, 5) && days < 1000
    ensures Short(PriceHistory.PrintRequest(symbol, days), 100)
  {
    assert Power(3) == 1000;
    hide Short, Decimal.Print, Power;
    Pieces();
    DigitsAreShort(days, 3);
    var s := "{" + "\"symbol\":\"";
    ShortConcat("{", 1, "\"symbol\":\"", 10);
    ShortConcat(s, 11, symbol, 5);
    ShortConcat(s + symbol, 16, "\",", 2);
    s := s + symbol + "\",";
    ShortConcat(s, 18, "\"days\":", 7);
    ShortConcat(s + "\"days\":", 25, Decimal.Print(days), 3);
    ShortConcat(s + "\"days\":" + Decimal.Print(days), 28, "}", 1);
    Shorter(PriceHistory.PrintRequest(symbol, days), 29, 100);
  }

  /** Requests are short texts of eight-bit chars. */
  lemma PayloadIsShort(kind: Kind, r2: nat, r3: nat, r4: nat)
    ensures Short(Payload(kind, r2, r3, r4), 100)
  {
    SymbolIsClean(r2);
    assert Power(3) == 1000;
    hide Short, Decimal.Print, Symbol, PriceText, Trade.PrintOrder, PriceHistory.PrintRequest, Sql.PrintQuery;
    match kind
    case SqlQuery => QueryIsShort(Symbol(r2));
    case GetPosition =>
      PositionIsShort();
      Shorter("{\"account\":\"ACC-001\"}", 21, 100);
    case GetPriceHistory => HistoryIsShort(Symbol(r2), Days(r3));
    case _ =>
      DigitsAreShort(Quantity(r3), 3);
      PriceIsShort(Cents(r4));
      OrderIsShort(Symbol(r2), Decimal.Print(Quantity(r3)), PriceText(Cents(r4)));
  }

  /** Every request a client makes is one the protocol delivers, and its payload is read as
      text unchanged. */
  lemma RequestIsSendable(w: Scenario, s: uint64)
    ensures var m := RequestFrom(w, s);
            && Frames.Canonical(m) && |m.payload| <= 100 && Text(m.payload) == TextFrom(w, s)
            && 1 <= m.header.messageType <= 5
  {
    hide After, Selected, Payload;
    PayloadIsShort(KindFrom(w, s), After(2, s), After(3, s), After(4, s));
    TextOfOctets(TextFrom(w, s));
  }

  /** Every request is understood as it was meant: the services recover from it the statement,
      the order, the account or the days that were drawn, and none falls back on a default. */
  lemma RequestUnderstood(w: Scenario, s: uint64)
    ensures var text, symbol := TextFrom(w, s), Symbol(After(2, s));
            match KindFrom(w, s)
            case SqlQuery =>
              Unescaped(text) == "SELECT symbol, " + "price FROM " + "quotes WHERE " + "symbol='" + symbol + "'"
            case GetPosition => StringOf(text, "account") == ACCOUNT
            case GetPriceHistory =>
              && PriceHistory.SymbolIn(text) == symbol
              && 7 <= Days(After(3, s)) <= 30
              && PriceHistory.Clamp(PriceHistory.IntOf(text, "days", 30)) == Days(After(3, s))
            case _ =>
              && 10 <= Quantity(After(3, s)) <= 500
              && Trade.OrderIn(text)
              == Trade.Order(symbol, Decimal.Print(Quantity(After(3, s))), PriceText(Cents(After(4, s))), ACCOUNT)
  {
    hide After, Selected, Decimal.Print, PriceText, Symbol, StringOf, NumberOf, AfterFirst, Trade.OrderIn;
    hide Trade.PrintOrder, PriceHistory.PrintRequest, PriceHistory.IntOf, Unescaped, Sql.PrintQuery;
    var symbol := Symbol(After(2, s));
    SymbolIsClean(After(2, s));
    match KindFrom(w, s)
    case SqlQuery => StatementRecovered(symbol);
    case GetPosition => AccountRead();
    case GetPriceHistory => PriceHistory.RequestReads(symbol, Days(After(3, s)));
    case _ =>
      Trade.OrderReads(symbol, Decimal.Print(Quantity(After(3, s))), PriceText(Cents(After(4, s))), ACCOUNT);
  }

  /** The statement the dialog would recover from the service's answer. */
  function Unescaped(request: string): string {
    Sql.Unescape(FieldOf(Sql.Result(request), "query"))
  }

  lemma StatementIsQuoteFree(symbol: string)
    requires QuoteFree(symbol)
    ensures QuoteFree(Statement(symbol)) && Statement(symbol) != ""
  {
    assert QuoteFree("SELECT symbol, ") && QuoteFree("price FROM ");
    assert QuoteFree("quotes WHERE ") && QuoteFree("symbol='") && QuoteFree("'");
  }

  lemma StatementRecovered(symbol: string)
    requires QuoteFree(symbol)
    ensures Unescaped(Sql.PrintQuery(Statement(symbol))) == Statement(symbol)
  {
    hide FieldOf, Statement, Sql.Unescape, Sql.Result, Sql.PrintQuery;
    StatementIsQuoteFree(symbol);
    Sql.QueryRoundTrip(Statement(symbol));
  }

  function AccountDoc(): seq<Item> {
    [Item("{", "account", Str(ACCOUNT))]
  }

  lemma AccountText()
    ensures Print(AccountDoc(), "}") == "{\"account\":\"ACC-001\"}"
  {
    assert AccountDoc()[1..] == [];
    assert PrintItem(AccountDoc()[0]) + "}" == "{\"account\":\"ACC-001\"}";
  }

  lemma AccountWellFormed()
    ensures WellFormed(AccountDoc(), "}")
  {
  }

  lemma AccountRead()
    ensures StringOf("{\"account\":\"ACC-001\"}", "account") == ACCOUNT
  {
    hide StringOf, Print, WellFormed;
    AccountText();
    AccountWellFormed();
    StringAt(AccountDoc(), "}", 0);
  }
}
