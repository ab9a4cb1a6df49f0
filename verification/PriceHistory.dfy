/** server/src/services/price_history_service.cpp, and the dialog client's reading of it.

    The clock and the floating-point walk are not modelled: `quote` gives the printed date and
    numbers of the candle i days ago for a symbol. */
module PriceHistory {
  import opened JsonText
  import opened Documents
  import opened Scanning
  import opened Sequences
  import Decimal

  datatype Candle = Candle(date: string, open: string, high: string, low: string, close: string, volume: string)

  type Quote = (string, nat) -> Candle

  /** Candles the readers can take apart: no quotes, no separators in the numbers, and no
      closing brace in the date. */
  predicate CleanCandle(c: Candle) {
    && QuoteFree(c.date) && '}' !in c.date
    && CleanValue(c.open) && CleanValue(c.high) && CleanValue(c.low) && CleanValue(c.close)
    && CleanValue(c.volume)
  }

  // ---------------------------------------------------------------------------------------
  // The number of days

  predicate IsSpace(c: char) {
    c == ' '
  }

  function IntOf(json: string, key: string, default: int): int {
    match AfterFirst(json, KeyNeedle(key))
    case None => default
    case Some(t) =>
      var digits := TakeWhile(Decimal.IsDigit, DropWhile(IsSpace, t));
      if digits == "" then default else Decimal.Value(digits)
  }

  method ExtractInt(json: string, key: string, default: int) returns (r: int)
    ensures r == IntOf(json, key, default)
  {
    hide Find, AfterFirst, TakeWhile, DropWhile;
    var found := Find(json, KeyNeedle(key), 0);
    FindIsAfterFirst(json, KeyNeedle(key), 0);
    assert json[0..] == json;
    if found == -1 {
      return default;
    }
    var start := SkipWhile(json, found + |KeyNeedle(key)|, IsSpace);
    var any;
    any, r := ReadDigits(json, start);
    if !any { r := default; }
  }

  /** The loop that accumulates the value. */
  method ReadDigits(json: string, start: nat) returns (any: bool, val: int)
    requires start <= |json|
    ensures var digits := TakeWhile(Decimal.IsDigit, json[start..]);
            (any <==> digits != "") && val == Decimal.Value(digits)
  {
    hide TakeWhile;
    var pos := start;
    val, any := 0, false;
    while pos < |json| && Decimal.IsDigit(json[pos])
      invariant start <= pos <= |json| && (forall c <- json[start..pos] :: Decimal.IsDigit(c))
      invariant any <==> pos > start
      invariant val == Decimal.Value(json[start..pos])
    {
      val := val * 10 + (json[pos] as int - '0' as int);
      pos := pos + 1;
      any := true;
      assert json[start..pos][..pos - 1 - start] == json[start..pos - 1];
    }
    forall i | start <= i < pos ensures Decimal.IsDigit(json[i]) {
      assert json[i] == json[start..pos][i - start];
      assert json[start..pos][i - start] in json[start..pos];
    }
    SkipTaken(json, start, pos, Decimal.IsDigit);
  }

  /** Behind the first occurrence of the key come blanks up to pos, and then digits up to end: what
      extract_int returns is their value, or the default if there are none. */
  lemma IntIs(json: string, key: string, default: int, start: nat, pos: nat, end: nat)
    requires StartsBehind(json, KeyNeedle(key), start) && start <= pos <= end <= |json|
    requires (forall i :: start <= i < pos ==> json[i] == ' ') && (pos < |json| ==> json[pos] != ' ')
    requires forall c <- json[pos..end] :: '0' <= c <= '9'
    requires end < |json| ==> !('0' <= json[end] <= '9')
    ensures IntOf(json, key, default) == if pos == end then default else Decimal.Value(json[pos..end])
  {
    assert KeyNeedle(key) != "";
    hide Find, AfterFirst, TakeWhile, DropWhile, StartsBehind, KeyNeedle, Decimal.Value;
    AfterStart(json, KeyNeedle(key), start);
    DropsTo(IsSpace, json, start, pos);
    forall i | pos <= i < end ensures Decimal.IsDigit(json[i]) {
      assert json[pos..end][i - pos] in json[pos..end];
    }
    SkipTaken(json, pos, end, Decimal.IsDigit);
  }

  function Clamp(days: int): (r: int)
    ensures 1 <= r <= 365
  {
    if days <= 0 || days > 365 then 30 else days
  }

  // ---------------------------------------------------------------------------------------
  // The response

  function CandleItems(lead: string, c: Candle): seq<Item> {
    [Item(lead, "date", Str(c.date))] + [Item(",", "open", Bare(c.open))] + [Item(",", "high", Bare(c.high))]
    + [Item(",", "low", Bare(c.low))] + [Item(",", "close", Bare(c.close))] + [Item(",", "volume", Bare(c.volume))]
  }

  function CandleText(c: Candle): string {
    Print(CandleItems("{", c), "}")
  }

  /** Candles behind each other, the first after the given lead. */
  function Candles(lead: string, cs: seq<Candle>): seq<Item>
    decreases |cs|
  {
    if cs == [] then [] else CandleItems(lead, cs[0]) + Candles("},{", cs[1..])
  }

  function Head(symbol: string): seq<Item> {
    [Item("{", "symbol", Str(symbol))] + [Item(",", "history", Bare("["))]
  }

  function HistoryDoc(symbol: string, cs: seq<Candle>): seq<Item> {
    Head(symbol) + Candles("{", cs)
  }

  /** The candles of the last n days, oldest first. */
  function LastDays(symbol: string, quote: Quote, n: nat): (cs: seq<Candle>)
    ensures |cs| == n
  {
    seq(n, k requires 0 <= k < n => quote(symbol, n - 1 - k))
  }

  function SymbolIn(request: string): string {
    var symbol := StringOf(request, "symbol");
    if symbol == "" then "AAPL" else symbol
  }

  function History(request: string, quote: Quote): string {
    var symbol := SymbolIn(request);
    Print(HistoryDoc(symbol, LastDays(symbol, quote, Clamp(IntOf(request, "days", 30)))), "}]}")
  }

  method HandleGetPriceHistory(request: string, quote: Quote) returns (response: string)
    ensures response == History(request, quote)
  {
    hide StringOf, IntOf, ExtractString, HistoryDoc, Print;
    var symbol := ExtractString(request, "symbol");
    ExtractStringReads(request, "symbol");
    if symbol == "" { symbol := "AAPL"; }
    var days := ExtractInt(request, "days", 30);
    if days <= 0 || days > 365 { days := 30; }
    response := PrintHistory(symbol, days, quote);
  }

  /** What the handler writes to its stream. */
  method PrintHistory(symbol: string, days: int, quote: Quote) returns (oss: string)
    requires days >= 1
    ensures oss == Print(HistoryDoc(symbol, LastDays(symbol, quote, days)), "}]}")
    ensures forall cs: seq<Candle> ::
              |cs| == days && (forall k :: 0 <= k < days ==> cs[k] == quote(symbol, days - 1 - k)) ==>
                oss == Print(HistoryDoc(symbol, cs), "}]}")
  {
    hide Candles, Print, CandleItems, Head;
    ghost var cs := LastDays(symbol, quote, days);
    ghost var doc := Head(symbol);
    oss := "{" + "\"symbol\":\"" + symbol + "\"," + "\"history\":" + "[" + "";
    HeadText(symbol);
    NoCandles();
    assert doc + [] == doc;
    var i := days - 1;
    while i >= 0
      invariant -1 <= i < days
      invariant doc == Head(symbol) + Candles("{", cs[..days - 1 - i])
      invariant oss == Print(doc, if i < days - 1 then "}" else "")
    {
      var c := quote(symbol, i);
      ghost var lead := LeadOf(doc, oss, i < days - 1);
      if i < days - 1 { oss := oss + ","; }
      oss := oss + "{" + "\"date\":\"" + c.date + "\"," + "\"open\":" + c.open + "," + "\"high\":" + c.high + ","
             + "\"low\":" + c.low + "," + "\"close\":" + c.close + "," + "\"volume\":" + c.volume + "}";
      AppendCandle(doc, lead, c);
      ghost var k := days - 1 - i;
      assert cs[..k + 1] == cs[..k] + [c];
      CandlesSnoc("{", cs[..k], c);
      ConcatAssociative(Head(symbol), Candles("{", cs[..k]), CandleItems(lead, c));
      doc := doc + CandleItems(lead, c);
      i := i - 1;
    }
    assert cs[..days] == cs;
    PrintTail(doc, "}", "]}");
    assert "}" + "]}" == "}]}";
    oss := oss + "]}";
    forall xs: seq<Candle> | |xs| == days && forall k :: 0 <= k < days ==> xs[k] == quote(symbol, days - 1 - k)
      ensures oss == Print(HistoryDoc(symbol, xs), "}]}")
    {
      assert xs == cs;
    }
  }

  lemma HeadText(symbol: string)
    ensures "{" + "\"symbol\":\"" + symbol + "\"," + "\"history\":" + "[" + "" == Print(Head(symbol), "")
  {
    Openings();
    var first := [Item("{", "symbol", Str(symbol))];
    assert Print([], "{") == "{" && [] + first == first;
    hide Print;
    AppendStrComma([], "{", "symbol", symbol, "\"symbol\":\"");
    AppendBare(first, ",", "history", "[", "\"history\":", "");
  }

  /** The comma between candles, and none before the first. */
  lemma LeadOf(doc: seq<Item>, oss: string, more: bool) returns (lead: string)
    requires oss == Print(doc, if more then "}" else "")
    ensures lead == if more then "},{" else "{"
    ensures (if more then oss + "," else oss) + "{" == Print(doc, lead)
  {
    lead := if more then "},{" else "{";
    if more {
      PrintTail(doc, "}", ",");
      PrintTail(doc, "},", "{");
      assert "}" + "," == "}," && "}," + "{" == "},{";
    } else {
      PrintTail(doc, "", "{");
      assert "" + "{" == "{";
    }
  }

  lemma NoCandles()
    ensures Candles("{", []) == []
  {
  }

  lemma Openings()
    ensures "\"symbol\":\"" == "\"" + "symbol" + "\":\"" && "\"history\":" == "\"" + "history" + "\":"
    ensures "\"date\":\"" == "\"" + "date" + "\":\"" && "\"open\":" == "\"" + "open" + "\":"
    ensures "\"high\":" == "\"" + "high" + "\":" && "\"low\":" == "\"" + "low" + "\":"
    ensures "\"close\":" == "\"" + "close" + "\":" && "\"volume\":" == "\"" + "volume" + "\":"
    ensures "\"days\":" == "\"" + "days" + "\":"
  {
  }

  lemma AppendCandle(doc: seq<Item>, lead: string, c: Candle)
    ensures Print(doc, lead) + "\"date\":\"" + c.date + "\"," + "\"open\":" + c.open + "," + "\"high\":" + c.high + ","
            + "\"low\":" + c.low + "," + "\"close\":" + c.close + "," + "\"volume\":" + c.volume + "}"
         == Print(doc + CandleItems(lead, c), "}")
  {
    hide Print;
    Openings();
    var d1 := doc + [Item(lead, "date", Str(c.date))];
    var d2 := d1 + [Item(",", "open", Bare(c.open))];
    var d3 := d2 + [Item(",", "high", Bare(c.high))];
    var d4 := d3 + [Item(",", "low", Bare(c.low))];
    var d5 := d4 + [Item(",", "close", Bare(c.close))];
    AppendStrComma(doc, lead, "date", c.date, "\"date\":\"");
    AppendBare(d1, ",", "open", c.open, "\"open\":", ",");
    AppendBare(d2, ",", "high", c.high, "\"high\":", ",");
    AppendBare(d3, ",", "low", c.low, "\"low\":", ",");
    AppendBare(d4, ",", "close", c.close, "\"close\":", ",");
    AppendBare(d5, ",", "volume", c.volume, "\"volume\":", "}");
    assert d5 + [Item(",", "volume", Bare(c.volume))] == doc + CandleItems(lead, c);
  }

  lemma {:induction false} CandlesSnoc(lead: string, cs: seq<Candle>, c: Candle)
    ensures Candles(lead, cs + [c]) == Candles(lead, cs) + CandleItems(if cs == [] then lead else "},{", c)
    decreases |cs|
  {
    hide CandleItems;
    if cs == [] {
      assert (cs + [c])[1..] == [];
    } else {
      CandlesSnoc("},{", cs[1..], c);
      assert (cs + [c])[1..] == cs[1..] + [c];
    }
  }

  // ---------------------------------------------------------------------------------------
  // The shape of the response

  /** The candles as entries of a list. */
  function EntriesOf(cs: seq<Candle>): (es: seq<seq<Item>>)
    ensures |es| == |cs|
  {
    seq(|cs|, i requires 0 <= i < |cs| => CandleItems("{", cs[i]))
  }

  lemma {:induction false} CandlesAreList(lead: string, cs: seq<Candle>)
    ensures Candles(lead, cs) == List(lead, EntriesOf(cs))
    decreases |cs|
  {
    hide CandleItems, Led;
    if cs != [] {
      CandlesAreList("},{", cs[1..]);
      assert EntriesOf(cs)[1..] == EntriesOf(cs[1..]);
      CandleLed(lead, cs[0]);
    }
  }

  lemma CandleLed(lead: string, c: Candle)
    ensures CandleItems(lead, c) == Led(lead, CandleItems("{", c))
  {
  }

  /** The response is its beginning, the candles separated by single commas, and the end: no
      comma before the first or behind the last. */
  lemma HistoryText(symbol: string, cs: seq<Candle>)
    requires cs != []
    ensures Print(HistoryDoc(symbol, cs), "}]}")
         == Print(Head(symbol), "") + CandleText(cs[0]) + Rest(EntriesOf(cs)[1..], "]}")
  {
    hide Print, Head, Candles, List, Rest;
    CandlesAreList("{", cs);
    forall e <- EntriesOf(cs) ensures Opens(e) {
      var k :| 0 <= k < |cs| && e == CandleItems("{", cs[k]);
    }
    Empty("}]}");
    assert "" + "{" == "{" && "}" + "]}" == "}]}";
    assert List("{", EntriesOf(cs)) + [] == List("{", EntriesOf(cs));
    ListText(Head(symbol), "", EntriesOf(cs), [], "}]}", "]}");
  }

  // ---------------------------------------------------------------------------------------
  // Counting the candles

  lemma CandleShape(lead: string, c: Candle)
    requires Plain(lead) && CleanCandle(c)
    ensures |CandleItems(lead, c)| == 6 && (forall item <- CandleItems(lead, c) :: PlainItem(item))
    ensures forall j :: 1 <= j < 6 ==> CandleItems(lead, c)[j].key != "date"
  {
    assert "date"[0] != "high"[0] && "date"[0] != "open"[0];
  }

  lemma {:induction false} CandlesShape(lead: string, cs: seq<Candle>)
    requires Plain(lead) && forall c <- cs :: CleanCandle(c)
    ensures (forall item <- Candles(lead, cs) :: PlainItem(item)) && KeyCount(Candles(lead, cs), "date") == |cs|
    decreases |cs|
  {
    hide CandleItems, KeyCount, CleanCandle, Plain, PlainItem;
    if cs == [] {
      NoItems();
    } else {
      BraceIsPlain();
      CandleShape(lead, cs[0]);
      CandlesShape("},{", cs[1..]);
      KeyCountConcat(CandleItems(lead, cs[0]), Candles("},{", cs[1..]), "date");
      OneDate(lead, cs[0]);
    }
  }

  lemma NoItems()
    ensures KeyCount([], "date") == 0
  {
  }

  lemma BraceIsPlain()
    ensures Plain("},{") && Plain("{") && Plain(",{") && Plain("}]}") && Plain("}") && Plain("date")
  {
  }

  lemma OneDate(lead: string, c: Candle)
    ensures KeyCount(CandleItems(lead, c), "date") == 1
  {
    hide KeyCount;
    assert "date"[0] != "high"[0] && "date"[0] != "open"[0];
    var i := CandleItems(lead, c);
    assert i == [i[0]] + [i[1]] + [i[2]] + [i[3]] + [i[4]] + [i[5]];
    KeyCountConcat([i[0]] + [i[1]] + [i[2]] + [i[3]] + [i[4]], [i[5]], "date");
    KeyCountConcat([i[0]] + [i[1]] + [i[2]] + [i[3]], [i[4]], "date");
    KeyCountConcat([i[0]] + [i[1]] + [i[2]], [i[3]], "date");
    KeyCountConcat([i[0]] + [i[1]], [i[2]], "date");
    KeyCountConcat([i[0]], [i[1]], "date");
    OneItem(i[0], "date");
    OneItem(i[1], "date");
    OneItem(i[2], "date");
    OneItem(i[3], "date");
    OneItem(i[4], "date");
    OneItem(i[5], "date");
  }

  lemma HeadShape(symbol: string)
    requires QuoteFree(symbol)
    ensures forall item <- Head(symbol) :: PlainItem(item) && item.key != "date"
    ensures KeyCount(Head(symbol), "date") == 0
  {
    hide KeyCount;
    KeyCountConcat([Item("{", "symbol", Str(symbol))], [Item(",", "history", Bare("["))], "date");
    OneItem(Item("{", "symbol", Str(symbol)), "date");
    OneItem(Item(",", "history", Bare("[")), "date");
  }

  /** The dialog's counting loop finds one date per candle. */
  lemma CountsCandles(symbol: string, cs: seq<Candle>)
    requires QuoteFree(symbol) && forall c <- cs :: CleanCandle(c)
    ensures CountAfter(Print(HistoryDoc(symbol, cs), "}]}"), KeyNeedle("date")) == |cs|
  {
    hide CountAfter, Print, Candles, Head, KeyCount, CleanCandle, PlainItem, Plain;
    BraceIsPlain();
    NeedleForms("date");
    HeadShape(symbol);
    CandlesShape("{", cs);
    KeyCountConcat(Head(symbol), Candles("{", cs), "date");
    CountsKeys(HistoryDoc(symbol, cs), "}]}", "date");
  }

  /** Whatever the request, the dialog counts as many candles as days the service settled on. */
  lemma CountsDays(request: string, quote: Quote)
    requires forall symbol, i :: CleanCandle(quote(symbol, i))
    ensures CountAfter(History(request, quote), KeyNeedle("date")) == Clamp(IntOf(request, "days", 30))
  {
    hide CountAfter, Print, HistoryDoc, CleanCandle, IntOf, StringOf;
    var symbol := SymbolIn(request);
    SymbolQuoteFree(request);
    CountsCandles(symbol, LastDays(symbol, quote, Clamp(IntOf(request, "days", 30))));
  }

  lemma SymbolQuoteFree(request: string)
    ensures QuoteFree(SymbolIn(request))
  {
  }

  // ---------------------------------------------------------------------------------------
  // The request

  /** What both clients print; days is an int. */
  function PrintRequest(symbol: string, days: int): string {
    "{" + "\"symbol\":\"" + symbol + "\"," + "\"days\":" + Decimal.PrintInt(days) + "}"
  }

  lemma RequestReads(symbol: string, days: int)
    requires QuoteFree(symbol)
    ensures IntOf(PrintRequest(symbol, days), "days", 30) == if days < 0 then 30 else days
    ensures StringOf(PrintRequest(symbol, days), "symbol") == symbol
  {
    hide StringOf, AfterFirst, TakeWhile, DropWhile, Needle, Decimal.Print, Decimal.Value, IndexOf;
    Openings();
    var digits := Decimal.PrintInt(days);
    var first, second := [Item("{", "symbol", Str(symbol))], [Item(",", "days", Bare(digits))];
    assert Print([], "{") == "{" && [] + first == first;
    hide Print;
    AppendStrComma([], "{", "symbol", symbol, "\"symbol\":\"");
    AppendBare(first, ",", "days", digits, "\"days\":", "}");
    var doc := first + second;
    assert forall c <- digits :: c == '-' || Decimal.IsDigit(c);
    assert WellFormed(doc, "}");
    IndexIs(doc, "symbol", true, 0);
    StringReads(doc, "}", "symbol");
    IndexIs(doc, "days", false, 1);
    NeedleForms("days");
    FirstOccurrence(doc, "}", "days", false);
    DaysRead(doc, days);
  }

  lemma DaysRead(doc: seq<Item>, days: int)
    requires |doc| == 2 && doc[1].value == Bare(Decimal.PrintInt(days))
    ensures var digits := TakeWhile(Decimal.IsDigit, DropWhile(IsSpace, doc[1].value.text + Print(doc[2..], "}")));
            if days < 0 then digits == "" else digits != "" && Decimal.Value(digits) == days
  {
    var text := doc[1].value.text;
    if days < 0 {
      assert text[0] == '-' && (text + Print(doc[2..], "}"))[0] == '-';
    } else {
      assert text[0] in text;
      BareReads(Decimal.IsDigit, IsSpace, doc, "}", 1);
      Decimal.ValueOfPrint(days);
    }
  }

  /** Round trip of the days: for every int the dialog asks for, it counts that many candles if
      it is in 1..365, and 30 otherwise. */
  lemma DaysRoundTrip(symbol: string, days: int, quote: Quote)
    requires QuoteFree(symbol) && forall s, i :: CleanCandle(quote(s, i))
    ensures CountAfter(History(PrintRequest(symbol, days), quote), KeyNeedle("date"))
         == if 1 <= days <= 365 then days else 30
  {
    hide CountAfter, History, IntOf, StringOf, CleanCandle;
    RequestReads(symbol, days);
    CountsDays(PrintRequest(symbol, days), quote);
  }

  // ---------------------------------------------------------------------------------------
  // Scanning the candles

  /** What the dialog extracts from one entry. */
  function CandleIn(entry: string): Candle {
    Candle(FieldOf(entry, "date"), FieldOf(entry, "open"), FieldOf(entry, "high"), FieldOf(entry, "low"),
           FieldOf(entry, "close"), FieldOf(entry, "volume"))
  }

  const SHOWN := 5

  /** What the dialog shows: the first five entries. */
  function Shown(json: string): seq<Candle> {
    var es := EntriesIn(json, "date");
    seq(if |es| < SHOWN then |es| else SHOWN, i requires 0 <= i < |es| => CandleIn(es[i]))
  }

  /** The dialog's loop over the first five candles. */
  method ScanCandles(json: string) returns (shown: seq<Candle>)
    ensures shown == Shown(json)
  {
    hide CandleIn, EntriesIn;
    shown := [];
    var p: nat := 0;
    ghost var all := EntriesIn(json, "date");
    assert json[0..] == json;
    while |shown| < SHOWN
      invariant p <= |json| && |shown| <= SHOWN && |shown| <= |all|
      invariant all[|shown|..] == EntriesIn(json[p..], "date")
      invariant forall i :: 0 <= i < |shown| ==> shown[i] == CandleIn(all[i])
      decreases SHOWN - |shown|
    {
      var found, entry, next := NextEntry(json, "date", p);
      if !found { break; }
      assert all[|shown|..][0] == entry && all[|shown|..][1..] == all[|shown| + 1..];
      var c := ReadEntry(entry);
      shown := shown + [c];
      p := next;
    }
  }

  method ReadEntry(entry: string) returns (c: Candle)
    ensures c == CandleIn(entry)
  {
    hide FieldOf;
    var date := ExtractField(entry, "date");
    var open := ExtractField(entry, "open");
    var high := ExtractField(entry, "high");
    var low := ExtractField(entry, "low");
    var close := ExtractField(entry, "close");
    var volume := ExtractField(entry, "volume");
    c := Candle(date, open, high, low, close, volume);
  }

  /** An entry is read back field by field. */
  lemma EntryReadsBack(c: Candle)
    requires CleanCandle(c)
    ensures CandleIn(CandleText(c)) == c
  {
    hide FieldOf, Print, CandleItems;
    FieldsRead(c);
  }

  lemma FieldsRead(c: Candle)
    requires CleanCandle(c)
    ensures var text := CandleText(c);
            && FieldOf(text, "date") == c.date && FieldOf(text, "open") == c.open && FieldOf(text, "high") == c.high
            && FieldOf(text, "low") == c.low && FieldOf(text, "close") == c.close && FieldOf(text, "volume") == c.volume
  {
    hide FieldOf, CleanCandle, CandleItems, Print, Plain, PlainItem, Reads;
    var doc := CandleItems("{", c);
    assert CandleText(c) == Print(doc, "}");
    CandleFields(c);
    BraceIsPlain();
    CandleShape("{", c);
    CandleReads(c);
    hide *;
    WellFormedFrom(doc, "}");
    KeysDiffer();
    AllByKey(doc, "}");
  }

  lemma CandleFields(c: Candle)
    ensures var doc := CandleItems("{", c);
            && |doc| == 6 && doc[0].key == "date" && doc[1].key == "open" && doc[2].key == "high" && doc[3].key == "low"
            && doc[4].key == "close" && doc[5].key == "volume"
            && doc[0].value == Str(c.date) && doc[1].value == Bare(c.open) && doc[2].value == Bare(c.high)
            && doc[3].value == Bare(c.low) && doc[4].value == Bare(c.close) && doc[5].value == Bare(c.volume)
  {
  }

  lemma WellFormedFrom(doc: seq<Item>, tail: string)
    requires Plain(tail) && forall item <- doc :: PlainItem(item)
    ensures WellFormed(doc, tail)
  {
  }

  lemma CandleReads(c: Candle)
    requires CleanCandle(c)
    ensures forall j :: 1 <= j < 6 ==> Reads(FieldChar, Blank, CandleItems("{", c), "}", j)
  {
  }

  lemma KeysDiffer()
    ensures "date" != "open" && "date" != "high" && "date" != "low" && "date" != "close" && "date" != "volume"
    ensures "open" != "high" && "open" != "low" && "open" != "close" && "open" != "volume"
    ensures "high" != "low" && "high" != "close" && "high" != "volume"
    ensures "low" != "close" && "low" != "volume" && "close" != "volume"
    ensures Plain("open") && Plain("high") && Plain("low") && Plain("close") && Plain("volume")
  {
    assert "date"[0] != "open"[0] && "date"[0] != "high"[0] && "open"[0] != "high"[0];
  }

  lemma CandleBraceFree(c: Candle)
    requires CleanCandle(c)
    ensures forall item <- CandleItems("{", c) :: BraceFree(item)
  {
    CandleKeysBraceFree();
    assert '}' !in c.open && '}' !in c.high && '}' !in c.low && '}' !in c.close && '}' !in c.volume;
    hide CleanCandle, CleanValue;
  }

  lemma CandleKeysBraceFree()
    ensures '}' !in "date" && '}' !in "open" && '}' !in "high" && '}' !in "low" && '}' !in "close" && '}' !in "volume"
  {
  }

  lemma CandleIsEntry(c: Candle)
    requires CleanCandle(c)
    ensures IsEntry(CandleItems("{", c), "date")
  {
    BraceIsPlain();
    CandleShape("{", c);
    CandleBraceFree(c);
    assert Opens(CandleItems("{", c)) && CandleItems("{", c)[0].key == "date";
    hide *;
  }

  lemma EndHasNoEntries()
    ensures EntriesIn("]}", "date") == []
  {
    hide EntriesIn;
    ScanStops("]}", "date");
  }

  /** Oldest first: for every request that settles on n days, a scan of the response finds n
      entries, and the k-th is the candle of the day n - 1 - k days ago, all fields unchanged. */
  lemma OldestFirst(request: string, quote: Quote)
    requires forall symbol, i :: CleanCandle(quote(symbol, i))
    ensures var es, n := EntriesIn(History(request, quote), "date"), Clamp(IntOf(request, "days", 30));
            && |es| == n
            && forall k :: 0 <= k < n ==> CandleIn(es[k]) == quote(SymbolIn(request), n - 1 - k)
  {
    hide Print, HistoryDoc, CleanCandle, IntOf, StringOf, EntriesIn, CandleIn, CandleItems;
    var symbol := SymbolIn(request);
    var cs := LastDays(symbol, quote, Clamp(IntOf(request, "days", 30)));
    SymbolQuoteFree(request);
    EntriesScanned(symbol, cs);
    forall k | 0 <= k < |cs| ensures CandleIn(CandleText(cs[k])) == cs[k] {
      EntryReadsBack(cs[k]);
    }
  }

  /** So the dialog shows the oldest five days asked for, or all if there are fewer, each day's
      candle unchanged. */
  lemma ShowsFirstFive(request: string, quote: Quote)
    requires forall symbol, i :: CleanCandle(quote(symbol, i))
    ensures var shown, n := Shown(History(request, quote)), Clamp(IntOf(request, "days", 30));
            && |shown| == (if n < 5 then n else 5)
            && forall k :: 0 <= k < |shown| ==> shown[k] == quote(SymbolIn(request), n - 1 - k)
  {
    hide History, CleanCandle, IntOf, StringOf, EntriesIn, CandleIn;
    OldestFirst(request, quote);
  }

  /** And the symbol asked for. */
  lemma SymbolReadsBack(request: string, quote: Quote)
    requires forall symbol, i :: CleanCandle(quote(symbol, i))
    ensures FieldOf(History(request, quote), "symbol")
         == if StringOf(request, "symbol") == "" then "AAPL" else StringOf(request, "symbol")
  {
    hide Print, FieldOf, CleanCandle, IntOf, StringOf, KeyCount, PlainItem, Plain, Candles;
    var symbol := SymbolIn(request);
    var cs := LastDays(symbol, quote, Clamp(IntOf(request, "days", 30)));
    var doc := HistoryDoc(symbol, cs);
    SymbolQuoteFree(request);
    HeadShape(symbol);
    BraceIsPlain();
    CandlesShape("{", cs);
    assert doc[0] == Head(symbol)[0];
    assert forall item <- doc :: PlainItem(item);
    hide HistoryDoc, Head;
    WellFormedFrom(doc, "}]}");
    FieldAt(doc, "}]}", 0);
  }

  /** The scan of a response finds its candles' texts. */
  lemma EntriesScanned(symbol: string, cs: seq<Candle>)
    requires QuoteFree(symbol) && cs != [] && forall c <- cs :: CleanCandle(c)
    ensures var es := EntriesIn(Print(HistoryDoc(symbol, cs), "}]}"), "date");
            |es| == |cs| && forall k :: 0 <= k < |cs| ==> es[k] == CandleText(cs[k])
  {
    hide Print, Head, Candles, List, EntriesIn, CandleItems, CleanCandle, PlainItem, Plain, IsEntry;
    var es := EntriesOf(cs);
    CandlesAreList("{", cs);
    forall e <- es ensures IsEntry(e, "date") {
      var k :| 0 <= k < |cs| && e == CandleItems("{", cs[k]);
      CandleIsEntry(cs[k]);
    }
    HeadShape(symbol);
    BraceIsPlain();
    EndHasNoEntries();
    Empty("}]}");
    assert "}" + "]}" == "}]}";
    assert List("{", es) + [] == List("{", es);
    DocumentScanned(Head(symbol), es, [], "}]}", "]}", "date");
    assert forall k :: 0 <= k < |es| ==> Texts(es)[k] == EntryText(es[k]);
  }
}
