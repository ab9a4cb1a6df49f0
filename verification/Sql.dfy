/** server/src/services/sql_service.cpp, and the dialog client's reading of its results. */
module Sql {
  import opened JsonText
  import opened Documents
  import opened Scanning

  // ---------------------------------------------------------------------------------------
  // json_escape

  function EscapeChar(c: char): (r: string)
    ensures 1 <= |r| <= 2
  {
    if c == '"' then "\\\""
    else if c == '\\' then "\\\\"
    else if c == '\n' then "\\n"
    else if c == '\r' then "\\r"
    else if c == '\t' then "\\t"
    else [c]
  }

  function Escape(s: string): string {
    if s == "" then "" else EscapeChar(s[0]) + Escape(s[1..])
  }

  method JsonEscape(s: string) returns (out: string)
    ensures out == Escape(s)
  {
    out := "";
    for i := 0 to |s|
      invariant out + Escape(s[i..]) == Escape(s)
    {
      assert s[i..][1..] == s[i + 1..];
      assert out + (EscapeChar(s[i]) + Escape(s[i + 1..])) == out + EscapeChar(s[i]) + Escape(s[i + 1..]);
      out := out + EscapeChar(s[i]);
    }
  }

  /** Reading the escapes back. */
  function Unescape(t: string): string {
    if t == "" then ""
    else if t[0] == '\\' && |t| >= 2 then
      [match t[1] case 'n' => '\n' case 'r' => '\r' case 't' => '\t' case c => c] + Unescape(t[2..])
    else [t[0]] + Unescape(t[1..])
  }

  /** Escaping loses nothing, on any string, and at most doubles its length. */
  lemma {:induction false} UnescapeEscape(s: string)
    ensures Unescape(Escape(s)) == s
    ensures |s| <= |Escape(s)| <= 2 * |s|
  {
    if s != "" {
      UnescapeEscape(s[1..]);
      var e, r := EscapeChar(s[0]), Escape(s[1..]);
      if |e| == 2 {
        assert (e + r)[2..] == r && (e + r)[0] == '\\' && (e + r)[1] == e[1];
      } else {
        assert (e + r)[1..] == r && (e + r)[0] == s[0];
      }
      assert [s[0]] + s[1..] == s;
    }
  }

  /** The length of the run of backslashes at the end of a text. */
  function TrailingRun(t: string): nat {
    if t == "" || t[|t| - 1] != '\\' then 0 else 1 + TrailingRun(t[..|t| - 1])
  }

  predicate Odd(n: nat) {
    n % 2 == 1
  }

  /** Every quote in the output is escaped: an odd run of backslashes comes before it. */
  lemma QuotesEscaped(s: string, i: nat)
    requires i < |Escape(s)| && Escape(s)[i] == '"'
    ensures TrailingRun(Escape(s)[..i]) % 2 == 1
  {
    QuotesEscapedBehind("", s, i);
    assert "" + Escape(s) == Escape(s);
  }

  lemma {:induction false} QuotesEscapedBehind(p: string, s: string, i: nat)
    requires !Odd(TrailingRun(p))
    requires |p| <= i < |p + Escape(s)| && (p + Escape(s))[i] == '"'
    ensures Odd(TrailingRun((p + Escape(s))[..i]))
    decreases |s|
  {
    hide TrailingRun, Odd;
    if s != "" {
      var e, r := EscapeChar(s[0]), Escape(s[1..]);
      var q := p + e;
      assert p + (e + r) == q + r;
      RunOfEscape(p, s[0]);
      if i >= |q| {
        QuotesEscapedBehind(q, s[1..], i);
      } else {
        assert (q + r)[i] == e[i - |p|];
        assert i == |p| + 1;
        EscapeBegins(s[0]);
        EscapedQuote(p, e, r);
      }
    }
  }

  lemma EscapeBegins(c: char)
    ensures |EscapeChar(c)| == 2 ==> EscapeChar(c)[0] == '\\'
  {
  }

  lemma EscapedQuote(p: string, e: string, r: string)
    requires !Odd(TrailingRun(p)) && e != "" && e[0] == '\\'
    ensures Odd(TrailingRun((p + e + r)[..|p| + 1]))
  {
    hide *;
    TakeOne(p, e, r);
    BackslashBehind(p);
    OddNext(TrailingRun(p));
  }

  lemma OddNext(n: nat)
    requires !Odd(n)
    ensures Odd(n + 1) && !Odd(n + 2)
  {
  }

  lemma ZeroIsEven()
    ensures !Odd(0)
  {
  }

  lemma TakeOne(p: string, e: string, r: string)
    requires e != ""
    ensures (p + e + r)[..|p| + 1] == p + [e[0]]
  {
  }

  lemma BackslashBehind(p: string)
    ensures TrailingRun(p + ['\\']) == TrailingRun(p) + 1
  {
    assert (p + ['\\'])[..|p|] == p;
  }

  lemma OtherBehind(p: string, e: string)
    requires e != "" && e[|e| - 1] != '\\'
    ensures TrailingRun(p + e) == 0
  {
    assert (p + e)[|p + e| - 1] == e[|e| - 1];
  }

  lemma RunOfEscape(p: string, c: char)
    requires !Odd(TrailingRun(p))
    ensures !Odd(TrailingRun(p + EscapeChar(c)))
  {
    var e := EscapeChar(c);
    assert if c == '\\' then e == ['\\'] + ['\\'] else e[|e| - 1] != '\\';
    hide *;
    if c == '\\' {
      BackslashBehind(p);
      BackslashBehind(p + ['\\']);
      OddNext(TrailingRun(p));
      assert p + e == p + ['\\'] + ['\\'];
    } else {
      OtherBehind(p, e);
      ZeroIsEven();
    }
  }

  // ---------------------------------------------------------------------------------------
  // Section 7 of RFC 8259

  predicate HexDigit(c: char) {
    '0' <= c <= '9' || 'a' <= c <= 'f' || 'A' <= c <= 'F'
  }

  /** What may stand between the quotes of a JSON string. */
  predicate LegalContent(t: string) {
    t == ""
    || (t[0] != '"' && t[0] != '\\' && t[0] >= ' ' && LegalContent(t[1..]))
    || (|t| >= 2 && t[0] == '\\' && t[1] in "\"\\/bfnrt" && LegalContent(t[2..]))
    || (|t| >= 6 && t[0] == '\\' && t[1] == 'u' && (forall i :: 2 <= i < 6 ==> HexDigit(t[i])) && LegalContent(t[6..]))
  }

  predicate Escapable(c: char) {
    c >= ' ' || c == '\n' || c == '\r' || c == '\t'
  }

  predicate Ascii(c: char) {
    c as int < 0x80
  }

  /** Whether the i-th byte is there and within the bounds. */
  predicate In(t: string, i: nat, lo: int, hi: int) {
    i < |t| && lo <= t[i] as int <= hi
  }

  /** The length of the well-formed UTF-8 sequence a text begins with (section 4 of RFC 3629),
      0 if it begins with none.  A char of the text is a byte. */
  function Sequence(t: string): (n: nat)
    ensures n <= 4 && n <= |t|
  {
    if In(t, 0, 0, 0x7F) then 1
    else if In(t, 0, 0xC2, 0xDF) && In(t, 1, 0x80, 0xBF) then 2
    else if In(t, 2, 0x80, 0xBF)
            && ((In(t, 0, 0xE0, 0xE0) && In(t, 1, 0xA0, 0xBF)) || (In(t, 0, 0xE1, 0xEC) && In(t, 1, 0x80, 0xBF))
                || (In(t, 0, 0xED, 0xED) && In(t, 1, 0x80, 0x9F)) || (In(t, 0, 0xEE, 0xEF) && In(t, 1, 0x80, 0xBF)))
    then 3
    else if In(t, 2, 0x80, 0xBF) && In(t, 3, 0x80, 0xBF)
            && ((In(t, 0, 0xF0, 0xF0) && In(t, 1, 0x90, 0xBF)) || (In(t, 0, 0xF1, 0xF3) && In(t, 1, 0x80, 0xBF))
                || (In(t, 0, 0xF4, 0xF4) && In(t, 1, 0x80, 0x8F)))
    then 4
    else 0
  }

  predicate Utf8(t: string) {
    t == "" || (Sequence(t) > 0 && Utf8(t[Sequence(t)..]))
  }

  /** Legal content of a JSON string, as bytes. */
  predicate Legal(t: string) {
    LegalContent(t) && Utf8(t)
  }

  /** How many bytes above ASCII a text begins with. */
  function HighRun(t: string): (n: nat)
    ensures n <= |t| && (forall i :: 0 <= i < n ==> !Ascii(t[i])) && (n < |t| ==> Ascii(t[n]))
  {
    if t == "" || Ascii(t[0]) then 0 else 1 + HighRun(t[1..])
  }

  /** Escaping leaves bytes above ASCII alone, and what comes behind them begins with none. */
  lemma {:induction false} EscapeHigh(s: string, n: nat)
    requires n <= |s| && forall i :: 0 <= i < n ==> !Ascii(s[i])
    ensures n <= |Escape(s)| && Escape(s)[..n] == s[..n] && Escape(s)[n..] == Escape(s[n..])
    decreases n
  {
    if n > 0 {
      EscapeHigh(s[1..], n - 1);
      assert EscapeChar(s[0]) == [s[0]];
      var t, r := Escape(s), Escape(s[1..]);
      assert t == [s[0]] + r && t[1..] == r;
      assert t[..n] == [s[0]] + r[..n - 1] && s[..n] == [s[0]] + s[1..][..n - 1];
      assert t[n..] == r[n - 1..] && s[n..] == s[1..][n - 1..];
    } else {
      assert s[0..] == s;
    }
  }

  /** An escaped text begins with a byte above ASCII only if the text does. */
  lemma EscapeLow(s: string)
    requires s == "" || Ascii(s[0])
    ensures Escape(s) == "" <==> s == ""
    ensures s != "" ==> Ascii(Escape(s)[0])
  {
  }

  /** Sequences are made of their first bytes above ASCII alone. */
  lemma SequenceOfHigh(s: string, t: string, n: nat)
    requires 0 < n <= |s| && n <= |t| && s[..n] == t[..n] && forall i :: 0 <= i < n ==> !Ascii(s[i])
    requires (n < |s| ==> Ascii(s[n])) && (n < |t| ==> Ascii(t[n]))
    ensures Sequence(s) == Sequence(t) <= n
  {
    SequenceWithin(s, n);
    SequenceOfPrefix(s, n);
    SequenceOfPrefix(t, n);
  }

  lemma SequenceWithin(s: string, n: nat)
    requires 0 < n <= |s| && !Ascii(s[0]) && (n < |s| ==> Ascii(s[n]))
    ensures Sequence(s) <= n
  {
  }

  lemma SequenceOfPrefix(s: string, n: nat)
    requires 0 < n <= |s| && !Ascii(s[0]) && (n < |s| ==> Ascii(s[n]))
    ensures Sequence(s) == Sequence(s[..n])
  {
    var t := s[..n];
    assert forall i: nat, lo, hi :: 0x80 <= lo ==> (In(t, i, lo, hi) <==> In(s, i, lo, hi) && i < n);
  }

  /** json_escape keeps what is UTF-8, and makes nothing else so. */
  lemma {:induction false} EscapeUtf8(s: string)
    ensures Utf8(Escape(s)) <==> Utf8(s)
    decreases |s|
  {
    hide Sequence, Escape;
    if s == "" {
      EscapeLow(s);
    } else if Ascii(s[0]) {
      EscapeUtf8(s[1..]);
      AsciiFirst(s);
    } else {
      var n, t := HighRun(s), Escape(s);
      EscapeHigh(s, n);
      EscapeLow(s[n..]);
      SequenceOfHigh(s, t, n);
      var k := Sequence(s);
      if k > 0 {
        EscapeHigh(s, k);
        EscapeUtf8(s[k..]);
      }
    }
  }

  lemma AsciiFirst(s: string)
    requires s != "" && Ascii(s[0])
    ensures Utf8(s) <==> Utf8(s[1..])
    ensures Utf8(Escape(s)) <==> Utf8(Escape(s[1..]))
  {
    EscapeAscii(s[0]);
    AsciiStep(s);
    assert Escape(s) == EscapeChar(s[0]) + Escape(s[1..]);
    hide *;
    AsciiBefore(EscapeChar(s[0]), Escape(s[1..]));
  }

  lemma AsciiBefore(e: string, r: string)
    requires 1 <= |e| <= 2 && Ascii(e[0]) && (|e| == 2 ==> Ascii(e[1]))
    ensures Utf8(e + r) <==> Utf8(r)
  {
    hide *;
    var t := e + r;
    AsciiStep(t);
    if |e| == 2 {
      AsciiStep(t[1..]);
      assert t[1..][1..] == r;
    } else {
      assert t[1..] == r;
    }
  }

  lemma EscapeAscii(c: char)
    requires Ascii(c)
    ensures var e := EscapeChar(c); Ascii(e[0]) && (|e| == 2 ==> Ascii(e[1]))
  {
  }

  lemma AsciiStep(t: string)
    requires t != "" && Ascii(t[0])
    ensures Utf8(t) <==> Utf8(t[1..])
  {
    assert Sequence(t) == 1;
  }

  /** json_escape produces legal content exactly when the text is UTF-8 and has no control
      characters but the three it knows. */
  lemma LegalIff(s: string)
    ensures Legal(Escape(s)) <==> Utf8(s) && forall c <- s :: Escapable(c)
  {
    hide Utf8, LegalContent;
    EscapeUtf8(s);
    LegalContentIff(s);
  }

  lemma {:induction false} LegalContentIff(s: string)
    ensures LegalContent(Escape(s)) <==> forall c <- s :: Escapable(c)
  {
    if s != "" {
      var e, r := EscapeChar(s[0]), Escape(s[1..]);
      var t := e + r;
      LegalContentIff(s[1..]);
      assert (forall c <- s :: Escapable(c)) <==> Escapable(s[0]) && (forall c <- s[1..] :: Escapable(c)) by {
        assert s == [s[0]] + s[1..];
      }
      if |e| == 2 {
        assert t[0] == '\\' && t[1] == e[1] && t[2..] == r;
        assert e[1] in "\"\\/bfnrt" && e[1] != 'u';
      } else {
        assert t[0] == s[0] && t[1..] == r;
      }
    }
  }

  // ---------------------------------------------------------------------------------------
  // The handler

  function Row(lead: string, symbol: string, price: string, volume: string): seq<Item> {
    [Item(lead, "symbol", Str(symbol))] + [Item(",", "price", Bare(price))] + [Item(",", "volume", Bare(volume))]
  }

  function ResultDoc(query: string): seq<Item> {
    [Item("{", "rows", Bare("["))]
    + Row("{", "AAPL", "182.50", "52000000") + Row("},{", "MSFT", "310.10", "28000000")
    + Row("},{", "GOOGL", "140.75", "18000000")
    + [Item("}],", "affected", Bare("0"))] + [Item(",", "query", Str(query))]
  }

  function ErrorDoc(): seq<Item> {
    [Item("{", "error", Str("missing 'sql' field"))]
  }

  function Result(request: string): string {
    var sql := StringOf(request, "sql");
    if sql == "" then Print(ErrorDoc(), "}") else Print(ResultDoc(Escape(sql)), "}")
  }

  method HandleSqlQuery(request: string) returns (response: string)
    ensures response == Result(request)
  {
    hide StringOf, ExtractString, Escape;
    var sql := ExtractString(request, "sql");
    ExtractStringReads(request, "sql");
    ResultOpenings();
    if sql == "" {
      assert Print([], "{") == "{" && [] + ErrorDoc() == ErrorDoc();
      hide Print;
      AppendStr([], "{", "error", "missing 'sql' field", "\"error\":\"", "\"}", "}");
      return "{" + "\"error\":\"" + "missing 'sql' field" + "\"}";
    }
    var query := JsonEscape(sql);
    ghost var d0 := [Item("{", "rows", Bare("["))];
    ghost var d1 := d0 + Row("{", "AAPL", "182.50", "52000000");
    ghost var d2 := d1 + Row("},{", "MSFT", "310.10", "28000000");
    ghost var d3 := d2 + Row("},{", "GOOGL", "140.75", "18000000");
    ghost var d4 := d3 + [Item("}],", "affected", Bare("0"))];
    assert Print([], "{") == "{" && [] + d0 == d0;
    hide Print, Row;
    response := "{" + "\"rows\":" + "[" + "{";
    AppendBare([], "{", "rows", "[", "\"rows\":", "{");
    response := response + "\"symbol\":\"" + "AAPL" + "\","
      + "\"price\":" + "182.50" + "," + "\"volume\":" + "52000000" + "},{";
    AppendRow(d0, "{", "AAPL", "182.50", "52000000", "},{");
    response := response + "\"symbol\":\"" + "MSFT" + "\","
      + "\"price\":" + "310.10" + "," + "\"volume\":" + "28000000" + "},{";
    AppendRow(d1, "},{", "MSFT", "310.10", "28000000", "},{");
    response := response + "\"symbol\":\"" + "GOOGL" + "\","
      + "\"price\":" + "140.75" + "," + "\"volume\":" + "18000000" + "}],";
    AppendRow(d2, "},{", "GOOGL", "140.75", "18000000", "}],");
    response := response + "\"affected\":" + "0" + ",";
    AppendBare(d3, "}],", "affected", "0", "\"affected\":", ",");
    response := response + "\"query\":\"" + query + "\"}";
    AppendStr(d4, ",", "query", query, "\"query\":\"", "\"}", "}");
  }

  lemma ResultOpenings()
    ensures "\"rows\":" == "\"" + "rows" + "\":" && "\"symbol\":\"" == "\"" + "symbol" + "\":\""
    ensures "\"price\":" == "\"" + "price" + "\":" && "\"volume\":" == "\"" + "volume" + "\":"
    ensures "\"affected\":" == "\"" + "affected" + "\":" && "\"query\":\"" == "\"" + "query" + "\":\""
    ensures "\"error\":\"" == "\"" + "error" + "\":\"" && "\"}" == "\"" + "}"
  {
  }

  lemma AppendRow(doc: seq<Item>, lead: string, symbol: string, price: string, volume: string, behind: string)
    ensures Print(doc, lead) + "\"symbol\":\"" + symbol + "\"," + "\"price\":" + price + ","
            + "\"volume\":" + volume + behind
         == Print(doc + Row(lead, symbol, price, volume), behind)
  {
    hide Print;
    ResultOpenings();
    var i1, i2 := Item(lead, "symbol", Str(symbol)), Item(",", "price", Bare(price));
    var i3 := Item(",", "volume", Bare(volume));
    AppendStrComma(doc, lead, "symbol", symbol, "\"symbol\":\"");
    AppendBare(doc + [i1], ",", "price", price, "\"price\":", ",");
    AppendBare(doc + [i1] + [i2], ",", "volume", volume, "\"volume\":", behind);
    assert doc + [i1] + [i2] + [i3] == doc + Row(lead, symbol, price, volume);
  }

  // ---------------------------------------------------------------------------------------
  // What the dialog reads

  /** The request the dialog prints. */
  function PrintQuery(sql: string): string {
    "{\"sql\":\"" + sql + "\"}"
  }

  lemma {:induction false} EscapeKeepsQuoteFree(s: string)
    requires QuoteFree(s)
    ensures QuoteFree(Escape(s))
  {
    if s != "" {
      EscapeKeepsQuoteFree(s[1..]);
    }
  }

  /** Whatever the request: with SQL in it, the dialog counts three rows and reads back the
      escaped query, from which the SQL is recovered; without, it counts none. */
  lemma ResultReadsBack(request: string)
    ensures var sql, result := StringOf(request, "sql"), Result(request);
            if sql == "" then FieldOf(result, "query") == "" && CountAfter(result, KeyNeedle("symbol")) == 0
            else FieldOf(result, "query") == Escape(sql) && Unescape(FieldOf(result, "query")) == sql
                 && CountAfter(result, KeyNeedle("symbol")) == 3
  {
    hide StringOf, Print, FieldOf, IndexOf, Escape, CountAfter, AfterFirst;
    var sql := StringOf(request, "sql");
    NeedleForms("symbol");
    if sql == "" {
      var doc := ErrorDoc();
      assert WellFormed(doc, "}");
      IndexIs(doc, "query", false, 1);
      FieldReads(doc, "}", "query");
      CountsKeys(doc, "}", "symbol");
      assert KeyCount(doc[1..], "symbol") == 0;
    } else {
      assert QuoteFree(sql) by { StringOfQuoteFree(request, "sql"); }
      EscapeKeepsQuoteFree(sql);
      UnescapeEscape(sql);
      var doc := ResultDoc(Escape(sql));
      ResultDocShape(Escape(sql));
      hide WellFormed, ResultDoc;
      IndexIs(doc, "query", true, 11);
      FieldReads(doc, "}", "query");
      CountsKeys(doc, "}", "symbol");
      ThreeRows(Escape(sql));
    }
  }

  lemma RowShape(lead: string, symbol: string, price: string, volume: string)
    requires Plain(lead) && QuoteFree(symbol) && QuoteFree(price) && QuoteFree(volume)
    ensures |Row(lead, symbol, price, volume)| == 3
    ensures forall item <- Row(lead, symbol, price, volume) :: PlainItem(item) && item.key != "query"
  {
    assert "query"[0] != "price"[0];
  }

  lemma EndsShape(query: string)
    requires QuoteFree(query)
    ensures PlainItem(Item("{", "rows", Bare("["))) && PlainItem(Item("}],", "affected", Bare("0")))
    ensures PlainItem(Item(",", "query", Str(query))) && Plain("}") && "rows" != "query" && "affected" != "query"
  {
  }

  lemma ResultDocShape(query: string)
    requires QuoteFree(query)
    ensures var doc := ResultDoc(query);
            && WellFormed(doc, "}") && |doc| == 12 && doc[11] == Item(",", "query", Str(query))
            && forall j :: 0 <= j < 11 ==> doc[j].key != "query"
  {
    hide Row;
    RowShape("{", "AAPL", "182.50", "52000000");
    RowShape("},{", "MSFT", "310.10", "28000000");
    RowShape("},{", "GOOGL", "140.75", "18000000");
    var first, affected := Item("{", "rows", Bare("[")), Item("}],", "affected", Bare("0"));
    var last := Item(",", "query", Str(query));
    EndsShape(query);
    hide PlainItem, Plain;
    var head := [first] + Row("{", "AAPL", "182.50", "52000000") + Row("},{", "MSFT", "310.10", "28000000")
      + Row("},{", "GOOGL", "140.75", "18000000") + [affected];
    assert forall item <- head :: PlainItem(item) && item.key != "query";
    assert ResultDoc(query) == head + [last];
    hide ResultDoc;
    forall j | 0 <= j < 11 ensures ResultDoc(query)[j].key != "query" {
      assert head[j] in head;
    }
  }

  lemma StringOfQuoteFree(request: string, key: string)
    ensures QuoteFree(StringOf(request, key))
  {
  }

  lemma RowCount(lead: string, symbol: string, price: string, volume: string)
    ensures KeyCount(Row(lead, symbol, price, volume), "symbol") == 1
  {
    hide KeyCount;
    var i1, i2 := Item(lead, "symbol", Str(symbol)), Item(",", "price", Bare(price));
    var i3 := Item(",", "volume", Bare(volume));
    KeyCountConcat([i1] + [i2], [i3], "symbol");
    KeyCountConcat([i1], [i2], "symbol");
    OneItem(i1, "symbol");
    OneItem(i2, "symbol");
    OneItem(i3, "symbol");
    assert "volume"[0] != "symbol"[0];
  }

  lemma ThreeRows(query: string)
    ensures KeyCount(ResultDoc(query), "symbol") == 3
  {
    hide KeyCount, Row;
    var first, affected := Item("{", "rows", Bare("[")), Item("}],", "affected", Bare("0"));
    var last := Item(",", "query", Str(query));
    var a, m, g := Row("{", "AAPL", "182.50", "52000000"), Row("},{", "MSFT", "310.10", "28000000"),
                   Row("},{", "GOOGL", "140.75", "18000000");
    KeyCountConcat([first] + a + m + g + [affected], [last], "symbol");
    KeyCountConcat([first] + a + m + g, [affected], "symbol");
    KeyCountConcat([first] + a + m, g, "symbol");
    KeyCountConcat([first] + a, m, "symbol");
    KeyCountConcat([first], a, "symbol");
    OneItem(first, "symbol");
    OneItem(affected, "symbol");
    OneItem(last, "symbol");
    RowCount("{", "AAPL", "182.50", "52000000");
    RowCount("},{", "MSFT", "310.10", "28000000");
    RowCount("},{", "GOOGL", "140.75", "18000000");
  }

  // ---------------------------------------------------------------------------------------
  // The rows

  /** The entry is a row with these three fields. */
  predicate ShowsRow(entry: string, symbol: string, price: string, volume: string) {
    FieldOf(entry, "symbol") == symbol && FieldOf(entry, "price") == price && FieldOf(entry, "volume") == volume
  }

  /** What a result has to show: three rows, each with its own price and volume, and nothing
      affected. */
  predicate ShowsRows(text: string) {
    var es := EntriesIn(text, "symbol");
    && |es| == 3
    && ShowsRow(es[0], "AAPL", "182.50", "52000000")
    && ShowsRow(es[1], "MSFT", "310.10", "28000000")
    && ShowsRow(es[2], "GOOGL", "140.75", "18000000")
    && FieldOf(text, "affected") == "0"
  }

  /** Every statement is answered with the same three rows, a request without one with the error. */
  lemma RowsReadBack(request: string)
    ensures var result := Result(request);
            if StringOf(request, "sql") == "" then
              FieldOf(result, "error") == "missing 'sql' field" && EntriesIn(result, "symbol") == []
            else ShowsRows(result)
  {
    hide StringOf, Print, FieldOf, EntriesIn, Escape, ShowsRow, ResultDoc, Row, EntryText;
    var sql := StringOf(request, "sql");
    if sql == "" {
      ErrorReads();
    } else {
      StringOfQuoteFree(request, "sql");
      EscapeKeepsQuoteFree(sql);
      RowsScanned(Escape(sql));
      RowsRead();
      AffectedReads(Escape(sql));
    }
  }

  lemma RowsRead()
    ensures ShowsRow(EntryText(Row("{", "AAPL", "182.50", "52000000")), "AAPL", "182.50", "52000000")
    ensures ShowsRow(EntryText(Row("{", "MSFT", "310.10", "28000000")), "MSFT", "310.10", "28000000")
    ensures ShowsRow(EntryText(Row("{", "GOOGL", "140.75", "18000000")), "GOOGL", "140.75", "18000000")
  {
    hide ShowsRow, EntryText, Row;
    RowReads("AAPL", "182.50", "52000000");
    RowReads("MSFT", "310.10", "28000000");
    RowReads("GOOGL", "140.75", "18000000");
  }

  lemma ErrorReads()
    ensures var text := Print(ErrorDoc(), "}");
            FieldOf(text, "error") == "missing 'sql' field" && EntriesIn(text, "symbol") == []
  {
    var doc := ErrorDoc();
    assert WellFormed(doc, "}") && Plain("symbol");
    hide Print, FieldOf, EntriesIn, WellFormed, Plain, MatchesAt;
    FieldAt(doc, "}", 0);
    NoSuchKey(doc, "}", "symbol");
    var text := Print(doc, "}");
    var r := Find(text, Opening("symbol"), 0);
    if r != -1 {
      MatchBehind(text, "symbol", r);
      assert false;
    }
    ScanStops(text, "symbol");
  }

  lemma RowReads(symbol: string, price: string, volume: string)
    requires QuoteFree(symbol) && CleanValue(price) && CleanValue(volume)
    ensures ShowsRow(EntryText(Row("{", symbol, price, volume)), symbol, price, volume)
  {
    var doc := Row("{", symbol, price, volume);
    RowKeysDiffer();
    RowShape("{", symbol, price, volume);
    assert Reads(FieldChar, Blank, doc, "}", 1) && Reads(FieldChar, Blank, doc, "}", 2);
    assert WellFormed(doc, "}");
    hide Print, FieldOf, WellFormed, Plain, PlainItem, CleanValue, Reads;
    AllByKey(doc, "}");
    assert doc[0].key == "symbol" && doc[1].key == "price" && doc[2].key == "volume";
  }

  lemma RowKeysDiffer()
    ensures "symbol" != "price" && "symbol" != "volume" && "price" != "volume" && Plain("{") && Plain("}")
  {
    assert "symbol"[0] != "price"[0] && "symbol"[0] != "volume"[0];
  }

  function Rows(): seq<seq<Item>> {
    [Row("{", "AAPL", "182.50", "52000000"), Row("{", "MSFT", "310.10", "28000000"),
     Row("{", "GOOGL", "140.75", "18000000")]
  }

  function BehindRows(query: string): seq<Item> {
    [Item("}],", "affected", Bare("0")), Item(",", "query", Str(query))]
  }

  lemma RowLed(lead: string, symbol: string, price: string, volume: string)
    ensures Row(lead, symbol, price, volume) == Led(lead, Row("{", symbol, price, volume))
  {
  }

  lemma ResultIsList(query: string)
    ensures ResultDoc(query) == [Item("{", "rows", Bare("["))] + (List("{", Rows()) + BehindRows(query))
  {
    hide Row, Led;
    RowLed("{", "AAPL", "182.50", "52000000");
    RowLed("},{", "MSFT", "310.10", "28000000");
    RowLed("},{", "GOOGL", "140.75", "18000000");
    var es := Rows();
    assert es[1..][1..] == [es[2]] && es[1..][1..][1..] == [];
    assert List("{", es) == Led("{", es[0]) + (Led("},{", es[1]) + (Led("},{", es[2]) + []));
  }

  lemma RowIsEntry(symbol: string, price: string, volume: string)
    requires QuoteFree(symbol) && QuoteFree(price) && QuoteFree(volume)
    requires '}' !in symbol && '}' !in price && '}' !in volume
    ensures IsEntry(Row("{", symbol, price, volume), "symbol")
  {
    RowShape("{", symbol, price, volume);
    assert '}' !in "symbol" && '}' !in "price" && '}' !in "volume";
    hide PlainItem;
  }

  lemma RowsAreEntries()
    ensures forall e <- Rows() :: IsEntry(e, "symbol")
  {
    hide IsEntry, Row;
    RowIsEntry("AAPL", "182.50", "52000000");
    RowIsEntry("MSFT", "310.10", "28000000");
    RowIsEntry("GOOGL", "140.75", "18000000");
  }

  lemma BehindShape(query: string)
    requires QuoteFree(query)
    ensures WellFormed(BehindRows(query), "}") && forall item <- BehindRows(query) :: item.key != "symbol"
    ensures var first := Item("{", "rows", Bare("[")); PlainItem(first) && first.key != "symbol" && Plain("symbol")
  {
    assert "affected"[0] != "symbol"[0] && "query"[0] != "symbol"[0] && "rows"[0] != "symbol"[0];
  }

  lemma BehindText(query: string) returns (end: string)
    ensures Print(BehindRows(query), "}") == "}" + end
  {
    end := Print(BehindRows(query), "}")[1..];
    assert Print(BehindRows(query), "}")[0] == BehindRows(query)[0].lead[0];
  }

  lemma RowsScanned(query: string)
    requires QuoteFree(query)
    ensures EntriesIn(Print(ResultDoc(query), "}"), "symbol") == Texts(Rows())
  {
    RowsAreEntries();
    ResultIsList(query);
    BehindShape(query);
    var end := BehindText(query);
    hide Print, EntriesIn, IsEntry, Row, ResultDoc, BehindRows, List, PlainItem, Plain;
    NoMoreEntries(BehindRows(query), "}", end, "symbol");
    DocumentScanned([Item("{", "rows", Bare("["))], Rows(), BehindRows(query), "}", end, "symbol");
  }

  lemma AffectedReads(query: string)
    requires QuoteFree(query)
    ensures FieldOf(Print(ResultDoc(query), "}"), "affected") == "0"
  {
    ResultDocShape(query);
    AffectedAlone(query);
    hide Print, FieldOf, WellFormed, ResultDoc, Reads;
    BareFieldAt(ResultDoc(query), "}", 10);
  }

  lemma RowNotAffected(lead: string, symbol: string, price: string, volume: string)
    ensures forall item <- Row(lead, symbol, price, volume) :: item.key != "affected"
    ensures |Row(lead, symbol, price, volume)| == 3
  {
    assert "affected"[0] != "symbol"[0] && "affected"[0] != "price"[0] && "affected"[0] != "volume"[0];
  }

  lemma AffectedAlone(query: string)
    ensures var doc := ResultDoc(query);
            && |doc| == 12 && doc[10] == Item("}],", "affected", Bare("0")) && Reads(FieldChar, Blank, doc, "}", 10)
            && forall j :: 0 <= j < 12 && j != 10 ==> doc[j].key != "affected"
  {
    RowNotAffected("{", "AAPL", "182.50", "52000000");
    RowNotAffected("},{", "MSFT", "310.10", "28000000");
    RowNotAffected("},{", "GOOGL", "140.75", "18000000");
    assert "affected" != "rows" && "affected" != "query";
    hide Row;
    var doc := ResultDoc(query);
    var front := [Item("{", "rows", Bare("["))] + Row("{", "AAPL", "182.50", "52000000")
      + Row("},{", "MSFT", "310.10", "28000000") + Row("},{", "GOOGL", "140.75", "18000000");
    assert forall item <- front :: item.key != "affected";
    forall j | 0 <= j < 10 ensures doc[j].key != "affected" {
      assert doc[j] == front[j] && front[j] in front;
    }
  }

  /** Round trip of a query: SQL text without quotes comes back whole. */
  lemma QueryRoundTrip(sql: string)
    requires QuoteFree(sql) && sql != ""
    ensures Unescape(FieldOf(Result(PrintQuery(sql)), "query")) == sql
  {
    hide StringOf, Print, FieldOf, IndexOf, Unescape;
    var doc := [Item("{", "sql", Str(sql))];
    assert WellFormed(doc, "}");
    PrintQueryIsDoc(sql);
    IndexIs(doc, "sql", true, 0);
    StringReads(doc, "}", "sql");
    ResultReadsBack(PrintQuery(sql));
  }

  lemma PrintQueryIsDoc(sql: string)
    ensures PrintQuery(sql) == Print([Item("{", "sql", Str(sql))], "}")
  {
    var item := Item("{", "sql", Str(sql));
    assert PrintItem(item) + "}" == PrintQuery(sql);
    assert [item][1..] == [];
  }
}
