/** server/src/services/position_service.cpp, and the dialog client's reading of it. */
module Positions {
  import opened JsonText
  import opened Documents
  import opened Scanning

  datatype Holding = Holding(symbol: string, qty: string, cost: string, current: string, pnl: string)

  const AAPL := Holding("AAPL", "500", "178.30", "182.50", "2100.00")
  const MSFT := Holding("MSFT", "200", "305.10", "310.10", "1000.00")
  const GOOGL := Holding("GOOGL", "50", "138.20", "140.75", "127.50")
  const CASH := "12345.67"

  // ---------------------------------------------------------------------------------------
  // The response

  function Position(lead: string, h: Holding): seq<Item> {
    [Item(lead, "symbol", Str(h.symbol))] + [Item(",", "qty", Bare(h.qty))] + [Item(",", "avg_cost", Bare(h.cost))]
    + [Item(",", "current", Bare(h.current))] + [Item(",", "pnl", Bare(h.pnl))]
  }

  function Head(account: string): seq<Item> {
    [Item("{", "account", Str(account))] + [Item(",", "positions", Bare("["))]
  }

  function PositionsDoc(account: string): seq<Item> {
    Head(account) + Position("{", AAPL) + Position("},{", MSFT) + Position("},{", GOOGL)
    + [Item("}],", "cash", Bare(CASH))]
  }

  function AccountIn(request: string): string {
    var account := StringOf(request, "account");
    if account == "" then "UNKNOWN" else account
  }

  /** What handle_get_position answers. */
  function Holdings(request: string): string {
    Print(PositionsDoc(AccountIn(request)), "}")
  }

  // ---------------------------------------------------------------------------------------
  // What the dialog reads

  function HoldingIn(entry: string): Holding {
    Holding(FieldOf(entry, "symbol"), FieldOf(entry, "qty"), FieldOf(entry, "avg_cost"), FieldOf(entry, "current"),
            FieldOf(entry, "pnl"))
  }

  /** The dialog's loop over the positions, and the cash behind them. */
  method ReadPositions(json: string) returns (shown: seq<Holding>, cash: string)
    ensures var es := EntriesIn(json, "symbol");
            |shown| == |es| && forall i :: 0 <= i < |es| ==> shown[i] == HoldingIn(es[i])
    ensures cash == FieldOf(json, "cash")
  {
    hide FieldOf, EntriesIn;
    shown := [];
    var p: nat := 0;
    ghost var all := EntriesIn(json, "symbol");
    assert json[0..] == json;
    while true
      invariant p <= |json| && |shown| <= |all|
      invariant all[|shown|..] == EntriesIn(json[p..], "symbol")
      invariant forall i :: 0 <= i < |shown| ==> shown[i] == HoldingIn(all[i])
      decreases |json| - p
    {
      var found, entry, next := NextEntry(json, "symbol", p);
      if !found { break; }
      assert all[|shown|..][0] == entry && all[|shown|..][1..] == all[|shown| + 1..];
      var holding := ReadEntry(entry);
      shown := shown + [holding];
      p := next;
    }
    cash := ExtractField(json, "cash");
  }

  method ReadEntry(entry: string) returns (h: Holding)
    ensures h == HoldingIn(entry)
  {
    hide FieldOf;
    var symbol := ExtractField(entry, "symbol");
    var qty := ExtractField(entry, "qty");
    var cost := ExtractField(entry, "avg_cost");
    var current := ExtractField(entry, "current");
    var pnl := ExtractField(entry, "pnl");
    h := Holding(symbol, qty, cost, current, pnl);
  }

  // ---------------------------------------------------------------------------------------
  // One position

  predicate CleanHolding(h: Holding) {
    CleanValue(h.symbol) && CleanValue(h.qty) && CleanValue(h.cost) && CleanValue(h.current) && CleanValue(h.pnl)
  }

  lemma AaplIsClean()
    ensures CleanHolding(AAPL)
  {
  }

  lemma MsftIsClean()
    ensures CleanHolding(MSFT)
  {
  }

  lemma GooglIsClean()
    ensures CleanHolding(GOOGL)
  {
  }

  lemma ShippedAreClean()
    ensures CleanHolding(AAPL) && CleanHolding(MSFT) && CleanHolding(GOOGL)
  {
    hide *;
    AaplIsClean();
    MsftIsClean();
    GooglIsClean();
  }

  lemma PositionShape(h: Holding)
    requires CleanHolding(h)
    ensures var doc := Position("{", h);
            && |doc| == 5 && (forall item <- doc :: PlainItem(item)) && doc[0].value == Str(h.symbol)
            && doc[0].key == "symbol" && doc[1].key == "qty" && doc[2].key == "avg_cost" && doc[3].key == "current"
            && doc[4].key == "pnl"
            && doc[1].value == Bare(h.qty) && doc[2].value == Bare(h.cost) && doc[3].value == Bare(h.current)
            && doc[4].value == Bare(h.pnl)
            && (forall j :: 1 <= j < 5 ==> doc[j].lead == ",")
  {
    PartsPlain();
    assert QuoteFree(h.symbol) && QuoteFree(h.qty) && QuoteFree(h.cost) && QuoteFree(h.current) && QuoteFree(h.pnl);
    hide Plain, CleanHolding, QuoteFree;
  }

  lemma PartsPlain()
    ensures Plain("{") && Plain(",") && Plain("symbol") && Plain("qty") && Plain("avg_cost") && Plain("current")
    ensures Plain("pnl")
  {
  }

  lemma KeysDiffer()
    ensures "symbol" != "qty" && "symbol" != "avg_cost" && "symbol" != "current" && "symbol" != "pnl"
    ensures "qty" != "avg_cost" && "qty" != "current" && "qty" != "pnl"
    ensures "avg_cost" != "current" && "avg_cost" != "pnl"
    ensures "current" != "pnl" && Plain("}")
  {
  }

  lemma ReadsClean(doc: seq<Item>, tail: string, i: nat)
    requires i < |doc| && doc[i].value.Bare? && CleanValue(doc[i].value.text)
    requires var next := Documents.Behind(doc, tail, i); next == "," || next == "}"
    ensures Reads(FieldChar, Blank, doc, tail, i)
  {
  }

  /** A position is read back field by field. */
  lemma EntryReadsBack(h: Holding)
    requires CleanHolding(h)
    ensures HoldingIn(EntryText(Position("{", h))) == h
  {
    hide FieldOf, Print, Position;
    FieldsRead(h);
  }

  lemma FieldsRead(h: Holding)
    requires CleanHolding(h)
    ensures var text := Print(Position("{", h), "}");
            && FieldOf(text, "symbol") == h.symbol && FieldOf(text, "qty") == h.qty
            && FieldOf(text, "avg_cost") == h.cost
            && FieldOf(text, "current") == h.current && FieldOf(text, "pnl") == h.pnl
  {
    var doc := Position("{", h);
    AllRead(h);
    PositionShape(h);
    hide *;
    KeysDiffer();
    AllByKey(doc, "}");
  }

  lemma AllRead(h: Holding)
    requires CleanHolding(h)
    ensures var doc := Position("{", h);
            WellFormed(doc, "}") && |doc| == 5 && forall j :: 1 <= j < 5 ==> Reads(FieldChar, Blank, doc, "}", j)
  {
    var doc := Position("{", h);
    PositionShape(h);
    KeysDiffer();
    hide PlainItem, CleanValue, Position, Reads;
    ReadsClean(doc, "}", 1);
    ReadsClean(doc, "}", 2);
    ReadsClean(doc, "}", 3);
    ReadsClean(doc, "}", 4);
  }

  lemma KeysBraceFree()
    ensures '}' !in "symbol" && '}' !in "qty" && '}' !in "avg_cost" && '}' !in "current" && '}' !in "pnl"
  {
  }

  lemma PositionIsEntry(h: Holding)
    requires CleanHolding(h)
    ensures IsEntry(Position("{", h), "symbol") && Opens(Position("{", h))
  {
    PositionShape(h);
    KeysBraceFree();
    assert '}' !in h.symbol && '}' !in h.qty && '}' !in h.cost && '}' !in h.current && '}' !in h.pnl;
    hide CleanValue, PlainItem;
  }

  // ---------------------------------------------------------------------------------------
  // All of them

  function Cash(): Item {
    Item("}],", "cash", Bare(CASH))
  }

  function Entries(): seq<seq<Item>> {
    [Position("{", AAPL), Position("{", MSFT), Position("{", GOOGL)]
  }

  lemma Relead(lead: string, h: Holding)
    ensures Position(lead, h) == Led(lead, Position("{", h))
  {
  }

  lemma DocIsList(account: string)
    ensures PositionsDoc(account) == Head(account) + (List("{", Entries()) + [Cash()])
  {
    hide Position, Led;
    Relead("{", AAPL);
    Relead("},{", MSFT);
    Relead("},{", GOOGL);
    var es := Entries();
    assert es[1..][1..] == [es[2]] && es[1..][1..][1..] == [];
    assert List("{", es) == Led("{", es[0]) + (Led("},{", es[1]) + (Led("},{", es[2]) + []));
  }

  lemma EndsShape(account: string)
    requires QuoteFree(account)
    ensures forall item <- Head(account) :: PlainItem(item) && item.key != "symbol"
    ensures PlainItem(Cash()) && Cash().key != "symbol" && Plain("symbol") && Plain("}") && Plain("{")
  {
  }

  lemma EndText() returns (end: string)
    ensures Print([Cash()], "}") == "}" + end
  {
    end := Print([Cash()], "}")[1..];
    assert Print([Cash()], "}")[0] == Cash().lead[0];
  }

  lemma AccountQuoteFree(request: string)
    ensures QuoteFree(AccountIn(request))
  {
    assert QuoteFree("UNKNOWN");
  }

  /** What a response has to show: three holdings, in order and in full, and the cash. */
  predicate ShowsHoldings(text: string) {
    var es := EntriesIn(text, "symbol");
    && |es| == 3
    && HoldingIn(es[0]) == Holding("AAPL", "500", "178.30", "182.50", "2100.00")
    && HoldingIn(es[1]) == Holding("MSFT", "200", "305.10", "310.10", "1000.00")
    && HoldingIn(es[2]) == Holding("GOOGL", "50", "138.20", "140.75", "127.50")
    && FieldOf(text, "cash") == "12345.67"
  }

  /** Whatever the request, the dialog shows the three positions in order, each with all its
      fields, and the cash. */
  lemma ShowsPositions(request: string)
    ensures ShowsHoldings(Holdings(request))
  {
    hide Print, EntriesIn, HoldingIn, Position, Holdings, FieldOf;
    PositionsShown(request);
    CashReadsBack(request);
  }

  lemma PositionsShown(request: string)
    ensures var es := EntriesIn(Holdings(request), "symbol");
            |es| == 3 && HoldingIn(es[0]) == AAPL && HoldingIn(es[1]) == MSFT && HoldingIn(es[2]) == GOOGL
  {
    hide Print, EntriesIn, HoldingIn, Position, PositionsDoc, PlainItem, Plain, IsEntry, CleanHolding, AccountIn;
    var account := AccountIn(request);
    AccountQuoteFree(request);
    ShippedAreClean();
    DocIsList(account);
    EndsShape(account);
    var end := EndText();
    PositionIsEntry(AAPL);
    PositionIsEntry(MSFT);
    PositionIsEntry(GOOGL);
    var es := Entries();
    assert forall e <- es :: IsEntry(e, "symbol");
    hide Head, Cash;
    NoMoreEntries([Cash()], "}", end, "symbol");
    DocumentScanned(Head(account), es, [Cash()], "}", end, "symbol");
    EntryReadsBack(AAPL);
    EntryReadsBack(MSFT);
    EntryReadsBack(GOOGL);
  }

  predicate NoCash(doc: seq<Item>) {
    forall item <- doc :: item.key != "cash"
  }

  lemma NoCashIn(lead: string, h: Holding, account: string)
    ensures NoCash(Position(lead, h)) && NoCash(Head(account))
  {
    assert "cash"[0] != "symbol"[0] && "cash"[0] != "qty"[0];
  }

  lemma NoCashConcat(a: seq<Item>, b: seq<Item>)
    requires NoCash(a) && NoCash(b)
    ensures NoCash(a + b)
  {
  }

  /** Then the cash. */
  lemma CashReadsBack(request: string)
    ensures FieldOf(Holdings(request), "cash") == CASH
  {
    var account := AccountIn(request);
    var doc := PositionsDoc(account);
    var h, p, q, r := Head(account), Position("{", AAPL), Position("},{", MSFT), Position("},{", GOOGL);
    AccountQuoteFree(request);
    DocIsPlain(account);
    CashReads();
    assert doc == h + p + q + r + [Cash()] && Holdings(request) == Print(doc, "}");
    assert Cash().key == "cash" && Cash().value.text == CASH;
    hide *;
    NoCashIn("{", AAPL, account);
    NoCashIn("},{", MSFT, account);
    NoCashIn("},{", GOOGL, account);
    NoCashConcat(h, p);
    NoCashConcat(h + p, q);
    NoCashConcat(h + p + q, r);
    LastFieldReads(h + p + q + r, Cash());
  }

  lemma CashReads()
    ensures Cash().value.Bare? && CleanValue(Cash().value.text)
  {
  }

  lemma LastFieldReads(front: seq<Item>, item: Item)
    requires NoCash(front) && item.key == "cash" && WellFormed(front + [item], "}")
    requires item.value.Bare? && CleanValue(item.value.text)
    ensures FieldOf(Print(front + [item], "}"), "cash") == item.value.text
  {
    hide CleanValue, WellFormed, Print, FieldOf;
    var doc := front + [item];
    forall j | 0 <= j < |front| ensures doc[j].key != "cash" {
      assert front[j] in front;
    }
    ReadsClean(doc, "}", |front|);
    BareFieldAt(doc, "}", |front|);
  }

  /** And the account asked for. */
  lemma AccountReadsBack(request: string)
    ensures FieldOf(Holdings(request), "account")
         == if StringOf(request, "account") == "" then "UNKNOWN" else StringOf(request, "account")
  {
    hide Print, FieldOf, StringOf, PositionsDoc, PlainItem, Plain, Position, EntriesIn, CleanHolding;
    var account := AccountIn(request);
    AccountQuoteFree(request);
    DocIsPlain(account);
    DocIsList(account);
    FieldAt(PositionsDoc(account), "}", 0);
  }

  lemma DocIsPlain(account: string)
    requires QuoteFree(account)
    ensures WellFormed(PositionsDoc(account), "}")
  {
    hide Print, PlainItem, Plain, Position, EntriesIn, CleanHolding, IsEntry;
    ShippedAreClean();
    DocIsList(account);
    EndsShape(account);
    PositionIsEntry(AAPL);
    PositionIsEntry(MSFT);
    PositionIsEntry(GOOGL);
    assert forall e <- Entries() :: IsEntry(e, "symbol");
    ListIsPlain("{", Entries(), "symbol");
  }
}
