/** Printed documents, and where the readers' searches land in them.

    A document is split at its quotes.  A needle `"key":` matches at a quote exactly when the
    text up to the next quote is the key and a colon comes after that quote; and in a document
    of plain parts only keys are followed by a colon, never a value or a separator. */
module Documents {
  import opened JsonText
  import opened Sequences

  datatype Value = Str(text: string) | Bare(text: string)

  datatype Item = Item(lead: string, key: string, value: Value)

  function PrintValue(v: Value): string {
    if v.Str? then "\"" + v.text + "\"" else v.text
  }

  function PrintItem(item: Item): string {
    item.lead + "\"" + item.key + "\":" + PrintValue(item.value)
  }

  function Print(doc: seq<Item>, tail: string): string {
    if doc == [] then tail else PrintItem(doc[0]) + Print(doc[1..], tail)
  }

  /** Text without quotes that does not begin with a colon: keys, separators, the end. */
  predicate Plain(s: string) {
    s != "" && QuoteFree(s) && s[0] != ':'
  }

  predicate PlainItem(item: Item) {
    Plain(item.lead) && Plain(item.key) && QuoteFree(item.value.text)
  }

  predicate WellFormed(doc: seq<Item>, tail: string) {
    Plain(tail) && forall item <- doc :: PlainItem(item)
  }

  // ---------------------------------------------------------------------------------------
  // Searching text that is split at its quotes

  /** The needles all have the form quote, key, quote, rest. */
  function Needle(key: string, more: string): (n: string)
    ensures n != ""
  {
    "\"" + key + "\"" + more
  }

  lemma NeedleForms(key: string)
    ensures StringNeedle(key) == Needle(key, ":\"") && KeyNeedle(key) == Needle(key, ":")
  {
  }

  lemma {:induction false} SkipPlain(w: string, t: string, key: string, more: string)
    requires QuoteFree(w)
    ensures AfterFirst(w + t, Needle(key, more)) == AfterFirst(t, Needle(key, more))
  {
    if w == "" {
      assert w + t == t;
    } else {
      SkipPlain(w[1..], t, key, more);
      assert (w + t)[1..] == w[1..] + t;
      NoMatchAtPlain(w + t, key, more);
    }
  }

  lemma NoMatchAtPlain(s: string, key: string, more: string)
    requires s != "" && s[0] != '"'
    ensures AfterFirst(s, Needle(key, more)) == AfterFirst(s[1..], Needle(key, more))
  {
    var n := Needle(key, more);
    assert n[0] == '"';
    if |s| >= |n| {
      assert s[..|n|][0] == s[0];
    }
  }

  /** At a quote: a match if the text up to the next quote is the key and what follows starts
      as the needle ends; else the search goes on at the next quote. */
  lemma AtQuote(w: string, u: string, key: string, more: string)
    requires QuoteFree(w) && QuoteFree(key)
    ensures AfterFirst("\"" + w + "\"" + u, Needle(key, more))
         == if w == key && more <= u then Some(u[|more|..]) else AfterFirst("\"" + u, Needle(key, more))
  {
    var s, n := "\"" + w + "\"" + u, Needle(key, more);
    if w == key && more <= u {
      assert s[..|n|] == n;
      assert s[|n|..] == u[|more|..];
    } else {
      if |s| >= |n| && s[..|n|] == n {
        FirstQuotes(w, u, key, more);
        assert false;
      }
      assert s[1..] == w + ("\"" + u);
      SkipPlain(w, "\"" + u, key, more);
    }
  }

  lemma NoQuoteInside(w: string, u: string, i: nat)
    requires QuoteFree(w)
    ensures i < |w| ==> ("\"" + w + u)[1 + i] != '"'
  {
    if i < |w| {
      assert ("\"" + w + u)[1 + i] == w[i];
      assert w[i] in w;
    }
  }

  lemma FirstQuotes(w: string, u: string, key: string, more: string)
    requires QuoteFree(w) && QuoteFree(key)
    requires Needle(key, more) <= "\"" + w + "\"" + u
    ensures w == key && more <= u
  {
    var s, n := "\"" + w + "\"" + u, Needle(key, more);
    assert s[1 + |w|] == '"' && n[1 + |key|] == '"' && s[1 + |key|] == '"';
    NoQuoteInside(w, "\"" + u, |key|);
    assert s == "\"" + w + ("\"" + u);
    NoQuoteInside(key, "\"" + more, |w|);
    assert n == "\"" + key + ("\"" + more);
    assert s[1..1 + |w|] == w && n[1..1 + |w|] == key;
    assert s[2 + |w|..] == u && n[2 + |w|..] == more;
  }

  lemma PrefixAt(n: string, s: string, i: nat)
    requires i < |n|
    ensures |n| <= |s| && s[..|n|] == n ==> s[i] == n[i]
  {
  }

  /** A last quote matches nothing. */
  lemma LastQuote(w: string, key: string, more: string)
    requires QuoteFree(w)
    ensures AfterFirst("\"" + w, Needle(key, more)) == None
  {
    var s, n := "\"" + w, Needle(key, more);
    assert n[1 + |key|] == '"';
    NoQuoteInside(w, "", |key|);
    assert s == "\"" + w + "";
    PrefixAt(n, s, 1 + |key|);
    assert s[1..] == w;
    SkipAll(w, key, more);
  }

  lemma SkipAll(w: string, key: string, more: string)
    requires QuoteFree(w)
    ensures AfterFirst(w, Needle(key, more)) == None
  {
    SkipPlain(w, "", key, more);
    assert w + "" == w;
  }

  // ---------------------------------------------------------------------------------------
  // Searching a document

  /** What comes after a quote that opens nothing holds the same matches without it. */
  lemma Dangling(x: string, doc: seq<Item>, tail: string, key: string, more: string)
    requires QuoteFree(x) && WellFormed(doc, tail) && Plain(key) && more != "" && more[0] == ':'
    ensures AfterFirst("\"" + x + Print(doc, tail), Needle(key, more))
         == AfterFirst(Print(doc, tail), Needle(key, more))
  {
    hide AfterFirst, Needle;
    if doc == [] {
      LastQuote(x + tail, key, more);
      SkipAll(tail, key, more);
      assert "\"" + x + tail == "\"" + (x + tail);
    } else {
      var item, r := doc[0], Print(doc[1..], tail);
      assert item in doc;
      assert Print(doc, tail) == PrintItem(item) + r;
      hide Print, PrintItem;
      var u := item.key + "\":" + PrintValue(item.value) + r;
      SplitAtLead(item, r, x);
      SkipPlain(item.lead, "\"" + u, key, more);
      assert u[0] == item.key[0];
      AtQuote(x + item.lead, u, key, more);
    }
  }

  lemma SplitAtLead(item: Item, r: string, x: string)
    ensures var u := item.key + "\":" + PrintValue(item.value) + r;
            PrintItem(item) + r == item.lead + ("\"" + u)
            && "\"" + x + (PrintItem(item) + r) == "\"" + (x + item.lead) + "\"" + u
  {
    hide PrintValue;
    var lead, key, v := item.lead, item.key, PrintValue(item.value);
    var u := key + "\":" + v + r;
    assert lead + "\"" + key + "\":" + v + r == lead + ("\"" + u);
    assert "\"" + x + (lead + ("\"" + u)) == "\"" + (x + lead) + "\"" + u;
  }

  lemma FirstChar(doc: seq<Item>, tail: string)
    requires WellFormed(doc, tail)
    ensures Print(doc, tail) != "" && Print(doc, tail)[0] != ':' && Print(doc, tail)[0] != '"'
  {
    if doc != [] {
      assert doc[0] in doc;
    }
  }

  /** Values hold no match. */
  lemma SkipValue(v: Value, doc: seq<Item>, tail: string, key: string, more: string)
    requires QuoteFree(v.text) && WellFormed(doc, tail) && Plain(key) && more != "" && more[0] == ':'
    ensures AfterFirst(PrintValue(v) + Print(doc, tail), Needle(key, more))
         == AfterFirst(Print(doc, tail), Needle(key, more))
  {
    hide AfterFirst, Needle, Print;
    var r := Print(doc, tail);
    FirstChar(doc, tail);
    if v.Str? {
      AtQuote(v.text, r, key, more);
      assert PrintValue(v) + r == "\"" + v.text + "\"" + r;
      Dangling("", doc, tail, key, more);
      assert "\"" + "" + r == "\"" + r;
    } else {
      SkipPlain(v.text, r, key, more);
    }
  }

  /** An item is found by its key; else the search goes on behind it. */
  lemma AtItem(item: Item, doc: seq<Item>, tail: string, key: string, more: string)
    requires PlainItem(item) && WellFormed(doc, tail) && Plain(key) && (more == ":" || more == ":\"")
    ensures var r := Print(doc, tail);
            AfterFirst(PrintItem(item) + r, Needle(key, more))
            == (if item.key == key && (more == ":" || item.value.Str?)
                then Some((":" + PrintValue(item.value) + r)[|more|..])
                else AfterFirst(r, Needle(key, more)))
  {
    hide AfterFirst, Needle, Print;
    var r, v := Print(doc, tail), item.value;
    FirstChar(doc, tail);
    var u := ":" + PrintValue(v) + r;
    SkipPlain(item.lead, "\"" + item.key + "\"" + u, key, more);
    assert PrintItem(item) + r == item.lead + ("\"" + item.key + "\"" + u);
    AtQuote(item.key, u, key, more);
    if more == ":\"" {
      ColonQuote(v, r);
    }
    if v.Str? {
      AtQuote(":", v.text + "\"" + r, key, more);
      assert "\"" + u == "\"" + ":" + "\"" + (v.text + "\"" + r);
      assert "\"" + (v.text + "\"" + r) == PrintValue(v) + r;
      SkipValue(v, doc, tail, key, more);
    } else {
      Dangling(":" + v.text, doc, tail, key, more);
      assert "\"" + u == "\"" + (":" + v.text) + r;
    }
  }

  lemma ColonQuote(v: Value, r: string)
    requires QuoteFree(v.text) && r != "" && r[0] != '"'
    ensures ":\"" <= ":" + PrintValue(v) + r <==> v.Str?
  {
    var u := ":" + PrintValue(v) + r;
    assert u[1] == (PrintValue(v) + r)[0];
    assert ":\"" <= u <==> u[0] == ':' && u[1] == '"';
  }

  predicate Hit(item: Item, key: string, strOnly: bool) {
    item.key == key && (strOnly ==> item.value.Str?)
  }

  /** The index of the first item with the key (and a string value), or the number of items. */
  function IndexOf(doc: seq<Item>, key: string, strOnly: bool): (i: nat)
    ensures i <= |doc| && (i < |doc| ==> Hit(doc[i], key, strOnly))
    ensures forall j :: 0 <= j < i ==> !Hit(doc[j], key, strOnly)
  {
    if doc == [] || Hit(doc[0], key, strOnly) then 0 else 1 + IndexOf(doc[1..], key, strOnly)
  }

  lemma IndexIs(doc: seq<Item>, key: string, strOnly: bool, i: nat)
    requires i <= |doc| && (i < |doc| ==> Hit(doc[i], key, strOnly))
    requires forall j :: 0 <= j < i ==> !Hit(doc[j], key, strOnly)
    ensures IndexOf(doc, key, strOnly) == i
  {
    hide IndexOf;
  }

  function More(strOnly: bool): string {
    if strOnly then ":\"" else ":"
  }

  /** The first occurrence of a needle is the first item it is meant for. */
  lemma {:induction false} FirstOccurrence(doc: seq<Item>, tail: string, key: string, strOnly: bool)
    requires WellFormed(doc, tail) && Plain(key)
    ensures var i := IndexOf(doc, key, strOnly);
            AfterFirst(Print(doc, tail), Needle(key, More(strOnly)))
            == (if i == |doc| then None
                else if strOnly then Some(doc[i].value.text + "\"" + Print(doc[i + 1..], tail))
                else Some(PrintValue(doc[i].value) + Print(doc[i + 1..], tail)))
  {
    hide AfterFirst, Needle, PrintItem;
    if doc == [] {
      SkipAll(tail, key, More(strOnly));
    } else {
      var item, rest := doc[0], doc[1..];
      var r := Print(rest, tail);
      assert item in doc && PlainItem(item) && WellFormed(rest, tail) && Print(doc, tail) == PrintItem(item) + r;
      hide Print, WellFormed, PlainItem, Plain;
      AtItem(item, rest, tail, key, More(strOnly));
      if Hit(item, key, strOnly) {
        BehindColon(item.value, r);
      } else {
        FirstOccurrence(rest, tail, key, strOnly);
        var i := IndexOf(rest, key, strOnly);
        assert i < |rest| ==> rest[i + 1..] == doc[i + 2..];
      }
    }
  }

  lemma BehindColon(v: Value, r: string)
    ensures (":" + PrintValue(v) + r)[1..] == PrintValue(v) + r
    ensures v.Str? ==> (":" + PrintValue(v) + r)[2..] == v.text + "\"" + r
  {
  }

  // ---------------------------------------------------------------------------------------
  // Reading a document

  /** extract_string returns the first string value with the key. */
  lemma StringReads(doc: seq<Item>, tail: string, key: string)
    requires WellFormed(doc, tail) && Plain(key)
    ensures var i := IndexOf(doc, key, true);
            StringOf(Print(doc, tail), key) == if i == |doc| then "" else doc[i].value.text
  {
    hide AfterFirst, UntilQuote, Print, Needle, IndexOf;
    var i := IndexOf(doc, key, true);
    if i < |doc| {
      assert doc[i] in doc;
      UntilQuoteExact(doc[i].value.text, Print(doc[i + 1..], tail));
    }
    hide WellFormed, Plain, PlainItem;
    NeedleForms(key);
    FirstOccurrence(doc, tail, key, true);
  }

  /** What the bare readers meet behind item i: the next lead, or the end of the document. */
  function Behind(doc: seq<Item>, tail: string, i: nat): string
    requires i < |doc|
  {
    if i + 1 < |doc| then doc[i + 1].lead else tail
  }

  /** A value a reader that skips blanks and then takes the chars of p reads exactly. */
  ghost predicate Reads(p: char -> bool, skip: char -> bool, doc: seq<Item>, tail: string, i: nat)
    requires i < |doc|
  {
    var text, next := doc[i].value.text, Behind(doc, tail, i);
    && doc[i].value.Bare?
    && (forall c <- text :: p(c)) && (text != "" ==> !skip(text[0]))
    && next != "" && !p(next[0]) && !skip(next[0])
  }

  /** Texts a bare value may have to be read back by the dialog. */
  predicate CleanValue(s: string) {
    QuoteFree(s) && (forall c <- s :: FieldChar(c)) && (s != "" ==> !Blank(s[0]))
  }

  lemma BareReads(p: char -> bool, skip: char -> bool, doc: seq<Item>, tail: string, i: nat)
    requires i < |doc| && Reads(p, skip, doc, tail, i)
    ensures TakeWhile(p, DropWhile(skip, doc[i].value.text + Print(doc[i + 1..], tail))) == doc[i].value.text
  {
    var text, r := doc[i].value.text, Print(doc[i + 1..], tail);
    assert r != "" && r[0] == Behind(doc, tail, i)[0];
    assert text != "" ==> (text + r)[0] == text[0];
    assert text == "" ==> text + r == r;
    TakeWhileExact(p, text, r);
  }

  /** ExtractField returns the first string value with the key, else the first bare one. */
  lemma FieldReads(doc: seq<Item>, tail: string, key: string)
    requires WellFormed(doc, tail) && Plain(key)
    ensures var i, j := IndexOf(doc, key, true), IndexOf(doc, key, false);
            && (i < |doc| ==> FieldOf(Print(doc, tail), key) == doc[i].value.text)
            && (j == |doc| ==> FieldOf(Print(doc, tail), key) == "")
            && (i == |doc| && j < |doc| && Reads(FieldChar, Blank, doc, tail, j) ==>
                  FieldOf(Print(doc, tail), key) == doc[j].value.text)
  {
    hide AfterFirst, UntilQuote, Print, TakeWhile, DropWhile, Needle, IndexOf;
    NeedleForms(key);
    FirstOccurrence(doc, tail, key, true);
    FirstOccurrence(doc, tail, key, false);
    var i, j := IndexOf(doc, key, true), IndexOf(doc, key, false);
    if i < |doc| {
      assert doc[i] in doc;
      UntilQuoteExact(doc[i].value.text, Print(doc[i + 1..], tail));
    } else if j < |doc| && Reads(FieldChar, Blank, doc, tail, j) {
      BareReads(FieldChar, Blank, doc, tail, j);
    }
  }

  /** extract_number returns the first value with the key, or "0". */
  lemma NumberReads(doc: seq<Item>, tail: string, key: string)
    requires WellFormed(doc, tail) && Plain(key)
    ensures var j := IndexOf(doc, key, false);
            && (j == |doc| ==> NumberOf(Print(doc, tail), key) == "0")
            && (j < |doc| && Reads(NumberChar, Blank, doc, tail, j) ==>
                  NumberOf(Print(doc, tail), key) == doc[j].value.text)
  {
    hide AfterFirst, Print, TakeWhile, DropWhile, Needle, IndexOf;
    NeedleForms(key);
    FirstOccurrence(doc, tail, key, false);
    var j := IndexOf(doc, key, false);
    if j < |doc| && Reads(NumberChar, Blank, doc, tail, j) {
      BareReads(NumberChar, Blank, doc, tail, j);
    }
  }

  lemma {:induction false} PrintConcat(a: seq<Item>, b: seq<Item>, tail: string)
    ensures Print(a + b, tail) == Print(a, Print(b, tail))
  {
    hide PrintItem;
    if a == [] {
      assert a + b == b;
    } else {
      PrintConcat(a[1..], b, tail);
      assert (a + b)[1..] == a[1..] + b;
    }
  }

  lemma {:induction false} PrintTail(doc: seq<Item>, tail: string, more: string)
    ensures Print(doc, tail + more) == Print(doc, tail) + more
  {
    hide PrintItem;
    if doc != [] {
      PrintTail(doc[1..], tail, more);
      var a, b := PrintItem(doc[0]), Print(doc[1..], tail);
      ConcatAssociative(a, b, more);
    }
  }

  /** Building a printed document piece by piece, as the services do on their streams. */
  lemma {:induction false} AppendItem(doc: seq<Item>, item: Item, before: string, piece: string, behind: string)
    requires before + piece == PrintItem(item) + behind
    ensures Print(doc, before) + piece == Print(doc + [item], behind)
  {
    hide PrintItem;
    if doc == [] {
      assert doc + [item] == [item];
    } else {
      AppendItem(doc[1..], item, before, piece, behind);
      assert (doc + [item])[1..] == doc[1..] + [item];
      var a, b := PrintItem(doc[0]), Print(doc[1..], before);
      ConcatAssociative(a, b, piece);
    }
  }

  lemma AppendStr(doc: seq<Item>, lead: string, key: string, text: string,
                  opening: string, closing: string, behind: string)
    requires opening == "\"" + key + "\":\"" && closing == "\"" + behind
    ensures Print(doc, lead) + opening + text + closing == Print(doc + [Item(lead, key, Str(text))], behind)
  {
    hide Print;
    var item := Item(lead, key, Str(text));
    assert lead + (opening + text + closing) == PrintItem(item) + behind;
    AppendItem(doc, item, lead, opening + text + closing, behind);
    assert Print(doc, lead) + (opening + text + closing) == Print(doc, lead) + opening + text + closing;
  }

  /** The usual case, a string field closed with its quote and a comma. */
  lemma AppendStrComma(doc: seq<Item>, lead: string, key: string, text: string, opening: string)
    requires opening == "\"" + key + "\":\""
    ensures Print(doc, lead) + opening + text + "\"," == Print(doc + [Item(lead, key, Str(text))], ",")
  {
    hide Print;
    AppendStr(doc, lead, key, text, opening, "\",", ",");
  }

  lemma AppendBare(doc: seq<Item>, lead: string, key: string, text: string, opening: string, behind: string)
    requires opening == "\"" + key + "\":"
    ensures Print(doc, lead) + opening + text + behind == Print(doc + [Item(lead, key, Bare(text))], behind)
  {
    hide Print;
    var item := Item(lead, key, Bare(text));
    assert lead + (opening + text + behind) == PrintItem(item) + behind;
    AppendItem(doc, item, lead, opening + text + behind, behind);
    assert Print(doc, lead) + (opening + text + behind) == Print(doc, lead) + opening + text + behind;
  }

  // ---------------------------------------------------------------------------------------
  // Counting occurrences

  function CountAfter(s: string, needle: string): nat
    requires needle != ""
    decreases |s|
  {
    match AfterFirst(s, needle)
    case None => 0
    case Some(t) => 1 + CountAfter(t, needle)
  }

  function KeyCount(doc: seq<Item>, key: string): nat {
    if doc == [] then 0 else (if doc[0].key == key then 1 else 0) + KeyCount(doc[1..], key)
  }

  lemma {:induction false} KeyCountConcat(a: seq<Item>, b: seq<Item>, key: string)
    ensures KeyCount(a + b, key) == KeyCount(a, key) + KeyCount(b, key)
  {
    if a == [] {
      assert a + b == b;
    } else {
      KeyCountConcat(a[1..], b, key);
      assert (a + b)[1..] == a[1..] + b;
    }
  }

  lemma OneItem(item: Item, key: string)
    ensures KeyCount([item], key) == if item.key == key then 1 else 0
  {
    assert KeyCount([item][1..], key) == 0;
  }

  /** A document holds the needle of a key as often as it has items with that key. */
  lemma {:induction false} CountsKeys(doc: seq<Item>, tail: string, key: string)
    requires WellFormed(doc, tail) && Plain(key)
    ensures CountAfter(Print(doc, tail), Needle(key, ":")) == KeyCount(doc, key)
  {
    hide AfterFirst, Needle;
    if doc == [] {
      SkipAll(tail, key, ":");
    } else {
      var item, rest := doc[0], doc[1..];
      var r := Print(rest, tail);
      CountsKeys(rest, tail, key);
      AtItem(item, rest, tail, key, ":");
      SkipValue(item.value, rest, tail, key, ":");
      assert (":" + PrintValue(item.value) + r)[1..] == PrintValue(item.value) + r;
    }
  }

  /** The dialog's loops `while ((p = find(needle, p)) != npos) { ++count; ++p; }`. */
  method CountOccurrences(json: string, key: string) returns (count: nat)
    requires Plain(key)
    ensures count == CountAfter(json, KeyNeedle(key))
  {
    hide AfterFirst, Find;
    NeedleForms(key);
    count := 0;
    var n := |KeyNeedle(key)|;
    var p: nat := 0;
    assert json[0..] == json;
    while true
      invariant p <= |json| && count + CountAfter(json[p..], KeyNeedle(key)) == CountAfter(json, KeyNeedle(key))
      decreases |json| - p
    {
      var found := Find(json, KeyNeedle(key), p);
      FindIsAfterFirst(json, KeyNeedle(key), p);
      if found == -1 {
        break;
      }
      RestartInside(json, key, found);
      count, p := count + 1, found + 1;
    }
  }

  /** A string value is read by its key if no string before it has the same key. */
  lemma FieldAt(doc: seq<Item>, tail: string, i: nat)
    requires WellFormed(doc, tail) && i < |doc| && doc[i].value.Str?
    requires forall j :: 0 <= j < i ==> doc[j].value.Bare? || doc[j].key != doc[i].key
    ensures FieldOf(Print(doc, tail), doc[i].key) == doc[i].value.text
  {
    assert doc[i] in doc && Plain(doc[i].key);
    hide Print, FieldOf, IndexOf, WellFormed, Plain;
    IndexIs(doc, doc[i].key, true, i);
    FieldReads(doc, tail, doc[i].key);
  }

  lemma StringAt(doc: seq<Item>, tail: string, i: nat)
    requires WellFormed(doc, tail) && i < |doc| && doc[i].value.Str?
    requires forall j :: 0 <= j < i ==> doc[j].value.Bare? || doc[j].key != doc[i].key
    ensures StringOf(Print(doc, tail), doc[i].key) == doc[i].value.text
  {
    assert doc[i] in doc && Plain(doc[i].key);
    hide Print, StringOf, IndexOf, WellFormed, Plain;
    IndexIs(doc, doc[i].key, true, i);
    StringReads(doc, tail, doc[i].key);
  }

  lemma NumberAt(doc: seq<Item>, tail: string, i: nat)
    requires WellFormed(doc, tail) && i < |doc| && Reads(NumberChar, Blank, doc, tail, i)
    requires forall j :: 0 <= j < i ==> doc[j].key != doc[i].key
    ensures NumberOf(Print(doc, tail), doc[i].key) == doc[i].value.text
  {
    assert doc[i] in doc && Plain(doc[i].key);
    hide Print, NumberOf, IndexOf, WellFormed, Plain;
    IndexIs(doc, doc[i].key, false, i);
    NumberReads(doc, tail, doc[i].key);
  }

  /** A bare value is read by its key if no string and nothing before it has the same key. */
  lemma BareFieldAt(doc: seq<Item>, tail: string, i: nat)
    requires WellFormed(doc, tail) && i < |doc| && Reads(FieldChar, Blank, doc, tail, i)
    requires forall j :: 0 <= j < |doc| && (j < i || doc[j].value.Str?) ==> doc[j].key != doc[i].key
    ensures FieldOf(Print(doc, tail), doc[i].key) == doc[i].value.text
  {
    assert doc[i] in doc && Plain(doc[i].key);
    hide Print, FieldOf, IndexOf, WellFormed, Plain;
    IndexIs(doc, doc[i].key, true, |doc|);
    IndexIs(doc, doc[i].key, false, i);
    FieldReads(doc, tail, doc[i].key);
  }

  /** A string and then bare values, under different keys, are all read by their keys. */
  lemma AllByKey(doc: seq<Item>, tail: string)
    requires WellFormed(doc, tail) && doc != [] && doc[0].value.Str?
    requires forall j :: 1 <= j < |doc| ==> Reads(FieldChar, Blank, doc, tail, j) && doc[j].value.Bare?
    requires forall i, j :: 0 <= i < j < |doc| ==> doc[i].key != doc[j].key
    ensures forall j :: 0 <= j < |doc| ==> FieldOf(Print(doc, tail), doc[j].key) == doc[j].value.text
  {
    hide *;
    FieldAt(doc, tail, 0);
    forall j | 1 <= j < |doc| ensures FieldOf(Print(doc, tail), doc[j].key) == doc[j].value.text {
      BareFieldAt(doc, tail, j);
    }
  }

  /** Going on one character into an occurrence finds what going on behind it finds. */
  lemma RestartInside(json: string, key: string, i: nat)
    requires Plain(key) && MatchesAt(json, Needle(key, ":"), i)
    ensures CountAfter(json[i + 1..], Needle(key, ":")) == CountAfter(json[i + |Needle(key, ":")|..], Needle(key, ":"))
  {
    var n := Needle(key, ":");
    var t := json[i + |n|..];
    assert json[i..] == n + t;
    assert json[i + 1..] == key + ("\"" + (":" + t));
    SkipPlain(key, "\"" + (":" + t), key, ":");
    var s := "\"" + (":" + t);
    assert n[1] == key[0] && s[1] == ':';
    assert s[1..] == ":" + t;
    SkipPlain(":", t, key, ":");
  }
}
