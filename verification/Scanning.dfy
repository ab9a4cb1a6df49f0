/** ui_client/src/MainDlg.cpp, the loops that take the entries of a list out of a response: from
    an opening brace and a key to the next closing brace, and on behind it. */
module Scanning {
  import opened JsonText
  import opened Documents
  import opened Sequences

  // ---------------------------------------------------------------------------------------
  // The scan

  function Opening(key: string): string {
    "{" + KeyNeedle(key)
  }

  /** The entries a text is taken apart into. */
  function EntriesIn(t: string, key: string): seq<string>
    decreases |t|
  {
    var start := Find(t, Opening(key), 0);
    if start == -1 then []
    else
      var end := Find(t, "}", start);
      if end == -1 then [] else [t[start..end + 1]] + EntriesIn(t[end + 1..], key)
  }

  /** One round of the loops. */
  method NextEntry(json: string, key: string, p: nat) returns (found: bool, entry: string, next: nat)
    requires p <= |json|
    ensures found ==> p < next <= |json| && EntriesIn(json[p..], key) == [entry] + EntriesIn(json[next..], key)
    ensures !found ==> EntriesIn(json[p..], key) == []
  {
    hide Find, EntriesIn, Opening;
    found, entry, next := false, "", p;
    var start := Find(json, Opening(key), p);
    FindInSuffix(json, Opening(key), p);
    if start == -1 {
      ScanStops(json[p..], key);
      return;
    }
    var end := Find(json, "}", start);
    FindFromSuffix(json, "}", p, start);
    if end == -1 {
      ScanStops(json[p..], key);
      return;
    }
    ScanStep(json[p..], key, start - p, end - p);
    found, entry, next := true, json[start..end + 1], end + 1;
    assert entry == json[p..][start - p..end - p + 1] && json[p..][end - p + 1..] == json[end + 1..];
  }

  lemma ScanStep(t: string, key: string, start: nat, end: nat)
    requires Find(t, Opening(key), 0) == start && Find(t, "}", start) == end
    ensures start <= end < |t| && EntriesIn(t, key) == [t[start..end + 1]] + EntriesIn(t[end + 1..], key)
  {
    hide Find, Opening;
  }

  lemma ScanStops(t: string, key: string)
    requires Find(t, Opening(key), 0) == -1 || Find(t, "}", Find(t, Opening(key), 0)) == -1
    ensures EntriesIn(t, key) == []
  {
    hide Find, Opening;
  }

  lemma FindFromSuffix(s: string, needle: string, p: nat, from: nat)
    requires p <= from <= |s|
    ensures var r := Find(s[p..], needle, from - p); Find(s, needle, from) == if r == -1 then -1 else p + r
  {
    hide Find;
    FindInSuffix(s, needle, from);
    FindInSuffix(s[p..], needle, from - p);
    assert s[p..][from - p..] == s[from..];
  }

  // ---------------------------------------------------------------------------------------
  // Lists of entries in a document

  predicate Opens(e: seq<Item>) {
    e != [] && e[0].lead == "{"
  }

  /** An entry of a list: an opening brace with the key, items with other keys, no braces in
      its texts. */
  ghost predicate IsEntry(e: seq<Item>, key: string) {
    && Opens(e) && e[0].key == key
    && (forall item <- e :: PlainItem(item) && BraceFree(item))
  }

  predicate BraceFree(item: Item) {
    '}' !in item.lead && '}' !in item.key && '}' !in item.value.text
  }

  /** An entry with other punctuation before it. */
  function Led(lead: string, e: seq<Item>): seq<Item> {
    if e == [] then [] else [Item(lead, e[0].key, e[0].value)] + e[1..]
  }

  function List(lead: string, es: seq<seq<Item>>): seq<Item>
    decreases |es|
  {
    if es == [] then [] else Led(lead, es[0]) + List("},{", es[1..])
  }

  function EntryText(e: seq<Item>): string {
    Print(e, "}")
  }

  /** The entries behind the first, each after one comma, and what follows the list. */
  function Rest(es: seq<seq<Item>>, end: string): string {
    if es == [] then end else "," + EntryText(es[0]) + Rest(es[1..], end)
  }

  lemma BraceComma(s: string, t: string)
    ensures "}," + s + t == "}" + ("," + s + t)
  {
    assert "}," == "}" + ",";
    ConcatAssociative("}", ",", s);
    ConcatAssociative("}", "," + s, t);
  }

  lemma LeadOut(lead: string, e: seq<Item>)
    requires e != [] && e[0].lead == "{"
    ensures Print(Led(lead + "{", e), "}") == lead + EntryText(e)
  {
    hide PrintValue;
    var a := Led(lead + "{", e);
    assert a[1..] == e[1..];
    var r := Print(a[1..], "}");
    assert PrintItem(a[0]) == lead + PrintItem(e[0]);
    ConcatAssociative(lead, PrintItem(e[0]), r);
  }

  /** A document with a list is its beginning, the entries separated by single commas, and the
      end: no comma before the first or behind the last. */
  lemma {:induction false} ListText(pre: seq<Item>, lead: string, es: seq<seq<Item>>,
                                    post: seq<Item>, tail: string, end: string)
    requires es != [] && (forall e <- es :: Opens(e)) && Print(post, tail) == "}" + end
    ensures Print(pre + (List(lead + "{", es) + post), tail) == Print(pre, lead) + EntryText(es[0]) + Rest(es[1..], end)
    decreases |es|
  {
    hide EntryText, Led;
    var e, more := es[0], es[1..];
    assert e in es && Opens(e);
    var items := Led(lead + "{", e);
    assert Print(List("},{", more) + post, tail) == "}" + Rest(more, end) by {
      hide Print;
      if more == [] {
        assert [] + post == post;
      } else {
        assert "}," + "{" == "},{" && [] + (List("},{", more) + post) == List("},{", more) + post;
        ListText([], "},", more, post, tail, end);
        Empty("},");
        BraceComma(EntryText(more[0]), Rest(more[1..], end));
      }
    }
    hide Print, Rest;
    var list := List("},{", more) + post;
    ConcatAssociative(items, List("},{", more), post);
    PrintConcat(pre, items + list, tail);
    PrintConcat(items, list, tail);
    PrintTail(items, "}", Rest(more, end));
    LeadOut(lead, e);
    ConcatAssociative(lead, EntryText(e), Rest(more, end));
    PrintTail(pre, lead, EntryText(e) + Rest(more, end));
    ConcatAssociative(Print(pre, lead), EntryText(e), Rest(more, end));
  }

  lemma Empty(tail: string)
    ensures Print([], tail) == tail
  {
  }

  // ---------------------------------------------------------------------------------------
  // The scan finds them

  /** If a key is first found behind a brace, so is the brace with the key. */
  lemma OpeningFound(t: string, a: string, key: string, behind: string)
    requires t == a + Opening(key) + behind && AfterFirst(t, KeyNeedle(key)) == Some(behind)
    ensures Find(t, Opening(key), 0) == |a|
  {
    hide *;
    Longer(key);
    Middle(t, a, Opening(key), behind);
    FirstIsAt(t, KeyNeedle(key), behind);
    OpeningAt(t, key, |a|);
  }

  lemma Longer(key: string)
    ensures |Opening(key)| == |KeyNeedle(key)| + 1 && KeyNeedle(key) != ""
  {
  }

  lemma Middle(t: string, a: string, b: string, c: string)
    requires t == a + b + c
    ensures MatchesAt(t, b, |a|) && |t| == |a| + |b| + |c|
  {
  }

  lemma FirstIsAt(t: string, n: string, behind: string)
    requires n != "" && AfterFirst(t, n) == Some(behind)
    ensures Find(t, n, 0) == |t| - |behind| - |n|
  {
    hide *;
    FindIsAfterFirst(t, n, 0);
    assert t[0..] == t;
    var q := Find(t, n, 0);
    MatchIsInside(t, n, q);
    SameSuffix(t, q + |n|, behind);
  }

  lemma MatchIsInside(t: string, n: string, i: nat)
    requires MatchesAt(t, n, i)
    ensures i + |n| <= |t|
  {
  }

  lemma OpeningAt(t: string, key: string, k: nat)
    requires Find(t, KeyNeedle(key), 0) == k + 1 && MatchesAt(t, Opening(key), k)
    ensures Find(t, Opening(key), 0) == k
  {
    hide *;
    forall i: nat | i < k ensures !MatchesAt(t, Opening(key), i) {
      if MatchesAt(t, Opening(key), i) {
        MatchBehind(t, key, i);
      }
    }
    FindIs(t, Opening(key), 0, k);
  }

  lemma SameSuffix(t: string, i: nat, u: string)
    requires i <= |t| && t[i..] == u
    ensures i == |t| - |u|
  {
  }

  lemma MatchBehind(t: string, key: string, i: nat)
    requires MatchesAt(t, Opening(key), i)
    ensures MatchesAt(t, KeyNeedle(key), i + 1)
  {
    var n := Opening(key);
    assert n[1..] == KeyNeedle(key);
    assert t[i + 1..i + |n|] == t[i..i + |n|][1..];
  }

  /** The text of a list, split behind the first key. */
  lemma ListBegins(pre: seq<Item>, lead: string, item: Item, more: seq<Item>, tail: string)
    ensures Print(pre + ([Item(lead + "{", item.key, item.value)] + more), tail)
         == Print(pre, lead) + Opening(item.key) + (PrintValue(item.value) + Print(more, tail))
  {
    hide PrintValue;
    var first := Item(lead + "{", item.key, item.value);
    var r := PrintValue(item.value) + Print(more, tail);
    assert ([first] + more)[1..] == more;
    assert Print([first] + more, tail) == PrintItem(first) + Print(more, tail);
    PrintConcat(pre, [first] + more, tail);
    hide Print;
    assert PrintItem(first) + Print(more, tail) == lead + (Opening(item.key) + r);
    PrintTail(pre, lead, Opening(item.key) + r);
    ConcatAssociative(Print(pre, lead), Opening(item.key), r);
  }

  /** Documents whose first item with the key is the first of a list. */
  ghost predicate ListedIn(pre: seq<Item>, es: seq<seq<Item>>, post: seq<Item>, tail: string, end: string,
                           key: string)
  {
    && Plain(key) && Plain(tail) && Print(post, tail) == "}" + end && EntriesIn(end, key) == []
    && (forall e <- es :: IsEntry(e, key))
    && (forall item <- pre :: PlainItem(item) && item.key != key) && (forall item <- post :: PlainItem(item))
  }

  lemma {:induction false} ListIsPlain(lead: string, es: seq<seq<Item>>, key: string)
    requires Plain(lead) && forall e <- es :: IsEntry(e, key)
    ensures forall item <- List(lead, es) :: PlainItem(item)
    decreases |es|
  {
    if es != [] {
      assert es[0] in es && es[0][0] in es[0];
      CommaIsPlain();
      ListIsPlain("},{", es[1..], key);
      hide PlainItem, Plain;
      assert forall item <- es[0][1..] :: item in es[0];
    }
  }

  lemma CommaIsPlain()
    ensures Plain("},{") && Plain(",{") && Plain("{")
  {
  }

  lemma ListUnfolds(lead: string, es: seq<seq<Item>>, post: seq<Item>, key: string)
    requires es != [] && IsEntry(es[0], key)
    ensures List(lead + "{", es) + post
         == [Item(lead + "{", key, es[0][0].value)] + (es[0][1..] + List("},{", es[1..]) + post)
  {
    hide PlainItem, BraceFree;
  }

  /** The first item with a key is found by it. */
  lemma KeyFound(pre: seq<Item>, item: Item, more: seq<Item>, tail: string)
    requires (forall i <- pre :: i.key != item.key) && Plain(item.key) && WellFormed(pre + ([item] + more), tail)
    ensures AfterFirst(Print(pre + ([item] + more), tail), KeyNeedle(item.key))
         == Some(PrintValue(item.value) + Print(more, tail))
  {
    var doc := pre + ([item] + more);
    assert doc[|pre|] == item && doc[|pre| + 1..] == more;
    hide *;
    FirstKey(pre, item, more);
    NeedleForms(item.key);
    FirstOccurrence(doc, tail, item.key, false);
    MoreIs();
  }

  lemma MoreIs()
    ensures More(false) == ":"
  {
  }

  lemma ListedWellFormed(pre: seq<Item>, lead: string, es: seq<seq<Item>>,
                         post: seq<Item>, tail: string, end: string, key: string)
    requires Plain(lead + "{") && ListedIn(pre, es, post, tail, end, key)
    ensures WellFormed(pre + (List(lead + "{", es) + post), tail)
  {
    hide Plain, PlainItem, IsEntry, Print, EntriesIn, List;
    ListIsPlain(lead + "{", es, key);
  }

  lemma FirstEntryFound(pre: seq<Item>, lead: string, es: seq<seq<Item>>,
                        post: seq<Item>, tail: string, end: string, key: string)
    requires es != [] && Plain(lead + "{") && ListedIn(pre, es, post, tail, end, key)
    ensures Find(Print(pre, lead) + EntryText(es[0]) + Rest(es[1..], end), Opening(key), 0) == |Print(pre, lead)|
  {
    assert es[0] in es && es[0] != [] && es[0][0].key == key && Opens(es[0]);
    hide *;
    var e := es[0];
    var more := e[1..] + List("},{", es[1..]) + post;
    ListUnfolds(lead, es, post, key);
    ListText(pre, lead, es, post, tail, end);
    ListedWellFormed(pre, lead, es, post, tail, end, key);
    KeyFound(pre, Item(lead + "{", key, e[0].value), more, tail);
    ListBegins(pre, lead, Item("{", key, e[0].value), more, tail);
    var text := Print(pre, lead) + EntryText(e) + Rest(es[1..], end);
    OpeningFound(text, Print(pre, lead), key, PrintValue(e[0].value) + Print(more, tail));
  }

  lemma FirstKey(pre: seq<Item>, item: Item, more: seq<Item>)
    requires forall i <- pre :: i.key != item.key
    ensures IndexOf(pre + ([item] + more), item.key, false) == |pre|
  {
    hide IndexOf;
    var doc := pre + ([item] + more);
    forall j | 0 <= j < |pre| ensures doc[j].key != item.key {
      assert pre[j] in pre;
    }
    IndexIs(doc, item.key, false, |pre|);
  }

  lemma {:induction false} NoBraces(doc: seq<Item>)
    requires forall item <- doc :: BraceFree(item)
    ensures '}' !in Print(doc, "")
  {
    if doc != [] {
      assert doc[0] in doc;
      NoBraces(doc[1..]);
    }
  }

  lemma FirstBrace(a: string, body: string, r: string)
    requires '}' !in body
    ensures var t := a + (body + "}") + r; Find(t, "}", |a|) == |a| + |body|
  {
    hide Find, MatchesAt;
    var t, end := a + (body + "}") + r, |a| + |body|;
    assert t[end] == '}';
    CharAt(t, '}', end);
    forall i: nat | |a| <= i < end ensures !MatchesAt(t, "}", i) {
      assert t[i] == body[i - |a|];
      CharAt(t, '}', i);
    }
    FindIs(t, "}", |a|, end);
  }

  /** An entry ends at its first closing brace. */
  lemma ClosingBrace(a: string, e: seq<Item>, r: string)
    requires forall item <- e :: BraceFree(item)
    ensures var t, n := a + EntryText(e) + r, |EntryText(e)|;
            && n > 0 && Find(t, "}", |a|) == |a| + n - 1
            && t[|a|..|a| + n] == EntryText(e) && t[|a| + n..] == r
  {
    hide Find, Print, BraceFree;
    var body := Print(e, "");
    assert "" + "}" == "}";
    PrintTail(e, "", "}");
    NoBraces(e);
    FirstBrace(a, body, r);
  }

  function Texts(es: seq<seq<Item>>): (ts: seq<string>)
    ensures |ts| == |es|
  {
    seq(|es|, i requires 0 <= i < |es| => EntryText(es[i]))
  }

  /** The scan yields the entries of the list, all of them, in order, and nothing else. */
  lemma {:induction false} EntriesFound(pre: seq<Item>, lead: string, es: seq<seq<Item>>,
                                        post: seq<Item>, tail: string, end: string, key: string)
    requires es != [] && Plain(lead + "{") && ListedIn(pre, es, post, tail, end, key)
    ensures EntriesIn(Print(pre, lead) + EntryText(es[0]) + Rest(es[1..], end), key) == Texts(es)
    decreases |es|
  {
    hide Find, Print, EntryText, Plain, PlainItem, BraceFree, Opening, EntriesIn;
    var e, more := es[0], es[1..];
    var a, r, m := Print(pre, lead), Rest(more, end), |EntryText(e)|;
    assert e in es;
    FirstEntryFound(pre, lead, es, post, tail, end, key);
    ClosingBrace(a, e, r);
    ScanStep(a + EntryText(e) + r, key, |a|, |a| + m - 1);
    assert Texts(es) == [EntryText(e)] + Texts(more);
    if more != [] {
      CommaIsPlain();
      Empty(",");
      assert "," + "{" == ",{";
      EntriesFound([], ",", more, post, tail, end, key);
    }
  }

  /** The same of the whole document. */
  lemma DocumentScanned(pre: seq<Item>, es: seq<seq<Item>>, post: seq<Item>, tail: string, end: string, key: string)
    requires es != [] && ListedIn(pre, es, post, tail, end, key)
    ensures EntriesIn(Print(pre + (List("{", es) + post), tail), key) == Texts(es)
  {
    hide Find, Print, EntryText, Rest, Plain, PlainItem, BraceFree, EntriesIn, List;
    assert "" + "{" == "{";
    CommaIsPlain();
    ListText(pre, "", es, post, tail, end);
    EntriesFound(pre, "", es, post, tail, end, key);
  }

  /** Behind the list, items with other keys hold no more entries. */
  lemma NoMoreEntries(post: seq<Item>, tail: string, end: string, key: string)
    requires WellFormed(post, tail) && Plain(key) && (forall item <- post :: item.key != key)
    requires Print(post, tail) == "}" + end
    ensures EntriesIn(end, key) == []
  {
    hide *;
    var text, needle := Print(post, tail), KeyNeedle(key);
    forall j | 0 <= j < |post| ensures post[j].key != key {
      assert post[j] in post;
    }
    NoSuchKey(post, tail, key);
    var r := Find(end, Opening(key), 0);
    if r != -1 {
      MatchBehind(end, key, r);
      MatchShifts("}", end, needle, r + 1);
      assert false;
    }
    ScanStops(end, key);
  }

  lemma NoSuchKey(doc: seq<Item>, tail: string, key: string)
    requires WellFormed(doc, tail) && Plain(key) && forall j :: 0 <= j < |doc| ==> doc[j].key != key
    ensures forall i: nat :: !MatchesAt(Print(doc, tail), KeyNeedle(key), i)
  {
    hide Print, AfterFirst, Find, MatchesAt, WellFormed, Plain, IndexOf;
    var text, needle := Print(doc, tail), KeyNeedle(key);
    IndexIs(doc, key, false, |doc|);
    NeedleForms(key);
    FirstOccurrence(doc, tail, key, false);
    FindIsAfterFirst(text, needle, 0);
    assert text[0..] == text;
  }

  lemma MatchShifts(a: string, s: string, n: string, i: nat)
    requires MatchesAt(s, n, i)
    ensures MatchesAt(a + s, n, |a| + i)
  {
    assert (a + s)[|a| + i..|a| + i + |n|] == s[i..i + |n|];
  }
}
