/** The JSON of the services: printed by concatenation, read back by searching for the first
    `"key":`.  A document here is a list of items, each printed as a lead (punctuation), a
    quoted key, a colon and a value.  The reading side is specified by what follows the first
    occurrence of a needle, and the main lemmas say where first occurrences are in a document. */
module JsonText {

  datatype Option<+T> = None | Some(value: T)

  // ---------------------------------------------------------------------------------------
  // Searching

  predicate MatchesAt(s: string, needle: string, i: nat) {
    i + |needle| <= |s| && s[i..i + |needle|] == needle
  }

  /** std::string::find; -1 is npos. */
  function Find(s: string, needle: string, from: nat): (r: int)
    ensures r == -1 || (from <= r && MatchesAt(s, needle, r))
    ensures forall i: nat :: from <= i && (r == -1 || i < r) ==> !MatchesAt(s, needle, i)
    decreases |s| - from
  {
    if from + |needle| > |s| then -1
    else if MatchesAt(s, needle, from) then from
    else Find(s, needle, from + 1)
  }

  /** What follows the first occurrence of the needle. */
  function AfterFirst(s: string, needle: string): (t: Option<string>)
    requires needle != ""
    ensures t.Some? ==> |t.value| < |s|
  {
    if |s| < |needle| then None
    else if s[..|needle|] == needle then Some(s[|needle|..])
    else AfterFirst(s[1..], needle)
  }

  lemma {:induction false} FindIsAfterFirst(s: string, needle: string, from: nat)
    requires needle != "" && from <= |s|
    ensures var r := Find(s, needle, from);
            AfterFirst(s[from..], needle) == if r == -1 then None else Some(s[r + |needle|..])
    decreases |s| - from
  {
    var t := s[from..];
    if from + |needle| <= |s| {
      assert t[..|needle|] == s[from..from + |needle|];
      assert t[|needle|..] == s[from + |needle|..];
      assert t[1..] == s[from + 1..];
      if t[..|needle|] != needle {
        FindIsAfterFirst(s, needle, from + 1);
      }
    }
  }

  lemma FindIs(s: string, needle: string, from: nat, r: nat)
    requires from <= r && MatchesAt(s, needle, r)
    requires forall i: nat :: from <= i < r ==> !MatchesAt(s, needle, i)
    ensures Find(s, needle, from) == r
  {
    hide Find;
  }

  /** Searching from a position is searching the text from there on. */
  lemma FindInSuffix(s: string, needle: string, from: nat)
    requires from <= |s|
    ensures var r := Find(s[from..], needle, 0); Find(s, needle, from) == if r == -1 then -1 else from + r
  {
    hide Find;
    var t := s[from..];
    forall i: nat ensures MatchesAt(s, needle, from + i) <==> MatchesAt(t, needle, i) {
      if from + i + |needle| <= |s| {
        assert s[from + i..from + i + |needle|] == t[i..i + |needle|];
      }
    }
    var r, q := Find(t, needle, 0), Find(s, needle, from);
    if r != -1 {
      assert MatchesAt(s, needle, from + r);
    }
    if q != -1 {
      assert MatchesAt(t, needle, q - from);
    }
  }

  predicate QuoteFree(s: string) {
    '"' !in s
  }

  function TakeWhile(p: char -> bool, s: string): (t: string)
    ensures t <= s && (forall c <- t :: p(c)) && (|t| < |s| ==> !p(s[|t|]))
  {
    if s == "" || !p(s[0]) then "" else [s[0]] + TakeWhile(p, s[1..])
  }

  function DropWhile(p: char -> bool, s: string): string {
    if s == "" || !p(s[0]) then s else DropWhile(p, s[1..])
  }

  lemma {:induction false} TakeWhileExact(p: char -> bool, s: string, t: string)
    requires forall c <- s :: p(c)
    requires t == "" || !p(t[0])
    ensures TakeWhile(p, s + t) == s
  {
    if s == "" {
      assert s + t == t;
    } else {
      assert s[0] in s;
      assert (s + t)[1..] == s[1..] + t;
      TakeWhileExact(p, s[1..], t);
    }
  }

  predicate Blank(c: char) {
    c == ' ' || c == '\t'
  }

  predicate NumberChar(c: char) {
    '0' <= c <= '9' || c == '.' || c == '-'
  }

  predicate FieldChar(c: char) {
    c != ',' && c != '}'
  }

  predicate Unquoted(c: char) {
    c != '"'
  }

  /** The text up to the next quote; nothing if there is none. */
  function UntilQuote(t: string): (r: string)
    ensures QuoteFree(r)
  {
    if QuoteFree(t) then "" else TakeWhile(Unquoted, t)
  }

  lemma UntilQuoteExact(v: string, t: string)
    requires QuoteFree(v)
    ensures UntilQuote(v + "\"" + t) == v
  {
    assert (v + "\"" + t)[|v|] == '"';
    assert forall c <- v :: Unquoted(c);
    TakeWhileExact(Unquoted, v, "\"" + t);
    assert v + ("\"" + t) == v + "\"" + t;
  }

  // ---------------------------------------------------------------------------------------
  // The readers

  function StringNeedle(key: string): string {
    "\"" + key + "\":\""
  }

  function KeyNeedle(key: string): string {
    "\"" + key + "\":"
  }

  /** extract_string, the same in all four services. */
  function ExtractString(json: string, key: string): string {
    var needle := StringNeedle(key);
    var pos := Find(json, needle, 0);
    if pos == -1 then ""
    else
      var start := pos + |needle|;
      var end := Find(json, "\"", start);
      if end == -1 then "" else json[start..end]
  }

  function StringOf(json: string, key: string): string {
    match AfterFirst(json, StringNeedle(key))
    case None => ""
    case Some(t) => UntilQuote(t)
  }

  lemma UpToFoundQuote(json: string, start: nat)
    requires start <= |json|
    ensures var end := Find(json, "\"", start);
            UntilQuote(json[start..]) == if end == -1 then "" else json[start..end]
  {
    hide Find, UntilQuote;
    var end := Find(json, "\"", start);
    var stop := if end == -1 then |json| else end;
    var v := json[start..stop];
    forall i | start <= i < stop ensures json[i] != '"' {
      CharAt(json, '"', i);
    }
    if end == -1 {
      NoQuote(v);
      assert json[start..] == v;
    } else {
      CharAt(json, '"', end);
      UntilQuoteExact(v, json[end + 1..]);
      assert json[start..] == v + "\"" + json[end + 1..];
    }
  }

  lemma CharAt(s: string, c: char, i: nat)
    ensures MatchesAt(s, [c], i) <==> i < |s| && s[i] == c
  {
    assert i < |s| ==> s[i..i + 1] == [s[i]];
  }

  lemma NoQuote(t: string)
    requires QuoteFree(t)
    ensures UntilQuote(t) == ""
  {
  }

  lemma ExtractStringReads(json: string, key: string)
    ensures ExtractString(json, key) == StringOf(json, key)
  {
    hide UntilQuote, Find, AfterFirst;
    var needle := StringNeedle(key);
    FindIsAfterFirst(json, needle, 0);
    assert json[0..] == json;
    var pos := Find(json, needle, 0);
    if pos != -1 {
      UpToFoundQuote(json, pos + |needle|);
    }
  }

  function NumberOf(json: string, key: string): string {
    match AfterFirst(json, KeyNeedle(key))
    case None => "0"
    case Some(t) => TakeWhile(NumberChar, DropWhile(Blank, t))
  }

  /** extract_number of the trade service. */
  method ExtractNumber(json: string, key: string) returns (r: string)
    ensures r == NumberOf(json, key)
  {
    var needle := KeyNeedle(key);
    var found := Find(json, needle, 0);
    FindIsAfterFirst(json, needle, 0);
    assert json[0..] == json;
    if found == -1 {
      return "0";
    }
    var pos := SkipWhile(json, found + |needle|, Blank);
    var end := SkipWhile(json, pos, NumberChar);
    r := json[pos..end];
    SkipTaken(json, pos, end, NumberChar);
  }

  /** The loops `while (pos < size && p(json[pos])) ++pos`. */
  method SkipWhile(json: string, start: nat, p: char -> bool) returns (pos: nat)
    requires start <= |json|
    ensures start <= pos <= |json| && (forall i :: start <= i < pos ==> p(json[i]))
    ensures pos < |json| ==> !p(json[pos])
    ensures json[pos..] == DropWhile(p, json[start..])
  {
    pos := start;
    while pos < |json| && p(json[pos])
      invariant start <= pos <= |json| && (forall i :: start <= i < pos ==> p(json[i]))
      invariant DropWhile(p, json[pos..]) == DropWhile(p, json[start..])
    {
      assert json[pos..][1..] == json[pos + 1..];
      pos := pos + 1;
    }
  }

  lemma SkipTaken(json: string, pos: nat, end: nat, p: char -> bool)
    requires pos <= end <= |json| && (forall i :: pos <= i < end ==> p(json[i])) && (end < |json| ==> !p(json[end]))
    ensures TakeWhile(p, json[pos..]) == json[pos..end]
  {
    assert json[pos..] == json[pos..end] + json[end..];
    TakeWhileExact(p, json[pos..end], json[end..]);
  }

  function FieldOf(json: string, key: string): string {
    match AfterFirst(json, StringNeedle(key))
    case Some(t) => UntilQuote(t)
    case None =>
      match AfterFirst(json, KeyNeedle(key))
      case None => ""
      case Some(t) => TakeWhile(FieldChar, DropWhile(Blank, t))
  }

  /** ExtractField of the dialog client: a string value first, else a bare one. */
  method ExtractField(json: string, key: string) returns (r: string)
    ensures r == FieldOf(json, key)
  {
    hide UntilQuote, AfterFirst, TakeWhile, DropWhile, Find;
    assert json[0..] == json;
    var needle := StringNeedle(key);
    var found := Find(json, needle, 0);
    FindIsAfterFirst(json, needle, 0);
    if found != -1 {
      var start := found + |needle|;
      UpToFoundQuote(json, start);
      var end := Find(json, "\"", start);
      return if end != -1 then json[start..end] else "";
    }
    needle := KeyNeedle(key);
    found := Find(json, needle, 0);
    FindIsAfterFirst(json, needle, 0);
    if found == -1 {
      return "";
    }
    var pos := SkipWhile(json, found + |needle|, Blank);
    var end := SkipWhile(json, pos, FieldChar);
    r := json[pos..end];
    SkipTaken(json, pos, end, FieldChar);
  }

  // ---------------------------------------------------------------------------------------
  // What the loops take, by position

  lemma {:induction false} DropsTo(p: char -> bool, s: string, start: nat, pos: nat)
    requires start <= pos <= |s| && (forall i :: start <= i < pos ==> p(s[i])) && (pos < |s| ==> !p(s[pos]))
    ensures DropWhile(p, s[start..]) == s[pos..]
    decreases pos - start
  {
    if start < pos {
      DropsTo(p, s, start + 1, pos);
      assert s[start..][1..] == s[start + 1..];
    } else if start < |s| {
      assert s[start..][0] == s[start];
    }
  }

  lemma CharSets(c: char)
    ensures Blank(c) <==> c in " \t"
    ensures NumberChar(c) <==> c in "0123456789.-"
    ensures FieldChar(c) <==> c !in ",}"
  {
  }

  /** Where the text behind the first occurrence of a needle starts. */
  predicate StartsBehind(json: string, needle: string, start: nat) {
    Find(json, needle, 0) != -1 && start == Find(json, needle, 0) + |needle|
  }

  lemma AfterStart(json: string, needle: string, start: nat)
    requires needle != "" && StartsBehind(json, needle, start)
    ensures start <= |json| && AfterFirst(json, needle) == Some(json[start..])
  {
    hide AfterFirst, Find;
    FindIsAfterFirst(json, needle, 0);
    assert json[0..] == json;
  }

  /** Behind the first occurrence of the key come blanks and tabs up to pos, and then digits,
      points and minus signs up to end: what extract_number returns are the latter. */
  lemma NumberIs(json: string, key: string, start: nat, pos: nat, end: nat)
    requires StartsBehind(json, KeyNeedle(key), start) && start <= pos <= end <= |json|
    requires (forall i :: start <= i < pos ==> json[i] in " \t") && (pos < |json| ==> json[pos] !in " \t")
    requires forall i :: pos <= i < end ==> json[i] in "0123456789.-"
    requires end < |json| ==> json[end] !in "0123456789.-"
    ensures NumberOf(json, key) == json[pos..end]
  {
    forall c: char {
      CharSets(c);
    }
    assert KeyNeedle(key) != "";
    hide Find, AfterFirst, TakeWhile, DropWhile, StartsBehind, KeyNeedle, Blank, NumberChar;
    AfterStart(json, KeyNeedle(key), start);
    DropsTo(Blank, json, start, pos);
    SkipTaken(json, pos, end, NumberChar);
  }

  /** Without a string under the key, what the dialog takes behind blanks and tabs goes up to the
      next comma or closing brace, or to the end. */
  lemma BareFieldIs(json: string, key: string, start: nat, pos: nat, end: nat)
    requires Find(json, StringNeedle(key), 0) == -1
    requires StartsBehind(json, KeyNeedle(key), start) && start <= pos <= end <= |json|
    requires (forall i :: start <= i < pos ==> json[i] in " \t") && (pos < |json| ==> json[pos] !in " \t")
    requires (forall i :: pos <= i < end ==> json[i] !in ",}") && (end < |json| ==> json[end] in ",}")
    ensures FieldOf(json, key) == json[pos..end]
  {
    forall c: char {
      CharSets(c);
    }
    assert KeyNeedle(key) != "" && StringNeedle(key) != "";
    hide Find, AfterFirst, TakeWhile, DropWhile, StartsBehind, KeyNeedle, StringNeedle, Blank, FieldChar, UntilQuote;
    FindIsAfterFirst(json, StringNeedle(key), 0);
    assert json[0..] == json;
    AfterStart(json, KeyNeedle(key), start);
    DropsTo(Blank, json, start, pos);
    SkipTaken(json, pos, end, FieldChar);
  }

  /** A string under the key goes up to the next quote, and is empty if there is none. */
  lemma StringIs(json: string, key: string, start: nat, end: nat)
    requires StartsBehind(json, StringNeedle(key), start) && start <= end <= |json|
    requires (forall i :: start <= i < end ==> json[i] != '"') && (end < |json| ==> json[end] == '"')
    ensures StringOf(json, key) == FieldOf(json, key) == if end < |json| then json[start..end] else ""
  {
    assert StringNeedle(key) != "";
    hide Find, AfterFirst, StartsBehind, StringNeedle, UntilQuote;
    AfterStart(json, StringNeedle(key), start);
    UpToQuote(json, start, end);
  }

  lemma UpToQuote(json: string, start: nat, end: nat)
    requires start <= end <= |json| && (forall i :: start <= i < end ==> json[i] != '"')
    requires end < |json| ==> json[end] == '"'
    ensures UntilQuote(json[start..]) == if end < |json| then json[start..end] else ""
  {
    hide UntilQuote;
    var v := json[start..end];
    assert QuoteFree(v);
    if end < |json| {
      UntilQuoteExact(v, json[end + 1..]);
      assert json[start..] == v + "\"" + json[end + 1..];
    } else {
      NoQuote(v);
      assert json[start..] == v;
    }
  }
}
