/** How long the printed texts are, and that they stay within eight-bit chars. */
module Sizes {
  import opened JsonText
  import opened Documents
  import opened Router
  import Decimal

  /** At most n eight-bit chars. */
  predicate Short(s: string, n: nat) {
    EightBit(s) && |s| <= n
  }

  lemma ShortConcat(s: string, m: nat, t: string, n: nat)
    requires Short(s, m) && Short(t, n)
    ensures Short(s + t, m + n)
  {
  }

  lemma Shorter(s: string, m: nat, n: nat)
    requires Short(s, m) && m <= n
    ensures Short(s, n)
  {
  }

  lemma {:induction false} DigitsAreShort(n: nat, digits: nat)
    requires digits > 0 && n < Power(digits)
    ensures Short(Decimal.Print(n), digits)
  {
    if n >= 10 {
      DigitsAreShort(n / 10, digits - 1);
      ShortConcat(Decimal.Print(n / 10), digits - 1, [Decimal.DigitChar(n % 10)], 1);
    }
  }

  function Power(digits: nat): nat {
    if digits == 0 then 1 else 10 * Power(digits - 1)
  }

  lemma {:induction false} PowerAdd(m: nat, n: nat)
    ensures Power(m + n) == Power(m) * Power(n)
  {
    if m > 0 {
      PowerAdd(m - 1, n);
      assert Power(m + n) == 10 * Power((m - 1) + n);
      assert (10 * Power(m - 1)) * Power(n) == 10 * (Power(m - 1) * Power(n));
    }
  }

  // ---------------------------------------------------------------------------------------
  // What is read from a text is no longer than the text

  lemma ShortSlice(s: string, n: nat, i: nat, j: nat)
    requires Short(s, n) && i <= j <= |s|
    ensures Short(s[i..j], n)
  {
    assert forall c <- s[i..j] :: c in s;
  }

  lemma {:induction false} AfterFirstShort(s: string, needle: string, n: nat)
    requires Short(s, n) && needle != ""
    ensures AfterFirst(s, needle).Some? ==> Short(AfterFirst(s, needle).value, n)
  {
    if |s| >= |needle| {
      assert s[|needle|..] == s[|needle|..|s|] && s[1..] == s[1..|s|];
      ShortSlice(s, n, |needle|, |s|);
      ShortSlice(s, n, 1, |s|);
      if s[..|needle|] != needle {
        AfterFirstShort(s[1..], needle, n);
      }
    }
  }

  lemma {:induction false} DropWhileShort(p: char -> bool, s: string, n: nat)
    requires Short(s, n)
    ensures Short(DropWhile(p, s), n)
  {
    if s != "" && p(s[0]) {
      assert s[1..] == s[1..|s|];
      ShortSlice(s, n, 1, |s|);
      DropWhileShort(p, s[1..], n);
    }
  }

  lemma TakeWhileShort(p: char -> bool, s: string, n: nat)
    requires Short(s, n)
    ensures Short(TakeWhile(p, s), n)
  {
    hide TakeWhile;
    var t := TakeWhile(p, s);
    assert t == s[0..|t|];
    ShortSlice(s, n, 0, |t|);
  }

  lemma StringOfShort(json: string, key: string, n: nat)
    requires Short(json, n)
    ensures Short(StringOf(json, key), n)
  {
    hide AfterFirst, TakeWhile, Short;
    AfterFirstShort(json, StringNeedle(key), n);
    Nothing(n);
    match AfterFirst(json, StringNeedle(key))
    case Some(t) => TakeWhileShort(Unquoted, t, n);
    case None =>
  }

  lemma Nothing(n: nat)
    ensures Short("", n)
  {
  }

  lemma NumberOfShort(json: string, key: string, n: nat)
    requires Short(json, n)
    ensures Short(NumberOf(json, key), n + 1)
  {
    assert Short("0", n + 1);
    hide AfterFirst, TakeWhile, DropWhile, Short;
    AfterFirstShort(json, KeyNeedle(key), n);
    match AfterFirst(json, KeyNeedle(key))
    case Some(t) =>
      DropWhileShort(Blank, t, n);
      TakeWhileShort(NumberChar, DropWhile(Blank, t), n);
      Shorter(NumberOf(json, key), n, n + 1);
    case None =>
  }

  // ---------------------------------------------------------------------------------------
  // Printed documents

  const OVERHEAD := 18

  /** An item with short punctuation and at most n chars of value. */
  predicate Slim(item: Item, n: nat) {
    Short(item.lead, 3) && Short(item.key, 10) && Short(item.value.text, n)
  }

  lemma ItemIsShort(item: Item, n: nat)
    requires Slim(item, n)
    ensures Short(PrintItem(item), n + OVERHEAD)
  {
    var text := item.value.text;
    assert Short("\"", 1) && Short("\":", 2);
    hide Short;
    ShortConcat("\"", 1, text, n);
    ShortConcat("\"" + text, n + 1, "\"", 1);
    Shorter(text, n, n + 2);
    ShortConcat(item.lead, 3, "\"", 1);
    ShortConcat(item.lead + "\"", 4, item.key, 10);
    ShortConcat(item.lead + "\"" + item.key, 14, "\":", 2);
    ShortConcat(item.lead + "\"" + item.key + "\":", 16, PrintValue(item.value), n + 2);
  }

  lemma {:induction false} DocumentIsShort(doc: seq<Item>, tail: string, n: nat, m: nat)
    requires (forall item <- doc :: Slim(item, n)) && Short(tail, m)
    ensures Short(Print(doc, tail), |doc| * (n + OVERHEAD) + m)
  {
    hide Short, Slim, PrintItem;
    if doc != [] {
      assert doc[0] in doc;
      ItemIsShort(doc[0], n);
      DocumentIsShort(doc[1..], tail, n, m);
      ShortConcat(PrintItem(doc[0]), n + OVERHEAD, Print(doc[1..], tail), |doc[1..]| * (n + OVERHEAD) + m);
      OneMore(|doc| - 1, n + OVERHEAD);
    }
  }

  lemma OneMore(k: nat, w: nat)
    ensures (k + 1) * w == k * w + w
  {
  }
}
