/** grep.c: the matcher for ^ . * $, against a declarative meaning of patterns. Strings are the characters
    before the terminating NUL. */
module Grep {

  type CString = s: string | '\0' !in s

  function At(s: CString, i: nat): char { if i < |s| then s[i] else '\0' }

  // What a pattern means.

  /** A character to be matched once, a character to be matched any number of times, or the end of the text;
      the character '.' stands for any. */
  datatype Item = One(c: char) | Star(c: char) | End

  /** The items of a pattern. A following '*' is looked at first, then a final '$'. */
  function Items(re: string): (r: seq<Item>)
    ensures forall k :: 0 <= k < |r| && r[k].End? ==> k == |r| - 1
    decreases |re|
  {
    if re == "" then []
    else if |re| > 1 && re[1] == '*' then [Star(re[0])] + Items(re[2..])
    else if re == "$" then [End]
    else [One(re[0])] + Items(re[1..])
  }

  predicate Accepts(c: char, x: char) { c == '.' || c == x }

  predicate AllAccepted(c: char, xs: string) { forall k :: 0 <= k < |xs| ==> Accepts(c, xs[k]) }

  /** The stretch of text xs is what an item may stand for. */
  predicate Fits(it: Item, xs: string) {
    match it
    case One(c) => |xs| == 1 && Accepts(c, xs[0])
    case Star(c) => AllAccepted(c, xs)
    case End => xs == ""
  }

  function Concat(xss: seq<string>): string {
    if xss == [] then "" else xss[0] + Concat(xss[1..])
  }

  /** The text is a stretch for each item in turn and a rest, which is empty if the pattern ends in '$'. */
  predicate Splits(items: seq<Item>, text: string, xss: seq<string>, rest: string) {
    && |xss| == |items| && text == Concat(xss) + rest
    && (forall k :: 0 <= k < |items| ==> Fits(items[k], xss[k]))
    && (items != [] && items[|items| - 1].End? ==> rest == "")
  }

  ghost predicate Begins(items: seq<Item>, text: string) {
    exists xss: seq<string>, rest: string :: Splits(items, text, xss, rest)
  }

  /** A pattern matches at the beginning of the text if it starts with '^', and anywhere otherwise. */
  ghost predicate Matches(re: string, text: string) {
    if re != "" && re[0] == '^' then Begins(Items(re[1..]), text)
    else exists k :: 0 <= k <= |text| && Begins(Items(re), text[k..])
  }

  // The same, item by item.

  lemma BeginsEmpty(text: string)
    ensures Begins([], text)
  {
    assert Splits([], text, [], text);
  }

  lemma BeginsEnd(text: string)
    ensures Begins([End], text) <==> text == ""
  {
    if text == "" {
      assert Concat([""]) == "";
      assert Splits([End], text, [""], "");
    }
    forall xss: seq<string>, rest: string | Splits([End], text, xss, rest) ensures text == "" {
      assert Fits([End][0], xss[0]) && xss[1..] == [] && Concat(xss) == xss[0] + Concat(xss[1..]);
    }
  }

  /** An item, then the others on what its stretch leaves. */
  lemma BeginsCons(it: Item, items: seq<Item>, text: string)
    requires !it.End?
    ensures Begins([it] + items, text) <==>
            exists k :: 0 <= k <= |text| && Fits(it, text[..k]) && Begins(items, text[k..])
  {
    if Begins([it] + items, text) {
      var xss: seq<string>, rest: string :| Splits([it] + items, text, xss, rest);
      TakeFirst(it, items, text, xss, rest);
    }
    if k: nat :| k <= |text| && Fits(it, text[..k]) && Begins(items, text[k..]) {
      var xss: seq<string>, rest: string :| Splits(items, text[k..], xss, rest);
      AddFirst(it, items, text, k, xss, rest);
    }
  }

  lemma TakeFirst(it: Item, items: seq<Item>, text: string, xss: seq<string>, rest: string)
    requires !it.End? && Splits([it] + items, text, xss, rest)
    ensures var k := |xss[0]|; k <= |text| && Fits(it, text[..k]) && Begins(items, text[k..])
  {
    var k := |xss[0]|;
    assert text == xss[0] + (Concat(xss[1..]) + rest);
    assert text[..k] == xss[0] && ([it] + items)[0] == it;
    assert forall j :: 0 <= j < |items| ==> items[j] == ([it] + items)[j + 1];
    assert Splits(items, text[k..], xss[1..], rest);
  }

  lemma AddFirst(it: Item, items: seq<Item>, text: string, k: nat, xss: seq<string>, rest: string)
    requires !it.End? && k <= |text| && Fits(it, text[..k]) && Splits(items, text[k..], xss, rest)
    ensures Begins([it] + items, text)
  {
    var yss := [text[..k]] + xss;
    assert yss[1..] == xss;
    assert text == text[..k] + text[k..] == Concat(yss) + rest;
    assert Splits([it] + items, text, yss, rest);
  }

  lemma BeginsOne(c: char, items: seq<Item>, text: string)
    ensures Begins([One(c)] + items, text) <==> |text| > 0 && Accepts(c, text[0]) && Begins(items, text[1..])
  {
    BeginsCons(One(c), items, text);
    if |text| > 0 && Accepts(c, text[0]) && Begins(items, text[1..]) { assert Fits(One(c), text[..1]); }
  }

  // The matcher.

  /** matchhere. */
  method MatchHere(re: CString, i: nat, text: CString, j: nat) returns (r: bool)
    requires i <= |re| && j <= |text|
    ensures r <==> Begins(Items(re[i..]), text[j..])
    decreases |re| - i, |text| - j, 0
  {
    if At(re, i) == '\0' {
      BeginsEmpty(text[j..]);
      return true;
    }
    if At(re, i + 1) == '*' {
      r := MatchStar(re[i], re, i + 2, text, j);
      BeginsCons(Star(re[i]), Items(re[i..][2..]), text[j..]);
      return;
    }
    if re[i] == '$' && At(re, i + 1) == '\0' {
      BeginsEnd(text[j..]);
      return At(text, j) == '\0';
    }
    BeginsOne(re[i], Items(re[i..][1..]), text[j..]);
    if At(text, j) != '\0' && (re[i] == '.' || re[i] == text[j]) {
      r := MatchHere(re, i + 1, text, j + 1);
      return;
    }
    return false;
  }

  /** matchstar. */
  method MatchStar(c: char, re: CString, i: nat, text: CString, j: nat) returns (r: bool)
    requires 2 <= i <= |re| && j <= |text|
    ensures r <==>
            exists k :: 0 <= k <= |text[j..]| && Fits(Star(c), text[j..][..k]) && Begins(Items(re[i..]), text[j..][k..])
    decreases |re| - i, |text| - j, 1
  {
    var m := j;
    while true
      invariant j <= m <= |text| && AllAccepted(c, text[j..m])
      invariant forall k :: j <= k < m ==> !Begins(Items(re[i..]), text[k..])
      decreases |text| - m
    {
      var here := MatchHere(re, i, text, m);
      if here {
        assert text[j..][..m - j] == text[j..m] && text[j..][m - j..] == text[m..];
        return true;
      }
      if At(text, m) == '\0' || !(text[m] == c || c == '.') {
        break;
      }
      assert text[j..m + 1] == text[j..m] + [text[m]];
      m := m + 1;
    }
    StarStops(c, re, i, text, j, m);
    return false;
  }

  /** match. */
  method Match(re: CString, text: CString) returns (r: bool)
    ensures r <==> Matches(re, text)
  {
    if At(re, 0) == '^' {
      r := MatchHere(re, 1, text, 0);
      assert text[0..] == text;
      return;
    }
    var j := 0;
    assert re[0..] == re;
    while true
      invariant 0 <= j <= |text| && forall k :: 0 <= k < j ==> !Begins(Items(re), text[k..])
      decreases |text| - j
    {
      var here := MatchHere(re, 0, text, j);
      if here {
        return true;
      }
      if At(text, j) == '\0' {
        break;
      }
      j := j + 1;
    }
    return false;
  }

  /** No stretch of a starred character beyond where matchstar's loop ends. */
  lemma StarStops(c: char, re: string, i: nat, text: string, j: nat, m: nat)
    requires i <= |re| && j <= m <= |text| && (m == |text| || !Accepts(c, text[m]))
    requires forall k :: j <= k <= m ==> !Begins(Items(re[i..]), text[k..])
    ensures !exists k ::
            0 <= k <= |text[j..]| && Fits(Star(c), text[j..][..k]) && Begins(Items(re[i..]), text[j..][k..])
  {
    forall k | 0 <= k <= |text[j..]| && Fits(Star(c), text[j..][..k]) ensures !Begins(Items(re[i..]), text[j..][k..]) {
      assert text[j..][k..] == text[j + k..];
      assert forall x :: 0 <= x < k ==> text[j..][..k][x] == text[j + x];
    }
  }
}
