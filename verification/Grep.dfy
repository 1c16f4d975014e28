/** grep's matcher against the language its patterns denote. */
module Grep {
  /** A pattern is a sequence of these, possibly anchored at the end of the text. */
  datatype Item = One(c: char) | Star(c: char)

  /** '.' stands for any character, everything else for itself. */
  predicate Fits(c: char, x: char) {
    c == '.' || c == x
  }

  /** The items of a pattern: a character followed by '*' is repeated, whatever it is; every other
      character is taken once, also a leading '*' and a '$' that is not last. */
  function Body(re: string): seq<Item> {
    if re == "" then []
    else if |re| > 1 && re[1] == '*' then [Star(re[0])] + Body(re[2..])
    else if re == "$" then []
    else [One(re[0])] + Body(re[1..])
  }

  /** The pattern ends in a '$' that stands for the end of the text. */
  predicate Anchored(re: string) {
    if re == "" then false
    else if |re| > 1 && re[1] == '*' then Anchored(re[2..])
    else if re == "$" then true
    else Anchored(re[1..])
  }

  // ---- the language ----

  predicate ItemLanguage(item: Item, w: string) {
    match item
    case One(c) => |w| == 1 && Fits(c, w[0])
    case Star(c) => forall i :: 0 <= i < |w| ==> Fits(c, w[i])
  }

  /** The concatenation of the items' languages. */
  ghost predicate Language(items: seq<Item>, w: string) {
    if items == [] then w == ""
    else exists k :: 0 <= k <= |w| && ItemLanguage(items[0], w[..k]) && Language(items[1..], w[k..])
  }

  /** A prefix of the text, all of it if the pattern is anchored, is in the pattern's language. */
  ghost predicate PrefixAt(items: seq<Item>, anchored: bool, text: string, n: nat) {
    n <= |text| && Language(items, text[..n]) && (anchored ==> n == |text|)
  }

  ghost predicate Here(re: string, text: string) {
    exists n: nat :: PrefixAt(Body(re), Anchored(re), text, n)
  }

  /** Some place of the text begins a match; only the first if the pattern begins with '^'. */
  ghost predicate Matches(re: string, text: string) {
    if re != "" && re[0] == '^' then Here(re[1..], text)
    else exists m: nat :: StartsAt(re, text, m)
  }

  ghost predicate StartsAt(re: string, text: string, m: nat) {
    m <= |text| && Here(re, text[m..])
  }

  // ---- how a match begins ----

  lemma EmptyPattern(text: string)
    ensures Here("", text)
  {
    assert text[..0] == "";
    assert PrefixAt(Body(""), Anchored(""), text, 0);
  }

  lemma EndPattern(text: string)
    ensures Here("$", text) <==> text == ""
  {
    assert text == "" ==> PrefixAt(Body("$"), Anchored("$"), text, 0);
    if Here("$", text) {
      var n: nat :| PrefixAt(Body("$"), Anchored("$"), text, n);
      assert text[..n] == text;
    }
  }

  /** A split of a prefix is a prefix of a rest. */
  lemma PrefixOfRest(item: Item, items: seq<Item>, anchored: bool, text: string, k: nat, n: nat)
    requires k <= |text| && ItemLanguage(item, text[..k]) && PrefixAt(items, anchored, text[k..], n)
    ensures PrefixAt([item] + items, anchored, text, k + n)
  {
    var w := text[..k + n];
    assert w[..k] == text[..k] && w[k..] == text[k..][..n];
    assert ([item] + items)[1..] == items;
    assert ItemLanguage(item, w[..k]) && Language(items, w[k..]);
  }

  lemma RestOfPrefix(item: Item, items: seq<Item>, anchored: bool, text: string, n: nat) returns (k: nat)
    requires PrefixAt([item] + items, anchored, text, n)
    ensures k <= n && ItemLanguage(item, text[..k]) && PrefixAt(items, anchored, text[k..], n - k)
  {
    var w := text[..n];
    var all := [item] + items;
    assert all[1..] == items;
    k :| 0 <= k <= |w| && ItemLanguage(all[0], w[..k]) && Language(all[1..], w[k..]);
    assert w[..k] == text[..k] && w[k..] == text[k..][..n - k];
  }

  lemma OnePattern(re: string, text: string)
    requires re != "" && re != "$" && !(|re| > 1 && re[1] == '*')
    ensures Here(re, text) <==> text != "" && Fits(re[0], text[0]) && Here(re[1..], text[1..])
  {
    var rest, anchored := Body(re[1..]), Anchored(re[1..]);
    if Here(re, text) {
      var n: nat :| PrefixAt(Body(re), Anchored(re), text, n);
      var k := RestOfPrefix(One(re[0]), rest, anchored, text, n);
    }
    if text != "" && Fits(re[0], text[0]) && Here(re[1..], text[1..]) {
      var n: nat :| PrefixAt(rest, anchored, text[1..], n);
      PrefixOfRest(One(re[0]), rest, anchored, text, 1, n);
      assert PrefixAt(Body(re), Anchored(re), text, 1 + n);
    }
  }

  /** Some number of characters that fit c, and then the rest. */
  ghost predicate StarAt(c: char, re: string, text: string, k: nat) {
    k <= |text| && ItemLanguage(Star(c), text[..k]) && Here(re, text[k..])
  }

  ghost predicate StarHere(c: char, re: string, text: string) {
    exists k: nat :: StarAt(c, re, text, k)
  }

  lemma StarPattern(re: string, text: string)
    requires |re| > 1 && re[1] == '*'
    ensures Here(re, text) <==> StarHere(re[0], re[2..], text)
  {
    var rest, anchored := Body(re[2..]), Anchored(re[2..]);
    if Here(re, text) {
      var n: nat :| PrefixAt(Body(re), Anchored(re), text, n);
      var k := RestOfPrefix(Star(re[0]), rest, anchored, text, n);
      assert StarAt(re[0], re[2..], text, k);
    }
    if StarHere(re[0], re[2..], text) {
      var k: nat :| StarAt(re[0], re[2..], text, k);
      var n: nat :| PrefixAt(rest, anchored, text[k..], n);
      PrefixOfRest(Star(re[0]), rest, anchored, text, k, n);
      assert PrefixAt(Body(re), Anchored(re), text, k + n);
    }
  }

  // ---- the program ----

  /** matchhere. */
  method Matchhere(re: string, text: string) returns (found: bool)
    ensures found <==> Here(re, text)
    decreases |re|, 0
  {
    if re == "" {
      EmptyPattern(text);
      return true;
    }
    if |re| > 1 && re[1] == '*' {
      StarPattern(re, text);
      found := Matchstar(re[0], re[2..], text);
      return;
    }
    if re == "$" {
      EndPattern(text);
      return text == "";
    }
    OnePattern(re, text);
    if text != "" && (re[0] == '.' || re[0] == text[0]) {
      found := Matchhere(re[1..], text[1..]);
      return;
    }
    return false;
  }

  /** matchstar. */
  method Matchstar(c: char, re: string, text: string) returns (found: bool)
    ensures found <==> StarHere(c, re, text)
    decreases |re|, 1
  {
    var i := 0;
    while true
      invariant i <= |text| && ItemLanguage(Star(c), text[..i])
      invariant forall k: nat :: k < i ==> !StarAt(c, re, text, k)
      decreases |text| - i
    {
      found := Matchhere(re, text[i..]);
      if found {
        assert StarAt(c, re, text, i);
        return;
      }
      if i == |text| || !(text[i] == c || c == '.') {
        NoMoreStars(c, re, text, i);
        return;
      }
      i := i + 1;
    }
  }

  /** No repetition reaches past a character that does not fit. */
  lemma NoMoreStars(c: char, re: string, text: string, i: nat)
    requires i <= |text| && (i < |text| ==> !Fits(c, text[i])) && !StarAt(c, re, text, i)
    requires forall k: nat :: k < i ==> !StarAt(c, re, text, k)
    ensures !StarHere(c, re, text)
  {
    forall k: nat ensures !StarAt(c, re, text, k) {
      if k > i && k <= |text| {
        assert text[..k][i] == text[i];
      }
    }
  }

  /** match: true exactly when some part of the text is in the language of the pattern. */
  method Match(re: string, text: string) returns (found: bool)
    ensures found <==> Matches(re, text)
  {
    if re != "" && re[0] == '^' {
      found := Matchhere(re[1..], text);
      return;
    }
    var i := 0;
    while true
      invariant i <= |text| && forall m: nat :: m < i ==> !StartsAt(re, text, m)
      decreases |text| - i
    {
      found := Matchhere(re, text[i..]);
      if found {
        assert StartsAt(re, text, i);
        return;
      }
      if i == |text| {
        return;
      }
      i := i + 1;
    }
  }

  // ---- which dollar is the anchor ----

  /** The items of a pattern in which every '$' is an ordinary character. */
  function Items(re: string): seq<Item> {
    if re == "" then []
    else if |re| > 1 && re[1] == '*' then [Star(re[0])] + Items(re[2..])
    else [One(re[0])] + Items(re[1..])
  }

  /** A pattern is anchored exactly if its last character is '$', and its items are those of what comes
      before; every other '$', and a '*' with nothing before it, is an ordinary character. */
  lemma {:induction false} AnchorIsLastDollar(re: string)
    ensures Anchored(re) <==> re != "" && re[|re| - 1] == '$'
    ensures Body(re) == Items(if Anchored(re) then re[..|re| - 1] else re)
  {
    if re != "" && re != "$" {
      var n := if |re| > 1 && re[1] == '*' then 2 else 1;
      AnchorIsLastDollar(re[n..]);
      if Anchored(re) {
        assert re[..|re| - 1][n..] == re[n..][..|re[n..]| - 1];
      }
    }
  }
}
