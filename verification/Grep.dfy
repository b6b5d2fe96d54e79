/** The regular expression matcher of grep (user/grep.c) against a declarative
    meaning of its patterns. Strings are NUL-free: the end of a sequence is the
    terminating NUL of the C string. */
module Grep {

  /** One character, or a run of any length of one character; '.' is any character. */
  datatype Item = One(c: char) | Star(c: char)

  /** A pattern after its optional leading '^'. */
  datatype Pattern = Pattern(items: seq<Item>, atEnd: bool)

  /** Reading order of the pattern: a character before '*' is a Star, a '$' that is
      the whole rest is the end mark, anything else stands for itself. */
  function Parse(re: string): Pattern {
    if re == "" then Pattern([], false)
    else if |re| >= 2 && re[1] == '*' then
      var rest := Parse(re[2..]);
      rest.(items := [Star(re[0])] + rest.items)
    else if re == "$" then Pattern([], true)
    else
      var rest := Parse(re[1..]);
      rest.(items := [One(re[0])] + rest.items)
  }

  // ---------------------------------------------------------------------
  // Meaning

  predicate Accepts(c: char, x: char) {
    c == '.' || c == x
  }

  predicate Run(c: char, s: string) {
    forall i :: 0 <= i < |s| ==> Accepts(c, s[i])
  }

  predicate ItemMatches(item: Item, s: string) {
    match item
    case One(c) => |s| == 1 && Accepts(c, s[0])
    case Star(c) => Run(c, s)
  }

  /** s is a concatenation of strings that match the items one by one. */
  ghost predicate Denotes(items: seq<Item>, s: string) {
    if items == [] then s == ""
    else exists k :: 0 <= k <= |s| && ItemMatches(items[0], s[..k]) && Denotes(items[1..], s[k..])
  }

  /** A prefix of the text of length n is denoted, all of it if the end is marked. */
  ghost predicate Prefix(p: Pattern, text: string, n: nat) {
    n <= |text| && (p.atEnd ==> n == |text|) && Denotes(p.items, text[..n])
  }

  ghost predicate MatchesHere(re: string, text: string) {
    exists n: nat :: Prefix(Parse(re), text, n)
  }

  /** The text satisfies the pattern at some start offset, or at 0 after '^'. */
  ghost predicate Satisfies(re: string, text: string) {
    if re != "" && re[0] == '^' then MatchesHere(re[1..], text)
    else exists i :: 0 <= i <= |text| && MatchesHere(re, text[i..])
  }

  // ---------------------------------------------------------------------
  // One item at a time

  lemma EmptyPattern(text: string)
    ensures MatchesHere("", text)
  {
    assert Prefix(Parse(""), text, 0);
  }

  lemma EndMark(text: string)
    ensures MatchesHere("$", text) <==> text == ""
  {
    if text == "" {
      assert Prefix(Parse("$"), text, 0);
    }
  }

  /** A pattern that begins with a plain character. */
  predicate Plain(re: string) {
    re != "" && !(|re| >= 2 && re[1] == '*') && re != "$"
  }

  lemma PlainItem(re: string, text: string)
    requires Plain(re)
    ensures MatchesHere(re, text) <==> text != "" && (re[0] == '.' || re[0] == text[0]) && MatchesHere(re[1..], text[1..])
  {
    var p, rest := Parse(re), Parse(re[1..]);
    assert p.items[0] == One(re[0]) && p.items[1..] == rest.items;
    if MatchesHere(re, text) {
      var n: nat :| Prefix(p, text, n);
      var k :| 0 <= k <= n && ItemMatches(p.items[0], text[..n][..k]) && Denotes(p.items[1..], text[..n][k..]);
      assert text[..n][1..] == text[1..][..n - 1];
      assert Prefix(rest, text[1..], n - 1);
    }
    if text != "" && Accepts(re[0], text[0]) && MatchesHere(re[1..], text[1..]) {
      var n: nat :| Prefix(rest, text[1..], n);
      assert text[..n + 1][1..] == text[1..][..n];
      assert ItemMatches(p.items[0], text[..n + 1][..1]);
      assert Prefix(p, text, n + 1);
    }
  }

  /** The run before the rest of the pattern takes k characters. */
  ghost predicate StarAt(c: char, re: string, text: string, k: nat) {
    k <= |text| && Run(c, text[..k]) && MatchesHere(re, text[k..])
  }

  lemma StarRun(c: char, re: string, text: string, k: nat)
    ensures StarAt(c, re, text, k) <==>
      k <= |text| && MatchesHere(re, text[k..]) && forall i :: 0 <= i < k ==> c == '.' || c == text[i]
  {
    assert k <= |text| ==> forall i :: 0 <= i < k ==> text[..k][i] == text[i];
  }

  lemma StarItem(re: string, text: string)
    requires |re| >= 2 && re[1] == '*'
    ensures MatchesHere(re, text) <==> exists k: nat :: StarAt(re[0], re[2..], text, k)
  {
    var p, rest := Parse(re), Parse(re[2..]);
    assert p.items[0] == Star(re[0]) && p.items[1..] == rest.items;
    if MatchesHere(re, text) {
      var n: nat :| Prefix(p, text, n);
      var k :| 0 <= k <= n && ItemMatches(p.items[0], text[..n][..k]) && Denotes(p.items[1..], text[..n][k..]);
      assert text[..n][..k] == text[..k] && text[..n][k..] == text[k..][..n - k];
      assert Prefix(rest, text[k..], n - k);
      assert StarAt(re[0], re[2..], text, k);
    }
    if k: nat :| StarAt(re[0], re[2..], text, k) {
      var n: nat :| Prefix(rest, text[k..], n);
      assert text[..k + n][..k] == text[..k] && text[..k + n][k..] == text[k..][..n];
      assert ItemMatches(p.items[0], text[..k + n][..k]);
      assert Prefix(p, text, k + n);
    }
  }

  // ---------------------------------------------------------------------
  // The code

  method MatchHere(re: string, text: string) returns (found: bool)
    ensures found <==> MatchesHere(re, text)
    decreases |re|, |text|
  {
    if re == "" {
      EmptyPattern(text);
      return true;
    }
    if |re| >= 2 && re[1] == '*' {
      StarItem(re, text);
      found := MatchStar(re[0], re[2..], text);
      return;
    }
    if re == "$" {
      EndMark(text);
      return text == "";
    }
    PlainItem(re, text);
    if text != "" && (re[0] == '.' || re[0] == text[0]) {
      found := MatchHere(re[1..], text[1..]);
      return;
    }
    return false;
  }

  method MatchStar(c: char, re: string, text: string) returns (found: bool)
    ensures found <==> exists k: nat :: StarAt(c, re, text, k)
    decreases |re|, |text| + 1
  {
    var i := 0;
    while true
      invariant 0 <= i <= |text| && Run(c, text[..i])
      invariant forall k :: 0 <= k < i ==> !StarAt(c, re, text, k)
      decreases |text| - i
    {
      found := MatchHere(re, text[i..]);
      if found {
        assert StarAt(c, re, text, i);
        return;
      }
      if i == |text| || !(text[i] == c || c == '.') {
        assert forall k :: i < k <= |text| ==> text[..k][i] == text[i];
        return;
      }
      i := i + 1;
    }
  }

  /** match: 1 exactly when the text satisfies the pattern somewhere. */
  method Match(re: string, text: string) returns (found: bool)
    ensures found <==> Satisfies(re, text)
    ensures re != "" && re[0] == '^' ==> (found <==> MatchesHere(re[1..], text))
    ensures re == "" || re[0] != '^' ==> (found <==> exists i :: 0 <= i <= |text| && MatchesHere(re, text[i..]))
  {
    if re != "" && re[0] == '^' {
      found := MatchHere(re[1..], text);
      return;
    }
    var i := 0;
    while true
      invariant 0 <= i <= |text|
      invariant forall k :: 0 <= k < i ==> !MatchesHere(re, text[k..])
      decreases |text| - i
    {
      found := MatchHere(re, text[i..]);
      if found || i == |text| {
        return;
      }
      i := i + 1;
    }
  }
}
