/** Rust's `str::split_whitespace`, through which the dispatcher reads a
    command line: maximal runs of characters that are not Unicode White_Space,
    left to right. */
module Tokens {

  /** The characters with the Unicode White_Space property. */
  predicate IsWhitespace(c: char) {
    ('\t' <= c <= '\r') || c == ' ' || c == '\U{85}' || c == '\U{A0}' || c == '\U{1680}'
    || ('\U{2000}' <= c <= '\U{200A}') || c == '\U{2028}' || c == '\U{2029}'
    || c == '\U{202F}' || c == '\U{205F}' || c == '\U{3000}'
  }

  predicate NoWhitespace(s: string) {
    forall i :: 0 <= i < |s| ==> !IsWhitespace(s[i])
  }

  /** What `split_whitespace` yields: a non-empty word without whitespace. */
  predicate IsToken(t: string) {
    |t| > 0 && NoWhitespace(t)
  }

  /** Splitting the rest `s` of a line while the word `cur` is being read. */
  function Split(s: string, cur: string): (toks: seq<string>)
    requires NoWhitespace(cur)
    ensures forall i :: 0 <= i < |toks| ==> IsToken(toks[i])
    decreases |s|
  {
    var done := if |cur| == 0 then [] else [cur];
    if |s| == 0 then done
    else if IsWhitespace(s[0]) then done + Split(s[1..], [])
    else Split(s[1..], cur + [s[0]])
  }

  function SplitWhitespace(s: string): (toks: seq<string>)
    ensures forall i :: 0 <= i < |toks| ==> IsToken(toks[i])
  {
    Split(s, [])
  }

  /** Words joined by single spaces. */
  function JoinSpaces(toks: seq<string>): string {
    if |toks| == 0 then ""
    else if |toks| == 1 then toks[0]
    else toks[0] + " " + JoinSpaces(toks[1..])
  }

  /** Reading a word moves it onto the word being read. */
  lemma {:induction false} SplitWord(w: string, rest: string, cur: string)
    requires NoWhitespace(w) && NoWhitespace(cur)
    ensures Split(w + rest, cur) == Split(rest, cur + w)
    decreases |w|
  {
    if |w| > 0 {
      assert (w + rest)[0] == w[0];
      assert (w + rest)[1..] == w[1..] + rest;
      assert cur + w == (cur + [w[0]]) + w[1..];
      SplitWord(w[1..], rest, cur + [w[0]]);
    } else {
      assert w + rest == rest;
      assert cur + w == cur;
    }
  }

  /** Splitting words joined by spaces gives the words back. */
  lemma {:induction false} SplitJoin(toks: seq<string>)
    requires forall i :: 0 <= i < |toks| ==> IsToken(toks[i])
    ensures SplitWhitespace(JoinSpaces(toks)) == toks
  {
    if |toks| == 1 {
      assert toks[0] + "" == toks[0];
      SplitWord(toks[0], "", []);
      assert [] + toks[0] == toks[0];
    } else if |toks| > 1 {
      var rest := JoinSpaces(toks[1..]);
      assert toks[0] + " " + rest == toks[0] + (" " + rest);
      SplitWord(toks[0], " " + rest, []);
      assert [] + toks[0] == toks[0];
      assert (" " + rest)[1..] == rest;
      SplitJoin(toks[1..]);
      assert toks == [toks[0]] + toks[1..];
    }
  }

  /** Leading whitespace is skipped. */
  lemma LeadingWhitespaceIgnored(c: char, s: string)
    requires IsWhitespace(c)
    ensures SplitWhitespace([c] + s) == SplitWhitespace(s)
  {
    assert ([c] + s)[1..] == s;
  }

  /** A line of whitespace alone has no tokens. */
  lemma {:induction false} BlankLineHasNoTokens(s: string)
    requires forall i :: 0 <= i < |s| ==> IsWhitespace(s[i])
    ensures SplitWhitespace(s) == []
  {
    if |s| > 0 {
      BlankLineHasNoTokens(s[1..]);
    }
  }
}
