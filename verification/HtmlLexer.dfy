/**
 The tokenizer of parser/htmlParser.cpp as a function of its live text: the lookahead
 character followed by everything not yet read.
 */
module HtmlLexer {
  import opened Chars

  /** A token together with the register the parser reads it from. */
  datatype Token =
    | Eof
    | Identifier(name: string)
    | Quoted(value: string)
    | BeginTag(tag: string)
    | CloseTag(tag: string)
    | Ch(c: char)

  /** `Unclosed` is the string scan that never meets a closing quote and so never returns. */
  datatype Lexed = Unclosed | Lexed(token: Token, rest: string)

  /** The first index >= from that holds a quote, or |s|. */
  function FindQuote(s: string, from: nat): (k: nat)
    requires from <= |s|
    ensures from <= k <= |s|
    ensures forall i :: from <= i < k ==> s[i] != '"'
    ensures k < |s| ==> s[k] == '"'
    decreases |s| - from
  {
    if from < |s| && s[from] != '"' then FindQuote(s, from + 1) else from
  }

  function Lex(text: string): (r: Lexed)
    ensures r.Lexed? ==> |r.rest| <= |text|
    ensures r.Lexed? && r.token != Eof ==> |r.rest| < |text|
    decreases |text|
  {
    var s := SkipSpace(text);
    if s == "" then
      Lexed(Eof, "")
    else if IsAlpha(s[0]) then
      var n := AlnumPrefix(s);
      Lexed(Identifier(s[..n]), s[n..])
    else if s[0] == '"' then
      // the scan takes one character before it first looks for the closing quote
      if |s| < 2 || FindQuote(s, 2) == |s| then Unclosed
      else var k := FindQuote(s, 2); Lexed(Quoted(s[1..k]), s[k + 1..])
    else if s[0] == '<' then
      LexTag(s)
    else
      Lexed(Ch(s[0]), s[1..])
  }

  function LexTag(s: string): (r: Lexed)
    requires s != "" && s[0] == '<'
    ensures r.Lexed? ==> |r.rest| < |s|
    decreases |s|, 0
  {
    var isEndTag := |s| > 1 && s[1] == '/';
    var inner := if isEndTag then s[2..] else s[1..];
    TagToken(isEndTag, Lex(inner))
  }

  /** Behind `<` or `</` a name must be read; a close tag takes the character behind its name as well. */
  function TagToken(isEndTag: bool, inner: Lexed): (r: Lexed)
    ensures r.Lexed? ==> inner.Lexed? && |r.rest| <= |inner.rest|
  {
    match inner
    case Unclosed => Unclosed
    case Lexed(Identifier(name), rest) =>
      if isEndTag then Lexed(CloseTag(name), Advance(rest)) else Lexed(BeginTag(name), rest)
    case Lexed(_, rest) => Lexed(Eof, rest)
  }
}
