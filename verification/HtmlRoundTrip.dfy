/** Round trip, exact slices and locality of the HTML parser on canonical sources. */
module HtmlRoundTrip {
  import opened Chars
  import opened HtmlLexer
  import opened HtmlGrammar
  import opened HtmlCanonical

  // ---------- single tokens ----------

  lemma LexSpace(c: char, rest: string)
    requires IsSpace(c)
    ensures Lex([c] + rest) == Lex(rest)
  {
    assert ([c] + rest)[1..] == rest;
    assert SkipSpace([c] + rest) == SkipSpace(rest);
  }

  lemma {:induction false} LexBlank(gap: string, rest: string)
    requires IsBlank(gap)
    ensures Lex(gap + rest) == Lex(rest)
  {
    if gap == "" {
      assert gap + rest == rest;
    } else {
      assert gap + rest == [gap[0]] + (gap[1..] + rest);
      LexSpace(gap[0], gap[1..] + rest);
      LexBlank(gap[1..], rest);
    }
  }

  lemma LexName(name: string, rest: string)
    requires IsName(name) && (rest == "" || !IsAlnum(rest[0]))
    ensures Lex(name + rest) == Lexed(Identifier(name), rest)
  {
    var s := name + rest;
    assert s[0] == name[0];
    AlnumPrefixOfName(name, rest);
    assert s[..|name|] == name && s[|name|..] == rest;
  }

  /** A tag by what is read behind its `<` or `</`. */
  lemma LexTagged(s: string, isEndTag: bool, inner: string)
    requires s != "" && s[0] == '<' && isEndTag == (|s| > 1 && s[1] == '/')
    requires inner == if isEndTag then s[2..] else s[1..]
    ensures Lex(s) == TagToken(isEndTag, Lex(inner))
  {}

  lemma LexBeginTag(name: string, rest: string)
    requires IsName(name) && (rest == "" || !IsAlnum(rest[0]))
    ensures Lex("<" + name + rest) == Lexed(BeginTag(name), rest)
  {
    var s := "<" + name + rest;
    assert s[1..] == name + rest && s[1] == name[0];
    LexName(name, rest);
    LexTagged(s, false, name + rest);
  }

  lemma LexCloseTag(name: string, rest: string)
    requires IsName(name)
    ensures Lex(PrintClose(name) + rest) == Lexed(CloseTag(name), rest)
  {
    var s := PrintClose(name) + rest;
    assert s[2..] == name + (">" + rest);
    LexName(name, ">" + rest);
    assert (">" + rest)[1..] == rest;
    LexTagged(s, true, name + (">" + rest));
  }

  lemma LexQuoted(value: string, rest: string)
    requires IsQuotable(value)
    ensures Lex(PrintQuoted(value) + rest) == Lexed(Quoted(value), rest)
  {
    assert PrintQuoted(value) + rest == "\"" + value + ("\"" + rest);
    LexScanned(value, rest);
  }

  /** The scan closes at the first quote behind its first character. */
  lemma ClosingQuote(value: string, rest: string)
    requires value != "" && forall i :: 1 <= i < |value| ==> value[i] != '"'
    ensures var s := "\"" + value + ("\"" + rest);
            FindQuote(s, 2) == |value| + 1 && s[1..|value| + 1] == value && s[|value| + 2..] == rest
  {
    var s := "\"" + value + ("\"" + rest);
    assert s[|value| + 1] == '"';
    assert forall i :: 2 <= i < |value| + 1 ==> s[i] == value[i - 1];
  }

  lemma LexScanned(value: string, rest: string)
    requires value != "" && forall i :: 1 <= i < |value| ==> value[i] != '"'
    ensures Lex("\"" + value + ("\"" + rest)) == Lexed(Quoted(value), rest)
  {
    ClosingQuote(value, rest);
    hide FindQuote;
    assert ("\"" + value + ("\"" + rest))[0] == '"';
  }

  lemma LexUnclosed(value: string)
    requires forall i :: 1 <= i < |value| ==> value[i] != '"'
    ensures Lex("\"" + value).Unclosed?
  {
    NoQuoteBehind(value);
    LexNoQuote("\"" + value);
  }

  lemma NoQuoteBehind(value: string)
    requires forall i :: 1 <= i < |value| ==> value[i] != '"'
    ensures var s := "\"" + value;
            s[0] == '"' && forall i :: 2 <= i < |s| ==> s[i] != '"'
  {
    assert forall i :: 2 <= i < |value| + 1 ==> ("\"" + value)[i] == value[i - 1];
  }

  lemma LexNoQuote(s: string)
    requires s != "" && s[0] == '"' && forall i :: 2 <= i < |s| ==> s[i] != '"'
    ensures Lex(s).Unclosed?
  {
    assert |s| >= 2 ==> FindQuote(s, 2) == |s|;
  }

  lemma LexChar(c: char, rest: string)
    requires !IsSpace(c) && !IsAlpha(c) && c != '"' && c != '<'
    ensures Lex([c] + rest) == Lexed(Ch(c), rest)
  {
    assert ([c] + rest)[1..] == rest;
  }

  // ---------- what the content loop does with text ----------

  /** The content loop entered at the next token. */
  function ContentAt(src: string, rest: string, parentName: string, kids: seq<Dom>): Outcome<seq<Dom>> {
    var (p, _) :- Next(rest);
    ParseContent(src, p, parentName, kids)
  }

  /** A token that is no tag and not the end is passed over. */
  lemma PassToken(src: string, r0: string, token: Token, r1: string, parentName: string, kids: seq<Dom>)
    requires Lex(r0) == Lexed(token, r1) && (token.Identifier? || token.Ch?)
    ensures ContentAt(src, r0, parentName, kids) == ContentAt(src, r1, parentName, kids)
  {}

  /** The token at the head of a text: one character, or the letters and digits up to its end at most. */
  lemma TextToken(text: string, rest: string) returns (token: Token, n: nat)
    requires IsPlain(text) && text != "" && !IsSpace(text[0]) && rest != "" && (rest[0] == '<' || rest[0] == '"')
    ensures 0 < n <= |text| && Lex(text + rest) == Lexed(token, text[n..] + rest) && (token.Identifier? || token.Ch?)
  {
    var s := text + rest;
    if IsAlpha(text[0]) {
      n := AlnumPrefix(s);
      assert n <= |text| by {
        assert s[|text|] == rest[0];
      }
      token := Identifier(s[..n]);
    } else {
      n, token := 1, Ch(text[0]);
    }
    assert s[n..] == text[n..] + rest;
  }

  /** Text without tags and quotes is passed over, up to the tag behind it. */
  lemma {:induction false} PassText(src: string, text: string, rest: string, parentName: string, kids: seq<Dom>)
    requires IsPlain(text) && rest != "" && (rest[0] == '<' || rest[0] == '"')
    ensures ContentAt(src, text + rest, parentName, kids) == ContentAt(src, rest, parentName, kids)
    decreases |text|
  {
    if text == "" {
      assert text + rest == rest;
    } else if IsSpace(text[0]) {
      assert text + rest == [text[0]] + (text[1..] + rest);
      LexSpace(text[0], text[1..] + rest);
      PassText(src, text[1..], rest, parentName, kids);
    } else {
      var token, n := TextToken(text, rest);
      PassToken(src, text + rest, token, text[n..] + rest, parentName, kids);
      PassText(src, text[n..], rest, parentName, kids);
    }
  }

  /** So are strings, close tags of another name, and the tag-like text of a script. */
  lemma PassMark(src: string, mark: Mark, rest: string, owner: string, kids: seq<Dom>)
    requires GoodMark(owner, mark)
    ensures ContentAt(src, PrintMark(mark) + rest, owner, kids) == ContentAt(src, rest, owner, kids)
  {
    match mark
    case Literal(value) => LexQuoted(value, rest);
    case TagLike(closing, name) =>
      if closing {
        LexCloseTag(name, rest);
      } else {
        assert PrintMark(mark) + rest == "<" + name + (">" + rest);
        LexBeginTag(name, ">" + rest);
        LexChar('>', rest);
        assert ContentAt(src, ">" + rest, owner, kids) == ContentAt(src, rest, owner, kids);
      }
  }

  // ---------- attributes ----------

  /** The attribute loop entered at the next token. */
  function AttributesAt(n: nat, rest: string, attributes: map<string, string>, start: int): Outcome<Header> {
    var (p, _) :- Next(rest);
    ParseAttributes(n, p, attributes, start)
  }

  /** One attribute: only a quoted value moves the content start. */
  lemma PassAttribute(n: nat, a: Attribute, rest: string, seen: map<string, string>, start: int)
    requires GoodAttribute(a) && Separates(rest)
    ensures AttributesAt(n, PrintAttribute(a) + rest, seen, start)
         == AttributesAt(n, rest, Insert(seen, a.key, ValueOf(a)), if a.value.Some? then Cursor(n, rest) else start)
  {
    var sign := if a.value.Some? then "=" + PrintQuoted(a.value.value) else "";
    Assoc(a.gap, a.key + sign, rest);
    Assoc(a.key, sign, rest);
    LexBlank(a.gap, a.key + (sign + rest));
    if a.value.Some? {
      PassValued(n, a.key, a.value.value, rest, seen, start);
    } else {
      PassFlag(n, a.key, rest, seen, start);
    }
  }

  /** A key alone. */
  lemma PassFlag(n: nat, key: string, rest: string, seen: map<string, string>, start: int)
    requires IsName(key) && Separates(rest)
    ensures AttributesAt(n, key + ("" + rest), seen, start) == AttributesAt(n, rest, Insert(seen, key, "true"), start)
  {
    assert "" + rest == rest;
    LexName(key, rest);
  }

  lemma PassValued(n: nat, key: string, value: string, rest: string, seen: map<string, string>, start: int)
    requires IsName(key) && IsQuotable(value)
    ensures AttributesAt(n, key + ("=" + PrintQuoted(value) + rest), seen, start)
         == AttributesAt(n, rest, Insert(seen, key, value), Cursor(n, rest))
  {
    var quoted := PrintQuoted(value) + rest;
    Assoc("=", PrintQuoted(value), rest);
    LexName(key, "=" + quoted);
    LexChar('=', quoted);
    LexQuoted(value, rest);
    ValuedRound(n, key + ("=" + quoted), key, "=" + quoted, quoted, value, rest, seen, start);
  }

  /** A round of the attribute loop over three tokens. */
  lemma ValuedRound(n: nat, r0: string, key: string, r1: string, r2: string, value: string, r3: string,
                    seen: map<string, string>, start: int)
    requires Lex(r0) == Lexed(Identifier(key), r1) && Lex(r1) == Lexed(Ch('='), r2) && Lex(r2) == Lexed(Quoted(value), r3)
    ensures AttributesAt(n, r0, seen, start) == AttributesAt(n, r3, Insert(seen, key, value), Cursor(n, r3))
  {}

  /** What may follow an attribute: white space or the `>`, and no equals sign as next token. */
  predicate Separates(rest: string) {
    && rest != "" && (IsSpace(rest[0]) || rest[0] == '>')
    && (Lex(rest).Lexed? ==> Lex(rest).token != Ch('='))
  }

  lemma PadSeparates(pad: string, rest: string)
    requires IsBlank(pad)
    ensures Separates((pad + ">") + rest)
  {
    Assoc(pad, ">", rest);
    LexBlank(pad, ">" + rest);
    LexChar('>', rest);
  }

  lemma AttributeSeparates(a: Attribute, rest: string)
    requires GoodAttribute(a)
    ensures Separates(PrintAttribute(a) + rest)
  {
    var sign := if a.value.Some? then "=" + PrintQuoted(a.value.value) else "";
    Assoc(a.gap, a.key + sign, rest);
    Assoc(a.key, sign, rest);
    LexBlank(a.gap, a.key + (sign + rest));
  }

  lemma AttributesEnd(n: nat, pad: string, rest: string, seen: map<string, string>, start: int)
    requires IsBlank(pad)
    ensures AttributesAt(n, (pad + ">") + rest, seen, start) == Done(Point(Ch('>'), rest), Header(seen, start, true))
  {
    Assoc(pad, ">", rest);
    LexBlank(pad, ">" + rest);
    LexChar('>', rest);
  }

  /** The attribute loop passes the printed attributes: first values are kept, the content start stands behind the last value. */
  lemma {:induction false} PassListed(n: nat, attributes: seq<Attribute>, rest: string, seen: map<string, string>, start: int)
    requires (forall i :: 0 <= i < |attributes| ==> GoodAttribute(attributes[i])) && Separates(rest)
    ensures Separates(PrintAttributes(attributes) + rest)
    ensures AttributesAt(n, PrintAttributes(attributes) + rest, seen, start)
         == AttributesAt(n, rest, AttributeMap(attributes) + seen,
                         if HasValued(attributes) then Cursor(n, Flags(attributes) + rest) else start)
  {
    hide AttributesAt, Separates, PrintAttribute;
    if attributes == [] {
      assert PrintAttributes(attributes) + rest == rest;
      assert AttributeMap(attributes) + seen == seen;
    } else {
      var a, more := attributes[0], attributes[1..];
      var tail := PrintAttributes(more) + rest;
      Assoc(PrintAttribute(a), PrintAttributes(more), rest);
      PassListed(n, more, rest, Insert(seen, a.key, ValueOf(a)), if a.value.Some? then Cursor(n, tail) else start);
      AttributeSeparates(a, tail);
      PassAttribute(n, a, tail, seen, start);
      MergeFirst(AttributeMap(more), seen, a.key, ValueOf(a));
    }
  }

  /** It stops at the `>` with the listed attributes. */
  lemma PassAttributes(n: nat, attributes: seq<Attribute>, pad: string, rest: string, seen: map<string, string>, start: int)
    requires forall i :: 0 <= i < |attributes| ==> GoodAttribute(attributes[i])
    requires IsBlank(pad)
    ensures AttributesAt(n, PrintAttributes(attributes) + ((pad + ">") + rest), seen, start)
         == Done(Point(Ch('>'), rest),
                 Header(AttributeMap(attributes) + seen,
                        if HasValued(attributes) then Cursor(n, Flags(attributes) + ((pad + ">") + rest)) else start,
                        true))
  {
    PadSeparates(pad, rest);
    PassListed(n, attributes, (pad + ">") + rest, seen, start);
    AttributesEnd(n, pad, rest, AttributeMap(attributes) + seen,
                  if HasValued(attributes) then Cursor(n, Flags(attributes) + ((pad + ">") + rest)) else start);
  }

  // ---------- broken begin tags ----------

  /** `parseTag` on a begin tag whose attribute loop ends badly: the attributes so far are kept, and nothing else is set. */
  lemma TagBroken(src: string, name: string, rest: string, dom: Dom, end: Point, header: Header)
    requires AttributesAt(|src|, rest, dom.attributes, Cursor(|src|, rest)) == Done(end, header)
    requires !header.wellFormed || end.cur == Eof
    ensures ParseTag(src, Point(BeginTag(name), rest), name, dom) == Done(end, dom.(attributes := header.attributes))
  {
    HeaderBroken(|src|, BeginTag(name), rest, dom.attributes, end, header);
    hide ParseHeader, ParseContent, Close;
  }

  lemma HeaderBroken(n: nat, token: Token, rest: string, attributes: map<string, string>, end: Point, header: Header)
    requires AttributesAt(n, rest, attributes, Cursor(n, rest)) == Done(end, header)
    requires !header.wellFormed || end.cur == Eof
    ensures ParseHeader(n, Point(token, rest), attributes) == Done(end, header.(wellFormed := false))
  {
    hide Lex, ParseAttributes;
  }

  /**
   An equals sign without a quoted value behind it: the element keeps the attributes listed before
   and gets no content at all; the parser stands at what is there instead of the value.
   */
  lemma MissingValue(src: string, name: string, attributes: seq<Attribute>, key: string, x: string, dom: Dom)
    requires (forall i :: 0 <= i < |attributes| ==> GoodAttribute(attributes[i])) && IsName(key)
    requires Lex(x).Lexed? && !Lex(x).token.Quoted?
    ensures ParseTag(src, Point(BeginTag(name), PrintAttributes(attributes) + (" " + (key + ("=" + x)))), name, dom)
         == Done(Point(Lex(x).token, Lex(x).rest), dom.(attributes := AttributeMap(attributes) + dom.attributes))
  {
    var rest := " " + (key + ("=" + x));
    LexSpace(' ', key + ("=" + x));
    LexName(key, "=" + x);
    LexChar('=', x);
    var all := PrintAttributes(attributes) + rest;
    PassListed(|src|, attributes, rest, dom.attributes, Cursor(|src|, all));
    hide Lex;
    var start := if HasValued(attributes) then Cursor(|src|, Flags(attributes) + rest) else Cursor(|src|, all);
    var header := Header(AttributeMap(attributes) + dom.attributes, start, false);
    ValueMissing(|src|, rest, key, "=" + x, x, header.attributes, start);
    TagBroken(src, name, all, dom, Point(Lex(x).token, Lex(x).rest), header);
  }

  lemma ValueMissing(n: nat, r0: string, key: string, r1: string, r2: string, seen: map<string, string>, start: int)
    requires Lex(r0) == Lexed(Identifier(key), r1) && Lex(r1) == Lexed(Ch('='), r2)
    requires Lex(r2).Lexed? && !Lex(r2).token.Quoted?
    ensures AttributesAt(n, r0, seen, start) == Done(Point(Lex(r2).token, Lex(r2).rest), Header(seen, start, false))
  {}

  /** The same for anything else where a key or the `>` is due, and for the end of the source. */
  lemma StrayInTag(src: string, name: string, attributes: seq<Attribute>, x: string, dom: Dom)
    requires forall i :: 0 <= i < |attributes| ==> GoodAttribute(attributes[i])
    requires Lex(x).Lexed? && !Lex(x).token.Identifier? && Lex(x).token != Ch('>') && Lex(x).token != Ch('=')
    ensures ParseTag(src, Point(BeginTag(name), PrintAttributes(attributes) + (" " + x)), name, dom)
         == Done(Point(Lex(x).token, Lex(x).rest), dom.(attributes := AttributeMap(attributes) + dom.attributes))
  {
    var rest, token := " " + x, Lex(x).token;
    LexSpace(' ', x);
    var all := PrintAttributes(attributes) + rest;
    PassListed(|src|, attributes, rest, dom.attributes, Cursor(|src|, all));
    hide Lex;
    var start := if HasValued(attributes) then Cursor(|src|, Flags(attributes) + rest) else Cursor(|src|, all);
    var header := Header(AttributeMap(attributes) + dom.attributes, start, token == Eof);
    assert AttributesAt(|src|, rest, header.attributes, start) == Done(Point(token, Lex(x).rest), header);
    TagBroken(src, name, all, dom, Point(token, Lex(x).rest), header);
  }

  lemma MergeFirst(m: map<string, string>, seen: map<string, string>, key: string, value: string)
    ensures m + Insert(seen, key, value) == m[key := value] + seen
  {}

  // ---------- elements ----------

  /** What a slice shows of the content: all of it, or all but its last character at the end of the source. */
  function Seen(content: string, tail: string): string
    requires tail != "" || content != ""
  {
    if tail == "" then content[..|content| - 1] else content
  }

  /**
   `parseTag` on a canonical element anywhere in a source: it stops on the element's own close
   tag, with the text behind it live, and fills the element.  It throws exactly when there is
   nothing to cut and the source ends with the element.
   */
  lemma {:induction false} ParseElement(src: string, before: string, e: Elem, tail: string, dom: Dom)
    requires Good(e) && src == before + (Print(e) + tail)
    ensures ParseTag(src, Point(BeginTag(e.name), PrintRest(e) + tail), e.name, dom)
         == if tail == "" && Cut(e) == "" then LengthError
            else Done(Point(CloseTag(e.name), tail),
                      Dom(dom.name, AttributeMap(e.attributes) + dom.attributes, Seen(Cut(e), tail),
                          if HasKids(e.body) then Elements(KidsOf(e.body)) else Text(Seen(Cut(e), tail))))
    decreases e, 0
  {
    var inside := PrintBody(e.body) + (PrintClose(e.name) + tail);
    var start := ContentStart(before, e);
    SplitRest(e, tail);
    SplitElement(before, e, tail);
    FlagsEnd(e.attributes);
    StartCursor(src, before, e, inside);
    PassAttributes(|src|, e.attributes, e.pad, inside, dom.attributes, Cursor(|src|, PrintRest(e) + tail));
    ParseBody(src, Opening(before, e), e.name, e.body, tail, []);
    HasKidsIff(e.body);
    CutContent(src, before, e, tail,
               dom.(attributes := AttributeMap(e.attributes) + dom.attributes), KidsOf(e.body));
    assert [] + KidsOf(e.body) == KidsOf(e.body);
    TagFromParts(src, PrintRest(e) + tail, e.name, dom,
                 Header(AttributeMap(e.attributes) + dom.attributes, start, true),
                 inside, Point(CloseTag(e.name), tail), KidsOf(e.body));
  }

  /** The index at which the slice of an element begins. */
  function ContentStart(before: string, e: Elem): int {
    |Opening(before, e)| - |(Flags(e.attributes) + (e.pad + ">"))[1..]|
  }

  /** The attributes end with the flags. */
  lemma FlagsEnd(attributes: seq<Attribute>)
    ensures |Flags(attributes)| <= |PrintAttributes(attributes)|
    ensures PrintAttributes(attributes)[|PrintAttributes(attributes)| - |Flags(attributes)|..] == Flags(attributes)
  {
    hide PrintAttribute;
    if HasValued(attributes) {
      FlagsEnd(attributes[1..]);
      assert PrintAttributes(attributes) == PrintAttribute(attributes[0]) + PrintAttributes(attributes[1..]);
    }
  }

  lemma StartCursor(src: string, before: string, e: Elem, inside: string)
    requires src == Opening(before, e) + inside
    ensures ContentStart(before, e)
         == Cursor(|src|, (if HasValued(e.attributes) then Flags(e.attributes) else PrintAttributes(e.attributes))
                          + ((e.pad + ">") + inside))
  {}

  /** `parseTag` is its attribute loop, its content loop and the cut, in this order. */
  lemma TagFromParts(src: string, rest: string, name: string, dom: Dom,
                     header: Header, inside: string, end: Point, kids: seq<Dom>)
    requires AttributesAt(|src|, rest, dom.attributes, Cursor(|src|, rest)) == Done(Point(Ch('>'), inside), header)
    requires header.wellFormed && ContentAt(src, inside, name, []) == Done(end, kids)
    ensures ParseTag(src, Point(BeginTag(name), rest), name, dom)
         == Close(src, end, name, dom.(attributes := header.attributes), header.start, kids)
  {}

  /** The source up to the content of an element. */
  function Opening(before: string, e: Elem): string {
    before + "<" + e.name + PrintAttributes(e.attributes) + (e.pad + ">")
  }

  lemma SplitRest(e: Elem, tail: string)
    ensures PrintRest(e) + tail
         == PrintAttributes(e.attributes) + ((e.pad + ">") + (PrintBody(e.body) + (PrintClose(e.name) + tail)))
  {
    var a, g, b, c := PrintAttributes(e.attributes), e.pad + ">", PrintBody(e.body), PrintClose(e.name);
    Assoc(b, c, tail);
    Assoc(g, b + c, tail);
    Assoc(a, g + (b + c), tail);
  }

  lemma SplitElement(before: string, e: Elem, tail: string)
    ensures before + (Print(e) + tail) == Opening(before, e) + (PrintBody(e.body) + (PrintClose(e.name) + tail))
  {
    var inside := PrintBody(e.body) + (PrintClose(e.name) + tail);
    var a, g := PrintAttributes(e.attributes), e.pad + ">";
    SplitRest(e, tail);
    Assoc("<" + e.name, PrintRest(e), tail);
    Assoc(before, "<" + e.name, a + (g + inside));
    Assoc(before, "<", e.name);
    Assoc(before + "<" + e.name, a, g + inside);
    Assoc(before + "<" + e.name + a, g, inside);
  }

  /** The slice between the two cursors is the cut, or lacks its last character at the end of the source. */
  lemma CutContent(src: string, before: string, e: Elem, tail: string, dom: Dom, kids: seq<Dom>)
    requires src == Opening(before, e) + (PrintBody(e.body) + (PrintClose(e.name) + tail))
    ensures Close(src, Point(CloseTag(e.name), tail), e.name, dom, ContentStart(before, e), kids)
         == if tail == "" && Cut(e) == "" then LengthError
            else Done(Point(CloseTag(e.name), tail),
                      dom.(innerHtml := Seen(Cut(e), tail),
                           children := if kids != [] then Elements(kids) else Text(Seen(Cut(e), tail))))
  {
    OpeningEnd(before, e);
    CloseOn(src, Opening(before, e), PrintBody(e.body), e.name, tail, ContentStart(before, e), dom, kids);
  }

  lemma CloseOn(src: string, opening: string, body: string, name: string, tail: string, start: nat, dom: Dom, kids: seq<Dom>)
    requires src == opening + (body + (PrintClose(name) + tail)) && start <= |opening|
    ensures var cut := opening[start..] + body;
            Close(src, Point(CloseTag(name), tail), name, dom, start, kids)
            == if tail == "" && cut == "" then LengthError
               else Done(Point(CloseTag(name), tail),
                         dom.(innerHtml := Seen(cut, tail),
                              children := if kids != [] then Elements(kids) else Text(Seen(cut, tail))))
  {
    var cut := opening[start..] + body;
    var end := Cursor(|src|, tail) - |name| - 4;
    SliceAcross(src, opening, body, PrintClose(name) + tail, start);
    assert end == start + |cut| - if tail == "" then 1 else 0;
    assert tail == "" && cut != "" ==> src[start..end] == cut[..|cut| - 1];
  }

  lemma OpeningEnd(before: string, e: Elem)
    ensures 0 <= ContentStart(before, e) <= |Opening(before, e)|
    ensures Opening(before, e)[ContentStart(before, e)..] == (Flags(e.attributes) + (e.pad + ">"))[1..]
  {
    FlagsEnd(e.attributes);
  }

  lemma SliceAcross(src: string, a: string, b: string, c: string, start: nat)
    requires src == a + (b + c) && start <= |a|
    ensures src[start..|a| + |b|] == a[start..] + b
  {}

  lemma PlainEnds(src: string, text: string, owner: string, tail: string, kids: seq<Dom>)
    requires IsName(owner) && IsPlain(text)
    ensures ContentAt(src, text + (PrintClose(owner) + tail), owner, kids) == Done(Point(CloseTag(owner), tail), kids)
  {
    PassText(src, text, PrintClose(owner) + tail, owner, kids);
    LexCloseTag(owner, tail);
  }

  /** The content loop on a canonical body stops at the owner's close tag with the children in order. */
  lemma {:induction false} ParseBody(src: string, before: string, owner: string, b: Body, tail: string, kids: seq<Dom>)
    requires IsName(owner) && GoodBody(owner, b) && src == before + (PrintBody(b) + (PrintClose(owner) + tail))
    ensures ContentAt(src, PrintBody(b) + (PrintClose(owner) + tail), owner, kids)
         == Done(Point(CloseTag(owner), tail), kids + KidsOf(b))
    decreases b, 1
  {
    var close := PrintClose(owner) + tail;
    hide ContentAt;
    match b
    case Plain(text) =>
      PlainEnds(src, text, owner, tail, kids);
      assert kids + KidsOf(b) == kids;
    case Marked(gap, mark, more) =>
      var rest := PrintBody(more) + close;
      Assoc4(before, gap, PrintMark(mark), PrintBody(more), close);
      PassText(src, gap, PrintMark(mark) + rest, owner, kids);
      PassMark(src, mark, rest, owner, kids);
      ParseBody(src, before + gap + PrintMark(mark), owner, more, tail, kids);
    case Child(gap, elem, more) =>
      var rest := PrintBody(more) + close;
      Assoc4(before, gap, Print(elem), PrintBody(more), close);
      PassText(src, gap, Print(elem) + rest, owner, kids);
      ParseChild(src, before + gap, elem, rest, owner, kids);
      ParseBody(src, before + gap + Print(elem), owner, more, tail, kids + [DomOf(elem)]);
      assert kids + [DomOf(elem)] + KidsOf(more) == kids + KidsOf(b);
  }

  lemma Assoc4(before: string, a: string, b: string, c: string, d: string)
    ensures (a + (b + c)) + d == a + (b + (c + d))
    ensures before + ((a + (b + c)) + d) == (before + a) + (b + (c + d)) == (before + a + b) + (c + d)
  {
    Assoc(b, c, d);
    Assoc(a, b + c, d);
    Assoc(before, a, b + (c + d));
    Assoc(before + a, b, c + d);
  }

  /** One round of the content loop on an element: it is parsed, its close tag eaten, the result appended. */
  lemma {:induction false} ParseChild(src: string, before: string, e: Elem, rest: string, owner: string, kids: seq<Dom>)
    requires Good(e) && rest != "" && owner != "script" && src == before + (Print(e) + rest)
    ensures ContentAt(src, Print(e) + rest, owner, kids) == ContentAt(src, rest, owner, kids + [DomOf(e)])
    decreases e, 1
  {
    Assoc("<" + e.name, PrintRest(e), rest);
    RestStart(e);
    LexBeginTag(e.name, PrintRest(e) + rest);
    ParseElement(src, before, e, rest, NewDom(e.name));
    DomOfParts(e, rest);
    ChildRound(src, Print(e) + rest, e.name, PrintRest(e) + rest, rest, owner, kids, DomOf(e));
  }

  lemma DomOfParts(e: Elem, tail: string)
    requires tail != ""
    ensures Dom(e.name, AttributeMap(e.attributes) + map[], Seen(Cut(e), tail),
                if HasKids(e.body) then Elements(KidsOf(e.body)) else Text(Seen(Cut(e), tail))) == DomOf(e)
  {
    assert AttributeMap(e.attributes) + map[] == AttributeMap(e.attributes);
    assert DomOf(e).children == ChildrenOf(e);
  }

  lemma ChildRound(src: string, r0: string, name: string, r1: string, r2: string, owner: string, kids: seq<Dom>, kid: Dom)
    requires Lex(r0) == Lexed(BeginTag(name), r1) && owner != "script"
    requires ParseTag(src, Point(BeginTag(name), r1), name, NewDom(name)) == Done(Point(CloseTag(name), r2), kid)
    ensures ContentAt(src, r0, owner, kids) == ContentAt(src, r2, owner, kids + [kid])
  {}

  lemma RestStart(e: Elem)
    requires Good(e)
    ensures PrintRest(e) != "" && !IsAlnum(PrintRest(e)[0])
  {
    if e.attributes != [] {
      assert PrintAttributes(e.attributes)[0] == e.attributes[0].gap[0];
    } else if e.pad != "" {
      assert PrintRest(e)[0] == e.pad[0];
    }
  }

  // ---------- elements the source ends in ----------

  /** Text without tags and quotes is passed over up to the end of the source. */
  lemma {:induction false} PassTextToEnd(src: string, text: string, parentName: string, kids: seq<Dom>)
    requires IsPlain(text)
    ensures ContentAt(src, text, parentName, kids) == Done(Point(Eof, ""), kids)
    decreases |text|
  {
    if text != "" {
      if IsSpace(text[0]) {
        assert text == [text[0]] + text[1..];
        LexSpace(text[0], text[1..]);
        PassTextToEnd(src, text[1..], parentName, kids);
      } else {
        var n := if IsAlpha(text[0]) then AlnumPrefix(text) else 1;
        var token := if IsAlpha(text[0]) then Identifier(text[..n]) else Ch(text[0]);
        assert Lex(text) == Lexed(token, text[n..]);
        PassToken(src, text, token, text[n..], parentName, kids);
        PassTextToEnd(src, text[n..], parentName, kids);
      }
    }
  }

  /**
   An element of text alone whose close tag is missing: the slice is what it would have been, less
   as many characters as the close tag has and one more, and a shorter one is the length error.
   */
  lemma UnclosedElement(src: string, before: string, e: Elem, text: string, dom: Dom)
    requires Good(e) && e.body == Plain(text) && src == Opening(before, e) + text
    ensures var cut, lost := Cut(e), |PrintClose(e.name)| + 1;
            ParseTag(src, Point(BeginTag(e.name), PrintAttributes(e.attributes) + ((e.pad + ">") + text)), e.name, dom)
            == if |cut| < lost then LengthError
               else var content := cut[..|cut| - lost];
                    Done(Point(Eof, ""), Dom(dom.name, AttributeMap(e.attributes) + dom.attributes, content, Text(content)))
  {
    var rest, start := PrintAttributes(e.attributes) + ((e.pad + ">") + text), ContentStart(before, e);
    StartCursor(src, before, e, text);
    PassAttributes(|src|, e.attributes, e.pad, text, dom.attributes, Cursor(|src|, rest));
    PassTextToEnd(src, text, e.name, []);
    var header := Header(AttributeMap(e.attributes) + dom.attributes, start, true);
    OpeningEnd(before, e);
    TagFromParts(src, rest, e.name, dom, header, text, Point(Eof, ""), []);
    CloseAtEnd(src, Opening(before, e), text, e.name, start, dom.(attributes := header.attributes));
  }

  lemma CloseAtEnd(src: string, opening: string, text: string, name: string, start: nat, dom: Dom)
    requires src == opening + text && start <= |opening|
    ensures var cut, lost := opening[start..] + text, |PrintClose(name)| + 1;
            Close(src, Point(Eof, ""), name, dom, start, [])
            == if |cut| < lost then LengthError
               else var content := cut[..|cut| - lost];
                    Done(Point(Eof, ""), dom.(innerHtml := content, children := Text(content)))
  {
    var cut, end := opening[start..] + text, |src| - |name| - 4;
    assert src[start..] == cut;
    assert start <= end ==> src[start..end] == cut[..end - start];
  }

  /** A `<` without a name behind it ends a content like the end of the source. */
  lemma BadTagEnds(src: string, text: string, x: string, owner: string, kids: seq<Dom>)
    requires IsPlain(text) && (x == "" || x[0] != '/') && Lex(x).Lexed? && !Lex(x).token.Identifier?
    ensures ContentAt(src, text + ("<" + x), owner, kids) == Done(Point(Eof, Lex(x).rest), kids)
  {
    PassText(src, text, "<" + x, owner, kids);
    LexTagged("<" + x, false, x);
  }
}
