/**
 Round trip of the XML parser.  A child's close tag is left as current token for the parent to
 read again, so a parent takes the close tag of a child of its own name for its own.
 */
module XmlRoundTrip {
  import opened Chars
  import opened XmlGrammar
  import opened XmlText

  /** A canonical source: a leaf text, or children with text around them, which the parser drops. */
  datatype Elem = Elem(name: string, body: Body)

  datatype Body = Leaf(text: string) | Child(gap: string, elem: Elem, more: Body)

  function Print(e: Elem): string
    decreases e, 1
  {
    "<" + e.name + (">" + PrintRest(e))
  }

  /** Everything behind the begin tag. */
  function PrintRest(e: Elem): string
    decreases e, 0
  {
    PrintBody(e.body) + PrintClose(e.name)
  }

  function PrintBody(b: Body): string
    decreases b, 2
  {
    match b
    case Leaf(text) => text
    case Child(gap, elem, more) => gap + (Print(elem) + PrintBody(more))
  }

  predicate IsPlain(text: string) { forall i :: 0 <= i < |text| ==> text[i] != '<' }

  predicate Good(e: Elem)
    decreases e, 0
  {
    IsName(e.name) && GoodBody(e.body)
  }

  predicate GoodBody(b: Body)
    decreases b, 0
  {
    match b
    case Leaf(text) => IsPlain(text)
    case Child(gap, elem, more) => IsPlain(gap) && Good(elem) && GoodBody(more)
  }

  /** The tree a source stands for. */
  function NodeOf(e: Elem): Node
    decreases e, 0
  {
    if e.body.Child? then List(KidsOf(e.body)) else Str(Spaced(e.body.text))
  }

  function KidsOf(b: Body): seq<Entry>
    decreases b, 0
  {
    if b.Child? then [Entry(b.elem.name, NodeOf(b.elem))] + KidsOf(b.more) else []
  }

  /** No child but the last of any element bears the element's own name. */
  predicate Apart(e: Elem)
    decreases e, 0
  {
    BodyApart(e.name, e.body)
  }

  predicate BodyApart(owner: string, b: Body)
    decreases b, 0
  {
    b.Child? ==> (b.more.Child? ==> b.elem.name != owner) && Apart(b.elem) && BodyApart(owner, b.more)
  }

  /**
   The texts in front of the close tags that are still unread when the parser has returned from
   an element: one for each level on which the last child bears its parent's name.
   */
  function Unread(e: Elem): seq<string>
    decreases e, 0
  {
    BodyUnread(e.name, e.body)
  }

  function BodyUnread(owner: string, b: Body): seq<string>
    decreases b, 0
  {
    if b.Leaf? then []
    else if b.more.Child? then BodyUnread(owner, b.more)
    else if b.elem.name == owner then Unread(b.elem) + [b.more.text]
    else []
  }

  function PrintUnread(texts: seq<string>, name: string): string {
    if texts == [] then "" else texts[0] + (PrintClose(name) + PrintUnread(texts[1..], name))
  }

  // ---------- tokens ----------

  lemma LexSpace(c: char, rest: string)
    requires IsSpace(c)
    ensures Lex([c] + rest) == Lex(rest)
  {
    assert ([c] + rest)[1..] == rest;
    assert SkipSpace([c] + rest) == SkipSpace(rest);
  }

  lemma LexName(name: string, rest: string)
    requires IsName(name) && (rest == "" || !IsAlnum(rest[0]))
    ensures Lex(name + rest) == Lexed(Identifier(name), rest)
  {
    var s := name + rest;
    assert s[0] == name[0];
    AlnumPrefixOfName(name, rest);
    assert s[..|name|] == name && s[|name|..] == rest;
  }

  lemma LexBegin(name: string, rest: string)
    requires IsName(name)
    ensures Lex("<" + name + (">" + rest)) == Lexed(BeginTag(name), rest)
  {
    var s := "<" + name + (">" + rest);
    assert s[1..] == name + (">" + rest);
    assert s[1] == name[0];
    LexName(name, ">" + rest);
    assert (">" + rest)[1..] == rest;
    hide Lex, SkipSpace, AlnumPrefix;
    LexesAsTag(s);
  }

  lemma LexesAsTag(s: string)
    requires s != "" && s[0] == '<'
    ensures Lex(s) == LexTag(s)
  {}

  lemma LexClose(name: string, rest: string)
    requires IsName(name)
    ensures Lex(PrintClose(name) + rest) == Lexed(CloseTag(name), rest)
  {
    var s := PrintClose(name) + rest;
    assert s[2..] == name + (">" + rest);
    LexName(name, ">" + rest);
    assert (">" + rest)[1..] == rest;
  }

  // ---------- the content loop ----------

  /** The content loop entered at the next token. */
  function ContentAt(rest: string, tagStr: string, owner: string, s: string, kids: seq<Entry>): Outcome<Node> {
    var (p, _) :- Next(rest, tagStr);
    ParseContent(p, owner, s, kids)
  }

  lemma PassName(name: string, rest: string, tagStr: string, owner: string, s: string, kids: seq<Entry>)
    requires IsName(name) && (rest == "" || !IsAlnum(rest[0]))
    ensures ContentAt(name + rest, tagStr, owner, s, kids) == ContentAt(rest, tagStr, owner, AddName(s, name), kids)
  {
    LexName(name, rest);
  }

  lemma PassChar(c: char, rest: string, tagStr: string, owner: string, s: string, kids: seq<Entry>)
    requires !IsSpace(c) && !IsAlpha(c) && c != '<'
    ensures ContentAt([c] + rest, tagStr, owner, s, kids) == ContentAt(rest, tagStr, owner, s + [c], kids)
  {
    assert ([c] + rest)[1..] == rest;
  }

  /** Text is rebuilt token by token, up to the tag behind it. */
  lemma {:induction false} PassText(text: string, rest: string, tagStr: string, owner: string, s: string,
                                    kids: seq<Entry>)
    requires IsPlain(text) && rest != "" && rest[0] == '<'
    ensures ContentAt(text + rest, tagStr, owner, s, kids) == ContentAt(rest, tagStr, owner, Rebuild(s, text), kids)
    decreases |text|
  {
    var u := text + rest;
    if text == "" {
      assert u == rest;
    } else if IsSpace(text[0]) {
      assert u == [text[0]] + (text[1..] + rest) && text == [text[0]] + text[1..];
      LexSpace(text[0], text[1..] + rest);
      RebuildSpace(s, text[0], text[1..]);
      PassText(text[1..], rest, tagStr, owner, s, kids);
    } else if IsAlpha(text[0]) {
      var n := AlnumPrefix(text);
      assert text == text[..n] + text[n..] && u == text[..n] + (text[n..] + rest);
      PassName(text[..n], text[n..] + rest, tagStr, owner, s, kids);
      RebuildName(s, text[..n], text[n..]);
      PassText(text[n..], rest, tagStr, owner, AddName(s, text[..n]), kids);
    } else {
      assert u == [text[0]] + (text[1..] + rest);
      PassChar(text[0], text[1..] + rest, tagStr, owner, s, kids);
      PassText(text[1..], rest, tagStr, owner, s + [text[0]], kids);
    }
  }

  /** In an element that has a child already the collected text no longer matters. */
  lemma {:induction false} TextForgotten(p: Point, owner: string, s1: string, s2: string, kids: seq<Entry>)
    requires kids != []
    ensures ParseContent(p, owner, s1, kids) == ParseContent(p, owner, s2, kids)
    decreases p.Left()
  {
    match p.cur
    case Eof =>
    case BeginTag(tag) =>
      var r := ParseXml(p, tag);
      if r.Done? {
        TextForgotten(r.at, owner, s1, s2, kids + [Entry(r.at.tagStr, r.value)]);
      }
    case CloseTag(tag) =>
      var r := Next(p.rest, p.tagStr);
      if tag != owner && r.Done? {
        TextForgotten(r.at, owner, s1, s2, kids);
      }
    case Identifier(name) =>
      var r := Next(p.rest, p.tagStr);
      if r.Done? {
        TextForgotten(r.at, owner, AddName(s1, name), AddName(s2, name), kids);
      }
    case Ch(c) =>
      var r := Next(p.rest, p.tagStr);
      if r.Done? {
        TextForgotten(r.at, owner, s1 + [c], s2 + [c], kids);
      }
  }

  lemma TextForgottenAt(rest: string, tagStr: string, owner: string, s1: string, s2: string, kids: seq<Entry>)
    requires kids != []
    ensures ContentAt(rest, tagStr, owner, s1, kids) == ContentAt(rest, tagStr, owner, s2, kids)
  {
    var r := Next(rest, tagStr);
    if r.Done? {
      TextForgotten(r.at, owner, s1, s2, kids);
    }
  }

  /** Close tags of another name are passed over, with the texts in front of them. */
  lemma {:induction false} PassUnread(texts: seq<string>, name: string, rest: string, owner: string,
                                      s: string, kids: seq<Entry>)
    requires (forall i :: 0 <= i < |texts| ==> IsPlain(texts[i])) && IsName(name) && name != owner && kids != []
    ensures ContentAt(PrintUnread(texts, name) + rest, name, owner, s, kids) == ContentAt(rest, name, owner, s, kids)
  {
    if texts == [] {
      assert PrintUnread(texts, name) + rest == rest;
    } else {
      var more := PrintUnread(texts[1..], name) + rest;
      Assoc3(texts[0], PrintClose(name), PrintUnread(texts[1..], name), rest);
      PassText(texts[0], PrintClose(name) + more, name, owner, s, kids);
      LexClose(name, more);
      TextForgottenAt(more, name, owner, Rebuild(s, texts[0]), s, kids);
      PassUnread(texts[1..], name, rest, owner, s, kids);
    }
  }

  lemma Assoc3(a: string, b: string, c: string, d: string)
    ensures (a + (b + c)) + d == a + (b + (c + d))
  {
    assert (b + c) + d == b + (c + d);
    assert (a + (b + c)) + d == a + ((b + c) + d);
  }

  lemma {:induction false} UnreadPlain(e: Elem)
    requires Good(e)
    ensures forall i :: 0 <= i < |Unread(e)| ==> IsPlain(Unread(e)[i])
    decreases e, 0
  {
    BodyUnreadPlain(e.name, e.body);
  }

  lemma {:induction false} BodyUnreadPlain(owner: string, b: Body)
    requires GoodBody(b)
    ensures forall i :: 0 <= i < |BodyUnread(owner, b)| ==> IsPlain(BodyUnread(owner, b)[i])
    decreases b, 0
  {
    if b.Child? {
      if b.more.Child? {
        BodyUnreadPlain(owner, b.more);
      } else {
        UnreadPlain(b.elem);
      }
    }
  }

  lemma {:induction false} PrintUnreadAppend(texts: seq<string>, t: string, name: string, rest: string)
    ensures PrintUnread(texts + [t], name) + rest == PrintUnread(texts, name) + (t + (PrintClose(name) + rest))
  {
    if texts == [] {
      assert [t][1..] == [];
      assert texts + [t] == [t];
      Assoc3(t, PrintClose(name), "", rest);
      assert "" + rest == rest;
      assert "" + (t + (PrintClose(name) + rest)) == t + (PrintClose(name) + rest);
    } else {
      assert (texts + [t])[1..] == texts[1..] + [t];
      PrintUnreadAppend(texts[1..], t, name, rest);
      Assoc3(texts[0], PrintClose(name), PrintUnread(texts[1..] + [t], name), rest);
      Assoc3(texts[0], PrintClose(name), PrintUnread(texts[1..], name), t + (PrintClose(name) + rest));
    }
  }

  // ---------- sources that come back ----------

  /** What `parseXml` leaves behind a source whose children stand apart: its close tag in hand, the rest unread. */
  lemma {:induction false} ParseGood(e: Elem, tail: string, tagStr: string)
    requires Good(e) && Apart(e)
    ensures ParseXml(Point(BeginTag(e.name), tagStr, PrintRest(e) + tail), e.name)
         == Done(Point(CloseTag(e.name), e.name, PrintUnread(Unread(e), e.name) + tail), NodeOf(e))
    decreases e, 0
  {
    assert PrintRest(e) + tail == PrintBody(e.body) + (PrintClose(e.name) + tail);
    ParseGoodBody(e.name, e.body, tail, tagStr, "", []);
    if e.body.Leaf? {
      NormalIsSpaced(e.body.text);
    }
    assert [] + KidsOf(e.body) == KidsOf(e.body);
  }

  lemma {:induction false} ParseGoodBody(owner: string, b: Body, tail: string, tagStr: string, s: string,
                                         kids: seq<Entry>)
    requires IsName(owner) && GoodBody(b) && BodyApart(owner, b)
    ensures ContentAt(PrintBody(b) + (PrintClose(owner) + tail), tagStr, owner, s, kids)
         == Done(Point(CloseTag(owner), owner, PrintUnread(BodyUnread(owner, b), owner) + tail),
                 if kids == [] && b.Leaf? then Str(Rebuild(s, b.text)) else List(kids + KidsOf(b)))
    decreases b, 1
  {
    var close := PrintClose(owner) + tail;
    match b
    case Leaf(text) =>
      PassText(text, close, tagStr, owner, s, kids);
      LexClose(owner, tail);
      assert "" + tail == tail;
      assert kids + KidsOf(b) == kids;
    case Child(gap, e, more) =>
      var rest := PrintBody(more) + close;
      Assoc3(gap, Print(e), PrintBody(more), close);
      PassText(gap, Print(e) + rest, tagStr, owner, s, kids);
      var one := kids + [Entry(e.name, NodeOf(e))];
      ParseGoodChild(e, rest, tagStr, owner, Rebuild(s, gap), kids);
      if e.name == owner {
        PrintUnreadAppend(Unread(e), more.text, owner, tail);
        assert kids + KidsOf(b) == one;
      } else {
        ParseGoodBody(owner, more, tail, e.name, Rebuild(s, gap), one);
        assert one + KidsOf(more) == kids + KidsOf(b);
      }
  }

  /** A good child ends its parent when it bears the parent's name, and is one more child otherwise. */
  lemma {:induction false} ParseGoodChild(e: Elem, rest: string, tagStr: string, owner: string, s: string,
                                          kids: seq<Entry>)
    requires Good(e) && Apart(e)
    ensures ContentAt(Print(e) + rest, tagStr, owner, s, kids)
         == var one := kids + [Entry(e.name, NodeOf(e))];
            if e.name == owner then
              Done(Point(CloseTag(owner), owner, PrintUnread(Unread(e), owner) + rest), List(one))
            else ContentAt(rest, e.name, owner, s, one)
    decreases e, 1
  {
    ChildRound(e, rest, tagStr, owner, s, kids);
    ParseGood(e, rest, e.name);
    if e.name != owner {
      UnreadPlain(e);
      PassUnread(Unread(e), e.name, rest, owner, s, kids + [Entry(e.name, NodeOf(e))]);
    }
  }

  /** One round of the content loop on an element: it is parsed and recorded under the register TagStr. */
  lemma ChildRound(e: Elem, rest: string, tagStr: string, owner: string, s: string, kids: seq<Entry>)
    requires Good(e)
    ensures ContentAt(Print(e) + rest, tagStr, owner, s, kids)
         == var r := ParseXml(Point(BeginTag(e.name), e.name, PrintRest(e) + rest), e.name);
            if r.Error? then Error else ParseContent(r.at, owner, s, kids + [Entry(r.at.tagStr, r.value)])
  {
    assert Print(e) + rest == "<" + e.name + (">" + (PrintRest(e) + rest));
    LexBegin(e.name, PrintRest(e) + rest);
  }

  // ---------- sources that do not come back ----------

  /** The children found so far stay the first children. */
  lemma {:induction false} KidsStay(p: Point, owner: string, s: string, kids: seq<Entry>)
    requires kids != []
    ensures var r := ParseContent(p, owner, s, kids);
            r.Done? ==> r.value.List? && kids <= r.value.list
    decreases p.Left()
  {
    match p.cur
    case Eof =>
    case BeginTag(tag) =>
      var r := ParseXml(p, tag);
      if r.Done? {
        KidsStay(r.at, owner, s, kids + [Entry(r.at.tagStr, r.value)]);
      }
    case CloseTag(tag) =>
      var r := Next(p.rest, p.tagStr);
      if tag != owner && r.Done? {
        KidsStay(r.at, owner, s, kids);
      }
    case Identifier(name) =>
      var r := Next(p.rest, p.tagStr);
      if r.Done? {
        KidsStay(r.at, owner, AddName(s, name), kids);
      }
    case Ch(c) =>
      var r := Next(p.rest, p.tagStr);
      if r.Done? {
        KidsStay(r.at, owner, s + [c], kids);
      }
  }

  /** Where a child in front of the last one bears its parent's name, another tree comes back, or none. */
  lemma {:induction false} ParseBad(e: Elem, tail: string, tagStr: string)
    requires Good(e) && !Apart(e)
    ensures var r := ParseXml(Point(BeginTag(e.name), tagStr, PrintRest(e) + tail), e.name);
            r.Done? ==> r.value != NodeOf(e)
    decreases e, 0
  {
    assert PrintRest(e) + tail == PrintBody(e.body) + (PrintClose(e.name) + tail);
    ParseBadBody(e.name, e.body, tail, tagStr, "", []);
    assert [] + KidsOf(e.body) == KidsOf(e.body);
  }

  lemma {:induction false} ParseBadBody(owner: string, b: Body, tail: string, tagStr: string, s: string,
                                        kids: seq<Entry>)
    requires IsName(owner) && GoodBody(b) && !BodyApart(owner, b)
    ensures var r := ContentAt(PrintBody(b) + (PrintClose(owner) + tail), tagStr, owner, s, kids);
            r.Done? ==> r.value != List(kids + KidsOf(b))
    decreases b, 1
  {
    var Child(gap, e, more) := b;
    var close := PrintClose(owner) + tail;
    var rest := PrintBody(more) + close;
    Assoc3(gap, Print(e), PrintBody(more), close);
    PassText(gap, Print(e) + rest, tagStr, owner, s, kids);
    hide ContentAt, Print, PrintClose, Rebuild;
    if !Apart(e) {
      ParseBadChild(e, rest, tagStr, owner, Rebuild(s, gap), kids);
      assert (kids + KidsOf(b))[|kids|] == Entry(e.name, NodeOf(e));
    } else {
      var one := kids + [Entry(e.name, NodeOf(e))];
      ParseGoodChild(e, rest, tagStr, owner, Rebuild(s, gap), kids);
      if e.name == owner {
        assert |KidsOf(b)| > 1;
        assert |kids + KidsOf(b)| > |one|;
      } else {
        ParseBadBody(owner, more, tail, e.name, Rebuild(s, gap), one);
        assert one + KidsOf(more) == kids + KidsOf(b);
      }
    }
  }

  lemma {:induction false} ParseBadChild(e: Elem, rest: string, tagStr: string, owner: string, s: string,
                                         kids: seq<Entry>)
    requires Good(e) && !Apart(e)
    ensures var r := ContentAt(Print(e) + rest, tagStr, owner, s, kids);
            r.Done? ==> r.value.List? && |r.value.list| > |kids| && r.value.list[|kids|].node != NodeOf(e)
    decreases e, 1
  {
    ChildRound(e, rest, tagStr, owner, s, kids);
    ParseBad(e, rest, e.name);
    var child := ParseXml(Point(BeginTag(e.name), e.name, PrintRest(e) + rest), e.name);
    if child.Done? {
      var one := kids + [Entry(child.at.tagStr, child.value)];
      KidsStay(child.at, owner, s, one);
      assert one[|kids|] == Entry(child.at.tagStr, child.value);
    }
  }

  // ---------- the round trip ----------

  /**
   The parser gives a canonical document back, whatever follows it, if and only if no child but the
   last of any element bears the element's own name, and the one token read behind the root is no
   error.  That token comes from the close tags still unread, if there are any.
   */
  lemma RoundTripIff(e: Elem, tail: string)
    requires Good(e) && e.name == "xml"
    ensures var r := ParseDocument(Print(e) + tail);
            (r.Done? && r.value == Some(NodeOf(e))) <==> Apart(e) && (Unread(e) != [] || Lex(tail).Lexed?)
  {
    DocumentStarts(e, tail);
    if Apart(e) {
      ParseGood(e, tail, "xml");
      UnreadEnds(e, tail);
    } else {
      ParseBad(e, tail, "xml");
    }
  }

  lemma DocumentStarts(e: Elem, tail: string)
    requires Good(e) && e.name == "xml"
    ensures Lex(" " + (Print(e) + tail)) == Lexed(BeginTag("xml"), PrintRest(e) + tail)
  {
    LexSpace(' ', Print(e) + tail);
    assert Print(e) + tail == "<" + "xml" + (">" + (PrintRest(e) + tail));
    LexBegin("xml", PrintRest(e) + tail);
  }

  /** The one token `main` still reads behind the root. */
  lemma UnreadEnds(e: Elem, tail: string)
    requires Good(e)
    ensures Lex(PrintUnread(Unread(e), e.name) + tail).Lexed? <==> Unread(e) != [] || Lex(tail).Lexed?
  {
    UnreadPlain(e);
    if Unread(e) == [] {
      assert "" + tail == tail;
    } else {
      UnreadLexes(Unread(e), e.name, tail);
    }
  }

  lemma UnreadLexes(texts: seq<string>, name: string, tail: string)
    requires texts != [] && (forall i :: 0 <= i < |texts| ==> IsPlain(texts[i])) && IsName(name)
    ensures Lex(PrintUnread(texts, name) + tail).Lexed?
  {
    var more := PrintUnread(texts[1..], name) + tail;
    Assoc3(texts[0], PrintClose(name), PrintUnread(texts[1..], name), tail);
    LexClose(name, more);
    TextLexes(texts[0], PrintClose(name) + more);
  }

  lemma {:induction false} TextLexes(text: string, rest: string)
    requires IsPlain(text) && Lex(rest).Lexed?
    ensures Lex(text + rest).Lexed?
    decreases |text|
  {
    if text == "" {
      assert text + rest == rest;
    } else if IsSpace(text[0]) {
      assert text + rest == [text[0]] + (text[1..] + rest);
      LexSpace(text[0], text[1..] + rest);
      TextLexes(text[1..], rest);
    }
  }

  // ---------- other sources ----------

  lemma {:induction false} PassTextToEnd(text: string, tagStr: string, owner: string, s: string)
    requires IsPlain(text)
    ensures ContentAt(text, tagStr, owner, s, []) == Done(Point(Eof, tagStr, ""), Str(Rebuild(s, text)))
    decreases |text|
  {
    if text != "" {
      if IsSpace(text[0]) {
        assert text == [text[0]] + text[1..];
        LexSpace(text[0], text[1..]);
        RebuildSpace(s, text[0], text[1..]);
        PassTextToEnd(text[1..], tagStr, owner, s);
      } else if IsAlpha(text[0]) {
        var n := AlnumPrefix(text);
        assert text == text[..n] + text[n..];
        PassName(text[..n], text[n..], tagStr, owner, s, []);
        RebuildName(s, text[..n], text[n..]);
        PassTextToEnd(text[n..], tagStr, owner, AddName(s, text[..n]));
      } else {
        assert text == [text[0]] + text[1..];
        PassChar(text[0], text[1..], tagStr, owner, s, []);
        PassTextToEnd(text[1..], tagStr, owner, s + [text[0]]);
      }
    }
  }

  /** An element of text alone whose close tag is missing is parsed to the tree it would have been. */
  lemma UnclosedElement(name: string, text: string)
    requires IsName(name) && IsPlain(text)
    ensures ParseXml(Point(BeginTag(name), name, text), name) == Done(Point(Eof, name, ""), NodeOf(Elem(name, Leaf(text))))
  {
    PassTextToEnd(text, name, name, "");
    NormalIsSpaced(text);
  }

  /** Behind the `<` at the head of s, or behind `</`, a name follows, white space apart. */
  predicate TagIsNamed(s: string)
    requires s != ""
  {
    var t := SkipSpace(if |s| > 1 && s[1] == '/' then s[2..] else s[1..]);
    t != "" && IsAlpha(t[0])
  }

  lemma IdentifierIs(text: string, name: string)
    ensures (Lex(text).Lexed? && Lex(text).token == Identifier(name))
       <==> var t := SkipSpace(text); t != "" && IsAlpha(t[0]) && t[..AlnumPrefix(t)] == name
  {
    var t := SkipSpace(text);
    if t != "" && t[0] == '<' {
      assert Lex(text) == LexTag(t);
    }
  }

  /** A token scan throws if and only if it meets a tag without a name. */
  lemma LexThrowsIff(text: string)
    ensures Lex(text).Thrown? <==> var s := SkipSpace(text); s != "" && s[0] == '<' && !TagIsNamed(s)
  {
    var s := SkipSpace(text);
    if s != "" && s[0] == '<' {
      var t := if |s| > 1 && s[1] == '/' then s[2..] else s[1..];
      assert Lex(t).Lexed? && Lex(t).token.Identifier? <==> SkipSpace(t) != "" && IsAlpha(SkipSpace(t)[0]);
    }
  }

  /** The first token of a source is the begin tag of a name if and only if the source opens with it. */
  lemma OpensIff(src: string, name: string)
    requires IsName(name)
    ensures (Lex(src).Lexed? && Lex(src).token == BeginTag(name)) <==> OpensWith(src, name)
  {
    var s := SkipSpace(src);
    assert Lex(src) == Lex(s) by {
      assert SkipSpace(s) == s;
    }
    if s != "" && s[0] == '<' {
      var t := SkipSpace(s[1..]);
      NameIsPrefix(t, name);
      IdentifierIs(s[1..], name);
      assert Lex(s) == LexTag(s);
    }
  }

  /** Every tag of the text has a name. */
  predicate TagsNamed(text: string) {
    forall i :: 0 <= i < |text| && text[i] == '<' ==> TagIsNamed(text[i..])
  }

  lemma NamedBehind(text: string, k: nat)
    requires TagsNamed(text) && k <= |text|
    ensures TagsNamed(text[k..])
  {
    forall i | 0 <= i < |text[k..]| && text[k..][i] == '<'
      ensures TagIsNamed(text[k..][i..])
    {
      assert text[k..][i..] == text[k + i..];
    }
  }

  lemma {:induction false} SkipSpaceIsSuffix(text: string) returns (k: nat)
    ensures k <= |text| && SkipSpace(text) == text[k..]
  {
    k := 0;
    if text != "" && IsSpace(text[0]) {
      k := SkipSpaceIsSuffix(text[1..]);
      assert text[1..][k..] == text[k + 1..];
      k := k + 1;
    }
  }

  /** What a token scan leaves is the end of what it had. */
  lemma {:induction false} RestIsSuffix(text: string) returns (k: nat)
    requires Lex(text).Lexed?
    ensures k <= |text| && Lex(text).rest == text[k..]
    decreases |text|, 1
  {
    var j := SkipSpaceIsSuffix(text);
    var s := text[j..];
    SkippedFirst(text);
    if s == "" {
      k := |text|;
    } else if s[0] == '<' {
      k := RestOfTag(s);
      assert s[k..] == text[j + k..];
      k := j + k;
    } else {
      k := j + if IsAlpha(s[0]) then AlnumPrefix(s) else 1;
      assert s[k - j..] == text[k..];
    }
  }

  lemma SkippedFirst(text: string)
    ensures Lex(text) == Lex(SkipSpace(text))
  {
    assert SkipSpace(SkipSpace(text)) == SkipSpace(text);
  }

  lemma {:induction false} RestOfTag(s: string) returns (k: nat)
    requires s != "" && s[0] == '<' && Lex(s).Lexed?
    ensures k <= |s| && Lex(s).rest == s[k..]
    decreases |s|, 0
  {
    LexesAsTag(s);
    var skip := if |s| > 1 && s[1] == '/' then 2 else 1;
    hide Lex;
    var inner := RestIsSuffix(s[skip..]);
    k := skip + inner;
    assert Lex(s[skip..]).rest == s[k..];
    if k < |s| {
      assert s[k..][1..] == s[k + 1..];
      k := k + 1;
    }
  }

  lemma NextNamed(rest: string, tagStr: string)
    requires TagsNamed(rest)
    ensures Next(rest, tagStr).Done? && TagsNamed(Next(rest, tagStr).at.rest)
  {
    var j := SkipSpaceIsSuffix(rest);
    LexThrowsIff(rest);
    var k := RestIsSuffix(rest);
    NamedBehind(rest, k);
  }

  lemma {:induction false} NamedTag(p: Point, parentName: string)
    requires p.cur.BeginTag? && TagsNamed(p.rest)
    ensures var r := ParseXml(p, parentName);
            r.Done? && TagsNamed(r.at.rest)
    decreases p.Left(), 0
  {
    NextNamed(p.rest, p.tagStr);
    NamedContent(Next(p.rest, p.tagStr).at, parentName, "", []);
  }

  lemma {:induction false} NamedContent(p: Point, parentName: string, strVal: string, child: seq<Entry>)
    requires TagsNamed(p.rest)
    ensures var r := ParseContent(p, parentName, strVal, child);
            r.Done? && TagsNamed(r.at.rest)
    decreases p.Left(), 1
  {
    hide TagsNamed;
    NextNamed(p.rest, p.tagStr);
    var p1 := Next(p.rest, p.tagStr).at;
    match p.cur
    case Eof =>
    case BeginTag(tag) =>
      NamedTag(p, tag);
      var r := ParseXml(p, tag);
      NamedContent(r.at, parentName, strVal, child + [Entry(r.at.tagStr, r.value)]);
    case CloseTag(tag) =>
      if tag != parentName {
        NamedContent(p1, parentName, strVal, child);
      }
    case Identifier(name) => NamedContent(p1, parentName, AddName(strVal, name), child);
    case Ch(c) => NamedContent(p1, parentName, strVal + [c], child);
  }

  /**
   Any source, well formed or not: if the parser answers at all, it answers with a tree if and only
   if the source opens with an xml tag; and it always answers when every tag in the source has a name.
   */
  lemma DocumentIff(src: string)
    ensures var r := ParseDocument(src);
            && (r.Done? ==> (r.value.Some? <==> OpensWith(src, "xml")))
            && (TagsNamed(src) ==> r.Done?)
  {
    OpensIff(src, "xml");
    LexSpace(' ', src);
    if TagsNamed(src) {
      NextNamed(src, "");
      var p := Next(src, "").at;
      if p.cur == BeginTag("xml") {
        NamedTag(p, "xml");
        var r := ParseXml(p, "xml");
        NextNamed(r.at.rest, r.at.tagStr);
      }
    }
  }

  // ---------- the same on trees ----------

  /** A tree that has a printed form: names, clean texts without `<`, no empty child list. */
  predicate Printable(name: string, t: Node)
    decreases t, 0
  {
    IsName(name) && match t
                    case Str(text) => IsPlain(text) && Clean(text)
                    case List(list) => list != [] && AllPrintable(list)
  }

  predicate AllPrintable(list: seq<Entry>)
    decreases list, 0
  {
    list == [] || (Printable(list[0].key, list[0].node) && AllPrintable(list[1..]))
  }

  function SourceOf(name: string, t: Node): Elem
    decreases t, 0
  {
    Elem(name, if t.Str? then Leaf(t.strVal) else BodyOf(t.list))
  }

  function BodyOf(list: seq<Entry>): Body
    decreases list, 0
  {
    if list == [] then Leaf("") else Child("", SourceOf(list[0].key, list[0].node), BodyOf(list[1..]))
  }

  lemma {:induction false} SourceStandsFor(name: string, t: Node)
    requires Printable(name, t)
    ensures Good(SourceOf(name, t)) && NodeOf(SourceOf(name, t)) == t
    decreases t, 0
  {
    match t
    case Str(text) => NormalIff(text);
    case List(list) => BodyStandsFor(list);
  }

  lemma {:induction false} BodyStandsFor(list: seq<Entry>)
    requires AllPrintable(list)
    ensures GoodBody(BodyOf(list)) && KidsOf(BodyOf(list)) == list
    decreases list, 0
  {
    if list != [] {
      SourceStandsFor(list[0].key, list[0].node);
      BodyStandsFor(list[1..]);
    }
  }

  /** Print, then parse, whatever follows: the same tree, under exactly that condition. */
  lemma TreeRoundTripIff(t: Node, tail: string)
    requires Printable("xml", t)
    ensures var r, e := ParseDocument(Print(SourceOf("xml", t)) + tail), SourceOf("xml", t);
            (r.Done? && r.value == Some(t)) <==> Apart(e) && (Unread(e) != [] || Lex(tail).Lexed?)
  {
    SourceStandsFor("xml", t);
    RoundTripIff(SourceOf("xml", t), tail);
  }
}
