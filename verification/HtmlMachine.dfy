/**
 parser/htmlParser.cpp as it runs: the file-scope variables are the fields of a parser object,
 the loops are loops, and elements are filled in place.  Every method is tied to the functions
 of HtmlLexer and HtmlGrammar on the live text.
 */
module HtmlMachine {
  import opened Chars
  import L = HtmlLexer
  import G = HtmlGrammar
  import R = HtmlRoundTrip
  import opened HtmlDom

  /** The token codes of `enum Token`; a plain character is its own token. */
  datatype Tok = TokEof | TokIdentifier | TokString | TokBeginTag | TokCloseTag | TokChar(c: char)

  /** How a call ends: normally, never, or with the exception of a negative slice length. */
  datatype Status = Finished | Hanging | Threw

  class HtmlParser {
    var html: string
    var hit: nat
    var identifierStr: string
    var strVal: string
    var tagStr: string
    var curTokIndex: nat
    var lastChar: Option<char>  // None is EOF
    var curTok: Tok

    ghost predicate Valid()
      reads this
    {
      hit <= |html| && curTokIndex == hit && (lastChar == None ==> hit == |html|)
    }

    /** The lookahead character and everything behind it. */
    ghost function Live(): (s: string)
      requires Valid()
      reads this
      ensures lastChar == None ==> s == ""
      ensures lastChar != None ==> s != "" && s[0] == lastChar.value
    {
      (if lastChar == None then [] else [lastChar.value]) + html[hit..]
    }

    /** A token code read together with the register its text is in. */
    ghost function TokenOf(t: Tok): L.Token
      reads this
    {
      match t
      case TokEof => L.Eof
      case TokIdentifier => L.Identifier(identifierStr)
      case TokString => L.Quoted(strVal)
      case TokBeginTag => L.BeginTag(tagStr)
      case TokCloseTag => L.CloseTag(tagStr)
      case TokChar(c) => L.Ch(c)
    }

    ghost function Here(): G.Point
      requires Valid()
      reads this
    {
      G.Point(TokenOf(curTok), Live())
    }

    /** The state before any call: the initializers of the file-scope variables. */
    constructor ()
      ensures Valid()
    {
      html, hit, curTokIndex := "", 0, 0;
      identifierStr, strVal, tagStr := "", "", "";
      lastChar, curTok := Some(' '), TokEof;
    }

    method InitHtml()
      modifies this
      ensures html == identifierStr == strVal == tagStr == "" && curTokIndex == 0 && lastChar == Some(' ')
      ensures hit == old(hit) && curTok == old(curTok)
    {
      html := "";
      identifierStr, strVal, tagStr := "", "", "";
      curTokIndex := 0;
      lastChar := Some(' ');
    }

    method GetStrChar() returns (cur: Option<char>)
      requires Valid()
      modifies this`hit, this`curTokIndex
      ensures hit <= |html| && curTokIndex == hit
      ensures old(hit) == |html| ==> cur == None && hit == old(hit)
      ensures old(hit) < |html| ==> cur == Some(html[old(hit)]) && hit == old(hit) + 1
    {
      if hit == |html| {
        return None;
      }
      cur := Some(html[hit]);
      curTokIndex := curTokIndex + 1;
      hit := hit + 1;
    }

    /** `LastChar = getStrChar()`. */
    method ReadOn()
      requires Valid()
      modifies this`hit, this`curTokIndex, this`lastChar
      ensures Valid() && Live() == Advance(old(Live()))
    {
      lastChar := GetStrChar();
    }

    method GetTok() returns (hung: bool, tok: Tok)
      requires Valid()
      modifies this
      ensures Valid() && html == old(html) && curTok == old(curTok)
      ensures hung <==> L.Lex(old(Live())).Unclosed?
      ensures !hung ==> L.Lex(old(Live())) == L.Lexed(TokenOf(tok), Live())
      decreases |Live()|, 1
    {
      SkipSpaces();
      if lastChar != None && IsAlpha(lastChar.value) {
        hide L.Lex;
        ScanIdentifier();
        return false, TokIdentifier;
      }
      if lastChar == Some('"') {
        hide L.Lex;
        hung := ScanString();
        return hung, TokString;
      }
      if lastChar == Some('<') {
        hide L.Lex;
        hung, tok := ScanTag();
        return hung, tok;
      }
      if lastChar == None {
        return false, TokEof;
      }
      tok := TokChar(lastChar.value);
      ReadOn();
      return false, tok;
    }

    method SkipSpaces()
      requires Valid()
      modifies this`hit, this`curTokIndex, this`lastChar
      ensures Valid() && L.Lex(Live()) == L.Lex(old(Live())) && |Live()| <= |old(Live())|
      ensures lastChar == None || !IsSpace(lastChar.value)
    {
      while lastChar != None && IsSpace(lastChar.value)
        invariant Valid() && L.Lex(Live()) == L.Lex(old(Live())) && |Live()| <= |old(Live())|
        decreases |Live()|
      {
        ghost var live := Live();
        ReadOn();
        R.LexSpace(live[0], Live());
        assert live == [live[0]] + Live();
      }
    }

    /** The identifier branch of `gettok`. */
    method ScanIdentifier()
      requires Valid() && lastChar != None && IsAlpha(lastChar.value)
      modifies this
      ensures Valid() && html == old(html) && curTok == old(curTok) && tagStr == old(tagStr)
      ensures L.Lex(old(Live())) == L.Lexed(L.Identifier(identifierStr), Live())
    {
      ghost var s := Live();
      identifierStr := [lastChar.value];
      ReadOn();
      assert s == identifierStr + Live();
      while lastChar != None && IsAlnum(lastChar.value)
        invariant Valid() && html == old(html) && curTok == old(curTok) && tagStr == old(tagStr)
        invariant s == identifierStr + Live() && IsName(identifierStr)
        decreases |Live()|
      {
        ghost var live, name := Live(), identifierStr;
        identifierStr := identifierStr + [lastChar.value];
        ReadOn();
        assert live == [live[0]] + Live();
        Assoc(name, [live[0]], Live());
      }
      R.LexName(identifierStr, Live());
    }

    /** The string branch of `gettok`: the loop takes a character before it first looks for the quote. */
    method ScanString() returns (hung: bool)
      requires Valid() && lastChar == Some('"')
      modifies this
      ensures Valid() && html == old(html) && curTok == old(curTok)
      ensures hung <==> L.Lex(old(Live())).Unclosed?
      ensures !hung ==> L.Lex(old(Live())) == L.Lexed(L.Quoted(strVal), Live())
    {
      ghost var s := Live();
      var str := "";
      ReadOn(); // eat "
      assert s == "\"" + str + Live();
      hung := false;
      while str == "" || lastChar != Some('"')
        invariant Valid() && html == old(html) && curTok == old(curTok)
        invariant s == "\"" + str + Live()
        invariant forall i :: 1 <= i < |str| ==> str[i] != '"'
        decreases |Live()|
      {
        if lastChar == None {
          // EOF is not a quote, and reading on stays at EOF: the loop never ends
          assert s == "\"" + str;
          R.LexUnclosed(str);
          return true;
        }
        ghost var live, before := Live(), str;
        str := str + [lastChar.value];
        ReadOn();
        assert live == [live[0]] + Live();
        Assoc("\"" + before, [live[0]], Live());
        Assoc("\"", before, [live[0]]);
      }
      ghost var live := Live();
      ReadOn();
      assert live == "\"" + Live();
      R.LexScanned(str, Live());
      strVal := str;
    }

    /** The tag branch of `gettok`: a name must follow the `<` or `</`. */
    method ScanTag() returns (hung: bool, tok: Tok)
      requires Valid() && lastChar == Some('<')
      modifies this
      ensures Valid() && html == old(html) && curTok == old(curTok)
      ensures hung <==> L.Lex(old(Live())).Unclosed?
      ensures !hung ==> L.Lex(old(Live())) == L.Lexed(TokenOf(tok), Live())
      decreases |Live()|, 0
    {
      ghost var s := Live();
      var isEndTag := false;
      ReadOn(); // eat <
      if lastChar == Some('/') {
        isEndTag := true;
        ReadOn(); // eat /
      }
      R.LexTagged(s, isEndTag, Live());
      hung, tok := ScanTagName(isEndTag);
    }

    /** ... which is read by `gettok` itself. */
    method ScanTagName(isEndTag: bool) returns (hung: bool, tok: Tok)
      requires Valid()
      modifies this
      ensures Valid() && html == old(html) && curTok == old(curTok)
      ensures var r := L.TagToken(isEndTag, L.Lex(old(Live())));
              (hung <==> r.Unclosed?) && (!hung ==> r == L.Lexed(TokenOf(tok), Live()))
      decreases |Live()|, 2
    {
      hung, tok := GetTok();
      if hung {
        return true, TokEof;
      }
      if tok != TokIdentifier {
        return false, TokEof;
      }
      tagStr := identifierStr;
      if isEndTag {
        ReadOn(); // eat >
        return false, TokCloseTag;
      }
      return false, TokBeginTag;
    }

    method GetNextToken() returns (hung: bool)
      requires Valid()
      modifies this
      ensures Valid() && html == old(html)
      ensures hung <==> G.Next(old(Live())).Hang?
      ensures !hung ==> G.Next(old(Live())) == G.Done(Here(), ())
    {
      var tok;
      hung, tok := GetTok();
      curTok := tok;
    }

    /** `map::insert` leaves a key that is already there alone. */
    method InsertAttribute(dom: DOM, key: string, value: string)
      modifies dom`attributes
      ensures dom.attributes == G.Insert(old(dom.attributes), key, value)
    {
      if key !in dom.attributes {
        dom.attributes := dom.attributes[key := value];
      }
    }

    /** One round of the attribute loop of `parseTag`. */
    method ParseAttribute(dom: DOM, tagContentStart: nat) returns (hung: bool, start: nat, wellFormed: bool)
      requires Valid() && curTok == TokIdentifier
      modifies this, dom`attributes
      ensures Valid() && html == old(html)
      ensures var r := G.ParseAttribute(|html|, old(Here()), old(dom.attributes), tagContentStart);
              && (hung <==> r.Hang?)
              && (!hung ==> r == G.Done(Here(), G.Header(dom.attributes, start, wellFormed)))
    {
      start, wellFormed := tagContentStart, false;
      var attributeName := identifierStr;
      hung := GetNextToken(); // eat the key
      if hung {
        return;
      }
      if curTok != TokChar('=') {
        InsertAttribute(dom, attributeName, "true");
        wellFormed := true;
        return;
      }
      hung, start, wellFormed := ParseValue(dom, attributeName, start);
    }

    /** ... and its value, if it has one. */
    method ParseValue(dom: DOM, attributeName: string, tagContentStart: nat) returns (hung: bool, start: nat, wellFormed: bool)
      requires Valid()
      modifies this, dom`attributes
      ensures Valid() && html == old(html)
      ensures var r := G.ParseValue(|html|, old(Here()), attributeName, old(dom.attributes), tagContentStart);
              && (hung <==> r.Hang?)
              && (!hung ==> r == G.Done(Here(), G.Header(dom.attributes, start, wellFormed)))
    {
      start, wellFormed := tagContentStart, false;
      hung := GetNextToken(); // eat =
      if hung || curTok != TokString {
        return;
      }
      InsertAttribute(dom, attributeName, strVal);
      start := curTokIndex;
      hung := GetNextToken(); // eat the value
      wellFormed := true;
    }

    /** The attribute loop of `parseTag`. */
    method ParseAttributes(dom: DOM, tagContentStart: nat) returns (hung: bool, start: nat, wellFormed: bool)
      requires Valid()
      modifies this, dom`attributes
      ensures Valid() && html == old(html)
      ensures var r := G.ParseAttributes(|html|, old(Here()), old(dom.attributes), tagContentStart);
              && (hung <==> r.Hang?)
              && (!hung ==> r == G.Done(Here(), G.Header(dom.attributes, start, wellFormed)))
    {
      start := tagContentStart;
      while curTok != TokChar('>') && curTok != TokEof
        invariant Valid() && html == old(html)
        invariant G.ParseAttributes(|html|, old(Here()), old(dom.attributes), tagContentStart)
               == G.ParseAttributes(|html|, Here(), dom.attributes, start)
        decreases Here().Left()
      {
        if curTok != TokIdentifier {
          return false, start, false;
        }
        hung, start, wellFormed := ParseAttribute(dom, start);
        if hung || !wellFormed {
          return;
        }
      }
      return false, start, true;
    }

    /** `parseTag` up to the content. */
    method ParseHeader(dom: DOM) returns (hung: bool, start: nat, wellFormed: bool)
      requires Valid()
      modifies this, dom`attributes
      ensures Valid() && html == old(html)
      ensures var r := G.ParseHeader(|html|, old(Here()), old(dom.attributes));
              && (hung <==> r.Hang?)
              && (!hung ==> r == G.Done(Here(), G.Header(dom.attributes, start, wellFormed)))
    {
      start, wellFormed := curTokIndex, false;
      hung := GetNextToken(); // eat the name
      if hung {
        return;
      }
      hung, start, wellFormed := ParseAttributes(dom, start);
      if !hung {
        hung, wellFormed := CloseHeader(dom, start, wellFormed);
      }
    }

    /** The `>` behind the attributes. */
    method CloseHeader(dom: DOM, ghost start: nat, attributesOk: bool) returns (hung: bool, wellFormed: bool)
      requires Valid()
      modifies this
      ensures Valid() && html == old(html)
      ensures var r := G.CloseHeader(old(Here()), G.Header(dom.attributes, start, attributesOk));
              && (hung <==> r.Hang?)
              && (!hung ==> r == G.Done(Here(), G.Header(dom.attributes, start, wellFormed)))
    {
      if !attributesOk || curTok != TokChar('>') {
        return false, false;
      }
      hung := GetNextToken(); // eat >
      return hung, true;
    }

    /** The end of `parseTag`: the content is cut out and the children are hung in. */
    method Close(parentName: string, dom: DOM, tagContentStart: nat, child: seq<DOM>) returns (threw: bool)
      requires Valid()
      modifies dom
      ensures dom.name == old(dom.name) && dom.attributes == old(dom.attributes)
      ensures var end := G.Cursor(|html|, Live()) - |parentName| - 4;
              if !(tagContentStart <= end <= |html|) then threw
              else var content := html[tagContentStart..end];
                   !threw && dom.innerHtml == content && dom.children == if child != [] then List(child) else Str(content)
    {
      var tagContentEnd := curTokIndex - |parentName| - 4;
      if tagContentEnd < tagContentStart {
        return true;
      }
      var content := html[tagContentStart..tagContentEnd];
      dom.children := if child != [] then List(child) else Str(content);
      dom.innerHtml := content;
      return false;
    }

    /**
     `parseTag` fills the given element in place.  `shape` and `was` say what it holds before;
     afterwards it holds what the grammar says, its new children being objects of their own.
     */
    method ParseTag(parentName: string, dom: DOM, ghost shape: Shape, ghost was: G.Dom)
      returns (status: Status, ghost filled: Shape)
      requires Valid() && Stands(shape, dom, was)
      modifies this, dom
      ensures Valid() && html == old(html)
      ensures var r := G.ParseTag(html, old(Here()), parentName, was);
              match status
              case Hanging => r.Hang?
              case Threw => r.LengthError?
              case Finished =>
                && r.Done? && r.at == Here() && Stands(filled, dom, r.value)
                && (filled == shape || forall o :: o in Objects(filled) && o != dom ==> fresh(o))
      decreases Here().Left(), 0
    {
      filled := shape;
      if curTok != TokBeginTag {
        return Finished, filled;
      }
      ghost var inner := AllObjects(shape.kids);
      NodeHoldsAmong(dom.children, shape.kids, was.children, Objects(shape));
      assert NodeHolds(dom.children, shape.kids, was.children, inner);
      var hung, tagContentStart, wellFormed := ParseHeader(dom);
      if hung {
        return Hanging, filled;
      }
      if !wellFormed {
        assert NodeHolds(dom.children, shape.kids, was.children, inner);
        NodeHoldsAmong(dom.children, shape.kids, was.children, Objects(shape));
        return Finished, filled;
      }
      status, filled := FillContent(parentName, dom, tagContentStart, was.(attributes := dom.attributes));
    }

    /** `parseTag` behind the `>`: content, close tag and slice. */
    method FillContent(parentName: string, dom: DOM, tagContentStart: nat, ghost was: G.Dom)
      returns (status: Status, ghost filled: Shape)
      requires Valid() && dom.name == was.name && dom.attributes == was.attributes
      modifies this, dom
      ensures Valid() && html == old(html)
      ensures var r := G.ParseContent(html, old(Here()), parentName, []);
              if r.Done? then
                var closed := G.Close(html, r.at, parentName, was, tagContentStart, r.value);
                if closed.Done? then
                  status == Finished && r.at == Here() && Stands(filled, dom, closed.value)
                  && forall o :: o in Objects(filled) && o != dom ==> fresh(o)
                else status == Threw
              else status == if r.Hang? then Hanging else Threw
      decreases Here().Left(), 3
    {
      filled := Shape(dom, []);
      var child;
      ghost var kids, values;
      status, child, kids, values := ParseContent(parentName);
      if status != Finished {
        return;
      }
      ghost var objs := AllObjects(kids);
      assert AllHold(kids, values, objs);
      var threw := Close(parentName, dom, tagContentStart, child);
      if threw {
        return Threw, filled;
      }
      assert AllHold(kids, values, objs);
      filled := Shape(dom, kids);
      HangIn(dom, kids, values, G.Close(html, Here(), parentName, was, tagContentStart, values).value);
    }

    /** The content loop of `parseTag`. */
    method ParseContent(parentName: string)
      returns (status: Status, child: seq<DOM>, ghost kids: seq<Shape>, ghost values: seq<G.Dom>)
      requires Valid()
      modifies this
      ensures Valid() && html == old(html)
      ensures var r := G.ParseContent(html, old(Here()), parentName, []);
              match status
              case Hanging => r.Hang?
              case Threw => r.LengthError?
              case Finished =>
                r == G.Done(Here(), values) && AllStand(kids, child, values) && fresh(AllObjects(kids))
      decreases Here().Left(), 2
    {
      hide G.ParseTag, L.Lex, Stands;
      child, kids, values := [], [], [];
      ghost var objs: set<DOM> := {};
      while curTok != TokEof && !(curTok == TokCloseTag && tagStr == parentName)
        invariant Valid() && html == old(html) && Here().Left() <= old(Here().Left())
        invariant G.ParseContent(html, old(Here()), parentName, []) == G.ParseContent(html, Here(), parentName, values)
        invariant objs == AllObjects(kids) && fresh(objs)
        invariant child == Doms(kids) && IsForest(kids) && AllHold(kids, values, objs)
        decreases Here().Left()
      {
        if curTok == TokBeginTag && parentName != "script" {
          var dom;
          ghost var kid, value;
          status, dom, kid, value := ParseChild();
          if status != Finished {
            return;
          }
          assert AllHold(kids, values, objs);
          AppendChild(kids, child, values, kid, value);
          child, kids, values := child + [dom], kids + [kid], values + [value];
          objs := objs + Objects(kid);
        } else {
          var hung := GetNextToken();
          assert AllHold(kids, values, objs);
          if hung {
            return Hanging, child, kids, values;
          }
        }
      }
      return Finished, child, kids, values;
    }

    /** An element of the content: it is parsed into an object of its own and its close tag eaten. */
    method ParseChild() returns (status: Status, dom: DOM, ghost kid: Shape, ghost value: G.Dom)
      requires Valid() && curTok == TokBeginTag
      modifies this
      ensures Valid() && html == old(html)
      ensures var p := old(Here());
              var r := G.ParseTag(html, p, p.cur.tag, G.NewDom(p.cur.tag));
              match status
              case Hanging => r.Hang? || (r.Done? && G.Next(r.at.rest).Hang?)
              case Threw => r.LengthError?
              case Finished =>
                && r.Done? && value == r.value && G.Next(r.at.rest) == G.Done(Here(), ())
                && Stands(kid, dom, value) && fresh(Objects(kid))
      decreases Here().Left(), 1
    {
      dom := new DOM(tagStr);
      kid, value := Shape(dom, []), G.NewDom(tagStr);
      ghost var p := Here();
      status, kid := ParseTag(tagStr, dom, kid, value);
      if status == Finished {
        ghost var objs := Objects(kid);
        value := G.ParseTag(html, p, p.cur.tag, value).value;
        assert Holds(kid, value, objs);
        var hung := GetNextToken(); // eat the close tag
        assert Holds(kid, value, objs);
        if hung {
          status := Hanging;
        }
      }
    }

    /** `initHtml`, the new source, and the cursor at its start: nothing of the earlier state is left. */
    method Load(source: string)
      modifies this
      ensures Valid() && html == source && Live() == " " + source
    {
      InitHtml();
      html := source;
      hit := 0;
    }

    /** `parseHtml`, from whatever state earlier parses left behind. */
    method ParseHtml(content: string) returns (status: Status, root: DOM?, ghost shape: Option<Shape>)
      modifies this
      ensures match G.ParseHtml(content)
              case Hang => status == Hanging
              case LengthError => status == Threw
              case Done(at, None) => status == Finished && root == null
              case Done(at, Some(v)) =>
                && status == Finished && root != null && shape.Some? && Stands(shape.value, root, v)
                && fresh(Objects(shape.value))
    {
      hide G.ParseTag, L.Lex;
      Load(content);
      root, shape := null, None;
      var hung := GetNextToken(); // eat <html
      if hung {
        return Hanging, root, shape;
      }
      if curTok == TokBeginTag && tagStr == "html" {
        var dom := new DOM("html");
        ghost var s := Shape(dom, []);
        ghost var v := G.ParseTag(html, Here(), "html", G.NewDom("html"));
        status, s := ParseTag("html", dom, s, G.NewDom("html"));
        if status != Finished {
          return;
        }
        ghost var objs := Objects(s);
        assert Holds(s, v.value, objs);
        hung := GetNextToken();
        assert Holds(s, v.value, objs);
        return if hung then Hanging else Finished, dom, Some(s);
      }
      return Finished, root, shape;
    }

    /** `parseHtmlToDOM`: the children of an element already in a tree are replaced. */
    method ParseHtmlToDOM(content: string, dom: DOM, ghost shape: Shape, ghost was: G.Dom)
      returns (status: Status, ghost filled: Shape)
      requires Stands(shape, dom, was)
      modifies this, dom
      ensures match G.ParseFragment(content, was)
              case Hang => status == Hanging
              case LengthError => status == Threw
              case Done(at, v) =>
                && status == Finished && Stands(filled, dom, v)
                && (filled == shape || forall o :: o in Objects(filled) && o != dom ==> fresh(o))
    {
      filled := shape;
      ghost var objs := Objects(shape);
      assert Holds(shape, was, objs);
      Load("<wrapper>" + content + "</wrapper>");
      var hung := GetNextToken();
      assert Holds(shape, was, objs);
      if hung {
        return Hanging, filled;
      }
      ghost var v := G.ParseTag(html, Here(), "wrapper", was);
      status, filled := ParseTag("wrapper", dom, shape, was);
      if status != Finished {
        return;
      }
      objs := Objects(filled);
      assert Holds(filled, v.value, objs);
      hung := GetNextToken();
      assert Holds(filled, v.value, objs);
      status := if hung then Hanging else Finished;
    }
  }
}
