/**
 parser/xmlParser.cpp as it runs: the file-scope variables are fields, standard input is a string
 that `getchar` delivers one character at a time, the loops are loops.
 */
module XmlMachine {
  import opened Chars
  import G = XmlGrammar
  import R = XmlRoundTrip

  datatype Tok = TokEof | TokIdentifier | TokBeginTag | TokCloseTag | TokChar(c: char)

  /** What the tag branch makes of the token behind the `<` or `</`. */
  lemma TagLexes(s: string)
    requires s != "" && s[0] == '<'
    ensures G.Lex(s)
         == var isEndTag := |s| > 1 && s[1] == '/';
            match G.Lex(if isEndTag then s[2..] else s[1..])
            case Lexed(Identifier(name), rest) =>
              G.Lexed(if isEndTag then G.CloseTag(name) else G.BeginTag(name), Advance(rest))
            case _ => G.Thrown
  {}

  class XmlParser {
    var input: string      // what getchar has not delivered yet
    var identifierStr: string
    var tagStr: string
    var lastChar: Option<char>  // None is EOF
    var curTok: Tok

    ghost predicate Valid()
      reads this
    {
      lastChar == None ==> input == ""
    }

    ghost function Live(): (s: string)
      requires Valid()
      reads this
      ensures lastChar == None ==> s == ""
      ensures lastChar != None ==> s != "" && s[0] == lastChar.value
    {
      (if lastChar == None then [] else [lastChar.value]) + input
    }

    ghost function TokenOf(t: Tok): G.Token
      reads this
    {
      match t
      case TokEof => G.Eof
      case TokIdentifier => G.Identifier(identifierStr)
      case TokBeginTag => G.BeginTag(tagStr)
      case TokCloseTag => G.CloseTag(tagStr)
      case TokChar(c) => G.Ch(c)
    }

    ghost function Here(): G.Point
      requires Valid()
      reads this
    {
      G.Point(TokenOf(curTok), tagStr, Live())
    }

    constructor (source: string)
      ensures Valid() && Live() == " " + source && tagStr == ""
    {
      input := source;
      identifierStr, tagStr := "", "";
      lastChar, curTok := Some(' '), TokEof;
    }

    method GetChar() returns (c: Option<char>)
      modifies this`input
      ensures old(input) == "" ==> c == None && input == ""
      ensures old(input) != "" ==> c == Some(old(input)[0]) && input == old(input)[1..]
    {
      if input == "" {
        return None;
      }
      c := Some(input[0]);
      input := input[1..];
    }

    /** `LastChar = getchar()`. */
    method ReadOn()
      requires Valid()
      modifies this`input, this`lastChar
      ensures Valid() && Live() == Advance(old(Live()))
    {
      lastChar := GetChar();
    }

    method GetTok() returns (threw: bool, tok: Tok)
      requires Valid()
      modifies this
      ensures Valid() && curTok == old(curTok)
      ensures threw <==> G.Lex(old(Live())).Thrown?
      ensures !threw ==> G.Lex(old(Live())) == G.Lexed(TokenOf(tok), Live())
      ensures !threw && tok != TokBeginTag && tok != TokCloseTag ==> tagStr == old(tagStr)
      decreases |Live()|, 1
    {
      SkipSpaces();
      if lastChar != None && IsAlpha(lastChar.value) {
        ScanIdentifier();
        return false, TokIdentifier;
      }
      if lastChar == Some('<') {
        threw, tok := ScanTag();
        return threw, tok;
      }
      if lastChar == None {
        return false, TokEof;
      }
      tok := TokChar(lastChar.value);
      ReadOn();
      return false, tok;
    }

    method SkipSpaces()
      requires Valid()
      modifies this`input, this`lastChar
      ensures Valid() && G.Lex(Live()) == G.Lex(old(Live())) && |Live()| <= |old(Live())|
      ensures lastChar == None || !IsSpace(lastChar.value)
    {
      while lastChar != None && IsSpace(lastChar.value)
        invariant Valid() && G.Lex(Live()) == G.Lex(old(Live())) && |Live()| <= |old(Live())|
        decreases |Live()|
      {
        ghost var live := Live();
        ReadOn();
        R.LexSpace(live[0], Live());
        assert live == [live[0]] + Live();
      }
    }

    /** The identifier branch of `gettok`. */
    method ScanIdentifier()
      requires Valid() && lastChar != None && IsAlpha(lastChar.value)
      modifies this`input, this`lastChar, this`identifierStr
      ensures Valid() && G.Lex(old(Live())) == G.Lexed(G.Identifier(identifierStr), Live())
    {
      ghost var s := Live();
      identifierStr := [lastChar.value];
      ReadOn();
      assert s == identifierStr + Live();
      while lastChar != None && IsAlnum(lastChar.value)
        invariant Valid() && s == identifierStr + Live() && IsName(identifierStr)
        decreases |Live()|
      {
        ghost var live, name := Live(), identifierStr;
        identifierStr := identifierStr + [lastChar.value];
        ReadOn();
        assert live == [live[0]] + Live();
        Assoc(name, [live[0]], Live());
      }
      R.LexName(identifierStr, Live());
    }

    /** The tag branch of `gettok`: no name behind the `<` is the error. */
    method ScanTag() returns (threw: bool, tok: Tok)
      requires Valid() && lastChar == Some('<')
      modifies this
      ensures Valid() && curTok == old(curTok)
      ensures threw <==> G.Lex(old(Live())).Thrown?
      ensures !threw ==> G.Lex(old(Live())) == G.Lexed(TokenOf(tok), Live())
      ensures !threw ==> tok == TokBeginTag || tok == TokCloseTag
      decreases |Live()|, 0
    {
      ghost var s := Live();
      var isEndTag := false;
      TagLexes(s);
      hide G.Lex, G.LexTag;
      ReadOn(); // eat <
      if lastChar == Some('/') {
        isEndTag := true;
        ReadOn(); // eat /
      }
      assert Live() == if isEndTag then s[2..] else s[1..];
      threw, tok := GetTok();
      if threw || tok != TokIdentifier {
        return true, TokEof;
      }
      tagStr := identifierStr;
      ReadOn(); // eat >
      return false, if isEndTag then TokCloseTag else TokBeginTag;
    }

    method GetNextToken() returns (threw: bool)
      requires Valid()
      modifies this
      ensures Valid()
      ensures threw <==> G.Next(old(Live()), old(tagStr)).Error?
      ensures !threw ==> G.Next(old(Live()), old(tagStr)) == G.Done(Here(), ())
    {
      var tok;
      threw, tok := GetTok();
      curTok := tok;
    }

    /** `parseXml` leaves the close tag it stopped on as current token. */
    method ParseXml(parentName: string) returns (threw: bool, slot: G.Node)
      requires Valid() && curTok == TokBeginTag
      modifies this
      ensures Valid()
      ensures var r := G.ParseXml(old(Here()), parentName);
              if threw then r.Error? else r == G.Done(Here(), slot)
      decreases Here().Left()
    {
      slot := G.Str("");
      ghost var start := Here();
      threw := GetNextToken(); // eat the begin tag
      if threw {
        return;
      }
      var strVal := "";
      var child: seq<G.Entry> := [];
      while curTok != TokEof && !(curTok == TokCloseTag && tagStr == parentName)
        invariant Valid() && Here().Left() < start.Left()
        invariant G.ParseXml(start, parentName) == G.ParseContent(Here(), parentName, strVal, child)
        decreases Here().Left()
      {
        ghost var p, s := Here(), strVal;
        if curTok == TokBeginTag {
          var node;
          threw, node := ParseXml(tagStr);
          if threw {
            return;
          }
          child := child + [G.Entry(tagStr, node)];
        } else {
          if curTok == TokIdentifier {
            if strVal != "" {
              strVal := strVal + " ";
            }
            strVal := strVal + identifierStr;
          } else if curTok != TokCloseTag {
            strVal := strVal + [curTok.c];
          }
          assert curTok == TokIdentifier ==> strVal == G.AddName(s, p.cur.name);
          threw := GetNextToken();
          if threw {
            return;
          }
        }
      }
      slot := if |child| == 0 then G.Str(strVal) else G.List(child);
    }
  }

  /** `main`, up to the printing: the root must be an xml element. */
  method ParseDocument(source: string) returns (threw: bool, root: Option<G.Node>)
    ensures match G.ParseDocument(source)
            case Error => threw
            case Done(_, value) => !threw && root == value
  {
    var parser := new XmlParser(source);
    root := None;
    threw := parser.GetNextToken(); // eat <xml>
    if threw {
      return;
    }
    if parser.curTok == TokBeginTag && parser.tagStr == "xml" {
      var node;
      threw, node := parser.ParseXml("xml");
      if threw {
        return;
      }
      threw := parser.GetNextToken(); // eat </xml>
      root := Some(node);
    }
  }
}
