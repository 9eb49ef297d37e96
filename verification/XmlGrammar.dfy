/**
 parser/xmlParser.cpp as functions of its live text, the lookahead character followed by the
 characters `getchar` has not delivered yet.
 */
module XmlGrammar {
  import opened Chars

  datatype Token = Eof | Identifier(name: string) | BeginTag(tag: string) | CloseTag(tag: string) | Ch(c: char)

  /** `Thrown` is the exception "xml is error". */
  datatype Lexed = Thrown | Lexed(token: Token, rest: string)

  function Lex(text: string): (r: Lexed)
    ensures r.Lexed? ==> |r.rest| <= |text|
    ensures r.Lexed? && r.token != Eof ==> |r.rest| < |text|
    decreases |text|
  {
    var s := SkipSpace(text);
    if s == "" then
      Lexed(Eof, "")
    else if IsAlpha(s[0]) then
      var n := AlnumPrefix(s);
      Lexed(Identifier(s[..n]), s[n..])
    else if s[0] == '<' then
      LexTag(s)
    else
      Lexed(Ch(s[0]), s[1..])
  }

  /** A tag of either kind: a name must follow, and the character behind the name is eaten unseen. */
  function LexTag(s: string): (r: Lexed)
    requires s != "" && s[0] == '<'
    ensures r.Lexed? ==> |r.rest| < |s|
    decreases |s|, 0
  {
    var isEndTag := |s| > 1 && s[1] == '/';
    match Lex(if isEndTag then s[2..] else s[1..])
    case Lexed(Identifier(name), rest) =>
      Lexed(if isEndTag then CloseTag(name) else BeginTag(name), Advance(rest))
    case _ => Thrown
  }

  /** `Node`: a text, or the named children in order. */
  datatype Node = Str(strVal: string) | List(list: seq<Entry>)

  datatype Entry = Entry(key: string, node: Node)

  /** Current token, the register TagStr, and the live text. */
  datatype Point = Point(cur: Token, tagStr: string, rest: string) {
    function Left(): nat { |rest| + if cur == Eof then 0 else 1 }
  }

  datatype Outcome<+T> = Error | Done(at: Point, value: T) {
    predicate IsFailure() { Error? }

    function PropagateFailure<U>(): Outcome<U>
      requires IsFailure()
    {
      Error
    }

    function Extract(): (Point, T)
      requires !IsFailure()
    {
      (at, value)
    }
  }

  function Next(rest: string, tagStr: string): (r: Outcome<()>)
    ensures r.Done? ==> r.at.Left() <= |rest|
  {
    match Lex(rest)
    case Thrown => Error
    case Lexed(token, after) =>
      Done(Point(token, if token.BeginTag? || token.CloseTag? then token.tag else tagStr, after), ())
  }

  /** A name is set off by a blank unless it comes first; any other character is glued on. */
  function AddName(strVal: string, name: string): string {
    if strVal != "" then strVal + " " + name else name
  }

  function ParseXml(p: Point, parentName: string): (r: Outcome<Node>)
    requires p.cur.BeginTag?
    ensures r.Done? ==> |r.at.rest| <= |p.rest| && r.at.Left() < p.Left()
    decreases p.Left(), 0
  {
    var (p1, _) :- Next(p.rest, p.tagStr);
    ParseContent(p1, parentName, "", [])
  }

  function ParseContent(p: Point, parentName: string, strVal: string, child: seq<Entry>): (r: Outcome<Node>)
    ensures r.Done? ==> r.at.Left() <= p.Left() && |r.at.rest| <= |p.rest|
    decreases p.Left(), 1
  {
    match p.cur
    case Eof => Done(p, Finish(strVal, child))
    case BeginTag(tag) =>
      var (p1, node) :- ParseXml(p, tag);
      ParseContent(p1, parentName, strVal, child + [Entry(p1.tagStr, node)])
    case CloseTag(tag) =>
      if tag == parentName then
        Done(p, Finish(strVal, child))
      else
        var (p1, _) :- Next(p.rest, p.tagStr);
        ParseContent(p1, parentName, strVal, child)
    case Identifier(name) =>
      var (p1, _) :- Next(p.rest, p.tagStr);
      ParseContent(p1, parentName, AddName(strVal, name), child)
    case Ch(c) =>
      var (p1, _) :- Next(p.rest, p.tagStr);
      ParseContent(p1, parentName, strVal + [c], child)
  }

  /** Text counts only in an element without children. */
  function Finish(strVal: string, child: seq<Entry>): Node {
    if child == [] then Str(strVal) else List(child)
  }

  /** `main`: the root must be an xml element. */
  function ParseDocument(src: string): Outcome<Option<Node>> {
    var (p, _) :- Next(" " + src, "");
    if p.cur == BeginTag("xml") then
      var (p1, root) :- ParseXml(p, "xml");
      var (p2, _) :- Next(p1.rest, p1.tagStr);
      Done(p2, Some(root))
    else
      Done(p, None)
  }
}
