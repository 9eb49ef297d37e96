/**
 The recursive descent of parser/htmlParser.cpp as functions on the live text: what each
 call of `parseTag` leaves as current token, as live text and in the element it fills.
 */
module HtmlGrammar {
  import opened Chars
  import opened HtmlLexer

  /** An element as the parser leaves it; `Unset` is a child slot no statement has reached. */
  datatype Dom = Dom(name: string, attributes: map<string, string>, innerHtml: string, children: Children)

  datatype Children = Unset | Text(strVal: string) | Elements(list: seq<Dom>)

  function NewDom(name: string): Dom { Dom(name, map[], "", Unset) }

  /** The current token and the live text behind it. */
  datatype Point = Point(cur: Token, rest: string) {
    /** The measure every step of the parser works off: characters left plus the token in hand. */
    function Left(): nat { |rest| + if cur == Eof then 0 else 1 }
  }

  /**
   How a parse ends: never (an unclosed string), with the exception of a slice of negative
   length, or with a current token, a live text and a value.
   */
  datatype Outcome<+T> = Hang | LengthError | Done(at: Point, value: T) {
    predicate IsFailure() { !Done? }

    function PropagateFailure<U>(): Outcome<U>
      requires IsFailure()
    {
      if Hang? then Hang else LengthError
    }

    function Extract(): (Point, T)
      requires !IsFailure()
    {
      (at, value)
    }
  }

  function Next(rest: string): (r: Outcome<()>)
    ensures !r.LengthError?
    ensures r.Done? ==> r.at.Left() <= |rest|
  {
    match Lex(rest)
    case Unclosed => Hang
    case Lexed(token, after) => Done(Point(token, after), ())
  }

  /** The cursor `curTokIndex` when `rest` is live in a source of n characters. */
  function Cursor(n: nat, rest: string): int {
    if rest == "" then n else n - |rest| + 1
  }

  /** `map::insert`: a key that is already there keeps its value. */
  function Insert(m: map<string, string>, key: string, value: string): map<string, string> {
    if key in m then m else m[key := value]
  }

  /** What the attribute loop hands on: the attributes, the content start, and whether it saw an error. */
  datatype Header = Header(attributes: map<string, string>, start: int, wellFormed: bool)

  /** One round of the attribute loop, at a key. */
  function ParseAttribute(n: nat, p: Point, attributes: map<string, string>, start: int): (r: Outcome<Header>)
    requires p.cur.Identifier?
    ensures !r.LengthError?
    ensures r.Done? ==> r.at.Left() <= |p.rest|
  {
    var (p1, _) :- Next(p.rest);
    if p1.cur != Ch('=') then
      Done(p1, Header(Insert(attributes, p.cur.name, "true"), start, true))
    else
      ParseValue(n, p1, p.cur.name, attributes, start)
  }

  /** The value of an attribute, from its equals sign on. */
  function ParseValue(n: nat, p: Point, key: string, attributes: map<string, string>, start: int): (r: Outcome<Header>)
    ensures !r.LengthError?
    ensures r.Done? ==> r.at.Left() <= |p.rest|
  {
    var (p1, _) :- Next(p.rest);
    if !p1.cur.Quoted? then
      Done(p1, Header(attributes, start, false))
    else
      var (p2, _) :- Next(p1.rest);
      Done(p2, Header(Insert(attributes, key, p1.cur.value), Cursor(n, p1.rest), true))
  }

  function ParseAttributes(n: nat, p: Point, attributes: map<string, string>, start: int): (r: Outcome<Header>)
    ensures !r.LengthError?
    ensures r.Done? ==> |r.at.rest| <= |p.rest|
    decreases p.Left()
  {
    if p.cur == Ch('>') || p.cur == Eof then
      Done(p, Header(attributes, start, true))
    else if !p.cur.Identifier? then
      Done(p, Header(attributes, start, false))
    else
      var (p1, header) :- ParseAttribute(n, p, attributes, start);
      if header.wellFormed then ParseAttributes(n, p1, header.attributes, header.start) else Done(p1, header)
  }

  /** `parseTag` up to the content: name, attributes and `>`. */
  function ParseHeader(n: nat, p: Point, attributes: map<string, string>): (r: Outcome<Header>)
    ensures !r.LengthError?
    ensures r.Done? ==> r.at.Left() <= |p.rest| || !r.value.wellFormed
    ensures r.Done? ==> |r.at.rest| <= |p.rest|
  {
    var (p1, _) :- Next(p.rest);
    var (p2, header) :- ParseAttributes(n, p1, attributes, Cursor(n, p.rest));
    CloseHeader(p2, header)
  }

  /** Behind the attributes the `>` is due. */
  function CloseHeader(p: Point, header: Header): (r: Outcome<Header>)
    ensures !r.LengthError?
    ensures r.Done? ==> |r.at.rest| <= |p.rest| && (r.at.Left() <= |p.rest| || !r.value.wellFormed)
  {
    if !header.wellFormed || p.cur != Ch('>') then
      Done(p, header.(wellFormed := false))
    else
      var (p1, _) :- Next(p.rest);
      Done(p1, header)
  }

  function ParseTag(src: string, p: Point, parentName: string, dom: Dom): (r: Outcome<Dom>)
    ensures r.Done? ==> |r.at.rest| <= |p.rest|
    decreases p.Left(), 0
  {
    if !p.cur.BeginTag? then
      Done(p, dom)
    else
      var (p1, header) :- ParseHeader(|src|, p, dom.attributes);
      var tagged := dom.(attributes := header.attributes);
      if !header.wellFormed then
        Done(p1, tagged)
      else
        var (p2, kids) :- ParseContent(src, p1, parentName, []);
        Close(src, p2, parentName, tagged, header.start, kids)
  }

  /** The last statements of `parseTag`: the content is cut out of the source between the two cursors. */
  function Close(src: string, p: Point, parentName: string, dom: Dom, start: int, kids: seq<Dom>): (r: Outcome<Dom>)
    ensures r.Done? ==> r.at == p
  {
    var end := Cursor(|src|, p.rest) - |parentName| - 4;
    if !(0 <= start <= end <= |src|) then
      LengthError
    else
      var content := src[start..end];
      Done(p, dom.(innerHtml := content, children := if kids != [] then Elements(kids) else Text(content)))
  }

  function ParseContent(src: string, p: Point, parentName: string, kids: seq<Dom>): (r: Outcome<seq<Dom>>)
    ensures r.Done? ==> |r.at.rest| <= |p.rest|
    decreases p.Left(), 1
  {
    if p.cur == Eof || p.cur == CloseTag(parentName) then
      Done(p, kids)
    else if p.cur.BeginTag? && parentName != "script" then
      var (p1, kid) :- ParseTag(src, p, p.cur.tag, NewDom(p.cur.tag));
      var (p2, _) :- Next(p1.rest);
      ParseContent(src, p2, parentName, kids + [kid])
    else
      var (p1, _) :- Next(p.rest);
      ParseContent(src, p1, parentName, kids)
  }

  /** `parseHtml`: nothing when the source does not open with an html tag. */
  function ParseHtml(src: string): Outcome<Option<Dom>> {
    var (p, _) :- Next(" " + src);
    if p.cur == BeginTag("html") then
      var (p1, root) :- ParseTag(src, p, "html", NewDom("html"));
      var (p2, _) :- Next(p1.rest);
      Done(p2, Some(root))
    else
      Done(p, None)
  }

  /** `parseHtmlToDOM`: the fragment is wrapped in a tag of its own and parsed into the given element. */
  function ParseFragment(content: string, dom: Dom): Outcome<Dom> {
    ParseInto("<wrapper>" + content + "</wrapper>", "wrapper", dom)
  }

  function ParseInto(src: string, name: string, dom: Dom): Outcome<Dom> {
    var (p, _) :- Next(" " + src);
    var (p1, filled) :- ParseTag(src, p, name, dom);
    var (p2, _) :- Next(p1.rest);
    Done(p2, filled)
  }
}
