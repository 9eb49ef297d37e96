/**
 When the HTML parser fails to end.  Every function of HtmlGrammar ends by the measure
 `Point.Left`; the one loop of the program that need not end is the string scan.
 */
module HtmlTermination {
  import opened Chars
  import opened HtmlLexer
  import opened HtmlGrammar

  /** From a quote at q no closing quote is in reach: the scan skips one character before it looks. */
  predicate Unmatched(s: string, q: int) {
    0 <= q < |s| && s[q] == '"' && forall i :: q + 2 <= i < |s| ==> s[i] != '"'
  }

  /** The next token scan of s opens a string at q: only white space and tag openings stand before it. */
  predicate OpensAt(s: string, q: int)
    decreases |s|
  {
    if s == "" then false
    else if IsSpace(s[0]) then OpensAt(s[1..], q - 1)
    else if s[0] == '"' then q == 0
    else if s[0] == '<' then
      if |s| > 1 && s[1] == '/' then OpensAt(s[2..], q - 2) else OpensAt(s[1..], q - 1)
    else false
  }

  /** A token scan fails to end exactly when it opens a string that nothing closes. */
  lemma {:induction false} UnclosedIff(s: string)
    ensures Lex(s).Unclosed? <==> exists q :: OpensAt(s, q) && Unmatched(s, q)
    decreases |s|
  {
    if s == "" {
    } else if IsSpace(s[0]) {
      UnclosedShift(s, 1);
    } else if s[0] == '"' {
      assert OpensAt(s, 0);
      assert Lex(s).Unclosed? <==> Unmatched(s, 0);
    } else if s[0] == '<' {
      UnclosedShift(s, if |s| > 1 && s[1] == '/' then 2 else 1);
    }
  }

  lemma {:induction false} UnclosedShift(s: string, n: nat)
    requires 0 < n <= |s|
    ensures Lex(s[n..]).Unclosed? <==> exists q :: OpensAt(s[n..], q - n) && Unmatched(s, q)
    decreases |s|, 0
  {
    var rest := s[n..];
    UnclosedIff(rest);
    forall q ensures OpensAt(rest, q - n) && Unmatched(s, q) <==> OpensAt(rest, q - n) && Unmatched(rest, q - n) {
      OpensInside(rest, q - n);
      UnmatchedShift(s, n, q);
    }
    if Lex(rest).Unclosed? {
      var q :| OpensAt(rest, q) && Unmatched(rest, q);
      OpensInside(rest, q);
      UnmatchedShift(s, n, q + n);
      assert q == (q + n) - n;
      assert OpensAt(rest, (q + n) - n) && Unmatched(s, q + n);
    }
  }

  lemma OpensInside(s: string, q: int)
    ensures OpensAt(s, q) ==> 0 <= q < |s| && s[q] == '"'
    decreases |s|
  {
    if s == "" {
    } else if IsSpace(s[0]) || (s[0] == '<' && !(|s| > 1 && s[1] == '/')) {
      OpensInside(s[1..], q - 1);
    } else if s[0] == '<' {
      OpensInside(s[2..], q - 2);
    }
  }

  lemma UnmatchedShift(s: string, n: nat, q: int)
    requires n <= |s|
    ensures n <= q ==> (Unmatched(s, q) <==> Unmatched(s[n..], q - n))
    ensures q < n ==> !Unmatched(s[n..], q - n)
  {
    var rest := s[n..];
    assert forall i :: 0 <= i < |rest| ==> rest[i] == s[i + n];
    if Unmatched(rest, q - n) {
      assert forall i :: q + 2 <= i < |s| ==> s[i] == rest[i - n];
    }
  }

  // ---------- the scans of a parse ----------

  /** Reading on, token after token, some scan is never closed. */
  predicate StreamHangs(s: string)
    decreases |s|
  {
    match Lex(s)
    case Unclosed => true
    case Lexed(_, rest) => |rest| < |s| && StreamHangs(rest)
  }

  /** A token that is followed by anything takes at least one character. */
  lemma LexShortens(s: string)
    ensures Lex(s).Lexed? && Lex(s).rest != "" ==> |Lex(s).rest| < |s|
  {
    if SkipSpace(s) == "" {
      assert Lex(s).rest == "";
    }
  }

  // For each function of the grammar the live texts at which it starts a token scan, in order.

  function ValueScans(p: Point): seq<string> {
    [p.rest] + match Next(p.rest)
               case Done(p1, _) => if p1.cur.Quoted? then [p1.rest] else []
               case _ => []
  }

  function AttributeScans(p: Point): seq<string> {
    [p.rest] + match Next(p.rest)
               case Done(p1, _) => if p1.cur == Ch('=') then ValueScans(p1) else []
               case _ => []
  }

  function AttributesScans(n: nat, p: Point, attributes: map<string, string>, start: int): seq<string>
    decreases p.Left()
  {
    if !p.cur.Identifier? then []
    else
      AttributeScans(p) + match ParseAttribute(n, p, attributes, start)
                          case Done(p1, h) => if h.wellFormed then AttributesScans(n, p1, h.attributes, h.start) else []
                          case _ => []
  }

  function HeaderScans(n: nat, p: Point, attributes: map<string, string>): seq<string> {
    [p.rest] + match Next(p.rest)
               case Done(p1, _) =>
                 AttributesScans(n, p1, attributes, Cursor(n, p.rest))
                 + (match ParseAttributes(n, p1, attributes, Cursor(n, p.rest))
                    case Done(p2, h) => if h.wellFormed && p2.cur == Ch('>') then [p2.rest] else []
                    case _ => [])
               case _ => []
  }

  function TagScans(src: string, p: Point, parentName: string, dom: Dom): seq<string>
    decreases p.Left(), 0
  {
    if !p.cur.BeginTag? then []
    else
      HeaderScans(|src|, p, dom.attributes) + match ParseHeader(|src|, p, dom.attributes)
                                              case Done(p1, h) => if h.wellFormed then ContentScans(src, p1, parentName, []) else []
                                              case _ => []
  }

  function ContentScans(src: string, p: Point, parentName: string, kids: seq<Dom>): seq<string>
    decreases p.Left(), 1
  {
    if p.cur == Eof || p.cur == CloseTag(parentName) then []
    else if p.cur.BeginTag? && parentName != "script" then
      TagScans(src, p, p.cur.tag, NewDom(p.cur.tag))
      + match ParseTag(src, p, p.cur.tag, NewDom(p.cur.tag))
        case Done(p1, kid) => RestScans(src, p1.rest, parentName, kids + [kid])
        case _ => []
    else RestScans(src, p.rest, parentName, kids)
  }

  /** The content loop entered at the next token. */
  function RestScans(src: string, rest: string, parentName: string, kids: seq<Dom>): seq<string>
    decreases |rest|, 2
  {
    [rest] + match Next(rest)
             case Done(p, _) => ContentScans(src, p, parentName, kids)
             case _ => []
  }

  function HtmlScans(src: string): seq<string> {
    [" " + src] + match Next(" " + src)
                  case Done(p, _) =>
                    if p.cur != BeginTag("html") then []
                    else
                      TagScans(src, p, "html", NewDom("html")) + (match ParseTag(src, p, "html", NewDom("html"))
                                                                  case Done(p1, _) => [p1.rest]
                                                                  case _ => [])
                  case _ => []
  }

  // ---------- whole parses ----------

  /**
   A call that starts these scans at live text rest and ends so: each scan starts where the one
   before it stopped, the call hangs in the last one if and only if that is not closed, and
   otherwise leaves the live text behind it.
   */
  ghost predicate Reads<T>(scans: seq<string>, rest: string, r: Outcome<T>)
    decreases |scans|
  {
    if scans == [] then !r.Hang? && (r.Done? ==> r.at.rest == rest)
    else
      && scans[0] == rest
      && match Lex(rest)
         case Unclosed => |scans| == 1 && r.Hang?
         case Lexed(_, after) => Reads(scans[1..], after, r)
  }

  lemma {:induction false} ReadsOn<T, U>(a: seq<string>, rest: string, r1: Outcome<T>, b: seq<string>, r2: Outcome<U>)
    requires Reads(a, rest, r1)
    requires if r1.Done? then Reads(b, r1.at.rest, r2) else b == [] && !r2.Done? && (r1.Hang? <==> r2.Hang?)
    ensures Reads(a + b, rest, r2)
    decreases |a|
  {
    if a == [] {
      assert a + b == b;
    } else {
      assert (a + b)[1..] == a[1..] + b;
      match Lex(rest)
      case Unclosed =>
        assert a + b == a;
      case Lexed(_, after) =>
        ReadsOn(a[1..], after, r1, b, r2);
    }
  }

  lemma NextReads(rest: string)
    ensures Reads([rest], rest, Next(rest))
  {}

  lemma ValueReads(n: nat, p: Point, key: string, attributes: map<string, string>, start: int)
    ensures Reads(ValueScans(p), p.rest, ParseValue(n, p, key, attributes, start))
  {
    var r1, r := Next(p.rest), ParseValue(n, p, key, attributes, start);
    var more := if r1.Done? && r1.at.cur.Quoted? then [r1.at.rest] else [];
    NextReads(p.rest);
    if more != [] {
      NextReads(r1.at.rest);
      ReadsOn(more, r1.at.rest, Next(r1.at.rest), [], r);
      assert more + [] == more;
    }
    ReadsOn([p.rest], p.rest, r1, more, r);
  }

  lemma AttributeReads(n: nat, p: Point, attributes: map<string, string>, start: int)
    requires p.cur.Identifier?
    ensures Reads(AttributeScans(p), p.rest, ParseAttribute(n, p, attributes, start))
  {
    var r1, r := Next(p.rest), ParseAttribute(n, p, attributes, start);
    NextReads(p.rest);
    if r1.Done? && r1.at.cur == Ch('=') {
      ValueReads(n, r1.at, p.cur.name, attributes, start);
      ReadsOn([p.rest], p.rest, r1, ValueScans(r1.at), r);
    } else {
      ReadsOn([p.rest], p.rest, r1, [], r);
    }
  }

  lemma {:induction false} AttributesReads(n: nat, p: Point, attributes: map<string, string>, start: int)
    ensures Reads(AttributesScans(n, p, attributes, start), p.rest, ParseAttributes(n, p, attributes, start))
    decreases p.Left()
  {
    if p.cur.Identifier? {
      var r1, r := ParseAttribute(n, p, attributes, start), ParseAttributes(n, p, attributes, start);
      AttributeReads(n, p, attributes, start);
      if r1.Done? && r1.value.wellFormed {
        AttributesReads(n, r1.at, r1.value.attributes, r1.value.start);
        ReadsOn(AttributeScans(p), p.rest, r1, AttributesScans(n, r1.at, r1.value.attributes, r1.value.start), r);
      } else {
        ReadsOn(AttributeScans(p), p.rest, r1, [], r);
      }
    }
  }

  lemma HeaderReads(n: nat, p: Point, attributes: map<string, string>)
    ensures Reads(HeaderScans(n, p, attributes), p.rest, ParseHeader(n, p, attributes))
  {
    var r1, r := Next(p.rest), ParseHeader(n, p, attributes);
    NextReads(p.rest);
    if r1.Done? {
      var r2 := ParseAttributes(n, r1.at, attributes, Cursor(n, p.rest));
      var scans := AttributesScans(n, r1.at, attributes, Cursor(n, p.rest));
      var last := if r2.Done? && r2.value.wellFormed && r2.at.cur == Ch('>') then [r2.at.rest] else [];
      AttributesReads(n, r1.at, attributes, Cursor(n, p.rest));
      if last != [] {
        NextReads(r2.at.rest);
        ReadsOn(last, r2.at.rest, Next(r2.at.rest), [], r);
        assert last + [] == last;
      }
      ReadsOn(scans, r1.at.rest, r2, last, r);
      ReadsOn([p.rest], p.rest, r1, scans + last, r);
    } else {
      ReadsOn([p.rest], p.rest, r1, [], r);
    }
  }

  /** Every call of `parseTag` reads the token stream on, scan by scan, and hangs only in a scan. */
  lemma {:induction false} TagReads(src: string, p: Point, parentName: string, dom: Dom)
    ensures Reads(TagScans(src, p, parentName, dom), p.rest, ParseTag(src, p, parentName, dom))
    decreases p.Left(), 0
  {
    if p.cur.BeginTag? {
      var r1, r := ParseHeader(|src|, p, dom.attributes), ParseTag(src, p, parentName, dom);
      var scans := HeaderScans(|src|, p, dom.attributes);
      HeaderReads(|src|, p, dom.attributes);
      if r1.Done? && r1.value.wellFormed {
        var r2 := ParseContent(src, r1.at, parentName, []);
        ContentReads(src, r1.at, parentName, []);
        ReadsOn(ContentScans(src, r1.at, parentName, []), r1.at.rest, r2, [], r);
        assert ContentScans(src, r1.at, parentName, []) + [] == ContentScans(src, r1.at, parentName, []);
        ReadsOn(scans, p.rest, r1, ContentScans(src, r1.at, parentName, []), r);
      } else {
        ReadsOn(scans, p.rest, r1, [], r);
      }
    }
  }

  lemma {:induction false} ContentReads(src: string, p: Point, parentName: string, kids: seq<Dom>)
    ensures Reads(ContentScans(src, p, parentName, kids), p.rest, ParseContent(src, p, parentName, kids))
    decreases p.Left(), 1
  {
    var r := ParseContent(src, p, parentName, kids);
    if p.cur == Eof || p.cur == CloseTag(parentName) {
    } else if p.cur.BeginTag? && parentName != "script" {
      var r1 := ParseTag(src, p, p.cur.tag, NewDom(p.cur.tag));
      var scans := TagScans(src, p, p.cur.tag, NewDom(p.cur.tag));
      TagReads(src, p, p.cur.tag, NewDom(p.cur.tag));
      if r1.Done? {
        RestReads(src, r1.at.rest, parentName, kids + [r1.value], r);
        ReadsOn(scans, p.rest, r1, RestScans(src, r1.at.rest, parentName, kids + [r1.value]), r);
      } else {
        ReadsOn(scans, p.rest, r1, [], r);
      }
    } else {
      RestReads(src, p.rest, parentName, kids, r);
    }
  }

  lemma {:induction false} RestReads(src: string, rest: string, parentName: string, kids: seq<Dom>, r: Outcome<seq<Dom>>)
    requires r == match Next(rest) case Done(p, _) => ParseContent(src, p, parentName, kids) case Hang => Hang case LengthError => LengthError
    ensures Reads(RestScans(src, rest, parentName, kids), rest, r)
    decreases |rest|, 2
  {
    var r1 := Next(rest);
    NextReads(rest);
    if r1.Done? {
      ContentReads(src, r1.at, parentName, kids);
      ReadsOn([rest], rest, r1, ContentScans(src, r1.at, parentName, kids), r);
    } else {
      ReadsOn([rest], rest, r1, [], r);
    }
  }

  lemma HtmlReads(src: string)
    ensures Reads(HtmlScans(src), " " + src, ParseHtml(src))
  {
    var r1, r := Next(" " + src), ParseHtml(src);
    NextReads(" " + src);
    if r1.Done? && r1.at.cur == BeginTag("html") {
      var r2, scans := ParseTag(src, r1.at, "html", NewDom("html")), TagScans(src, r1.at, "html", NewDom("html"));
      var last := if r2.Done? then [r2.at.rest] else [];
      TagReads(src, r1.at, "html", NewDom("html"));
      if r2.Done? {
        NextReads(r2.at.rest);
        ReadsOn(last, r2.at.rest, Next(r2.at.rest), [], r);
        assert last + [] == last;
      }
      ReadsOn(scans, r1.at.rest, r2, last, r);
      ReadsOn([" " + src], " " + src, r1, scans + last, r);
    } else {
      ReadsOn([" " + src], " " + src, r1, [], r);
    }
  }

  /** One of the scans opens a string that nothing closes. */
  ghost predicate OpensUnclosed(scans: seq<string>) {
    exists i, q :: 0 <= i < |scans| && OpensAt(scans[i], q) && Unmatched(scans[i], q)
  }

  lemma {:induction false} HangsIff<T>(scans: seq<string>, rest: string, r: Outcome<T>)
    requires Reads(scans, rest, r)
    ensures r.Hang? <==> OpensUnclosed(scans)
    ensures r.Hang? ==> StreamHangs(rest)
    ensures r.Done? && StreamHangs(r.at.rest) && |scans| > 0 ==> StreamHangs(rest)
    decreases |scans|
  {
    if scans != [] {
      UnclosedIff(rest);
      LexShortens(rest);
      var more := scans[1..];
      if Lex(rest).Lexed? {
        HangsIff(more, Lex(rest).rest, r);
        if OpensUnclosed(more) {
          var i, q :| 0 <= i < |more| && OpensAt(more[i], q) && Unmatched(more[i], q);
          assert more[i] == scans[i + 1];
        }
        if OpensUnclosed(scans) {
          var i, q :| 0 <= i < |scans| && OpensAt(scans[i], q) && Unmatched(scans[i], q);
          assert i > 0 && more[i - 1] == scans[i];
        }
      }
    }
  }

  /**
   Termination, call by call: `parseTag` on any input, from any token in hand, never ends if and
   only if a string that one of its own token scans opens has no closing quote in reach.
   */
  lemma TagHangsIff(src: string, p: Point, parentName: string, dom: Dom)
    ensures ParseTag(src, p, parentName, dom).Hang? <==> OpensUnclosed(TagScans(src, p, parentName, dom))
    ensures ParseTag(src, p, parentName, dom).Hang? ==> StreamHangs(p.rest)
  {
    TagReads(src, p, parentName, dom);
    HangsIff(TagScans(src, p, parentName, dom), p.rest, ParseTag(src, p, parentName, dom));
  }

  lemma BlankHangs(s: string)
    ensures StreamHangs(" " + s) == StreamHangs(s)
  {
    assert (" " + s)[1..] == s;
    assert Lex(" " + s) == Lex(s);
  }

  /**
   Termination of the whole parse, on any input.  Its scans are the token stream of the source from
   its start on, as far as the parse goes, and it never ends if and only if one of them opens a
   string that nothing closes.  So a source whose token stream has no such string is always parsed.
   */
  lemma ParseHtmlHangsIff(src: string)
    ensures Reads(HtmlScans(src), " " + src, ParseHtml(src))
    ensures ParseHtml(src).Hang? <==> OpensUnclosed(HtmlScans(src))
    ensures ParseHtml(src).Hang? ==> StreamHangs(src)
  {
    HtmlReads(src);
    HangsIff(HtmlScans(src), " " + src, ParseHtml(src));
    BlankHangs(src);
  }
}
