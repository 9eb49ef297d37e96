/** What the HTML parser promises on canonical sources, and exactly when its slices are exact. */
module HtmlTheorems {
  import opened Chars
  import opened HtmlLexer
  import opened HtmlGrammar
  import opened HtmlCanonical
  import opened HtmlRoundTrip

  /** `parseHtml` on a source that begins with a canonical html element: `parseTag`, then one token more. */
  lemma ParseRoot(e: Elem, tail: string)
    requires Good(e) && e.name == "html"
    ensures var src := Print(e) + tail;
            ParseHtml(src)
            == match ParseTag(src, Point(BeginTag(e.name), PrintRest(e) + tail), e.name, NewDom("html"))
               case Hang => Hang
               case LengthError => LengthError
               case Done(p, root) =>
                 match Lex(p.rest)
                 case Unclosed => Hang
                 case Lexed(token, rest) => Done(Point(token, rest), Some(root))
  {
    FirstTag(e, tail);
    hide ParseTag, Print, PrintRest;
  }

  /** The first token of a source is the begin tag of a name if and only if the source opens with it. */
  lemma OpensIff(src: string, name: string)
    requires IsName(name)
    ensures (Lex(src).Lexed? && Lex(src).token == BeginTag(name)) <==> OpensWith(src, name)
  {
    var s := SkipSpace(src);
    assert Lex(src) == Lex(s) by {
      assert SkipSpace(s) == s;
    }
    if s != "" && s[0] == '<' {
      NameIsPrefix(SkipSpace(s[1..]), name);
      LexTagged(s, |s| > 1 && s[1] == '/', if |s| > 1 && s[1] == '/' then s[2..] else s[1..]);
    }
  }

  /**
   What `parseHtml` answers: an element, called html, for every source that opens with an html tag
   and whose parse ends; null for every other source, unless the first token never ends.
   */
  lemma ElementIff(src: string)
    ensures var r := ParseHtml(src);
            if OpensWith(src, "html") then r.Done? ==> r.value.Some? && r.value.value.name == "html"
            else if Lex(src).Unclosed? then r.Hang?
            else r.Done? && r.value == None
  {
    OpensIff(src, "html");
    LexSpace(' ', src);
  }

  /** The root as `parseTag` leaves it; at the end of the source its own slice is one character short. */
  function RootOf(e: Elem, tail: string): Dom
    requires tail != "" || Cut(e) != ""
  {
    DomOf(e).(innerHtml := Seen(Cut(e), tail), children := if HasKids(e.body) then DomOf(e).children else Text(Seen(Cut(e), tail)))
  }

  lemma RootFilled(e: Elem, tail: string)
    requires e.name == "html" && (tail != "" || Cut(e) != "")
    ensures Dom(NewDom("html").name, AttributeMap(e.attributes) + NewDom("html").attributes, Seen(Cut(e), tail),
                if HasKids(e.body) then Elements(KidsOf(e.body)) else Text(Seen(Cut(e), tail)))
         == RootOf(e, tail)
  {
    assert AttributeMap(e.attributes) + map[] == AttributeMap(e.attributes);
    assert DomOf(e).children == ChildrenOf(e);
  }

  lemma ParseRootTag(e: Elem, tail: string)
    requires Good(e) && e.name == "html"
    ensures ParseTag(Print(e) + tail, Point(BeginTag(e.name), PrintRest(e) + tail), e.name, NewDom("html"))
         == if tail == "" && Cut(e) == "" then LengthError else Done(Point(CloseTag(e.name), tail), RootOf(e, tail))
  {
    var src := Print(e) + tail;
    assert src == "" + src;
    hide *;
    ParseElement(src, "", e, tail, NewDom("html"));
    if tail != "" || Cut(e) != "" {
      RootFilled(e, tail);
    }
  }

  /**
   Round trip: the printed form of an html element parses to the tree it stands for, whatever
   follows it, as long as the one token read behind it ends.
   */
  lemma RoundTrip(e: Elem, tail: string)
    requires Good(e) && e.name == "html" && tail != "" && Lex(tail).Lexed?
    ensures ParseHtml(Print(e) + tail) == Done(Point(Lex(tail).token, Lex(tail).rest), Some(DomOf(e)))
  {
    ParseRoot(e, tail);
    ParseRootTag(e, tail);
    hide ParseTag, ParseHtml, Lex, Print, PrintRest;
    assert RootOf(e, tail) == DomOf(e);
  }

  /** The tree one would want: every slice and every leaf text is exactly what stands between the tags. */
  function TreeOf(e: Elem): Dom
    decreases e, 1
  {
    Dom(e.name, AttributeMap(e.attributes), PrintBody(e.body),
        if HasKids(e.body) then Elements(TreesOf(e.body)) else Text(PrintBody(e.body)))
  }

  function TreesOf(b: Body): seq<Dom>
    decreases b, 0
  {
    match b
    case Plain(_) => []
    case Child(_, elem, more) => [TreeOf(elem)] + TreesOf(more)
    case Marked(_, _, more) => TreesOf(more)
  }

  /** No begin tag, at any depth, ends in white space or in an attribute without a value. */
  predicate Tidy(e: Elem)
    decreases e, 1
  {
    Flags(e.attributes) == "" && e.pad == "" && AllTidy(e.body)
  }

  predicate AllTidy(b: Body)
    decreases b, 0
  {
    match b
    case Plain(_) => true
    case Child(_, elem, more) => Tidy(elem) && AllTidy(more)
    case Marked(_, _, more) => AllTidy(more)
  }

  lemma {:induction false} TidyIff(e: Elem)
    ensures DomOf(e) == TreeOf(e) <==> Tidy(e)
    decreases e, 1
  {
    CutExactIff(e);
    AllTidyIff(e.body);
    HasKidsIff(e.body);
    assert DomOf(e).children == ChildrenOf(e);
  }

  lemma {:induction false} AllTidyIff(b: Body)
    ensures KidsOf(b) == TreesOf(b) <==> AllTidy(b)
    ensures |KidsOf(b)| == |TreesOf(b)|
    decreases b, 0
  {
    match b
    case Plain(_) =>
    case Child(_, elem, more) =>
      TidyIff(elem);
      AllTidyIff(more);
      var kids, trees := KidsOf(b), TreesOf(b);
      assert kids[0] == DomOf(elem) && trees[0] == TreeOf(elem);
      assert kids[1..] == KidsOf(more) && trees[1..] == TreesOf(more);
    case Marked(_, _, more) => AllTidyIff(more);
  }

  lemma FirstTag(e: Elem, tail: string)
    requires Good(e)
    ensures Next(" " + (Print(e) + tail)) == Done(Point(BeginTag(e.name), PrintRest(e) + tail), ())
  {
    LexSpace(' ', Print(e) + tail);
    Assoc("<" + e.name, PrintRest(e), tail);
    RestStart(e);
    LexBeginTag(e.name, PrintRest(e) + tail);
  }

  /**
   Locality: in any two sources that contain the same canonical element, each time with something
   behind it, `parseTag` stops right behind the element's own close tag and builds the same tree.
   */
  lemma Locality(e: Elem, before1: string, tail1: string, before2: string, tail2: string)
    requires Good(e) && tail1 != "" && tail2 != ""
    ensures var p1 := Point(BeginTag(e.name), PrintRest(e) + tail1);
            var p2 := Point(BeginTag(e.name), PrintRest(e) + tail2);
            var r1 := ParseTag(before1 + (Print(e) + tail1), p1, e.name, NewDom(e.name));
            var r2 := ParseTag(before2 + (Print(e) + tail2), p2, e.name, NewDom(e.name));
            && r1.Done? && r1.at == Point(CloseTag(e.name), tail1)
            && r2.Done? && r2.at == Point(CloseTag(e.name), tail2)
            && r1.value == r2.value == DomOf(e)
  {
    ParseElement(before1 + (Print(e) + tail1), before1, e, tail1, NewDom(e.name));
    ParseElement(before2 + (Print(e) + tail2), before2, e, tail2, NewDom(e.name));
    assert AttributeMap(e.attributes) + map[] == AttributeMap(e.attributes);
  }

  /** Behind anything but a bare name or a quoted value the slice starts too early: it is exact otherwise. */
  lemma CutExactIff(e: Elem)
    ensures Cut(e) == PrintBody(e.body) <==> Flags(e.attributes) == "" && e.pad == ""
  {
    assert |Cut(e)| == |Flags(e.attributes)| + |e.pad| + |PrintBody(e.body)|;
    if Flags(e.attributes) == "" && e.pad == "" {
      assert ("" + ("" + ">"))[1..] == "";
      assert Cut(e) == "" + PrintBody(e.body);
    }
  }

  /** With a tidy begin tag the slice is exact if and only if something follows the close tag. */
  lemma SliceExactIffFollowed(src: string, before: string, e: Elem, tail: string, dom: Dom)
    requires Good(e) && src == before + (Print(e) + tail) && Flags(e.attributes) == "" && e.pad == ""
    ensures var r := ParseTag(src, Point(BeginTag(e.name), PrintRest(e) + tail), e.name, dom);
            tail != "" <==> r.Done? && r.value.innerHtml == PrintBody(e.body)
  {
    CutExactIff(e);
    ParseElement(src, before, e, tail, dom);
  }

  /** At the end of the source one character has to be made up for: by the begin tag, and in a content of nothing but `>`. */
  predicate ExactAtEnd(e: Elem) {
    |Flags(e.attributes)| + |e.pad| == 1 && forall i :: 0 <= i < |PrintBody(e.body)| ==> PrintBody(e.body)[i] == '>'
  }

  /** The slice that is cut out for an element, with tail behind it, is its content. */
  predicate CutExact(e: Elem, tail: string) {
    if tail == "" then ExactAtEnd(e) else Flags(e.attributes) == "" && e.pad == ""
  }

  /** All but the last character of a string are the string behind a `>` if and only if it is all `>`. */
  lemma AllGreater(body: string)
    ensures (">" + body)[..|body|] == body <==> forall i :: 0 <= i < |body| ==> body[i] == '>'
  {
    var shifted := (">" + body)[..|body|];
    if shifted == body {
      AllEqual(body);
    } else {
      assert exists i :: 0 <= i < |body| && shifted[i] != body[i];
    }
  }

  lemma {:induction false} AllEqual(body: string)
    requires (">" + body)[..|body|] == body
    ensures forall i :: 0 <= i < |body| ==> body[i] == '>'
    decreases |body|
  {
    if body != "" {
      var less := body[..|body| - 1];
      assert (">" + less)[..|less|] == less by {
        assert forall i :: 0 <= i < |less| ==> (">" + less)[i] == (">" + body)[i] == body[i];
      }
      AllEqual(less);
      assert body[|body| - 1] == (">" + body)[|body| - 1];
    }
  }

  /** When what is seen of the cut is the content, with anything or nothing behind the element. */
  lemma SeenExactIff(e: Elem, tail: string)
    requires tail != "" || Cut(e) != ""
    ensures Seen(Cut(e), tail) == PrintBody(e.body) <==> CutExact(e, tail)
  {
    CutExactIff(e);
    if tail == "" {
      CutAtEnd(e);
    }
  }

  lemma CutAtEnd(e: Elem)
    requires Cut(e) != ""
    ensures Cut(e)[..|Cut(e)| - 1] == PrintBody(e.body) <==> ExactAtEnd(e)
  {
    var body, opening := PrintBody(e.body), Flags(e.attributes) + (e.pad + ">");
    assert |Cut(e)| == |Flags(e.attributes)| + |e.pad| + |body|;
    if |Flags(e.attributes)| + |e.pad| == 1 {
      assert opening[1..] == ">";
      assert Cut(e) == ">" + body;
      AllGreater(body);
    }
  }

  /**
   For any canonical element anywhere, with anything or nothing behind it: what is cut out is what
   stands between the tags if and only if the begin tag is tidy and something follows, or nothing
   follows and the begin tag makes up for the one character.
   */
  lemma SliceExactIff(src: string, before: string, e: Elem, tail: string, dom: Dom)
    requires Good(e) && src == before + (Print(e) + tail)
    ensures var r := ParseTag(src, Point(BeginTag(e.name), PrintRest(e) + tail), e.name, dom);
            (r.Done? && r.value.innerHtml == PrintBody(e.body)) <==> CutExact(e, tail)
  {
    ParseElement(src, before, e, tail, dom);
    if tail != "" || Cut(e) != "" {
      SeenExactIff(e, tail);
    } else {
      assert |Cut(e)| == |Flags(e.attributes)| + |e.pad| + |PrintBody(e.body)|;
    }
  }

  /**
   At the very end of the source the same tree comes back, except that the root's own slice is one
   character short; an empty slice there is the length error.
   */
  lemma RoundTripAtEnd(e: Elem)
    requires Good(e) && e.name == "html"
    ensures ParseHtml(Print(e))
         == if Cut(e) == "" then LengthError
            else Done(Point(Eof, ""), Some(
                 var cut := Cut(e)[..|Cut(e)| - 1];
                 DomOf(e).(innerHtml := cut, children := if HasKids(e.body) then DomOf(e).children else Text(cut))))
  {
    assert Print(e) + "" == Print(e);
    ParseRoot(e, "");
    ParseRootTag(e, "");
    hide ParseTag, ParseHtml, Print, PrintRest, Good;
  }

  /** Behind the root the one token read must end: this is the only way a canonical source hangs. */
  lemma RoundTripHangs(e: Elem, tail: string)
    requires Good(e) && e.name == "html" && Lex(tail).Unclosed?
    ensures ParseHtml(Print(e) + tail).Hang?
  {
    ParseRoot(e, tail);
    ParseRootTag(e, tail);
    hide ParseTag, ParseHtml, Print, PrintRest, Good;
  }

  lemma MoreThanText(b: Body)
    requires !b.Plain?
    ensures |b.gap| < |PrintBody(b)| && PrintBody(b)[|b.gap|] != '>'
  {
    match b
    case Child(gap, elem, more) =>
      assert Print(elem)[0] == '<';
      assert PrintBody(b) == gap + (Print(elem) + PrintBody(more));
    case Marked(gap, mark, more) =>
      assert PrintMark(mark)[0] != '>';
      assert PrintBody(b) == gap + (PrintMark(mark) + PrintBody(more));
  }

  /** A content of nothing but `>` holds no elements. */
  lemma NoChildAtEnd(e: Elem)
    requires ExactAtEnd(e)
    ensures !HasKids(e.body)
  {
    if !e.body.Plain? {
      MoreThanText(e.body);
    }
  }

  /** The wanted tree comes back from the very end of a source if and only if the root's slice is exact. */
  lemma TreeAtEndIff(e: Elem)
    requires Good(e) && e.name == "html"
    ensures var r := ParseHtml(Print(e));
            (r.Done? && r.value == Some(TreeOf(e))) <==> ExactAtEnd(e)
  {
    RoundTripAtEnd(e);
    if Cut(e) != "" {
      CutAtEnd(e);
    } else {
      assert |Cut(e)| == |Flags(e.attributes)| + |e.pad| + |PrintBody(e.body)|;
    }
    if ExactAtEnd(e) {
      NoChildAtEnd(e);
    }
  }

  /**
   Round trip, sharp, for every canonical html element and whatever follows it: names, attributes,
   order, texts and slices all come back if and only if every begin tag is tidy and what follows
   begins with a token -- or nothing follows and the root makes up for the character it loses.  The
   parse hangs if and only if what follows opens a string that nothing closes.
   */
  lemma RoundTripIff(e: Elem, tail: string)
    requires Good(e) && e.name == "html"
    ensures var r := ParseHtml(Print(e) + tail);
            && (r.Hang? <==> Lex(tail).Unclosed?) && (r.LengthError? <==> tail == "" && Cut(e) == "")
            && ((r.Done? && r.value == Some(TreeOf(e)))
                <==> if tail == "" then ExactAtEnd(e) else Tidy(e) && Lex(tail).Lexed?)
  {
    if tail == "" {
      assert Print(e) + "" == Print(e);
      RoundTripAtEnd(e);
      TreeAtEndIff(e);
    } else if Lex(tail).Unclosed? {
      RoundTripHangs(e, tail);
    } else {
      RoundTrip(e, tail);
      TidyIff(e);
    }
  }

  /**
   Fragment replacement: the element keeps its name and attributes and gets exactly the listed
   elements as children; its own slice lacks the last character of the fragment.
   */
  lemma FragmentReplaced(b: Body, dom: Dom)
    requires GoodBody("wrapper", b) && HasKids(b)
    ensures var content := PrintBody(b);
            && content != ""
            && ParseFragment(content, dom)
            == Done(Point(Eof, ""), Dom(dom.name, dom.attributes, content[..|content| - 1], Elements(KidsOf(b))))
  {
    ParseWrapped(b, dom);
  }

  /** A fragment of text alone loses its last character, and the empty fragment throws. */
  lemma FragmentOfText(text: string, dom: Dom)
    requires IsPlain(text)
    ensures ParseFragment(text, dom)
         == if text == "" then LengthError
            else var cut := text[..|text| - 1]; Done(Point(Eof, ""), Dom(dom.name, dom.attributes, cut, Text(cut)))
  {
    ParseWrapped(Plain(text), dom);
  }

  lemma ParseWrapped(b: Body, dom: Dom)
    requires GoodBody("wrapper", b)
    ensures var content := PrintBody(b);
            ParseFragment(content, dom)
            == if content == "" then LengthError
               else var cut := content[..|content| - 1];
                    Done(Point(Eof, ""), Dom(dom.name, dom.attributes, cut,
                                             if HasKids(b) then Elements(KidsOf(b)) else Text(cut)))
  {
    var e := Wrapped(b);
    WrapperPrint(b);
    WrappedGood(b);
    assert e.name == "wrapper" && e.attributes == [] && e.body == b;
    hide *;
    ParseBare(e, dom);
    FragmentParsesInto(e, PrintBody(b), dom);
  }

  /** The element a fragment is wrapped in. */
  function Wrapped(b: Body): Elem { Elem("wrapper", [], "", b) }

  lemma WrappedGood(b: Body)
    requires GoodBody("wrapper", b)
    ensures Good(Wrapped(b)) && Cut(Wrapped(b)) == PrintBody(b)
  {
    CutExactIff(Wrapped(b));
  }

  lemma FragmentParsesInto(e: Elem, content: string, dom: Dom)
    requires e.name == "wrapper" && "<wrapper>" + content + "</wrapper>" == Print(e)
    ensures ParseFragment(content, dom) == ParseInto(Print(e), e.name, dom)
  {}

  /** A source that is one bare element, parsed into a given element. */
  lemma ParseBare(e: Elem, dom: Dom)
    requires Good(e) && e.attributes == []
    ensures ParseInto(Print(e), e.name, dom)
         == if Cut(e) == "" then LengthError
            else var cut := Cut(e)[..|Cut(e)| - 1];
                 Done(Point(Eof, ""), Dom(dom.name, dom.attributes, cut,
                                          if HasKids(e.body) then Elements(KidsOf(e.body)) else Text(cut)))
  {
    var src := Print(e);
    assert src + "" == src && "" + src == src;
    FirstTag(e, "");
    ParseElement(src, "", e, "", dom);
    assert AttributeMap(e.attributes) + dom.attributes == dom.attributes;
  }

  lemma WrapperPrint(b: Body)
    ensures "<wrapper>" + PrintBody(b) + "</wrapper>" == Print(Wrapped(b))
  {
    var content, close := PrintBody(b), PrintClose("wrapper");
    assert close == "</wrapper>";
    assert "" + ">" == ">";
    assert [] + (">" + (content + close)) == ">" + (content + close);
    assert "<" + "wrapper" == "<wrapper";
    assert "<wrapper" + ">" == "<wrapper>";
    Assoc("<wrapper", ">", content + close);
    Assoc("<wrapper>", content, close);
  }

  /** Of several attributes with one key the first one counts, "true" where it has no value, and nothing else is stored. */
  lemma {:induction false} AttributeMapIsFirst(attributes: seq<Attribute>, key: string)
    ensures key in AttributeMap(attributes) <==> exists i :: 0 <= i < |attributes| && attributes[i].key == key
    ensures forall i :: 0 <= i < |attributes| && attributes[i].key == key
                        && (forall j :: 0 <= j < i ==> attributes[j].key != key)
                        ==> AttributeMap(attributes)[key] == if attributes[i].value.Some? then attributes[i].value.value else "true"
  {
    if attributes != [] {
      var more := attributes[1..];
      AttributeMapIsFirst(more, key);
      assert forall i :: 1 <= i < |attributes| ==> attributes[i] == more[i - 1];
      if attributes[0].key != key {
        forall i | 0 <= i < |attributes| && attributes[i].key == key && forall j :: 0 <= j < i ==> attributes[j].key != key
          ensures AttributeMap(attributes)[key] == if attributes[i].value.Some? then attributes[i].value.value else "true"
        {
          assert forall j :: 0 <= j < i - 1 ==> more[j].key == attributes[j + 1].key;
        }
      }
    }
  }
}
