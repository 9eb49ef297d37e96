/** From the source of a page to its components and its index. */
module BrowserTheorems {
  import opened Chars
  import opened LevelOrder
  import opened BrowserDraw
  import opened BrowserIndex
  import opened HtmlDom
  import C = HtmlCanonical
  import G = HtmlGrammar
  import L = HtmlLexer
  import T = HtmlTheorems

  lemma {:induction false} CanonicalFilled(e: C.Elem)
    ensures Filled(C.DomOf(e))
    decreases e, 1
  {
    assert C.DomOf(e).children == C.ChildrenOf(e);
    if C.HasKids(e.body) {
      CanonicalKidsFilled(e.body);
    }
  }

  lemma {:induction false} CanonicalKidsFilled(b: C.Body)
    ensures AllFilled(C.KidsOf(b))
    decreases b, 0
  {
    match b
    case Plain(_) =>
    case Child(_, elem, more) =>
      CanonicalFilled(elem);
      CanonicalKidsFilled(more);
    case Marked(_, _, more) => CanonicalKidsFilled(more);
  }

  /** A canonical page can be loaded: it parses to the tree it stands for, with every child slot set. */
  lemma CanonicalPageLoads(e: C.Elem, tail: string)
    requires C.Good(e) && e.name == "html" && tail != "" && L.Lex(tail).Lexed?
    ensures var r := G.ParseHtml(C.Print(e) + tail);
            r.Done? && r.value == Some(C.DomOf(e)) && Filled(C.DomOf(e))
  {
    T.RoundTrip(e, tail);
    CanonicalFilled(e);
  }

  // ---------- components and index entries ----------

  /** The elements that are drawn, in document order and with their depths: a script is not, nor is anything in it. */
  function DrawnElements(v: G.Dom, depth: nat): seq<(G.Dom, nat)>
    decreases v, 1
  {
    [(v, depth)] + if v.children.Elements? then DrawnAmong(v.children.list, depth + 1) else []
  }

  function DrawnAmong(vs: seq<G.Dom>, depth: nat): seq<(G.Dom, nat)>
    decreases vs, 0
  {
    if vs == [] then []
    else (if vs[0].name == "script" then [] else DrawnElements(vs[0], depth)) + DrawnAmong(vs[1..], depth)
  }

  /** A component and the element it is drawn for: style, leaf text and depth; with child elements there is no text. */
  ghost predicate Matches(styleOf: map<string, string> -> Style, c: (Look, nat), e: (G.Dom, nat)) {
    && c.1 == e.1
    && c.0.style == styleOf(e.0.attributes)
    && match e.0.children
       case Text(text) => c.0.innerText == text
       case _ => c.0.innerText == ""
  }

  ghost predicate AllMatch(styleOf: map<string, string> -> Style, cs: seq<(Look, nat)>, es: seq<(G.Dom, nat)>) {
    |cs| == |es| && forall i :: 0 <= i < |cs| ==> Matches(styleOf, cs[i], es[i])
  }

  /** An entry was made of the element's attributes, and leads to the object that is the element. */
  ghost predicate Indexed(entries: seq<Entry>, es: seq<(G.Dom, nat)>, objs: set<DOM>)
    reads objs
  {
    |entries| == |es| && forall i :: 0 <= i < |entries| ==> IsEntryOf(entries[i], es[i].0, objs)
  }

  ghost predicate IsEntryOf(entry: Entry, v: G.Dom, objs: set<DOM>)
    reads objs
  {
    && entry.attributes == v.attributes && entry.dom in objs
    && entry.dom.name == v.name && entry.dom.attributes == v.attributes && entry.dom.innerHtml == v.innerHtml
  }

  lemma {:induction false} ElementMatches(styleOf: map<string, string> -> Style, v: G.Dom, depth: nat)
    requires v.name != "script"
    ensures AllMatch(styleOf, Preorders(Components(styleOf, v), depth), DrawnElements(v, depth))
    decreases v, 1
  {
    var w := Components(styleOf, v)[0];
    assert Preorders([w], depth) == Preorder(w, depth) by {
      assert [w][1..] == [] && Preorder(w, depth) + [] == Preorder(w, depth);
    }
    if v.children.Elements? {
      AmongMatch(styleOf, v.children.list, depth + 1);
    }
  }

  lemma {:induction false} AmongMatch(styleOf: map<string, string> -> Style, vs: seq<G.Dom>, depth: nat)
    ensures AllMatch(styleOf, Preorders(AllComponents(styleOf, vs), depth), DrawnAmong(vs, depth))
    decreases vs, 0
  {
    if vs != [] {
      if vs[0].name != "script" {
        ElementMatches(styleOf, vs[0], depth);
      }
      AmongMatch(styleOf, vs[1..], depth);
      PreordersAppend(Components(styleOf, vs[0]), AllComponents(styleOf, vs[1..]), depth);
    }
  }

  lemma {:induction false} DocumentIndexed(s: Shape, v: G.Dom, objs: set<DOM>, depth: nat)
    requires Holds(s, v, objs) && v.name != "script"
    ensures Indexed(Document(s, v), DrawnElements(v, depth), objs)
    decreases s, 1
  {
    if v.children.Elements? {
      DocumentsIndexed(s.kids, v.children.list, objs, depth + 1);
    }
  }

  lemma {:induction false} DocumentsIndexed(kids: seq<Shape>, vs: seq<G.Dom>, objs: set<DOM>, depth: nat)
    requires AllHold(kids, vs, objs)
    ensures Indexed(Documents(kids, vs), DrawnAmong(vs, depth), objs)
    decreases kids, 0
  {
    if kids != [] {
      if vs[0].name != "script" {
        DocumentIndexed(kids[0], vs[0], objs, depth);
      }
      DocumentsIndexed(kids[1..], vs[1..], objs, depth);
    }
  }

  /**
   Components, index entries and drawn elements of a page correspond one to one, in document order.
   The entry leads to the element's own object.  The component lies at the element's depth, and has its
   style and its leaf text, none where the element has child elements; the root has no text at all.
   */
  lemma ComponentsFollowThePage(styleOf: map<string, string> -> Style, s: Shape, v: G.Dom, objs: set<DOM>)
    requires Holds(s, v, objs)
    ensures var cs, es := Preorder(PageComponents(styleOf, v), 0), DrawnElements(v, 0);
            && |cs| > 0 && |es| > 0 && es[0] == (v, 0)
            && cs[0] == (Look(styleOf(v.attributes), ""), 0)
            && AllMatch(styleOf, cs[1..], es[1..]) && Indexed(Page(s, v), es, objs)
  {
    PageMatches(styleOf, v);
    if v.children.Elements? {
      DocumentsIndexed(s.kids, v.children.list, objs, 1);
    }
  }

  lemma PageMatches(styleOf: map<string, string> -> Style, v: G.Dom)
    ensures var cs, es := Preorder(PageComponents(styleOf, v), 0), DrawnElements(v, 0);
            && |cs| > 0 && |es| > 0 && es[0] == (v, 0)
            && cs[0] == (Look(styleOf(v.attributes), ""), 0)
            && AllMatch(styleOf, cs[1..], es[1..])
  {
    AmongMatch(styleOf, KidsOf(v), 1);
    var w := PageComponents(styleOf, v);
    assert Preorder(w, 0)[1..] == Preorders(w.kids, 1);
    assert DrawnElements(v, 0)[1..] == DrawnAmong(KidsOf(v), 1);
  }

  // ---------- from the source to the components ----------

  /** The texts printed for the elements of a source that are drawn, in document order; with child elements there is none. */
  function PrintedTexts(e: C.Elem): seq<string>
    decreases e, 1
  {
    [if C.HasKids(e.body) then "" else C.PrintBody(e.body)] + PrintedAmong(e.body)
  }

  function PrintedAmong(b: C.Body): seq<string>
    decreases b, 0
  {
    match b
    case Plain(_) => []
    case Child(_, elem, more) => (if elem.name == "script" then [] else PrintedTexts(elem)) + PrintedAmong(more)
    case Marked(_, _, more) => PrintedAmong(more)
  }

  function Texts(nodes: seq<(Look, nat)>): (r: seq<string>)
    ensures |r| == |nodes| && forall i :: 0 <= i < |nodes| ==> r[i] == nodes[i].0.innerText
  {
    seq(|nodes|, i requires 0 <= i < |nodes| => nodes[i].0.innerText)
  }

  lemma TextsAppend(a: seq<(Look, nat)>, b: seq<(Look, nat)>)
    ensures Texts(a + b) == Texts(a) + Texts(b)
  {}

  lemma {:induction false} TextsOfElement(styleOf: map<string, string> -> Style, e: C.Elem, depth: nat)
    requires e.name != "script"
    ensures Texts(Preorders(Components(styleOf, T.TreeOf(e)), depth)) == PrintedTexts(e)
    decreases e, 1
  {
    var v := T.TreeOf(e);
    var w := Components(styleOf, v)[0];
    assert Preorders([w], depth) == Preorder(w, depth) by {
      assert [w][1..] == [] && Preorder(w, depth) + [] == Preorder(w, depth);
    }
    TextsAppend([(w.node, depth)], Preorders(w.kids, depth + 1));
    TextsAmong(styleOf, e.body, depth + 1);
    C.HasKidsIff(e.body);
    T.AllTidyIff(e.body);
    assert w.kids == AllComponents(styleOf, T.TreesOf(e.body));
  }

  lemma {:induction false} TextsAmong(styleOf: map<string, string> -> Style, b: C.Body, depth: nat)
    ensures Texts(Preorders(AllComponents(styleOf, T.TreesOf(b)), depth)) == PrintedAmong(b)
    decreases b, 0
  {
    match b
    case Plain(_) =>
    case Child(_, elem, more) =>
      var vs := T.TreesOf(b);
      assert vs[0] == T.TreeOf(elem) && vs[1..] == T.TreesOf(more);
      if elem.name != "script" {
        TextsOfElement(styleOf, elem, depth);
      }
      TextsAmong(styleOf, more, depth);
      PreordersAppend(Components(styleOf, vs[0]), AllComponents(styleOf, vs[1..]), depth);
      TextsAppend(Preorders(Components(styleOf, vs[0]), depth), Preorders(AllComponents(styleOf, vs[1..]), depth));
    case Marked(_, _, more) => TextsAmong(styleOf, more, depth);
  }

  /**
   From the source to the components: the page of a canonical source with tidy begin tags and a
   token behind it shows exactly the texts printed for its elements, scripts and what stands
   directly under the root apart.
   */
  lemma PageShowsItsTexts(styleOf: map<string, string> -> Style, e: C.Elem, tail: string)
    requires C.Good(e) && e.name == "html" && T.Tidy(e) && tail != "" && L.Lex(tail).Lexed?
    ensures var r := G.ParseHtml(C.Print(e) + tail);
            && r.Done? && r.value.Some? && Filled(r.value.value)
            && Texts(Preorder(PageComponents(styleOf, r.value.value), 0)) == [""] + PrintedAmong(e.body)
  {
    CanonicalPageLoads(e, tail);
    T.TidyIff(e);
    TextsOfPage(styleOf, e);
    hide *;
  }

  lemma TextsOfPage(styleOf: map<string, string> -> Style, e: C.Elem)
    ensures Texts(Preorder(PageComponents(styleOf, T.TreeOf(e)), 0)) == [""] + PrintedAmong(e.body)
  {
    var w := PageComponents(styleOf, T.TreeOf(e));
    TextsAmong(styleOf, e.body, 1);
    TextsAppend([(w.node, 0)], Preorders(w.kids, 1));
    C.HasKidsIff(e.body);
    T.AllTidyIff(e.body);
    assert w.kids == AllComponents(styleOf, T.TreesOf(e.body));
  }
}
