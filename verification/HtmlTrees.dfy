/** The round trip on trees: every tree of names, quotable values and plain texts has a source that brings it back. */
module HtmlTrees {
  import opened Chars
  import opened HtmlLexer
  import opened HtmlGrammar
  import opened HtmlCanonical
  import opened HtmlTheorems

  /** A tree that has a printed form; nothing is asked of its slices. */
  predicate Printable(d: Dom)
    decreases d, 0
  {
    && IsName(d.name) && (forall key :: key in d.attributes ==> IsName(key) && IsQuotable(d.attributes[key]))
    && match d.children
       case Unset => false
       case Text(text) => IsPlain(text)
       case Elements(list) => d.name != "script" && list != [] && AllPrintable(list)
  }

  predicate AllPrintable(list: seq<Dom>)
    decreases list, 0
  {
    list == [] || (Printable(list[0]) && AllPrintable(list[1..]))
  }

  // ---------- printing ----------

  /** The attributes in some order. */
  ghost function ListOf(m: map<string, string>): seq<Attribute>
    decreases m.Keys
  {
    if m.Keys == {} then []
    else
      var key :| key in m.Keys;
      [Attribute(" ", key, Some(m[key]))] + ListOf(m - {key})
  }

  ghost function SourceOf(d: Dom): Elem
    decreases d, 1
  {
    Elem(d.name, ListOf(d.attributes), "", BodyOf(d.children))
  }

  ghost function BodyOf(c: Children): Body
    decreases c, 0
  {
    match c
    case Unset => Plain("")
    case Text(text) => Plain(text)
    case Elements(list) => KidsBody(list)
  }

  ghost function KidsBody(list: seq<Dom>): Body
    decreases list, 0
  {
    if list == [] then Plain("") else Child("", SourceOf(list[0]), KidsBody(list[1..]))
  }

  lemma {:induction false} ListStandsFor(m: map<string, string>)
    requires forall key :: key in m ==> IsName(key) && IsQuotable(m[key])
    ensures forall i :: 0 <= i < |ListOf(m)| ==> GoodAttribute(ListOf(m)[i])
    ensures AttributeMap(ListOf(m)) == m && Flags(ListOf(m)) == ""
    decreases m.Keys
  {
    if m.Keys != {} {
      var key :| key in m.Keys && ListOf(m) == [Attribute(" ", key, Some(m[key]))] + ListOf(m - {key});
      var less := m - {key};
      ListStandsFor(less);
      assert ListOf(m)[1..] == ListOf(less);
      assert less[key := m[key]] == m;
      FlagsBehind(ListOf(m));
    }
  }

  lemma FlagsBehind(attributes: seq<Attribute>)
    requires attributes != [] && attributes[0].value.Some?
    ensures Flags(attributes) == Flags(attributes[1..])
  {}

  lemma {:induction false} SourceIsGood(d: Dom)
    requires Printable(d)
    ensures Good(SourceOf(d)) && Tidy(SourceOf(d))
    decreases d, 1
  {
    ListStandsFor(d.attributes);
    if d.children.Elements? {
      KidsAreGood(d.name, d.children.list);
    }
  }

  lemma {:induction false} KidsAreGood(owner: string, list: seq<Dom>)
    requires AllPrintable(list) && owner != "script"
    ensures GoodBody(owner, KidsBody(list)) && AllTidy(KidsBody(list))
    decreases list, 0
  {
    if list != [] {
      SourceIsGood(list[0]);
      KidsAreGood(owner, list[1..]);
    }
  }

  // ---------- what comes back ----------

  /** The same names, attributes, texts and children in the same order. */
  predicate SameShape(a: Dom, b: Dom)
    decreases a, 0
  {
    && a.name == b.name && a.attributes == b.attributes
    && match a.children
       case Unset => b.children.Unset?
       case Text(text) => b.children == Text(text)
       case Elements(list) => b.children.Elements? && SameShapes(list, b.children.list)
  }

  predicate SameShapes(a: seq<Dom>, b: seq<Dom>)
    decreases a, 0
  {
    |a| == |b| && (a == [] || (SameShape(a[0], b[0]) && SameShapes(a[1..], b[1..])))
  }

  /** Every slice of the tree is what is printed for the children. */
  ghost predicate HasSlices(d: Dom)
    decreases d, 0
  {
    d.innerHtml == PrintBody(BodyOf(d.children)) && (d.children.Elements? ==> AllHaveSlices(d.children.list))
  }

  ghost predicate AllHaveSlices(list: seq<Dom>)
    decreases list, 0
  {
    list == [] || (HasSlices(list[0]) && AllHaveSlices(list[1..]))
  }

  lemma {:induction false} SourceStandsFor(d: Dom)
    requires Printable(d)
    ensures SameShape(TreeOf(SourceOf(d)), d)
    ensures TreeOf(SourceOf(d)) == d <==> HasSlices(d)
    decreases d, 1
  {
    ListStandsFor(d.attributes);
    if d.children.Elements? {
      KidsStandFor(d.children.list);
    }
  }

  lemma {:induction false} KidsStandFor(list: seq<Dom>)
    requires AllPrintable(list)
    ensures SameShapes(TreesOf(KidsBody(list)), list)
    ensures TreesOf(KidsBody(list)) == list <==> AllHaveSlices(list)
    decreases list, 0
  {
    if list != [] {
      SourceStandsFor(list[0]);
      KidsStandFor(list[1..]);
      var trees := TreesOf(KidsBody(list));
      assert trees[0] == TreeOf(SourceOf(list[0])) && trees[1..] == TreesOf(KidsBody(list[1..]));
    }
  }

  /**
   Print, then parse: names, attributes, texts and the order of the children of any printable tree
   come back, and the tree itself if and only if its slices are the printed contents.  The parse
   fails only if what follows the root opens a string that nothing closes.
   */
  lemma TreeRoundTripIff(d: Dom, tail: string)
    requires Printable(d) && d.name == "html" && tail != ""
    ensures var r := ParseHtml(Print(SourceOf(d)) + tail);
            && (Lex(tail).Lexed? ==> r.Done? && r.value.Some? && SameShape(r.value.value, d))
            && ((r.Done? && r.value == Some(d)) <==> HasSlices(d) && Lex(tail).Lexed?)
  {
    SourceIsGood(d);
    SourceStandsFor(d);
    RoundTripIff(SourceOf(d), tail);
  }
}
