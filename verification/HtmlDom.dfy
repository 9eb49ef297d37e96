/** The tree the HTML parser fills in place (skia/jsGUI/htmlParser.h). */
module HtmlDom {
  import G = HtmlGrammar

  /** `Node`: a text, or a list of elements; `Unset` is the pointer `DOM::children` before it is assigned. */
  datatype Node = Unset | Str(strVal: string) | List(list: seq<DOM>)

  class DOM {
    var name: string
    var attributes: map<string, string>
    var innerHtml: string
    var children: Node

    constructor (name: string)
      ensures this.name == name && attributes == map[] && innerHtml == "" && children == Unset
    {
      this.name := name;
      attributes := map[];
      innerHtml := "";
      children := Unset;
    }
  }

  /** The objects of a tree, without their contents. */
  datatype Shape = Shape(dom: DOM, kids: seq<Shape>)

  function Doms(kids: seq<Shape>): (r: seq<DOM>)
    ensures |r| == |kids| && forall i :: 0 <= i < |kids| ==> r[i] == kids[i].dom
  {
    seq(|kids|, i requires 0 <= i < |kids| => kids[i].dom)
  }

  function Objects(s: Shape): (r: set<DOM>)
    ensures s.dom in r
    decreases s
  {
    {s.dom} + AllObjects(s.kids)
  }

  function AllObjects(kids: seq<Shape>): set<DOM>
    decreases kids
  {
    if kids == [] then {} else Objects(kids[0]) + AllObjects(kids[1..])
  }

  /** No object occurs twice. */
  ghost predicate IsTree(s: Shape)
    decreases s
  {
    s.dom !in AllObjects(s.kids) && IsForest(s.kids)
  }

  ghost predicate IsForest(kids: seq<Shape>)
    decreases kids
  {
    kids == [] || (IsTree(kids[0]) && IsForest(kids[1..]) && Objects(kids[0]) !! AllObjects(kids[1..]))
  }

  /** The objects, all of them among objs, hold exactly this value. */
  ghost predicate Holds(s: Shape, v: G.Dom, objs: set<DOM>)
    reads objs
    decreases s
  {
    && s.dom in objs
    && s.dom.name == v.name
    && s.dom.attributes == v.attributes
    && s.dom.innerHtml == v.innerHtml
    && NodeHolds(s.dom.children, s.kids, v.children, objs)
  }

  ghost predicate NodeHolds(node: Node, kids: seq<Shape>, v: G.Children, objs: set<DOM>)
    reads objs
    decreases kids, 1
  {
    match v
    case Unset => node == Unset && kids == []
    case Text(t) => node == Str(t) && kids == []
    case Elements(vs) => node == List(Doms(kids)) && AllHold(kids, vs, objs)
  }

  ghost predicate AllHold(kids: seq<Shape>, vs: seq<G.Dom>, objs: set<DOM>)
    reads objs
    decreases kids, 0
  {
    |kids| == |vs| && (kids == [] || (Holds(kids[0], vs[0], objs) && AllHold(kids[1..], vs[1..], objs)))
  }

  /** A tree of distinct objects under dom that holds v. */
  ghost predicate Stands(s: Shape, dom: DOM, v: G.Dom)
    reads Objects(s)
  {
    s.dom == dom && IsTree(s) && Holds(s, v, Objects(s))
  }

  /** A list of such trees, of distinct objects throughout. */
  ghost predicate AllStand(kids: seq<Shape>, doms: seq<DOM>, vs: seq<G.Dom>)
    reads AllObjects(kids)
  {
    doms == Doms(kids) && IsForest(kids) && AllHold(kids, vs, AllObjects(kids))
  }

  lemma {:induction false} HoldsAmong(s: Shape, v: G.Dom, objs: set<DOM>)
    requires Objects(s) <= objs
    ensures Holds(s, v, Objects(s)) <==> Holds(s, v, objs)
    decreases s
  {
    NodeHoldsAmong(s.dom.children, s.kids, v.children, objs);
    NodeHoldsAmong(s.dom.children, s.kids, v.children, Objects(s));
  }

  lemma {:induction false} NodeHoldsAmong(node: Node, kids: seq<Shape>, v: G.Children, objs: set<DOM>)
    requires AllObjects(kids) <= objs
    ensures NodeHolds(node, kids, v, AllObjects(kids)) <==> NodeHolds(node, kids, v, objs)
    decreases kids, 1
  {
    if v.Elements? {
      AllHoldAmong(kids, v.list, objs);
    }
  }

  lemma {:induction false} AllHoldAmong(kids: seq<Shape>, vs: seq<G.Dom>, objs: set<DOM>)
    requires AllObjects(kids) <= objs
    ensures AllHold(kids, vs, AllObjects(kids)) <==> AllHold(kids, vs, objs)
    decreases kids, 0
  {
    if kids != [] && |kids| == |vs| {
      HoldsAmong(kids[0], vs[0], objs);
      HoldsAmong(kids[0], vs[0], AllObjects(kids));
      AllHoldAmong(kids[1..], vs[1..], objs);
      AllHoldAmong(kids[1..], vs[1..], AllObjects(kids));
    }
  }

  // ---------- one more child at the end ----------

  lemma {:induction false} AppendObjects(kids: seq<Shape>, k: Shape)
    ensures AllObjects(kids + [k]) == AllObjects(kids) + Objects(k)
    decreases kids
  {
    if kids != [] {
      assert (kids + [k])[1..] == kids[1..] + [k];
      AppendObjects(kids[1..], k);
    }
  }

  lemma {:induction false} AppendForest(kids: seq<Shape>, k: Shape)
    requires IsForest(kids) && IsTree(k) && AllObjects(kids) !! Objects(k)
    ensures IsForest(kids + [k])
    decreases kids
  {
    if kids == [] {
      assert kids + [k] == [k] && [k][1..] == [];
    } else {
      var more := kids[1..] + [k];
      assert (kids + [k])[1..] == more && (kids + [k])[0] == kids[0];
      AppendForest(kids[1..], k);
      AppendObjects(kids[1..], k);
      assert Objects(kids[0]) !! AllObjects(more);
    }
  }

  lemma {:induction false} AppendHold(kids: seq<Shape>, vs: seq<G.Dom>, k: Shape, v: G.Dom, objs: set<DOM>)
    requires AllHold(kids, vs, objs) && Holds(k, v, objs)
    ensures AllHold(kids + [k], vs + [v], objs)
    decreases kids
  {
    if kids != [] {
      assert (kids + [k])[1..] == kids[1..] + [k] && (vs + [v])[1..] == vs[1..] + [v];
      AppendHold(kids[1..], vs[1..], k, v, objs);
    }
  }

  /** A new child at the end: the list still stands. */
  lemma AppendChild(kids: seq<Shape>, doms: seq<DOM>, vs: seq<G.Dom>, k: Shape, v: G.Dom)
    requires AllStand(kids, doms, vs) && Stands(k, k.dom, v) && AllObjects(kids) !! Objects(k)
    ensures AllStand(kids + [k], doms + [k.dom], vs + [v])
    ensures AllObjects(kids + [k]) == AllObjects(kids) + Objects(k)
  {
    var objs := AllObjects(kids + [k]);
    AppendObjects(kids, k);
    AppendForest(kids, k);
    AllHoldAmong(kids, vs, objs);
    HoldsAmong(k, v, objs);
    AppendHold(kids, vs, k, v, objs);
  }

  /** A list that stands, hung under an object outside it. */
  lemma HangIn(dom: DOM, kids: seq<Shape>, vs: seq<G.Dom>, v: G.Dom)
    requires AllStand(kids, Doms(kids), vs) && dom !in AllObjects(kids)
    requires dom.name == v.name && dom.attributes == v.attributes && dom.innerHtml == v.innerHtml
    requires if kids == [] then dom.children.Str? && v.children == G.Text(dom.children.strVal)
             else dom.children == List(Doms(kids)) && v.children == G.Elements(vs)
    ensures Stands(Shape(dom, kids), dom, v)
  {
    AllHoldAmong(kids, vs, Objects(Shape(dom, kids)));
  }
}
