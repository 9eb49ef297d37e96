/** Drawing components, what is painted of them, and which of them a click finds. */
module BrowserDraw {
  import opened Chars
  import opened LevelOrder

  /** The toolbar above the page. */
  const CANVAS_TOP := 40.0

  /** The numbers and colours of a component, as `domToDiv` reads them off the attributes. */
  datatype Style = Style(x: real, y: real, width: real, height: real, paddingLeft: real, fontSize: int, color: nat, background: nat)

  class DivComponent {
    var style: Style
    var innerText: string
    var children: seq<DivComponent>

    constructor (style: Style)
      ensures this.style == style && innerText == "" && children == []
    {
      this.style := style;
      innerText := "";
      children := [];
    }
  }

  /** What a component looks like, its children apart. */
  datatype Look = Look(style: Style, innerText: string)

  /** The components of t, all of them among objs, form the tree t and look like w. */
  ghost predicate Drawn(t: Tree<DivComponent>, w: Tree<Look>, objs: set<DivComponent>)
    reads objs
    decreases t
  {
    && t.node in objs
    && t.node.style == w.node.style && t.node.innerText == w.node.innerText
    && t.node.children == Roots(t.kids)
    && AllDrawn(t.kids, w.kids, objs)
  }

  ghost predicate AllDrawn(ts: seq<Tree<DivComponent>>, ws: seq<Tree<Look>>, objs: set<DivComponent>)
    reads objs
    decreases ts
  {
    |ts| == |ws| && (ts == [] || (Drawn(ts[0], ws[0], objs) && AllDrawn(ts[1..], ws[1..], objs)))
  }

  lemma {:induction false} AllDrawnAppend(a: seq<Tree<DivComponent>>, b: seq<Tree<DivComponent>>,
                                          v: seq<Tree<Look>>, w: seq<Tree<Look>>, objs: set<DivComponent>)
    requires AllDrawn(a, v, objs) && AllDrawn(b, w, objs)
    ensures AllDrawn(a + b, v + w, objs)
    decreases |a|
  {
    if a == [] {
      assert a + b == b && v + w == w;
    } else {
      assert (a + b)[1..] == a[1..] + b && (v + w)[1..] == v[1..] + w;
      AllDrawnAppend(a[1..], b, v[1..], w, objs);
    }
  }

  lemma {:induction false} AllDrawnAmong(ts: seq<Tree<DivComponent>>, ws: seq<Tree<Look>>, objs: set<DivComponent>, more: set<DivComponent>)
    requires AllDrawn(ts, ws, objs) && objs <= more
    ensures AllDrawn(ts, ws, more)
    decreases ts
  {
    if ts != [] {
      AllDrawnAmong(ts[0].kids, ws[0].kids, objs, more);
      AllDrawnAmong(ts[1..], ws[1..], objs, more);
    }
  }

  lemma AllDrawnJoin(a: seq<Tree<DivComponent>>, v: seq<Tree<Look>>, objs: set<DivComponent>,
                     b: seq<Tree<DivComponent>>, w: seq<Tree<Look>>, more: set<DivComponent>)
    requires AllDrawn(a, v, objs) && AllDrawn(b, w, more)
    ensures AllDrawn(a + b, v + w, objs + more) && Roots(a + b) == Roots(a) + Roots(b)
  {
    AllDrawnAmong(a, v, objs, objs + more);
    AllDrawnAmong(b, w, more, objs + more);
    AllDrawnAppend(a, b, v, w, objs + more);
  }

  /** Components and looks are met in step: each component looks as the tree of looks says. */
  lemma {:induction false} WorklistsAgree(ts: seq<Tree<DivComponent>>, ws: seq<Tree<Look>>, objs: set<DivComponent>)
    requires AllDrawn(ts, ws, objs)
    ensures |Worklist(ts)| == |Worklist(ws)|
    ensures forall i :: 0 <= i < |Worklist(ts)| ==> LooksLike(Worklist(ts)[i], Worklist(ws)[i])
    decreases Sizes(ts)
  {
    if ts != [] {
      var ts', ws' := ts[1..] + ts[0].kids, ws[1..] + ws[0].kids;
      AllDrawnAppend(ts[1..], ts[0].kids, ws[1..], ws[0].kids, objs);
      SizesAppend(ts[1..], ts[0].kids);
      assert Size(ts[0]) == 1 + Sizes(ts[0].kids);
      WorklistsAgree(ts', ws', objs);
      assert Worklist(ts) == [ts[0].node] + Worklist(ts') && Worklist(ws) == [ws[0].node] + Worklist(ws');
    }
  }

  ghost predicate LooksLike(div: DivComponent, look: Look)
    reads div
  {
    div.style == look.style && div.innerText == look.innerText
  }

  // ---------- painting ----------

  datatype Drawing =
    | Rect(x: real, y: real, width: real, height: real, color: nat)
    | SimpleText(text: string, x: real, y: real, size: int, color: nat)

  /** C++ division by two. */
  function Half(n: int): int { if n >= 0 then n / 2 else -(-n / 2) }

  /** What is painted of one component: a rectangle if it has a background, its text if it has one. */
  function Paint(look: Look): seq<Drawing> {
    var s := look.style;
    (if s.background != 0 then [Rect(s.x, s.y + CANVAS_TOP, s.width, s.height, s.background)] else [])
    + (if look.innerText != "" then
         [SimpleText(look.innerText, s.x + s.paddingLeft,
                     CANVAS_TOP + s.y + s.height / 2.0 + Half(s.fontSize) as real, s.fontSize, s.color)]
       else [])
  }

  function PaintAll(looks: seq<Look>): seq<Drawing>
    decreases |looks|
  {
    if looks == [] then [] else PaintAll(looks[..|looks| - 1]) + Paint(looks[|looks| - 1])
  }

  // ---------- hit test ----------

  /** The point lies in the component's rectangle, borders included. */
  predicate Inside(style: Style, x: real, y: real) {
    && style.x <= x <= style.x + style.width
    && style.y + CANVAS_TOP <= y <= style.y + style.height + CANVAS_TOP
  }

  /** The last of the looks whose rectangle holds the point. */
  function LastInside(looks: seq<Look>, x: real, y: real): (r: Option<nat>)
    ensures r.Some? ==> r.value < |looks| && Inside(looks[r.value].style, x, y)
                        && forall i :: r.value < i < |looks| ==> !Inside(looks[i].style, x, y)
    ensures r == None ==> forall i :: 0 <= i < |looks| ==> !Inside(looks[i].style, x, y)
    decreases |looks|
  {
    if looks == [] then None
    else if Inside(looks[|looks| - 1].style, x, y) then Some(|looks| - 1)
    else LastInside(looks[..|looks| - 1], x, y)
  }

  /**
   The hit test meets every component of the tree once and level by level; the hit is the last one
   in this order that holds the point, so no component that does lies deeper; and there is no hit
   only if no component holds it.
   */
  lemma HitInOrder(w: Tree<Look>, x: real, y: real)
    ensures var order := Levels([w], 0);
            && Worklist([w]) == Nodes(order) && multiset(order) == multiset(Preorder(w, 0))
            && match LastInside(Worklist([w]), x, y)
               case Some(k) =>
                 && Inside(order[k].0.style, x, y)
                 && (forall i :: k < i < |order| ==> !Inside(order[i].0.style, x, y))
                 && forall n :: n in Preorder(w, 0) && Inside(n.0.style, x, y) ==> n.1 <= order[k].1
               case None => forall n :: n in Preorder(w, 0) ==> !Inside(n.0.style, x, y)
  {
    var order := Levels([w], 0);
    WorklistIsLevels([w], 0);
    DepthsRise([w], 0);
    EveryNodeOnce([w], 0);
    assert Preorders([w], 0) == Preorder(w, 0) by {
      assert [w][1..] == [] && Preorder(w, 0) + [] == Preorder(w, 0);
    }
    var hit := LastInside(Worklist([w]), x, y);
    forall n | n in Preorder(w, 0) && Inside(n.0.style, x, y)
      ensures hit.Some? && n.1 <= order[hit.value].1
    {
      assert n in multiset(order);
      var i :| 0 <= i < |order| && order[i] == n;
      assert Nodes(order)[i] == n.0;
      assert hit.Some? && i <= hit.value;
    }
  }
}
