/**
 skia/jsGUI/SimpleBrowser.cpp as it runs: loading a page, building its draw tree and its id index,
 changing an attribute, painting, and finding the component under a click.
 */
module Browser {
  import opened Chars
  import opened LevelOrder
  import opened BrowserDraw
  import opened BrowserCanvas
  import opened BrowserIndex
  import opened HtmlDom
  import G = HtmlGrammar
  import M = HtmlMachine

  class SimpleBrowser {
    const styleOf: map<string, string> -> Style
    const parser: M.HtmlParser
    var rootDOM: DOM?
    var rootDrawObj: DivComponent?
    var idDomMap: map<string, DOM>

    constructor (styleOf: map<string, string> -> Style)
      ensures rootDOM == null && rootDrawObj == null && idDomMap == map[] && fresh(parser) && this.styleOf == styleOf
    {
      this.styleOf := styleOf;
      parser := new M.HtmlParser();
      rootDOM, rootDrawObj, idDomMap := null, null, map[];
    }

    /** `domToDiv`: a component with the element's style, and the element registered under its id. */
    method DomToDiv(dom: DOM) returns (div: DivComponent)
      modifies this`idDomMap
      ensures fresh(div) && div.style == styleOf(dom.attributes) && div.innerText == "" && div.children == []
      ensures idDomMap == Register(old(idDomMap), Entry(dom, dom.attributes))
    {
      div := new DivComponent(styleOf(dom.attributes));
      if "id" in dom.attributes {
        var id := dom.attributes["id"];
        if id !in idDomMap {
          idDomMap := idDomMap[id := dom];
        }
      }
    }

    /** `parseDOM`: the components of an element, new ones throughout, come behind its parent's children. */
    method ParseDOM(parentDiv: DivComponent, curDOM: DOM, ghost s: Shape, ghost v: G.Dom, ghost objs: set<DOM>)
      returns (ghost ts: seq<Tree<DivComponent>>, ghost divs: set<DivComponent>)
      requires s.dom == curDOM && Holds(s, v, objs) && Filled(v)
      modifies this`idDomMap, parentDiv`children
      ensures parentDiv.children == old(parentDiv.children) + Roots(ts)
      ensures AllDrawn(ts, Components(styleOf, v), divs) && fresh(divs)
      ensures idDomMap == RegisterAll(old(idDomMap), Document(s, v))
      decreases s
    {
      if curDOM.name == "script" {
        return [], {};
      }
      var dom := DomToDiv(curDOM);
      ghost var kids: seq<Tree<DivComponent>>, under: set<DivComponent> := [], {};
      match curDOM.children {
        case Str(strVal) =>
          dom.innerText := strVal;
        case List(list) =>
          kids, under := ParseChildren(dom, list, s.kids, v.children.list, objs);
      }
      parentDiv.children := parentDiv.children + [dom];
      ts, divs := [Tree(dom, kids)], {dom} + under;
      ghost var ws := if v.children.Elements? then AllComponents(styleOf, v.children.list) else [];
      AllDrawnAmong(kids, ws, under, divs);
      assert Drawn(ts[0], Tree(LookOf(styleOf, v), ws), divs);
    }

    /** The loop over the children of an element. */
    method ParseChildren(dom: DivComponent, list: seq<DOM>, ghost kids: seq<Shape>, ghost vs: seq<G.Dom>, ghost objs: set<DOM>)
      returns (ghost ts: seq<Tree<DivComponent>>, ghost divs: set<DivComponent>)
      requires list == Doms(kids) && AllHold(kids, vs, objs) && AllFilled(vs)
      modifies this`idDomMap, dom`children
      ensures dom.children == old(dom.children) + Roots(ts)
      ensures AllDrawn(ts, AllComponents(styleOf, vs), divs) && fresh(divs)
      ensures idDomMap == RegisterAll(old(idDomMap), Documents(kids, vs))
      decreases kids
    {
      var i := 0;
      ts, divs := [], {};
      ghost var ws: seq<Tree<Look>>, restKids, restVs := [], kids, vs;
      ghost var children := dom.children;
      ghost var index, looks := RegisterAll(idDomMap, Documents(kids, vs)), AllComponents(styleOf, vs);
      assert ws + looks == looks;
      while i < |list|
        invariant 0 <= i <= |list| && restKids == kids[i..]
        invariant dom.children == children + Roots(ts)
        invariant AllDrawn(ts, ws, divs) && fresh(divs)
        invariant AllHold(restKids, restVs, objs) && AllFilled(restVs)
        invariant ws + AllComponents(styleOf, restVs) == looks
        invariant RegisterAll(idDomMap, Documents(restKids, restVs)) == index
      {
        ghost var k, v := restKids[0], restVs[0];
        restKids, restVs := restKids[1..], restVs[1..];
        RegisterAppend(idDomMap, Document(k, v), Documents(restKids, restVs));
        ghost var more, under := ParseDOM(dom, list[i], k, v, objs);
        AllDrawnJoin(ts, ws, divs, more, Components(styleOf, v), under);
        Regroup(ws, Components(styleOf, v), AllComponents(styleOf, restVs));
        Regroup(children, Roots(ts), Roots(more));
        ts, divs, ws := ts + more, divs + under, ws + Components(styleOf, v);
        i := i + 1;
      }
      assert ws + [] == ws;
    }

    /** The page in memory, with its draw tree: what the fields stand for. */
    ghost predicate Shows(s: Shape, v: G.Dom, t: Tree<DivComponent>, objs: set<DOM>, divs: set<DivComponent>)
      reads this, objs, divs
    {
      && rootDOM == s.dom && IsTree(s) && Holds(s, v, objs) && Filled(v)
      && rootDrawObj == t.node && Drawn(t, PageComponents(styleOf, v), divs)
    }

    /** `drawRoot`: a new draw tree; the index is added to. */
    method DrawRoot(ghost s: Shape, ghost v: G.Dom, ghost objs: set<DOM>)
      returns (ghost t: Tree<DivComponent>, ghost divs: set<DivComponent>)
      requires rootDOM == s.dom && IsTree(s) && Holds(s, v, objs) && Filled(v)
      modifies this`idDomMap, this`rootDrawObj
      ensures Shows(s, v, t, objs, divs) && fresh(divs)
      ensures idDomMap == RegisterAll(old(idDomMap), Page(s, v))
    {
      var div := DomToDiv(rootDOM);
      rootDrawObj := div;
      ghost var ts: seq<Tree<DivComponent>>, under: set<DivComponent> := [], {};
      RegisterAppend(old(idDomMap), [Entry(s.dom, v.attributes)], Documents(s.kids, KidsOf(v)));
      assert RegisterAll(old(idDomMap), [Entry(s.dom, v.attributes)]) == idDomMap;
      if rootDOM.children.List? {
        ts, under := ParseChildren(div, rootDOM.children.list, s.kids, v.children.list, objs);
      }
      t, divs := Tree(div, ts), {div} + under;
      AllDrawnAmong(ts, AllComponents(styleOf, KidsOf(v)), under, divs);
    }

    /** `loadUri`, from the content on: an empty one leaves everything but the index. */
    method LoadContent(content: string)
      returns (status: M.Status, ghost s: Option<Shape>, ghost t: Option<Tree<DivComponent>>, ghost divs: set<DivComponent>)
      requires content != "" ==> match G.ParseHtml(content) case Done(_, r) => r.Some? && Filled(r.value) case _ => true
      modifies this`idDomMap, this`rootDOM, this`rootDrawObj, parser
      ensures content == "" ==> status == M.Finished && idDomMap == map[] && rootDOM == old(rootDOM) && rootDrawObj == old(rootDrawObj)
      ensures content != "" ==>
                match G.ParseHtml(content)
                case Hang => status == M.Hanging
                case LengthError => status == M.Threw
                case Done(_, r) =>
                  && status == M.Finished && s.Some? && t.Some?
                  && Shows(s.value, r.value, t.value, Objects(s.value), divs) && fresh(divs) && fresh(Objects(s.value))
                  && idDomMap == RegisterAll(map[], Page(s.value, r.value))
                  && Exact(idDomMap, Page(s.value, r.value))
    {
      idDomMap := map[];
      s, t, divs := None, None, {};
      if |content| == 0 {
        return M.Finished, s, t, divs;
      }
      var root;
      status, root, s := parser.ParseHtml(content);
      if status != M.Finished {
        return;
      }
      rootDOM := root;
      ghost var v := G.ParseHtml(content).value.value;
      ghost var tree;
      tree, divs := DrawRoot(s.value, v, Objects(s.value));
      t := Some(tree);
      FreshIndexIsExact(Page(s.value, v));
    }

    /**
     The lookup of `js_getElementById`.  As long as the index is exact for the page's entries, the
     result is null if and only if no entry has the id, and the element of the first that has it otherwise.
     */
    method GetElementById(id: string, ghost entries: seq<Entry>) returns (dom: DOM?)
      ensures dom == if id in idDomMap then idDomMap[id] else null
      ensures Exact(idDomMap, entries) ==>
                && (dom == null <==> forall k :: 0 <= k < |entries| ==> IdOf(entries[k]) != Some(id))
                && (dom != null ==> exists k: nat :: IsFirst(entries, id, k) && entries[k].dom == dom)
    {
      if Exact(idDomMap, entries) {
        LookupIsFirst(idDomMap, entries, id);
      }
      if id !in idDomMap {
        return null;
      }
      return idDomMap[id];
    }

    /** `js_setAttribute` on the element of an id: the attribute is set in place and the page drawn again. */
    method SetAttribute(id: string, key: string, value: string, ghost s: Shape, ghost v: G.Dom,
                        ghost t: Tree<DivComponent>, ghost objs: set<DOM>, ghost divs: set<DivComponent>)
      returns (ghost v': G.Dom, ghost t': Tree<DivComponent>, ghost divs': set<DivComponent>)
      requires Shows(s, v, t, objs, divs)
      requires id in idDomMap ==> idDomMap[id] in objs
      modifies this`idDomMap, this`rootDrawObj, if id in idDomMap then {idDomMap[id]} else {}
      ensures (idDomMap, v') == SetOne(s, old(idDomMap), v, SetCall(id, key, value))
      ensures Shows(s, v', t', objs, divs')
      ensures old(Exact(idDomMap, Page(s, v))) ==>
                (Exact(idDomMap, Page(s, v')) <==> id !in old(idDomMap) || key != "id" || value == id)
    {
      if id !in idDomMap {
        return v, t, divs;
      }
      var dom := idDomMap[id];
      ghost var mem := Snapshot(objs);
      HeldNow(s, v, objs);
      HeldAfterSet(mem, s, v, dom, key, value);
      dom.attributes := dom.attributes[key := value];
      v' := SetIn(s, v, dom, key, value);
      assert Snapshot(objs) == mem[dom := mem[dom].(attributes := mem[dom].attributes[key := value])];
      HeldNow(s, v', objs);
      FilledAfterSet(s, v, dom, key, value);
      t', divs' := DrawRoot(s, v', objs);
      PageAfterSet(s, v, dom, key, value);
      PageDistinct(s, v);
      if old(Exact(idDomMap, Page(s, v))) {
        ExactAfterSetIff(old(idDomMap), Page(s, v), id, key, value);
      }
    }

    /**
     `onPaint`: the draw tree on the canvas, over a worklist that grows while it is walked.  The
     canvas shows the components level by level; owner says of each drawing whose it is.
     */
    method OnPaint(ghost t: Tree<DivComponent>, ghost w: Tree<Look>, ghost objs: set<DivComponent>)
      returns (canvas: seq<Drawing>, ghost owner: seq<nat>)
      requires rootDrawObj != null ==> rootDrawObj == t.node && Drawn(t, w, objs)
      ensures rootDrawObj == null ==> canvas == []
      ensures rootDrawObj != null ==> Pictures(canvas, Nodes(Levels([w], 0)), owner)
    {
      owner := [];
      canvas := [];
      var divs: seq<DivComponent> := [];
      ghost var queue: seq<Tree<DivComponent>>, looks: seq<Tree<Look>>, seen: seq<Look> := [], [], [];
      if rootDrawObj != null {
        divs := divs + [rootDrawObj];
        queue, looks := [t], [w];
      }
      ghost var all := Worklist(looks);
      ghost var visited: seq<DivComponent> := [];
      var i := 0;
      while i < |divs|
        invariant |visited| == i && divs == visited + Roots(queue)
        invariant AllDrawn(queue, looks, objs)
        invariant seen + Worklist(looks) == all && canvas == PaintAll(seen)
        decreases Sizes(queue)
      {
        var div := divs[i];
        assert div == queue[0].node;
        var drawings := PaintOne(div);
        canvas := canvas + drawings;
        NextLook(seen, looks);
        PaintOneMore(seen, looks[0].node);
        divs := AppendChildren(divs, div);
        Regroup(visited, Roots(queue), div.children);
        queue, looks, seen := NextVisit(queue, looks, seen, objs);
        Regroup(visited, [div], Roots(queue));
        visited := visited + [div];
        i := i + 1;
      }
      assert seen + [] == seen;
      if rootDrawObj != null {
        owner := Owners(seen);
        PaintShows(seen);
        WorklistIsLevels([w], 0);
      }
    }

    /** The drawing of one component. */
    method PaintOne(div: DivComponent) returns (canvas: seq<Drawing>)
      ensures canvas == Paint(Look(div.style, div.innerText))
    {
      var s := div.style;
      canvas := [];
      if s.background != 0 {
        canvas := canvas + [Rect(s.x, s.y + CANVAS_TOP, s.width, s.height, s.background)];
      }
      if |div.innerText| != 0 {
        canvas := canvas + [SimpleText(div.innerText, s.x + s.paddingLeft,
                                       CANVAS_TOP + s.y + s.height / 2.0 + Half(s.fontSize) as real, s.fontSize, s.color)];
      }
    }

    /** The inner loop of both worklists. */
    method AppendChildren(divs: seq<DivComponent>, div: DivComponent) returns (r: seq<DivComponent>)
      ensures r == divs + div.children
    {
      r := divs;
      for k := 0 to |div.children|
        invariant r == divs + div.children[..k]
      {
        r := r + [div.children[k]];
      }
    }

    /**
     `onFindClickHandler`, up to the component found: the last in the order of painting that holds
     the point, which lies in the rectangle painted for it on any canvas that shows the components.
     */
    method FindDiv(x: real, y: real, ghost t: Tree<DivComponent>, ghost w: Tree<Look>, ghost objs: set<DivComponent>,
                   ghost canvas: seq<Drawing>, ghost owner: seq<nat>)
      returns (findDiv: DivComponent?)
      requires rootDrawObj != null ==> rootDrawObj == t.node && Drawn(t, w, objs)
      ensures rootDrawObj == null ==> findDiv == null
      ensures rootDrawObj != null ==>
                && |Worklist([t])| == |Worklist([w])|
                && match LastInside(Worklist([w]), x, y)
                   case None => findDiv == null
                   case Some(k) => findDiv == Worklist([t])[k]
      ensures findDiv != null ==>
                var s := findDiv.style; s.x <= x <= s.x + s.width && s.y + 40.0 <= y <= s.y + s.height + 40.0
      ensures rootDrawObj != null ==>
                forall i :: 0 <= i < |Worklist([t])| && Inside(Worklist([t])[i].style, x, y) ==> findDiv != null
      ensures rootDrawObj != null && Pictures(canvas, Nodes(Levels([w], 0)), owner) ==>
                FoundOnCanvas(Worklist([t]), canvas, owner, findDiv, x, y)
    {
      findDiv := null;
      var divs: seq<DivComponent> := [];
      ghost var queue: seq<Tree<DivComponent>>, looks: seq<Tree<Look>>, seen: seq<Look> := [], [], [];
      if rootDrawObj != null {
        divs := divs + [rootDrawObj];
        queue, looks := [t], [w];
      }
      ghost var all, order, visited: seq<DivComponent> := Worklist(looks), Worklist(queue), [];
      var i := 0;
      while i < |divs|
        invariant |seen| == |visited| == i && divs == visited + Roots(queue)
        invariant AllDrawn(queue, looks, objs)
        invariant seen + Worklist(looks) == all && visited + Worklist(queue) == order
        invariant match LastInside(seen, x, y)
                  case None => findDiv == null
                  case Some(k) => findDiv == visited[k]
        decreases Sizes(queue)
      {
        var div := divs[i];
        assert div == queue[0].node;
        if !IsOuter(div, x, y) {
          findDiv := div;
        }
        NextLook(seen, looks);
        NextLook(visited, queue);
        LastInsideOneMore(seen, looks[0].node, x, y);
        divs := AppendChildren(divs, div);
        Regroup(visited, Roots(queue), div.children);
        queue, looks, seen := NextVisit(queue, looks, seen, objs);
        Regroup(visited, [div], Roots(queue));
        visited := visited + [div];
        i := i + 1;
      }
      assert seen + [] == seen && visited + [] == visited;
      if rootDrawObj != null {
        HitHoldsPoint(t, w, objs, x, y);
        if Pictures(canvas, Nodes(Levels([w], 0)), owner) {
          HitOnCanvas(t, w, objs, canvas, owner, findDiv, x, y);
        }
      }
    }

    /** The two comparisons of the hit test. */
    predicate IsOuter(div: DivComponent, x: real, y: real)
      reads div
      ensures IsOuter(div, x, y) <==> !Inside(div.style, x, y)
    {
      var s := div.style;
      (x < s.x || y < s.y + CANVAS_TOP) || (x > s.x + s.width || y > s.y + s.height + CANVAS_TOP)
    }
  }

  /** The component at the place of the hit holds the point; without a hit none does. */
  lemma HitHoldsPoint(t: Tree<DivComponent>, w: Tree<Look>, objs: set<DivComponent>, x: real, y: real)
    requires Drawn(t, w, objs)
    ensures |Worklist([t])| == |Worklist([w])|
    ensures match LastInside(Worklist([w]), x, y)
            case Some(k) => Inside(Worklist([t])[k].style, x, y)
            case None => forall i :: 0 <= i < |Worklist([t])| ==> !Inside(Worklist([t])[i].style, x, y)
  {
    WorklistsAgree([t], [w], objs);
    forall i | 0 <= i < |Worklist([t])|
      ensures Worklist([t])[i].style == Worklist([w])[i].style
    {
      assert LooksLike(Worklist([t])[i], Worklist([w])[i]);
    }
  }

  /** The component at the place of the hit is the one to be seen on the canvas. */
  lemma HitOnCanvas(t: Tree<DivComponent>, w: Tree<Look>, objs: set<DivComponent>, canvas: seq<Drawing>, owner: seq<nat>,
                    found: DivComponent?, x: real, y: real)
    requires Drawn(t, w, objs) && Pictures(canvas, Nodes(Levels([w], 0)), owner) && |Worklist([t])| == |Worklist([w])|
    requires match LastInside(Worklist([w]), x, y)
             case Some(i) => found == Worklist([t])[i]
             case None => found == null
    ensures |Worklist([t])| == |Levels([w], 0)| && FoundOnCanvas(Worklist([t]), canvas, owner, found, x, y)
  {
    var looks := Worklist([w]);
    WorklistIsLevels([w], 0);
    WorklistsAgree([t], [w], objs);
    assert forall i :: 0 <= i < |looks| ==> LooksLike(Worklist([t])[i], looks[i]);
    hide Drawn, Worklist, Levels, Pictures, FoundOnCanvas;
    FoundOfHit(Worklist([t]), canvas, looks, owner, found, x, y);
  }

  /** One visit, on the trees still to come. */
  lemma NextVisit(queue: seq<Tree<DivComponent>>, looks: seq<Tree<Look>>, seen: seq<Look>, objs: set<DivComponent>)
    returns (queue': seq<Tree<DivComponent>>, looks': seq<Tree<Look>>, seen': seq<Look>)
    requires queue != [] && AllDrawn(queue, looks, objs)
    ensures queue' == queue[1..] + queue[0].kids && looks' == looks[1..] + looks[0].kids && seen' == seen + [looks[0].node]
    ensures AllDrawn(queue', looks', objs) && Sizes(queue') < Sizes(queue)
    ensures Roots(queue) + queue[0].node.children == [queue[0].node] + Roots(queue')
  {
    queue', looks', seen' := queue[1..] + queue[0].kids, looks[1..] + looks[0].kids, seen + [looks[0].node];
    AllDrawnAppend(queue[1..], queue[0].kids, looks[1..], looks[0].kids, objs);
    SizesAppend(queue[1..], queue[0].kids);
    assert Size(queue[0]) == 1 + Sizes(queue[0].kids);
    assert queue[0].node.children == Roots(queue[0].kids);
  }

  lemma NextLook<T>(seen: seq<T>, looks: seq<Tree<T>>)
    requires looks != []
    ensures seen + Worklist(looks) == (seen + [looks[0].node]) + Worklist(looks[1..] + looks[0].kids)
  {
    Regroup(seen, [looks[0].node], Worklist(looks[1..] + looks[0].kids));
  }

  lemma PaintOneMore(seen: seq<Look>, look: Look)
    ensures PaintAll(seen + [look]) == PaintAll(seen) + Paint(look)
  {
    assert (seen + [look])[..|seen|] == seen;
  }

  lemma LastInsideOneMore(seen: seq<Look>, look: Look, x: real, y: real)
    ensures LastInside(seen + [look], x, y) == if Inside(look.style, x, y) then Some(|seen|) else LastInside(seen, x, y)
  {
    assert (seen + [look])[..|seen|] == seen;
  }
}
