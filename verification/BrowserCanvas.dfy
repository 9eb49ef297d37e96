/** What is to be seen on the canvas, and that a click finds what is on top there. */
module BrowserCanvas {
  import opened Chars
  import opened LevelOrder
  import opened BrowserDraw

  // ---------- the drawings of a component ----------

  /** h is half of n, rounded towards zero to a whole number. */
  predicate IsHalf(h: real, n: int) {
    h * 2.0 == (if n % 2 == 0 then n else if n > 0 then n - 1 else n + 1) as real
  }

  /** The background of a component: its own rectangle, 40 below its place on the page. */
  predicate IsBackground(d: Drawing, look: Look) {
    var s := look.style;
    s.background != 0 && d == Rect(s.x, s.y + 40.0, s.width, s.height, s.background)
  }

  /** The text of a component: behind its padding, half a font size under the middle of its rectangle. */
  predicate IsLabel(d: Drawing, look: Look) {
    var s := look.style;
    && look.innerText != "" && d.SimpleText?
    && d.text == look.innerText && d.size == s.fontSize && d.color == s.color
    && d.x == s.x + s.paddingLeft
    && IsHalf(d.y - (s.y + 40.0 + s.height / 2.0), s.fontSize)
  }

  /** A drawing of the component: its background, or its text. */
  predicate IsOf(d: Drawing, look: Look) {
    if d.Rect? then IsBackground(d, look) else IsLabel(d, look)
  }

  /** One is the background and the other the text. */
  predicate TextBehind(d: Drawing, e: Drawing) { d.Rect? && e.SimpleText? }

  /**
   A canvas pictures a list of components; owner says of each drawing whose it is.  Each drawing is
   the background or the text of its component.  All drawings of a component come before those of
   any later one, its background before its text, and it has neither twice.  No background and no
   text is missing.
   */
  ghost predicate Pictures(canvas: seq<Drawing>, looks: seq<Look>, owner: seq<nat>) {
    && |owner| == |canvas|
    && (forall k :: 0 <= k < |canvas| ==> owner[k] < |looks| && IsOf(canvas[k], looks[owner[k]]))
    && (forall k, l :: 0 <= k < l < |canvas| ==>
          owner[k] < owner[l] || (owner[k] == owner[l] && TextBehind(canvas[k], canvas[l])))
    && (forall i :: 0 <= i < |looks| && looks[i].style.background != 0 ==> HasDrawing(canvas, owner, i, true))
    && (forall i :: 0 <= i < |looks| && looks[i].innerText != "" ==> HasDrawing(canvas, owner, i, false))
  }

  /** Among the drawings of component i there is a rectangle, or a text. */
  ghost predicate HasDrawing(canvas: seq<Drawing>, owner: seq<nat>, i: nat, rect: bool)
    requires |owner| == |canvas|
  {
    exists k :: 0 <= k < |canvas| && owner[k] == i && canvas[k].Rect? == rect
  }

  /** The drawings of one component. */
  ghost predicate AreOf(d: seq<Drawing>, look: Look) {
    && (forall k :: 0 <= k < |d| ==> IsOf(d[k], look))
    && (forall k, l :: 0 <= k < l < |d| ==> TextBehind(d[k], d[l]))
    && (look.style.background != 0 ==> exists k :: 0 <= k < |d| && d[k].Rect?)
    && (look.innerText != "" ==> exists k :: 0 <= k < |d| && !d[k].Rect?)
  }

  lemma HalfRounds(n: int)
    ensures IsHalf(Half(n) as real, n)
  {}

  lemma PaintedOne(look: Look)
    ensures AreOf(Paint(look), look)
  {
    HalfRounds(look.style.fontSize);
    var d := Paint(look);
    if look.style.background != 0 {
      assert d[0].Rect?;
    }
    if look.innerText != "" {
      assert !d[|d| - 1].Rect?;
    }
  }

  lemma OnlyLabel(d: Drawing, look: Look)
    requires IsLabel(d, look)
    ensures |Paint(look)| > 0 && d == Paint(look)[|Paint(look)| - 1]
  {
    HalfRounds(look.style.fontSize);
    assert d.y == look.style.y + 40.0 + look.style.height / 2.0 + Half(look.style.fontSize) as real;
  }

  lemma OnlyPainted(d: seq<Drawing>, look: Look)
    requires AreOf(d, look)
    ensures d == Paint(look)
  {
    forall k | 0 <= k < |d| && !d[k].Rect?
      ensures |Paint(look)| > 0 && d[k] == Paint(look)[|Paint(look)| - 1]
    {
      OnlyLabel(d[k], look);
    }
    assert |d| >= 2 ==> TextBehind(d[0], d[1]);
    assert |d| > 2 ==> TextBehind(d[1], d[2]);
  }

  // ---------- the canvas ----------

  /** Whose drawings the painted ones are. */
  function Owners(looks: seq<Look>): (r: seq<nat>)
    ensures |r| == |PaintAll(looks)|
    decreases |looks|
  {
    if looks == [] then []
    else Owners(looks[..|looks| - 1]) + seq(|Paint(looks[|looks| - 1])|, _ => |looks| - 1)
  }

  lemma LastPainted(looks: seq<Look>)
    requires looks != []
    ensures var n := |looks| - 1;
            && looks == looks[..n] + [looks[n]] && PaintAll(looks) == PaintAll(looks[..n]) + Paint(looks[n])
            && Owners(looks) == Owners(looks[..n]) + seq(|Paint(looks[n])|, _ => |looks[..n]|)
  {}

  /** The canvas that is painted pictures the components. */
  lemma {:induction false} PaintShows(looks: seq<Look>)
    ensures Pictures(PaintAll(looks), looks, Owners(looks))
    decreases |looks|
  {
    if looks != [] {
      var n := |looks| - 1;
      LastPainted(looks);
      hide *;
      PaintShows(looks[..n]);
      PaintedOne(looks[n]);
      OneMoreShown(PaintAll(looks[..n]), looks[..n], Owners(looks[..n]), looks[n], Paint(looks[n]),
                   PaintAll(looks), looks, Owners(looks));
    }
  }

  lemma OneMoreShown(canvas: seq<Drawing>, looks: seq<Look>, owner: seq<nat>, look: Look, d: seq<Drawing>,
                     canvas': seq<Drawing>, looks': seq<Look>, owner': seq<nat>)
    requires Pictures(canvas, looks, owner) && AreOf(d, look)
    requires canvas' == canvas + d && looks' == looks + [look] && owner' == owner + seq(|d|, _ => |looks|)
    ensures Pictures(canvas', looks', owner')
  {
    hide IsOf, TextBehind;
    assert forall k :: 0 <= k < |canvas| ==> canvas'[k] == canvas[k] && owner'[k] == owner[k];
    assert forall k :: |canvas| <= k < |canvas'| ==> canvas'[k] == d[k - |canvas|] && owner'[k] == |looks|;
    forall i: nat, rect | i < |looks| && HasDrawing(canvas, owner, i, rect)
      ensures HasDrawing(canvas', owner', i, rect)
    {
      var k :| 0 <= k < |canvas| && owner[k] == i && canvas[k].Rect? == rect;
      assert canvas'[k].Rect? == rect && owner'[k] == i;
    }
    forall k | 0 <= k < |d|
      ensures HasDrawing(canvas', owner', |looks|, d[k].Rect?)
    {
      assert canvas'[|canvas| + k] == d[k];
    }
  }

  /** Where the drawings of component n begin. */
  function FirstOf(owner: seq<nat>, n: nat): (m: nat)
    ensures m <= |owner| && (forall k :: 0 <= k < m ==> owner[k] != n) && (m < |owner| ==> owner[m] == n)
  {
    if owner == [] || owner[0] == n then 0 else 1 + FirstOf(owner[1..], n)
  }

  /** The drawings of the last component are the last on the canvas. */
  lemma LastDrawings(canvas: seq<Drawing>, looks: seq<Look>, owner: seq<nat>) returns (m: nat)
    requires Pictures(canvas, looks, owner) && looks != []
    ensures m <= |canvas| && forall k :: m <= k < |canvas| ==> owner[k] == |looks| - 1
    ensures forall k :: 0 <= k < m ==> owner[k] < |looks| - 1
  {
    m := FirstOf(owner, |looks| - 1);
  }

  lemma DrawingsOfLast(canvas: seq<Drawing>, looks: seq<Look>, owner: seq<nat>, m: nat)
    requires Pictures(canvas, looks, owner) && looks != [] && m <= |canvas|
    requires forall k :: m <= k < |canvas| ==> owner[k] == |looks| - 1
    requires forall k :: 0 <= k < m ==> owner[k] < |looks| - 1
    ensures AreOf(canvas[m..], looks[|looks| - 1])
  {
    var n, d := |looks| - 1, canvas[m..];
    assert looks[n].style.background != 0 ==> HasDrawing(canvas, owner, n, true);
    assert looks[n].innerText != "" ==> HasDrawing(canvas, owner, n, false);
    forall k | 0 <= k < |d|
      ensures IsOf(d[k], looks[n])
    {
      assert owner[m + k] == n;
    }
    forall k, l | 0 <= k < l < |d|
      ensures TextBehind(d[k], d[l])
    {
      assert owner[m + k] == owner[m + l];
    }
    hide IsOf, TextBehind, Pictures;
    forall rect | HasDrawing(canvas, owner, n, rect)
      ensures exists k :: 0 <= k < |d| && d[k].Rect? == rect
    {
      var k :| 0 <= k < |canvas| && owner[k] == n && canvas[k].Rect? == rect;
      assert d[k - m].Rect? == rect;
    }
  }

  lemma ShowsWithoutLast(canvas: seq<Drawing>, looks: seq<Look>, owner: seq<nat>, m: nat)
    requires Pictures(canvas, looks, owner) && looks != [] && m <= |canvas|
    requires forall k :: m <= k < |canvas| ==> owner[k] == |looks| - 1
    requires forall k :: 0 <= k < m ==> owner[k] < |looks| - 1
    ensures Pictures(canvas[..m], looks[..|looks| - 1], owner[..m])
  {
    var n, first := |looks| - 1, canvas[..m];
    hide IsOf, TextBehind;
    forall i: nat, rect | i < n && HasDrawing(canvas, owner, i, rect)
      ensures HasDrawing(first, owner[..m], i, rect)
    {
      var k :| 0 <= k < |canvas| && owner[k] == i && canvas[k].Rect? == rect;
      assert first[k].Rect? == rect && owner[..m][k] == i;
    }
  }

  lemma NothingElse(canvas: seq<Drawing>, looks: seq<Look>, owner: seq<nat>)
    requires Pictures(canvas, looks, owner)
    ensures |owner| == |canvas| && (looks == [] ==> canvas == PaintAll([]))
  {
    assert canvas != [] ==> owner[0] < |looks|;
  }

  /** No other canvas does: what has to be shown determines it. */
  lemma {:induction false} ShownIsPainted(canvas: seq<Drawing>, looks: seq<Look>, owner: seq<nat>)
    requires Pictures(canvas, looks, owner)
    ensures canvas == PaintAll(looks)
    decreases |looks|
  {
    hide *;
    NothingElse(canvas, looks, owner);
    if looks != [] {
      var n := |looks| - 1;
      var m := LastDrawings(canvas, looks, owner);
      LastPainted(looks);
      DrawingsOfLast(canvas, looks, owner, m);
      ShowsWithoutLast(canvas, looks, owner, m);
      OnlyPainted(canvas[m..], looks[n]);
      ShownIsPainted(canvas[..m], looks[..n], owner[..m]);
      assert canvas == canvas[..m] + canvas[m..];
    }
  }

  // ---------- clicks ----------

  /** The drawing is a rectangle that covers the point, borders included. */
  predicate Covers(d: Drawing, x: real, y: real) {
    d.Rect? && d.x <= x <= d.x + d.width && d.y <= y <= d.y + d.height
  }

  /** The rectangle on the canvas covers the point if and only if its component is counted as holding it. */
  lemma CoversIff(canvas: seq<Drawing>, looks: seq<Look>, owner: seq<nat>, k: nat, x: real, y: real)
    requires Pictures(canvas, looks, owner) && k < |canvas| && canvas[k].Rect?
    ensures Covers(canvas[k], x, y) <==> Inside(looks[owner[k]].style, x, y)
  {}

  /** The drawing covers the point and no later one does. */
  ghost predicate OnTop(canvas: seq<Drawing>, k: nat, x: real, y: real) {
    k < |canvas| && Covers(canvas[k], x, y) && forall l :: k < l < |canvas| ==> !Covers(canvas[l], x, y)
  }

  /** Nothing hit, nothing covered; a hit is no earlier than any component whose rectangle covers the point. */
  lemma HitIsLast(canvas: seq<Drawing>, looks: seq<Look>, owner: seq<nat>, x: real, y: real)
    requires Pictures(canvas, looks, owner)
    ensures var hit := LastInside(looks, x, y);
            forall k :: 0 <= k < |canvas| && canvas[k].Rect? ==>
              && (Covers(canvas[k], x, y) <==> Inside(looks[owner[k]].style, x, y))
              && (Covers(canvas[k], x, y) ==> hit.Some? && owner[k] <= hit.value)
              && (hit == Some(owner[k]) ==> Covers(canvas[k], x, y))
  {
    forall k | 0 <= k < |canvas| && canvas[k].Rect?
      ensures Covers(canvas[k], x, y) <==> Inside(looks[owner[k]].style, x, y)
    {
      CoversIff(canvas, looks, owner, k, x, y);
    }
  }

  /**
   Where every component has a background, the component that is hit is that of the drawing on top,
   and nothing is hit if and only if no drawing covers the point.
   */
  lemma HitIsOnTop(canvas: seq<Drawing>, looks: seq<Look>, owner: seq<nat>, x: real, y: real)
    requires Pictures(canvas, looks, owner) && forall i :: 0 <= i < |looks| ==> looks[i].style.background != 0
    ensures match LastInside(looks, x, y)
            case None => forall k :: 0 <= k < |canvas| ==> !Covers(canvas[k], x, y)
            case Some(i) => exists k: nat :: OnTop(canvas, k, x, y) && owner[k] == i
  {
    HitIsLast(canvas, looks, owner, x, y);
    var hit := LastInside(looks, x, y);
    if hit.Some? {
      assert HasDrawing(canvas, owner, hit.value, true);
      var k :| 0 <= k < |canvas| && owner[k] == hit.value && canvas[k].Rect?;
      forall l | k < l < |canvas|
        ensures !Covers(canvas[l], x, y)
      {
        assert owner[k] < owner[l] || TextBehind(canvas[k], canvas[l]);
      }
      assert OnTop(canvas, k, x, y);
    }
  }

  /** The toolbar is no part of the page: with no component above the page nothing is painted and nothing hit above 40. */
  lemma ToolbarIsClear(canvas: seq<Drawing>, looks: seq<Look>, owner: seq<nat>, x: real, y: real)
    requires Pictures(canvas, looks, owner) && forall i :: 0 <= i < |looks| ==> looks[i].style.y >= 0.0
    ensures forall k :: 0 <= k < |canvas| && canvas[k].Rect? ==> canvas[k].y >= 40.0
    ensures y < 40.0 ==> LastInside(looks, x, y) == None
  {
    forall k | 0 <= k < |canvas| && canvas[k].Rect?
      ensures canvas[k].y >= 40.0
    {
      assert IsBackground(canvas[k], looks[owner[k]]);
    }
  }

  /**
   Click agrees with paint, on the canvas: painting and hit test meet every component of the tree
   once, level by level.  The rectangle painted for a component covers the point if and only if the
   component holds it.  The hit is the last component that holds the point, so none that does lies
   deeper, and there is no hit only if none does.  Where all components have a background, it is
   the component of the last rectangle on the canvas that covers the point.
   */
  lemma ClickAgreesWithPaint(w: Tree<Look>, canvas: seq<Drawing>, owner: seq<nat>, x: real, y: real)
    requires Pictures(canvas, Nodes(Levels([w], 0)), owner)
    ensures var order, hit := Levels([w], 0), LastInside(Worklist([w]), x, y);
            && Worklist([w]) == Nodes(order) && multiset(order) == multiset(Preorder(w, 0))
            && (forall k :: 0 <= k < |canvas| && canvas[k].Rect? ==>
                  (Covers(canvas[k], x, y) <==> Inside(order[owner[k]].0.style, x, y)))
            && match hit
               case Some(i) =>
                 && Inside(order[i].0.style, x, y)
                 && (forall j :: i < j < |order| ==> !Inside(order[j].0.style, x, y))
                 && (forall n :: n in Preorder(w, 0) && Inside(n.0.style, x, y) ==> n.1 <= order[i].1)
                 && ((forall j :: 0 <= j < |order| ==> order[j].0.style.background != 0) ==>
                       exists k: nat :: OnTop(canvas, k, x, y) && owner[k] == i)
               case None => forall n :: n in Preorder(w, 0) ==> !Inside(n.0.style, x, y)
  {
    var order := Levels([w], 0);
    HitInOrder(w, x, y);
    HitIsLast(canvas, Nodes(order), owner, x, y);
    hide *;
    forall k | 0 <= k < |canvas| && canvas[k].Rect?
      ensures Covers(canvas[k], x, y) <==> Inside(order[owner[k]].0.style, x, y)
    {
      assert Nodes(order)[owner[k]] == order[owner[k]].0;
    }
    if forall j :: 0 <= j < |order| ==> order[j].0.style.background != 0 {
      assert forall j :: 0 <= j < |order| ==> Nodes(order)[j].style.background != 0;
      HitIsOnTop(canvas, Nodes(order), owner, x, y);
    }
  }

  /** What a click finds, on the canvas: order are the components in the order of painting. */
  ghost predicate FoundOnCanvas(order: seq<DivComponent>, canvas: seq<Drawing>, owner: seq<nat>, found: DivComponent?, x: real, y: real)
    reads order
  {
    && |owner| == |canvas| && (forall k :: 0 <= k < |canvas| ==> owner[k] < |order|)
    && (found == null ==> forall k :: 0 <= k < |canvas| ==> !Covers(canvas[k], x, y))
    && (found != null ==>
          exists i: nat :: i < |order| && order[i] == found
            && (forall k :: 0 <= k < |canvas| && canvas[k].Rect? ==>
                  (Covers(canvas[k], x, y) ==> owner[k] <= i) && (owner[k] == i ==> Covers(canvas[k], x, y)))
            && ((forall j :: 0 <= j < |order| ==> order[j].style.background != 0) ==>
                  exists k: nat :: OnTop(canvas, k, x, y) && owner[k] == i))
  }

  lemma FoundOfHit(order: seq<DivComponent>, canvas: seq<Drawing>, looks: seq<Look>, owner: seq<nat>, found: DivComponent?, x: real, y: real)
    requires Pictures(canvas, looks, owner)
    requires |order| == |looks| && forall i :: 0 <= i < |order| ==> order[i].style == looks[i].style
    requires match LastInside(looks, x, y)
             case Some(i) => found == order[i]
             case None => found == null
    ensures FoundOnCanvas(order, canvas, owner, found, x, y)
  {
    HitIsLast(canvas, looks, owner, x, y);
    if forall i :: 0 <= i < |order| ==> order[i].style.background != 0 {
      assert forall i :: 0 <= i < |looks| ==> looks[i].style.background != 0 by {
        assert forall i :: 0 <= i < |looks| ==> looks[i].style == order[i].style;
      }
      HitIsOnTop(canvas, looks, owner, x, y);
    }
    hide Covers, Inside;
  }
}
