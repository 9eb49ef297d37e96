/** Walking a tree by a worklist that grows while it is walked. */
module LevelOrder {

  datatype Tree<+T> = Tree(node: T, kids: seq<Tree<T>>)

  function Size<T>(t: Tree<T>): nat
    decreases t
  {
    1 + Sizes(t.kids)
  }

  function Sizes<T>(ts: seq<Tree<T>>): nat
    decreases ts
  {
    if ts == [] then 0 else Size(ts[0]) + Sizes(ts[1..])
  }

  function Roots<T>(ts: seq<Tree<T>>): (r: seq<T>)
    ensures |r| == |ts| && forall i :: 0 <= i < |ts| ==> r[i] == ts[i].node
  {
    seq(|ts|, i requires 0 <= i < |ts| => ts[i].node)
  }

  lemma Regroup<T>(a: seq<T>, b: seq<T>, c: seq<T>)
    ensures (a + b) + c == a + (b + c)
  {}

  lemma {:induction false} SizesAppend<T>(a: seq<Tree<T>>, b: seq<Tree<T>>)
    ensures Sizes(a + b) == Sizes(a) + Sizes(b)
    decreases |a|
  {
    if a == [] {
      assert a + b == b;
    } else {
      assert (a + b)[1..] == a[1..] + b;
      SizesAppend(a[1..], b);
    }
  }

  /** The nodes in the order in which the worklist meets them: each visit appends the children. */
  function Worklist<T>(queue: seq<Tree<T>>): seq<T>
    decreases Sizes(queue)
  {
    if queue == [] then []
    else
      SizesAppend(queue[1..], queue[0].kids);
      assert Size(queue[0]) == 1 + Sizes(queue[0].kids);
      [queue[0].node] + Worklist(queue[1..] + queue[0].kids)
  }

  // ---------- level by level ----------

  function AllKids<T>(ts: seq<Tree<T>>): seq<Tree<T>>
    decreases |ts|
  {
    if ts == [] then [] else ts[0].kids + AllKids(ts[1..])
  }

  lemma {:induction false} AllKidsSize<T>(ts: seq<Tree<T>>)
    ensures Sizes(ts) == |ts| + Sizes(AllKids(ts))
    decreases |ts|
  {
    if ts != [] {
      AllKidsSize(ts[1..]);
      SizesAppend(ts[0].kids, AllKids(ts[1..]));
    }
  }

  function At<T>(ts: seq<Tree<T>>, depth: nat): (r: seq<(T, nat)>)
    ensures |r| == |ts| && forall i :: 0 <= i < |ts| ==> r[i] == (ts[i].node, depth)
  {
    seq(|ts|, i requires 0 <= i < |ts| => (ts[i].node, depth))
  }

  /** The nodes with their depths, one level after the other, each from left to right. */
  function Levels<T>(ts: seq<Tree<T>>, depth: nat): seq<(T, nat)>
    decreases Sizes(ts)
  {
    if ts == [] then []
    else
      AllKidsSize(ts);
      At(ts, depth) + Levels(AllKids(ts), depth + 1)
  }

  function Nodes<T>(s: seq<(T, nat)>): (r: seq<T>)
    ensures |r| == |s| && forall i :: 0 <= i < |s| ==> r[i] == s[i].0
  {
    seq(|s|, i requires 0 <= i < |s| => s[i].0)
  }

  lemma {:induction false} WorklistPasses<T>(a: seq<Tree<T>>, b: seq<Tree<T>>)
    ensures Worklist(a + b) == Roots(a) + Worklist(b + AllKids(a))
    decreases |a|
  {
    if a == [] {
      assert a + b == b == b + AllKids(a);
    } else {
      assert (a + b)[0] == a[0] && (a + b)[1..] + a[0].kids == a[1..] + (b + a[0].kids);
      WorklistPasses(a[1..], b + a[0].kids);
      assert (b + a[0].kids) + AllKids(a[1..]) == b + AllKids(a);
      assert Roots(a) == [a[0].node] + Roots(a[1..]);
    }
  }

  lemma NodesAppend<T>(a: seq<(T, nat)>, b: seq<(T, nat)>)
    ensures Nodes(a + b) == Nodes(a) + Nodes(b)
  {}

  /** The worklist goes level by level. */
  lemma {:induction false} WorklistIsLevels<T>(ts: seq<Tree<T>>, depth: nat)
    ensures Worklist(ts) == Nodes(Levels(ts, depth))
    decreases Sizes(ts)
  {
    if ts != [] {
      WorklistPasses(ts, []);
      assert ts + [] == ts && [] + AllKids(ts) == AllKids(ts);
      AllKidsSize(ts);
      WorklistIsLevels(AllKids(ts), depth + 1);
      assert Roots(ts) == Nodes(At(ts, depth));
      NodesAppend(At(ts, depth), Levels(AllKids(ts), depth + 1));
    }
  }

  /** Depths from the given one on, never falling. */
  ghost predicate Rising<T>(s: seq<(T, nat)>, depth: nat) {
    && (forall i :: 0 <= i < |s| ==> depth <= s[i].1)
    && forall i, j :: 0 <= i <= j < |s| ==> s[i].1 <= s[j].1
  }

  lemma LevelOnTop<T>(first: seq<(T, nat)>, rest: seq<(T, nat)>, depth: nat)
    requires Rising(rest, depth + 1) && forall i :: 0 <= i < |first| ==> first[i].1 == depth
    ensures Rising(first + rest, depth)
  {
    forall i | 0 <= i < |first + rest|
      ensures (first + rest)[i] == if i < |first| then first[i] else rest[i - |first|]
    {}
  }

  /** ... so nothing met later lies higher up. */
  lemma {:induction false} DepthsRise<T>(ts: seq<Tree<T>>, depth: nat)
    ensures Rising(Levels(ts, depth), depth)
    decreases Sizes(ts)
  {
    if ts != [] {
      AllKidsSize(ts);
      DepthsRise(AllKids(ts), depth + 1);
      LevelOnTop(At(ts, depth), Levels(AllKids(ts), depth + 1), depth);
    }
  }

  // ---------- every node once ----------

  /** The nodes with their depths in document order, by plain recursion. */
  function Preorder<T>(t: Tree<T>, depth: nat): seq<(T, nat)>
    decreases t
  {
    [(t.node, depth)] + Preorders(t.kids, depth + 1)
  }

  function Preorders<T>(ts: seq<Tree<T>>, depth: nat): seq<(T, nat)>
    decreases ts
  {
    if ts == [] then [] else Preorder(ts[0], depth) + Preorders(ts[1..], depth)
  }

  lemma {:induction false} PreordersAppend<T>(a: seq<Tree<T>>, b: seq<Tree<T>>, depth: nat)
    ensures Preorders(a + b, depth) == Preorders(a, depth) + Preorders(b, depth)
    decreases |a|
  {
    if a == [] {
      assert a + b == b;
    } else {
      assert (a + b)[1..] == a[1..] + b;
      PreordersAppend(a[1..], b, depth);
    }
  }

  lemma {:induction false} RootsAndRest<T>(ts: seq<Tree<T>>, depth: nat)
    ensures multiset(Preorders(ts, depth)) == multiset(At(ts, depth)) + multiset(Preorders(AllKids(ts), depth + 1))
    decreases |ts|
  {
    if ts != [] {
      RootsAndRest(ts[1..], depth);
      PreordersAppend(ts[0].kids, AllKids(ts[1..]), depth + 1);
      assert At(ts, depth) == [(ts[0].node, depth)] + At(ts[1..], depth);
    }
  }

  /** The worklist meets every node of the tree exactly once, at its own depth. */
  lemma {:induction false} EveryNodeOnce<T>(ts: seq<Tree<T>>, depth: nat)
    ensures multiset(Levels(ts, depth)) == multiset(Preorders(ts, depth))
    decreases Sizes(ts)
  {
    if ts != [] {
      AllKidsSize(ts);
      EveryNodeOnce(AllKids(ts), depth + 1);
      RootsAndRest(ts, depth);
    }
  }
}
