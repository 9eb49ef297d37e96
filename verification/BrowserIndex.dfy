/** The page as a document: its elements in order, the index of their ids, and what is drawn of it. */
module BrowserIndex {
  import opened Chars
  import opened LevelOrder
  import opened BrowserDraw
  import opened HtmlDom
  import G = HtmlGrammar

  /** An element of the page, as object and by its attributes. */
  datatype Entry = Entry(dom: DOM, attributes: map<string, string>)

  function KidsOf(v: G.Dom): seq<G.Dom> {
    if v.children.Elements? then v.children.list else []
  }

  /** The elements that are drawn, in document order: no scripts. */
  function Document(s: Shape, v: G.Dom): seq<Entry>
    decreases s
  {
    if v.name == "script" then [] else [Entry(s.dom, v.attributes)] + Documents(s.kids, KidsOf(v))
  }

  function Documents(kids: seq<Shape>, vs: seq<G.Dom>): seq<Entry>
    decreases kids
  {
    if kids == [] || vs == [] then [] else Document(kids[0], vs[0]) + Documents(kids[1..], vs[1..])
  }

  /** The page: its root, whatever its name, and what is under it. */
  function Page(s: Shape, v: G.Dom): seq<Entry> {
    [Entry(s.dom, v.attributes)] + Documents(s.kids, KidsOf(v))
  }

  // ---------- the index ----------

  function IdOf(e: Entry): Option<string> {
    if "id" in e.attributes then Some(e.attributes["id"]) else None
  }

  /** `map::insert` of one element under its id. */
  function Register(index: map<string, DOM>, e: Entry): map<string, DOM> {
    match IdOf(e)
    case None => index
    case Some(id) => if id in index then index else index[id := e.dom]
  }

  function RegisterAll(index: map<string, DOM>, entries: seq<Entry>): map<string, DOM>
    decreases |entries|
  {
    if entries == [] then index else RegisterAll(Register(index, entries[0]), entries[1..])
  }

  lemma {:induction false} RegisterAppend(index: map<string, DOM>, a: seq<Entry>, b: seq<Entry>)
    ensures RegisterAll(index, a + b) == RegisterAll(RegisterAll(index, a), b)
    decreases |a|
  {
    if a == [] {
      assert a + b == b;
    } else {
      assert (a + b)[1..] == a[1..] + b;
      RegisterAppend(Register(index, a[0]), a[1..], b);
    }
  }

  /** k is the first of the entries with this id. */
  predicate IsFirst(entries: seq<Entry>, id: string, k: nat) {
    k < |entries| && IdOf(entries[k]) == Some(id) && forall j :: 0 <= j < k ==> IdOf(entries[j]) != Some(id)
  }

  /** The index holds exactly the ids of the entries and leads each to the first element that has it. */
  ghost predicate Exact(index: map<string, DOM>, entries: seq<Entry>) {
    && (forall id :: id in index ==> exists k: nat :: IsFirst(entries, id, k) && index[id] == entries[k].dom)
    && forall k :: 0 <= k < |entries| ==> IdOf(entries[k]).Some? ==> IdOf(entries[k]).value in index
  }

  lemma FirstBehind(e: Entry, more: seq<Entry>, id: string, k: nat)
    requires IsFirst(more, id, k) && IdOf(e) != Some(id)
    ensures IsFirst([e] + more, id, k + 1) && ([e] + more)[k + 1] == more[k]
  {
    forall j | 0 <= j < k + 1
      ensures IdOf(([e] + more)[j]) != Some(id)
    {
      assert j > 0 ==> ([e] + more)[j] == more[j - 1];
    }
  }

  /** Registering keeps what is there and adds, under every new id, the first element that has it. */
  lemma RegisterAllFirst(index: map<string, DOM>, entries: seq<Entry>)
    ensures var r := RegisterAll(index, entries);
            && (forall id :: id in index ==> id in r && r[id] == index[id])
            && (forall id :: id in r && id !in index ==> exists k: nat :: IsFirst(entries, id, k) && r[id] == entries[k].dom)
            && forall k :: 0 <= k < |entries| ==> IdOf(entries[k]).Some? ==> IdOf(entries[k]).value in r
  {
    RegisterKeeps(index, entries);
    RegisterCovers(index, entries);
    forall id | id in RegisterAll(index, entries) && id !in index
      ensures exists k: nat :: IsFirst(entries, id, k) && RegisterAll(index, entries)[id] == entries[k].dom
    {
      var k := RegisterFirst(index, entries, id);
    }
  }

  lemma {:induction false} RegisterKeeps(index: map<string, DOM>, entries: seq<Entry>)
    ensures forall id :: id in index ==> id in RegisterAll(index, entries) && RegisterAll(index, entries)[id] == index[id]
    decreases |entries|
  {
    if entries != [] {
      RegisterKeeps(Register(index, entries[0]), entries[1..]);
    }
  }

  lemma {:induction false} RegisterCovers(index: map<string, DOM>, entries: seq<Entry>)
    ensures forall k :: 0 <= k < |entries| ==> IdOf(entries[k]).Some? ==> IdOf(entries[k]).value in RegisterAll(index, entries)
    decreases |entries|
  {
    if entries != [] {
      var index1, more := Register(index, entries[0]), entries[1..];
      var r := RegisterAll(index1, more);
      RegisterKeeps(index1, more);
      RegisterCovers(index1, more);
      forall k | 0 <= k < |entries| && IdOf(entries[k]).Some?
        ensures IdOf(entries[k]).value in r
      {
        if k == 0 {
          assert IdOf(entries[0]).value in index1;
        } else {
          assert entries[k] == more[k - 1];
        }
      }
    }
  }

  lemma {:induction false} RegisterFirst(index: map<string, DOM>, entries: seq<Entry>, id: string) returns (k: nat)
    requires id in RegisterAll(index, entries) && id !in index
    ensures IsFirst(entries, id, k) && RegisterAll(index, entries)[id] == entries[k].dom
    decreases |entries|
  {
    var e, more := entries[0], entries[1..];
    var index1 := Register(index, e);
    assert entries == [e] + more;
    if id in index1 {
      RegisterKeeps(index1, more);
      k := 0;
    } else {
      k := RegisterFirst(index1, more, id);
      FirstBehind(e, more, id, k);
      k := k + 1;
    }
  }

  /** From an empty index: exact. */
  lemma FreshIndexIsExact(entries: seq<Entry>)
    ensures Exact(RegisterAll(map[], entries), entries)
  {
    RegisterAllFirst(map[], entries);
  }

  /** What looking an id up in an exact index means. */
  lemma LookupIsFirst(index: map<string, DOM>, entries: seq<Entry>, id: string)
    requires Exact(index, entries)
    ensures id in index <==> exists k: nat :: IsFirst(entries, id, k)
    ensures id !in index <==> forall k :: 0 <= k < |entries| ==> IdOf(entries[k]) != Some(id)
    ensures forall k: nat :: IsFirst(entries, id, k) ==> id in index && index[id] == entries[k].dom
  {
    if id in index {
      var k: nat :| IsFirst(entries, id, k) && index[id] == entries[k].dom;
      forall j: nat | IsFirst(entries, id, j)
        ensures j == k
      {
        assert !(j < k) && !(k < j);
      }
    }
  }

  lemma {:induction false} RegisterKnown(index: map<string, DOM>, entries: seq<Entry>)
    requires forall k :: 0 <= k < |entries| ==> IdOf(entries[k]).Some? ==> IdOf(entries[k]).value in index
    ensures RegisterAll(index, entries) == index
    decreases |entries|
  {
    if entries != [] {
      assert Register(index, entries[0]) == index;
      RegisterKnown(index, entries[1..]);
    }
  }

  // ---------- one attribute changed ----------

  /** The page after `setAttribute` on the element dom. */
  function SetIn(s: Shape, v: G.Dom, dom: DOM, key: string, value: string): (r: G.Dom)
    ensures r.name == v.name
    decreases s
  {
    var attributes := if s.dom == dom then v.attributes[key := value] else v.attributes;
    v.(attributes := attributes,
       children := if v.children.Elements? then G.Elements(SetInAll(s.kids, v.children.list, dom, key, value)) else v.children)
  }

  function SetInAll(kids: seq<Shape>, vs: seq<G.Dom>, dom: DOM, key: string, value: string): (r: seq<G.Dom>)
    ensures |r| == |vs|
    decreases kids
  {
    if kids == [] || vs == [] then vs
    else [SetIn(kids[0], vs[0], dom, key, value)] + SetInAll(kids[1..], vs[1..], dom, key, value)
  }

  function SetEntry(e: Entry, dom: DOM, key: string, value: string): Entry {
    if e.dom == dom then e.(attributes := e.attributes[key := value]) else e
  }

  function SetEntries(entries: seq<Entry>, dom: DOM, key: string, value: string): (r: seq<Entry>)
    ensures |r| == |entries| && forall i :: 0 <= i < |r| ==> r[i] == SetEntry(entries[i], dom, key, value)
  {
    seq(|entries|, i requires 0 <= i < |entries| => SetEntry(entries[i], dom, key, value))
  }

  lemma SetEntriesAppend(a: seq<Entry>, b: seq<Entry>, dom: DOM, key: string, value: string)
    ensures SetEntries(a + b, dom, key, value) == SetEntries(a, dom, key, value) + SetEntries(b, dom, key, value)
  {}

  /** The page keeps its elements in their order; those that are dom have the new attribute. */
  lemma {:induction false} DocumentAfterSet(s: Shape, v: G.Dom, dom: DOM, key: string, value: string)
    ensures Document(s, SetIn(s, v, dom, key, value)) == SetEntries(Document(s, v), dom, key, value)
    decreases s
  {
    if v.name != "script" {
      DocumentsAfterSet(s.kids, KidsOf(v), dom, key, value);
      assert KidsOf(SetIn(s, v, dom, key, value)) == SetInAll(s.kids, KidsOf(v), dom, key, value);
      SetEntriesAppend([Entry(s.dom, v.attributes)], Documents(s.kids, KidsOf(v)), dom, key, value);
    }
  }

  lemma {:induction false} DocumentsAfterSet(kids: seq<Shape>, vs: seq<G.Dom>, dom: DOM, key: string, value: string)
    ensures Documents(kids, SetInAll(kids, vs, dom, key, value)) == SetEntries(Documents(kids, vs), dom, key, value)
    decreases kids
  {
    if kids != [] && vs != [] {
      DocumentAfterSet(kids[0], vs[0], dom, key, value);
      DocumentsAfterSet(kids[1..], vs[1..], dom, key, value);
      assert SetInAll(kids, vs, dom, key, value)[1..] == SetInAll(kids[1..], vs[1..], dom, key, value);
      SetEntriesAppend(Document(kids[0], vs[0]), Documents(kids[1..], vs[1..]), dom, key, value);
    }
  }

  lemma PageAfterSet(s: Shape, v: G.Dom, dom: DOM, key: string, value: string)
    ensures Page(s, SetIn(s, v, dom, key, value)) == SetEntries(Page(s, v), dom, key, value)
  {
    DocumentsAfterSet(s.kids, KidsOf(v), dom, key, value);
    assert KidsOf(SetIn(s, v, dom, key, value)) == SetInAll(s.kids, KidsOf(v), dom, key, value);
    SetEntriesAppend([Entry(s.dom, v.attributes)], Documents(s.kids, KidsOf(v)), dom, key, value);
  }

  predicate Distinct(entries: seq<Entry>) {
    forall i, j :: 0 <= i < j < |entries| ==> entries[i].dom != entries[j].dom
  }

  /**
   The index after `setAttribute` on an indexed element and the redraw that follows, in which it
   is not cleared: it is exact if and only if the key is not "id", or the id stays the same.
   */
  lemma ExactAfterSetIff(index: map<string, DOM>, entries: seq<Entry>, id: string, key: string, value: string)
    requires Exact(index, entries) && Distinct(entries) && id in index
    ensures var entries' := SetEntries(entries, index[id], key, value);
            Exact(RegisterAll(index, entries'), entries') <==> key != "id" || value == id
  {
    var entries' := SetEntries(entries, index[id], key, value);
    if key != "id" || value == id {
      IdsKept(index, entries, id, key, value);
    } else {
      RegisterAllFirst(index, entries');
      var index' := RegisterAll(index, entries');
      forall j: nat | IsFirst(entries', id, j)
        ensures index'[id] != entries'[j].dom
      {
        assert entries'[j] == SetEntry(entries[j], index[id], key, value);
      }
    }
  }

  /** The ids are the same as before, so registering again changes nothing. */
  lemma IdsKept(index: map<string, DOM>, entries: seq<Entry>, id: string, key: string, value: string)
    requires Exact(index, entries) && Distinct(entries) && id in index && (key != "id" || value == id)
    ensures var entries' := SetEntries(entries, index[id], key, value);
            RegisterAll(index, entries') == index && Exact(index, entries')
  {
    var entries' := SetEntries(entries, index[id], key, value);
    var k: nat :| IsFirst(entries, id, k) && index[id] == entries[k].dom;
    forall i | 0 <= i < |entries|
      ensures IdOf(entries'[i]) == IdOf(entries[i]) && entries'[i].dom == entries[i].dom
    {
      assert entries'[i] == SetEntry(entries[i], index[id], key, value);
      assert i != k ==> entries[i].dom != entries[k].dom;
    }
    forall other | other in index
      ensures exists j: nat :: IsFirst(entries', other, j) && index[other] == entries'[j].dom
    {
      var j: nat :| IsFirst(entries, other, j) && index[other] == entries[j].dom;
      assert IsFirst(entries', other, j);
    }
    RegisterKnown(index, entries');
  }

  /**
   A redraw after any change of the page: the index, which is not cleared, is exact afterwards if
   and only if everything in it is still the first element with its id.
   */
  lemma ExactAfterRedrawIff(index: map<string, DOM>, entries: seq<Entry>)
    ensures Exact(RegisterAll(index, entries), entries)
        <==> forall id :: id in index ==> exists k: nat :: IsFirst(entries, id, k) && index[id] == entries[k].dom
  {
    RegisterAllFirst(index, entries);
  }

  // ---------- the elements of a page are different objects ----------

  lemma {:induction false} DocumentDistinct(s: Shape, v: G.Dom)
    requires IsTree(s)
    ensures Distinct(Document(s, v)) && forall e :: e in Document(s, v) ==> e.dom in Objects(s)
    decreases s
  {
    if v.name != "script" {
      DocumentsDistinct(s.kids, KidsOf(v));
      PrependDistinct(Entry(s.dom, v.attributes), Documents(s.kids, KidsOf(v)));
    }
  }

  lemma {:induction false} DocumentsDistinct(kids: seq<Shape>, vs: seq<G.Dom>)
    requires IsForest(kids)
    ensures Distinct(Documents(kids, vs)) && forall e :: e in Documents(kids, vs) ==> e.dom in AllObjects(kids)
    decreases kids
  {
    if kids != [] && vs != [] {
      DocumentDistinct(kids[0], vs[0]);
      DocumentsDistinct(kids[1..], vs[1..]);
      var a: seq<Entry>, b: seq<Entry> := Document(kids[0], vs[0]), Documents(kids[1..], vs[1..]);
      forall i, j | 0 <= i < j < |a + b|
        ensures (a + b)[i].dom != (a + b)[j].dom
      {
        if i < |a| <= j {
          assert a[i] in a && b[j - |a|] in b;
        }
      }
    }
  }

  lemma PrependDistinct(e: Entry, entries: seq<Entry>)
    requires Distinct(entries) && forall x :: x in entries ==> x.dom != e.dom
    ensures Distinct([e] + entries)
  {
    forall i, j | 0 <= i < j < |entries| + 1
      ensures ([e] + entries)[i].dom != ([e] + entries)[j].dom
    {
      assert entries[j - 1] in entries;
    }
  }

  lemma PageDistinct(s: Shape, v: G.Dom)
    requires IsTree(s)
    ensures Distinct(Page(s, v))
  {
    DocumentsDistinct(s.kids, KidsOf(v));
    PrependDistinct(Entry(s.dom, v.attributes), Documents(s.kids, KidsOf(v)));
  }

  // ---------- any number of calls ----------

  /** A call of `setAttribute` on the element an id leads to. */
  datatype SetCall = SetCall(id: string, key: string, value: string)

  /** The index and the page after one call: nothing happens if the index does not know the id. */
  function SetOne(s: Shape, index: map<string, DOM>, v: G.Dom, call: SetCall): (map<string, DOM>, G.Dom) {
    if call.id !in index then (index, v)
    else
      var v' := SetIn(s, v, index[call.id], call.key, call.value);
      (RegisterAll(index, Page(s, v')), v')
  }

  function SetMany(s: Shape, index: map<string, DOM>, v: G.Dom, calls: seq<SetCall>): (map<string, DOM>, G.Dom)
    decreases |calls|
  {
    if calls == [] then (index, v)
    else
      var (index', v') := SetOne(s, index, v, calls[0]);
      SetMany(s, index', v', calls[1..])
  }

  /** Any number of calls on other keys than "id" leave the index as it was, and exact. */
  lemma {:induction false} IndexStaysExact(s: Shape, index: map<string, DOM>, v: G.Dom, calls: seq<SetCall>)
    requires IsTree(s) && Exact(index, Page(s, v))
    requires forall i :: 0 <= i < |calls| ==> calls[i].key != "id"
    ensures var (index', v') := SetMany(s, index, v, calls);
            index' == index && Exact(index', Page(s, v'))
    decreases |calls|
  {
    if calls != [] {
      var call := calls[0];
      var (index', v') := SetOne(s, index, v, call);
      if call.id in index {
        PageAfterSet(s, v, index[call.id], call.key, call.value);
        PageDistinct(s, v);
        IdsKept(index, Page(s, v), call.id, call.key, call.value);
      }
      IndexStaysExact(s, index', v', calls[1..]);
    }
  }

  // ---------- what is drawn ----------

  function LookOf(styleOf: map<string, string> -> Style, v: G.Dom): Look {
    Look(styleOf(v.attributes), if v.children.Text? then v.children.strVal else "")
  }

  /** The components of an element: none for a script. */
  function Components(styleOf: map<string, string> -> Style, v: G.Dom): seq<Tree<Look>>
    decreases v
  {
    if v.name == "script" then [] else [Tree(LookOf(styleOf, v), if v.children.Elements? then AllComponents(styleOf, v.children.list) else [])]
  }

  function AllComponents(styleOf: map<string, string> -> Style, vs: seq<G.Dom>): seq<Tree<Look>>
    decreases vs
  {
    if vs == [] then [] else Components(styleOf, vs[0]) + AllComponents(styleOf, vs[1..])
  }

  /** The component tree of the page; a text directly under the root is not drawn. */
  function PageComponents(styleOf: map<string, string> -> Style, v: G.Dom): Tree<Look> {
    Tree(Look(styleOf(v.attributes), ""), AllComponents(styleOf, KidsOf(v)))
  }

  /** Every element's children are set. */
  predicate Filled(v: G.Dom)
    decreases v
  {
    match v.children
    case Unset => false
    case Text(_) => true
    case Elements(vs) => AllFilled(vs)
  }

  predicate AllFilled(vs: seq<G.Dom>)
    decreases vs
  {
    vs == [] || (Filled(vs[0]) && AllFilled(vs[1..]))
  }

  // ---------- an update in place ----------

  /** What an object holds. */
  datatype Content = Content(name: string, attributes: map<string, string>, innerHtml: string, children: Node)

  function Snapshot(objs: set<DOM>): map<DOM, Content>
    reads objs
  {
    map d | d in objs :: Content(d.name, d.attributes, d.innerHtml, d.children)
  }

  /** `Holds`, in the contents of some moment. */
  ghost predicate HeldIn(mem: map<DOM, Content>, s: Shape, v: G.Dom)
    decreases s
  {
    && s.dom in mem
    && var c := mem[s.dom];
    && c.name == v.name && c.attributes == v.attributes && c.innerHtml == v.innerHtml
    && match v.children
       case Unset => c.children == Node.Unset && s.kids == []
       case Text(t) => c.children == Str(t) && s.kids == []
       case Elements(vs) => c.children == List(Doms(s.kids)) && AllHeldIn(mem, s.kids, vs)
  }

  ghost predicate AllHeldIn(mem: map<DOM, Content>, kids: seq<Shape>, vs: seq<G.Dom>)
    decreases kids
  {
    |kids| == |vs| && (kids == [] || (HeldIn(mem, kids[0], vs[0]) && AllHeldIn(mem, kids[1..], vs[1..])))
  }

  lemma {:induction false} HeldNow(s: Shape, v: G.Dom, objs: set<DOM>)
    ensures Holds(s, v, objs) <==> HeldIn(Snapshot(objs), s, v)
    decreases s
  {
    if v.children.Elements? {
      AllHeldNow(s.kids, v.children.list, objs);
    }
  }

  lemma {:induction false} AllHeldNow(kids: seq<Shape>, vs: seq<G.Dom>, objs: set<DOM>)
    ensures AllHold(kids, vs, objs) <==> AllHeldIn(Snapshot(objs), kids, vs)
    decreases kids
  {
    if kids != [] && |kids| == |vs| {
      HeldNow(kids[0], vs[0], objs);
      AllHeldNow(kids[1..], vs[1..], objs);
    }
  }

  /** Setting an attribute of one object sets it in the tree. */
  lemma {:induction false} HeldAfterSet(mem: map<DOM, Content>, s: Shape, v: G.Dom, dom: DOM, key: string, value: string)
    requires HeldIn(mem, s, v) && dom in mem
    ensures HeldIn(mem[dom := mem[dom].(attributes := mem[dom].attributes[key := value])], s, SetIn(s, v, dom, key, value))
    decreases s
  {
    if v.children.Elements? {
      AllHeldAfterSet(mem, s.kids, v.children.list, dom, key, value);
    }
  }

  lemma {:induction false} AllHeldAfterSet(mem: map<DOM, Content>, kids: seq<Shape>, vs: seq<G.Dom>, dom: DOM, key: string, value: string)
    requires AllHeldIn(mem, kids, vs) && dom in mem
    ensures AllHeldIn(mem[dom := mem[dom].(attributes := mem[dom].attributes[key := value])], kids,
                      SetInAll(kids, vs, dom, key, value))
    decreases kids
  {
    if kids != [] {
      HeldAfterSet(mem, kids[0], vs[0], dom, key, value);
      AllHeldAfterSet(mem, kids[1..], vs[1..], dom, key, value);
    }
  }

  lemma {:induction false} FilledAfterSet(s: Shape, v: G.Dom, dom: DOM, key: string, value: string)
    requires Filled(v)
    ensures Filled(SetIn(s, v, dom, key, value))
    decreases s
  {
    if v.children.Elements? {
      AllFilledAfterSet(s.kids, v.children.list, dom, key, value);
    }
  }

  lemma {:induction false} AllFilledAfterSet(kids: seq<Shape>, vs: seq<G.Dom>, dom: DOM, key: string, value: string)
    requires AllFilled(vs)
    ensures AllFilled(SetInAll(kids, vs, dom, key, value))
    decreases kids
  {
    if kids != [] && vs != [] {
      FilledAfterSet(kids[0], vs[0], dom, key, value);
      AllFilledAfterSet(kids[1..], vs[1..], dom, key, value);
      assert SetInAll(kids, vs, dom, key, value)[1..] == SetInAll(kids[1..], vs[1..], dom, key, value);
    }
  }
}
