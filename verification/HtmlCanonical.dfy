/** Canonical sources: the markup the parser is meant for, its printed form and the tree it stands for. */
module HtmlCanonical {
  import opened Chars
  import opened HtmlGrammar

  /** White space, a key, and a quoted value or none. */
  datatype Attribute = Attribute(gap: string, key: string, value: Option<string>)

  /** `pad` is the white space in front of the `>` of the begin tag. */
  datatype Elem = Elem(name: string, attributes: seq<Attribute>, pad: string, body: Body)

  /** Text, broken up by elements and by marks the parser must not take for elements. */
  datatype Body =
    | Plain(text: string)
    | Child(gap: string, elem: Elem, more: Body)
    | Marked(gap: string, mark: Mark, more: Body)

  /** Quoted strings, tag-like text of a script, and close tags that close nothing. */
  datatype Mark = TagLike(closing: bool, name: string) | Literal(value: string)

  // ---------- printing ----------

  function Print(e: Elem): string
    decreases e, 1
  {
    "<" + e.name + PrintRest(e)
  }

  /** Everything after the name of the begin tag. */
  function PrintRest(e: Elem): string
    decreases e, 0
  {
    PrintAttributes(e.attributes) + ((e.pad + ">") + (PrintBody(e.body) + PrintClose(e.name)))
  }

  function PrintAttributes(attributes: seq<Attribute>): string {
    if attributes == [] then "" else PrintAttribute(attributes[0]) + PrintAttributes(attributes[1..])
  }

  function PrintAttribute(a: Attribute): string {
    a.gap + (a.key + if a.value.Some? then "=" + PrintQuoted(a.value.value) else "")
  }

  function PrintQuoted(value: string): string { "\"" + (value + "\"") }

  function PrintBody(b: Body): string
    decreases b, 2
  {
    match b
    case Plain(text) => text
    case Child(gap, elem, more) => gap + (Print(elem) + PrintBody(more))
    case Marked(gap, mark, more) => gap + (PrintMark(mark) + PrintBody(more))
  }

  function PrintMark(m: Mark): string {
    match m
    case TagLike(closing, name) => if closing then PrintClose(name) else "<" + name + ">"
    case Literal(value) => PrintQuoted(value)
  }

  // ---------- which sources are canonical ----------

  predicate IsPlain(text: string) { forall i :: 0 <= i < |text| ==> text[i] != '<' && text[i] != '"' }

  predicate IsQuotable(value: string) { value != "" && forall i :: 0 <= i < |value| ==> value[i] != '"' }

  predicate IsBlank(s: string) { forall i :: 0 <= i < |s| ==> IsSpace(s[i]) }

  predicate GoodAttribute(a: Attribute) {
    && IsBlank(a.gap) && a.gap != ""
    && IsName(a.key)
    && (a.value.Some? ==> IsQuotable(a.value.value))
  }

  /** A close tag of another name counts for nothing anywhere, a begin tag only in a script. */
  predicate GoodMark(owner: string, m: Mark) {
    match m
    case TagLike(closing, name) => IsName(name) && if closing then name != owner else owner == "script"
    case Literal(value) => IsQuotable(value)
  }

  predicate Good(e: Elem)
    decreases e, 0
  {
    && IsName(e.name) && IsBlank(e.pad)
    && (forall i :: 0 <= i < |e.attributes| ==> GoodAttribute(e.attributes[i]))
    && GoodBody(e.name, e.body)
  }

  predicate GoodBody(owner: string, b: Body)
    decreases b, 0
  {
    match b
    case Plain(text) => IsPlain(text)
    case Child(gap, elem, more) => owner != "script" && IsPlain(gap) && Good(elem) && GoodBody(owner, more)
    case Marked(gap, mark, more) => IsPlain(gap) && GoodMark(owner, mark) && GoodBody(owner, more)
  }

  // ---------- the tree a canonical source stands for ----------

  /** The value the parser stores; a key alone stands for "true". */
  function ValueOf(a: Attribute): string {
    if a.value.Some? then a.value.value else "true"
  }

  /** Attributes as the source lists them: of two with one key the first counts. */
  function AttributeMap(attributes: seq<Attribute>): map<string, string> {
    if attributes == [] then map[]
    else AttributeMap(attributes[1..])[attributes[0].key := ValueOf(attributes[0])]
  }

  predicate HasValued(attributes: seq<Attribute>) {
    attributes != [] && (attributes[0].value.Some? || HasValued(attributes[1..]))
  }

  /** The attributes printed behind the last quoted value. */
  function Flags(attributes: seq<Attribute>): string {
    if HasValued(attributes) then Flags(attributes[1..]) else PrintAttributes(attributes)
  }

  /**
   What the parser cuts out for an element: its content, preceded by whatever stood between the
   last quoted value (or the name) and the content, less one character.
   */
  function Cut(e: Elem): string
    decreases e, 0
  {
    (Flags(e.attributes) + (e.pad + ">"))[1..] + PrintBody(e.body)
  }

  function DomOf(e: Elem): Dom
    decreases e, 1
  {
    Dom(e.name, AttributeMap(e.attributes), Cut(e), ChildrenOf(e))
  }

  function ChildrenOf(e: Elem): Children
    decreases e, 0
  {
    if HasKids(e.body) then Elements(KidsOf(e.body)) else Text(Cut(e))
  }

  function KidsOf(b: Body): seq<Dom>
    decreases b, 0
  {
    match b
    case Plain(_) => []
    case Child(_, elem, more) => [DomOf(elem)] + KidsOf(more)
    case Marked(_, _, more) => KidsOf(more)
  }

  /** There are elements in the content. */
  predicate HasKids(b: Body) { b.Child? || (b.Marked? && HasKids(b.more)) }

  lemma {:induction false} HasKidsIff(b: Body)
    ensures HasKids(b) <==> KidsOf(b) != []
  {
    if b.Marked? {
      HasKidsIff(b.more);
    }
  }
}
