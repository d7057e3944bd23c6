/** The element builder of Didact: immutable tree descriptions built from a
    type tag, a property bag and a variadic list of children. */
module Elements {

  /** The reserved type tag of text elements. */
  const TextType: string := "#text"

  /** The property key that holds a text element's value. */
  const NodeValueKey: string := "nodeValue"

  /** The property key under which an element keeps its normalised children. */
  const ChildrenKey: string := "children"

  /** A value that is not an object: what a text element wraps. */
  datatype Primitive = Str(s: string) | Num(n: int) | Bool(b: bool)

  /** A property value: a primitive, or a reference to an object or function
      (a style object, an event handler) that is copied but never inspected. */
  datatype PropValue = Prim(p: Primitive) | Ref(id: nat)

  /** An element. `props` holds every property except the children list,
      which is the field `children` (the `children` entry of the element's
      property bag). */
  datatype Element = Element(typ: string, props: map<string, PropValue>, children: seq<Element>)

  /** One argument of the variadic child list: an object (an element, kept as
      it is) or any other value (wrapped as a text element). */
  datatype Child = ElementChild(element: Element) | PrimitiveChild(value: Primitive)

  /** The property bag a caller passes; `None` is a null or absent bag, which
      spreads to nothing. */
  type CallerProps = Option<map<string, PropValue>>

  datatype Option<T> = None | Some(value: T)

  /** The property map of a text element holding `text`. */
  predicate IsTextElementOf(e: Element, text: Primitive)
  {
    e.typ == TextType && e.props.Keys == {NodeValueKey} && e.props[NodeValueKey] == Prim(text)
    && e.children == []
  }

  /** Wraps a non-object child as a `#text` element. */
  function CreateTextElement(text: Primitive): (r: Element)
    ensures IsTextElementOf(r, text)
  {
    Element(TextType, map[NodeValueKey := Prim(text)], [])
  }

  /** The value a text element carries, if any. */
  function TextValue(e: Element): Option<Primitive>
  {
    if e.typ == TextType && NodeValueKey in e.props && e.props[NodeValueKey].Prim? then
      Some(e.props[NodeValueKey].p)
    else
      None
  }

  /** Normalises one child: objects pass through, anything else is wrapped. */
  function NormalizeChild(c: Child): Element
  {
    match c
    case ElementChild(e) => e
    case PrimitiveChild(v) => CreateTextElement(v)
  }

  /** The `children.map(...)` of the builder: normalises every child, in order. */
  function NormalizeChildren(cs: seq<Child>): (r: seq<Element>)
    ensures |r| == |cs|
    ensures forall i :: 0 <= i < |cs| && cs[i].ElementChild? ==> r[i] == cs[i].element
    ensures forall i :: 0 <= i < |cs| && cs[i].PrimitiveChild? ==> IsTextElementOf(r[i], cs[i].value)
  {
    if cs == [] then [] else [NormalizeChild(cs[0])] + NormalizeChildren(cs[1..])
  }

  /** The caller's properties as they survive the spread: every key except
      `children`, which the builder always overrides. */
  function SpreadProps(props: CallerProps): (r: map<string, PropValue>)
    ensures ChildrenKey !in r
    ensures forall k :: k in r <==> props.Some? && k in props.value && k != ChildrenKey
    ensures forall k :: k in r ==> r[k] == props.value[k]
  {
    match props
    case None => map[]
    case Some(m) => m - {ChildrenKey}
  }

  /** Builds an element from a type, the caller's property bag and the
      variadic children. */
  function CreateElement(typ: string, props: CallerProps, children: seq<Child>): (r: Element)
    ensures r.typ == typ
    ensures forall k :: k in r.props <==> props.Some? && k in props.value && k != ChildrenKey
    ensures forall k :: k in r.props ==> r.props[k] == props.value[k]
    ensures |r.children| == |children|
    ensures forall i :: 0 <= i < |children| && children[i].ElementChild? ==>
              r.children[i] == children[i].element
    ensures forall i :: 0 <= i < |children| && children[i].PrimitiveChild? ==>
              IsTextElementOf(r.children[i], children[i].value)
  {
    Element(typ, SpreadProps(props), NormalizeChildren(children))
  }

  /** The shape the builder produces and the renderer relies on: no
      `children` key among the other properties, and every text element
      carries a node value; recursively. */
  predicate Normalized(e: Element)
  {
    ChildrenKey !in e.props
    && (e.typ == TextType ==> NodeValueKey in e.props)
    && forall i :: 0 <= i < |e.children| ==> Normalized(e.children[i])
  }

  /** Every element among the children is normalised. */
  predicate ChildrenNormalized(cs: seq<Child>)
  {
    forall i :: 0 <= i < |cs| && cs[i].ElementChild? ==> Normalized(cs[i].element)
  }

  /** Number of elements in a tree. */
  function Size(e: Element): (n: nat)
    ensures n >= 1
  {
    1 + SizeOfAll(e.children)
  }

  function SizeOfAll(es: seq<Element>): nat
  {
    if es == [] then 0 else Size(es[0]) + SizeOfAll(es[1..])
  }

  /** Text elements are normalised. */
  lemma TextElementNormalized(text: Primitive)
    ensures Normalized(CreateTextElement(text))
    ensures TextValue(CreateTextElement(text)) == Some(text)
  {
  }

  /** The builder keeps the shape invariant: from normalised element children
      (and, for a `#text` type, a node value) it builds a normalised element. */
  lemma CreateElementNormalized(typ: string, props: CallerProps, children: seq<Child>)
    requires ChildrenNormalized(children)
    requires typ == TextType ==> props.Some? && NodeValueKey in props.value
    ensures Normalized(CreateElement(typ, props, children))
  {
  }

  /** A caller-supplied `children` property never reaches the result. */
  lemma ChildrenPropIgnored(typ: string, props: map<string, PropValue>, v: PropValue, children: seq<Child>)
    ensures CreateElement(typ, Some(props[ChildrenKey := v]), children)
         == CreateElement(typ, Some(props - {ChildrenKey}), children)
  {
  }

  /** Passing elements back as object children rebuilds them unchanged: the
      builder is the identity on what it has already normalised. */
  lemma RebuildIdentity(e: Element)
    requires ChildrenKey !in e.props
    ensures CreateElement(e.typ, Some(e.props), AsChildren(e.children)) == e
  {
  }

  /** Every element of a list as an object child. */
  function AsChildren(es: seq<Element>): (cs: seq<Child>)
    ensures |cs| == |es|
    ensures forall i :: 0 <= i < |es| ==> cs[i] == ElementChild(es[i])
  {
    if es == [] then [] else [ElementChild(es[0])] + AsChildren(es[1..])
  }

  /** Counting the elements of a list one tree at a time: a list extended by
      one tree counts that tree's elements more. */
  lemma {:induction false} SizeOfAllSnoc(es: seq<Element>, e: Element)
    ensures SizeOfAll(es + [e]) == SizeOfAll(es) + Size(e)
  {
    if es == [] {
      assert es + [e] == [e];
      assert [e][1..] == [];
    } else {
      assert (es + [e])[1..] == es[1..] + [e];
      SizeOfAllSnoc(es[1..], e);
    }
  }
}
