/** The initial renderer of Didact: walks an element tree depth first and
    builds a host node for every element, over an abstract host tree in
    place of the browser DOM. */
module Renderer {
  import opened Elements

  /** What the host adapter creates: a text node, or an element node with a tag. */
  datatype NodeKind = TextNode | ElementNode(tag: string)

  /** The value of a host subtree: kind, properties and children in order. */
  datatype HostTree = HostTree(kind: NodeKind, attrs: map<string, PropValue>, children: seq<HostTree>)

  /** The node the host adapter creates for an element type: a text node for
      `#text`, otherwise an element node tagged with the type. */
  function KindOf(typ: string): (k: NodeKind)
    ensures k.TextNode? <==> typ == TextType
    ensures k.ElementNode? ==> k.tag == typ
  {
    if typ == TextType then TextNode else ElementNode(typ)
  }

  /** The properties a fresh host node has: a text node is created with an
      empty node value, an element node with none. */
  function InitialAttrs(kind: NodeKind): map<string, PropValue>
  {
    if kind.TextNode? then map[NodeValueKey := Prim(Str(""))] else map[]
  }

  /** The host subtree that rendering `e` builds: the node the adapter
      creates for `e.typ`, every property but `children` assigned over its
      initial properties, and the children rendered in order. */
  function Mirror(e: Element): (h: HostTree)
    ensures h.kind == KindOf(e.typ)
    ensures forall k :: k in h.attrs <==> k in InitialAttrs(h.kind) || (k in e.props && k != ChildrenKey)
    ensures forall k :: k in e.props && k != ChildrenKey ==> h.attrs[k] == e.props[k]
    ensures |h.children| == |e.children|
    ensures forall i :: 0 <= i < |e.children| ==> h.children[i] == Mirror(e.children[i])
  {
    HostTree(KindOf(e.typ), InitialAttrs(KindOf(e.typ)) + (e.props - {ChildrenKey}),
             seq(|e.children|, i requires 0 <= i < |e.children| => Mirror(e.children[i])))
  }

  /** Reads an element back from a host subtree: the inverse of Mirror. */
  function ElementOf(h: HostTree): (e: Element)
    ensures e.typ == TextType <==> h.kind.TextNode? || h.kind.tag == TextType
    ensures e.props == h.attrs
    ensures |e.children| == |h.children|
  {
    Element(if h.kind.TextNode? then TextType else h.kind.tag, h.attrs,
            seq(|h.children|, i requires 0 <= i < |h.children| => ElementOf(h.children[i])))
  }

  /** Number of nodes in a host subtree. */
  function HostSize(h: HostTree): (n: nat)
    ensures n >= 1
  {
    1 + HostSizeOfAll(h.children)
  }

  function HostSizeOfAll(hs: seq<HostTree>): nat
  {
    if hs == [] then 0 else HostSize(hs[0]) + HostSizeOfAll(hs[1..])
  }

  /** Rendering loses nothing of a normalised element: its type, its
      properties and its children, in order, can all be read back. */
  lemma {:induction false} MirrorRoundTrip(e: Element)
    requires Normalized(e)
    ensures ElementOf(Mirror(e)) == e
    decreases e
  {
    var h := Mirror(e);
    var r := ElementOf(h);
    forall i | 0 <= i < |e.children|
      ensures r.children[i] == e.children[i]
    {
      MirrorRoundTrip(e.children[i]);
    }
    assert r.props == e.props;
  }

  /** The host subtree has exactly as many nodes as the element tree. */
  lemma {:induction false} MirrorSize(e: Element)
    ensures HostSize(Mirror(e)) == Size(e)
    decreases e, 1
  {
    MirrorSizeOfAll(e.children, Mirror(e).children);
  }

  lemma {:induction false} MirrorSizeOfAll(es: seq<Element>, hs: seq<HostTree>)
    requires |hs| == |es|
    requires forall i :: 0 <= i < |es| ==> hs[i] == Mirror(es[i])
    ensures HostSizeOfAll(hs) == SizeOfAll(es)
    decreases es, 0
  {
    if es != [] {
      MirrorSize(es[0]);
      MirrorSizeOfAll(es[1..], hs[1..]);
    }
  }

  /** Built and then rendered, every non-object child becomes a childless
      text node whose node value is that child, and every element child is
      rendered as itself, at the same position. */
  lemma RenderedChildren(typ: string, props: CallerProps, children: seq<Child>, i: nat)
    requires i < |children|
    ensures |Mirror(CreateElement(typ, props, children)).children| == |children|
    ensures children[i].PrimitiveChild? ==>
              Mirror(CreateElement(typ, props, children)).children[i]
              == HostTree(TextNode, map[NodeValueKey := Prim(children[i].value)], [])
    ensures children[i].ElementChild? ==>
              Mirror(CreateElement(typ, props, children)).children[i] == Mirror(children[i].element)
  {
  }

  /** A node of the host tree, updated in place by the renderer. */
  class HostNode {
    var kind: NodeKind
    var attrs: map<string, PropValue>
    var children: seq<HostNode>
    /** The nodes of this subtree. */
    ghost var Repr: set<object>

    /** The subtree is a tree: every child's nodes lie inside this one's and
        never include this node, and no two children share a node. */
    ghost predicate Valid()
      reads this, Repr
      decreases Repr
    {
      this in Repr
      && (forall i :: 0 <= i < |children| ==>
            children[i] in Repr && children[i].Repr <= Repr && this !in children[i].Repr
            && children[i].Valid())
      && (forall i, j :: 0 <= i < j < |children| ==> children[i].Repr !! children[j].Repr)
    }

    /** The value of the subtree rooted here. */
    ghost function Model(): HostTree
      reads this, Repr
      requires Valid()
      decreases Repr
    {
      HostTree(kind, attrs,
               seq(|children|, i requires 0 <= i < |children| && Valid() reads this, Repr =>
                     children[i].Model()))
    }

    /** `document.createTextNode("")` or `document.createElement(tag)`. */
    constructor (kind: NodeKind)
      ensures this.kind == kind && attrs == InitialAttrs(kind) && children == []
      ensures Valid() && Repr == {this}
    {
      this.kind := kind;
      attrs := InitialAttrs(kind);
      children := [];
      Repr := {this};
    }
  }

  /** The `for ... in` over an element's properties: every property but
      `children` is assigned onto the node, over what it already holds. */
  method AssignProps(n: HostNode, props: map<string, PropValue>)
    modifies n`attrs
    ensures n.attrs == old(n.attrs) + (props - {ChildrenKey})
  {
    var keys := props.Keys;
    while keys != {}
      invariant keys <= props.Keys
      invariant n.attrs == old(n.attrs) + map k | k in props.Keys - keys && k != ChildrenKey :: props[k]
      decreases keys
    {
      var k :| k in keys;
      if k != ChildrenKey {
        n.attrs := n.attrs[k := props[k]];
      }
      keys := keys - {k};
    }
  }

  /** `parent.appendChild(child)` for a child that is not yet attached: the
      child's subtree becomes the parent's last child, and the parent's own
      kind, properties and earlier children stay as they were. */
  method AppendChild(parent: HostNode, child: HostNode)
    requires parent.Valid() && child.Valid() && parent.Repr !! child.Repr
    modifies parent`children, parent`Repr
    ensures parent.children == old(parent.children) + [child]
    ensures parent.Repr == old(parent.Repr) + child.Repr
    ensures parent.Valid()
    ensures parent.Model()
         == HostTree(old(parent.Model()).kind, old(parent.Model()).attrs,
                     old(parent.Model()).children + [child.Model()])
  {
    ghost var before := parent.Model();
    ghost var kids := parent.children;
    parent.children := parent.children + [child];
    parent.Repr := parent.Repr + child.Repr;
    assert forall j :: 0 <= j < |kids| ==> parent.children[j] == kids[j];
    assert parent.Valid();
    assert |parent.Model().children| == |before.children| + 1;
    forall j | 0 <= j < |kids|
      ensures parent.Model().children[j] == before.children[j]
    {
    }
  }

  /** Renders `element` into `container`: builds a fresh host subtree that
      mirrors the element tree, one node per element, and appends it as the
      container's last child. The ghost result is the new node. */
  method Render(element: Element, container: HostNode) returns (ghost node: HostNode)
    requires container.Valid()
    modifies container`children, container`Repr
    ensures container.children == old(container.children) + [node]
    ensures fresh(node) && fresh(node.Repr)
    ensures node.Valid() && node.Model() == Mirror(element)
    ensures |node.Repr| == Size(element)
    ensures container.Valid() && container.Repr == old(container.Repr) + node.Repr
    ensures container.Model()
         == HostTree(old(container.Model()).kind, old(container.Model()).attrs,
                     old(container.Model()).children + [Mirror(element)])
    decreases element, 1
  {
    var n := new HostNode(KindOf(element.typ));
    AssignProps(n, element.props);
    RenderChildren(element, n);
    AppendChild(container, n);
    node := n;
  }

  /** The `for ... of` over an element's children: renders each of them into
      the node just created for the element, in order. */
  method RenderChildren(element: Element, n: HostNode)
    requires n.Valid() && n.children == [] && n.Repr == {n}
    modifies n`children, n`Repr
    ensures n.Valid() && fresh(n.Repr - {n}) && n in n.Repr
    ensures n.Model() == HostTree(old(n.kind), old(n.attrs), Mirror(element).children)
    ensures |n.Repr| == Size(element)
    decreases element, 0
  {
    ghost var mirror := Mirror(element);
    for i := 0 to |element.children|
      invariant n.Valid() && fresh(n.Repr - {n}) && n in n.Repr
      invariant n.Model() == HostTree(old(n.kind), old(n.attrs), mirror.children[..i])
      invariant |n.Repr| == 1 + SizeOfAll(element.children[..i])
    {
      ghost var c := Render(element.children[i], n);
      assert mirror.children[..i + 1] == mirror.children[..i] + [mirror.children[i]];
      assert element.children[..i + 1] == element.children[..i] + [element.children[i]];
      SizeOfAllSnoc(element.children[..i], element.children[i]);
    }
    assert element.children[..|element.children|] == element.children;
    assert mirror.children[..|element.children|] == mirror.children;
  }
}
