# Didact: element builder and initial renderer

Didact is a tiny UI library. This project models its two working parts:

- **The element builder** (`createElement`, `createTextElement`). It turns a type tag, a property bag and a variadic list of children into an element record. Object children are kept as they are. Every other child is wrapped as a `#text` element whose `nodeValue` is that child and whose children list is empty.
- **The initial renderer** (`render`). It walks an element tree depth first and creates a host node for every element: a text node for `#text`, otherwise an element node tagged with the type. It assigns every property except `children` onto the node, renders the children into the node in order, and appends the finished node to the container.

`elements.dfy` (module `Elements`) holds the builder as pure functions. An element is `Element(typ, props, children)`. `props` holds every property except the children list. The `children` entry of the source's property bag is the `children` field. A child argument is `ElementChild(element)` (an object) or `PrimitiveChild(value)` (anything else). A caller property bag is `Option<map>`, where `None` stands for the `null` bag that spreads to nothing.

`render.dfy` (module `Renderer`) replaces the browser DOM with an abstract, mutable `HostNode` class. It has a kind (text node or tagged element node), a property map and a list of children. A ghost `Repr` footprint and `Valid()` make it a tree: each child's nodes lie inside its parent's, never include the parent, and are disjoint from its siblings' nodes. `Model()` reads a subtree back as a `HostTree` value. `Render` is the recursive method; `AssignProps`, `RenderChildren` and `AppendChild` are its property loop, its children loop and the host's append. It is proved against the pure function `Mirror`, which states which host subtree an element renders to. `ElementOf` reads an element back from a host subtree, and the lemmas relate the two.

## Model

| member | source | states |
|---|---|---|
| `Elements.CreateTextElement` | src/index.js:20-28 | the text element has type `#text`, its props hold exactly the key `nodeValue`, bound to the wrapped value, and it has no children |
| `Elements.TextElementNormalized` | src/index.js:20-28 | a text element is well-formed, and its `nodeValue` reads back the wrapped value |
| `Elements.NormalizeChildren` | src/index.js:9-15 | the normalised list has the same length as the argument list and keeps its order. At each position an object child appears unchanged and any other child appears as the text element holding it |
| `Elements.SpreadProps` | src/index.js:7-9 | the spread keeps exactly the caller's keys other than `children`, with their values; a null bag contributes nothing |
| `Elements.CreateElement` | src/index.js:3-18 | the result's type is the type argument. Its props are the caller's props minus `children`, unchanged. Its children are the argument children in the same number and order: object children as given, others wrapped as text elements |
| `Elements.ChildrenPropIgnored` | src/index.js:7-9 | a caller-supplied `children` property never changes the result, because the normalised list overrides it |
| `Elements.CreateElementNormalized` | src/index.js:3-28 | from well-formed element children the builder yields a well-formed element: no `children` key among the other props, and a `nodeValue` on every text element. For a `#text` type the caller must supply that `nodeValue` |
| `Elements.RebuildIdentity` | src/index.js:9-11 | passing an element's children back as object children, with its props, rebuilds the same element |
| `Renderer.KindOf` | src/index.js:31 | the node created is a text node iff the type is `#text`; otherwise it is an element node tagged with the type |
| `Renderer.Mirror` | src/index.js:30-44 | the host subtree for an element has the kind of its type. Its properties are the initial ones overwritten by every element prop except `children`. Its children are the host subtrees of the element's children, one each and in the same order |
| `Renderer.ElementOf` | src/index.js:30-44 | a specification inverse of `Mirror` with no counterpart in the source, used only to state the round trip: reading an element back keeps the properties and the number of children, and yields type `#text` exactly for text nodes (or a `#text` tag) |
| `Renderer.MirrorRoundTrip` | src/index.js:30-44 | for a well-formed element, reading back the rendered host subtree gives the element again: type, props, children and their order are all kept |
| `Renderer.MirrorSize` | src/index.js:36-40 | the rendered host subtree has exactly as many nodes as the element tree |
| `Renderer.RenderedChildren` | src/index.js:9-15 | after building and then rendering, each non-object child becomes a childless text node holding that value. Each element child is rendered as itself, at the same position |
| `Renderer.AssignProps` | src/index.js:32-35 | the loop over the props assigns every prop except `children` onto the node, over what it already holds, and changes nothing else |
| `Renderer.HostNode.constructor` | src/index.js:31 | a new node of the given kind has no children. A text node starts with an empty `nodeValue`; an element node starts with no properties |
| `Renderer.Render` | src/index.js:30-44 | from a well-formed container, the container gains exactly one new node, as its last child. Its kind, properties and earlier children are unchanged, and it stays a well-formed tree. The new node roots a fresh subtree with exactly one host node per element, whose value is `Mirror` of the element |
| `Renderer.RenderChildren` | src/index.js:36-40 | each child of the element is rendered into the new node, in order. Afterwards the node's children are the `Mirror`s of the element's children, and its subtree holds one fresh host node per element |
| `Renderer.AppendChild` | src/index.js:43 | appending a detached subtree makes it the parent's last child. The parent's kind, properties and earlier children are unchanged, and the parent stays a well-formed tree that now also holds the child's nodes |

## Left out

- The DOM calls `document.createTextNode`, `document.createElement` and `appendChild` are foreign library code. They are replaced by the abstract `HostNode` class. `Renderer.AppendChild` appends only a node that is not yet attached, which is all the renderer ever appends. The DOM's moving of an already attached node is not modelled. The DOM's own rejections are not modelled: an invalid tag name and appending under a text node both throw in a browser. Neither is the DOM's coercion of a property value to the type of the node property it is assigned to.
- `console.log` tracing and the stylesheet import are I/O with no behaviour to model.
- The fiber section (`workLoop`, `performUnitOfWork`, `requestIdleCallback`) is left out. It only reschedules itself through the host's idle callback and increments a counter; there is no reconciliation, commit or hook logic in the code to model.
- The commented-out blocking loop and the JSX demo app at the end of the file are demo code. They depend on a markup compiler that is not part of this model.
- JavaScript's `typeof` is not replicated: `null` counts as an object and functions as non-objects there. A child is either an element (passed through) or a primitive (wrapped). Numbers are modelled as integers, not floating point.
- `Renderer.AssignProps`: the source assigns properties and renders children in the key order of the property bag. It renders the children when the `children` key comes up, and a caller's own `children` key keeps its original position through the spread. The model assigns all properties first and then renders the children. It treats properties and children of a host node as independent, which the DOM does not. For example, a `textContent` or `innerHTML` property that comes after the `children` key wipes, in a browser, the children the source has just appended, but the model keeps them.
- `Renderer.Render`: the source returns nothing. The new node is exposed here only as a ghost result, so that the contract can name it.
