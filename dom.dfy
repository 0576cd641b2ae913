/**
 * The already-parsed document tree that the walker reads.
 *
 * Every node kind of the parser's closed variant set carries its ordered
 * children; an element also carries its local name and its attributes.
 * Interned tag atoms are plain strings here, and the payloads of doctype,
 * text and comment nodes are left out because no decision depends on them.
 */
module Dom {

  /** One attribute of an element, as a (name, value) pair. */
  datatype Attribute = Attribute(name: string, value: string)

  datatype Node =
    | Document(children: seq<Node>)
    | Doctype(children: seq<Node>)
    | Text(children: seq<Node>)
    | Comment(children: seq<Node>)
    | Element(name: string, attrs: seq<Attribute>, children: seq<Node>)
    | ProcessingInstruction(children: seq<Node>)

  /** A leaf is a node without children, whatever its kind. */
  predicate IsLeaf(n: Node) {
    |n.children| == 0
  }

  /**
   * The walker treats a processing-instruction node as impossible in an
   * HTML tree; this says the whole subtree is free of them.
   */
  predicate NoProcessingInstruction(n: Node)
    decreases n
  {
    && !n.ProcessingInstruction?
    && forall i :: 0 <= i < |n.children| ==> NoProcessingInstruction(n.children[i])
  }
}
