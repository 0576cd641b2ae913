/**
 * What a walk over a subtree contributes to each statistic, defined by
 * structural recursion on the tree.  The functions over a sequence of
 * siblings peel off the LAST sibling, so that the contribution of the first
 * i + 1 children is that of the first i plus that of child i, matching the
 * walker's left-to-right loop.
 */
module Census {
  import opened Dom

  /** Tags that are single-child wrappers by convention and never reported. */
  const NonDecorative: set<string> := {"li", "svg", "a", "table", "tbody", "h1", "h2", "h3", "td"}

  /**
   * An element is decorative when it has exactly one child, its name is not
   * exempt, and that one child is not a text node.
   */
  predicate IsDecorative(n: Node) {
    && n.Element?
    && |n.children| == 1
    && n.name !in NonDecorative
    && !n.children[0].Text?
  }

  /** The number of elements named `tag` in the subtree, at any depth. */
  function CountTag(n: Node, tag: string): nat
    decreases n
  {
    (if n.Element? && n.name == tag then 1 else 0) + CountTagIn(n.children, tag)
  }

  function CountTagIn(ns: seq<Node>, tag: string): nat
    decreases ns
  {
    if ns == [] then 0 else CountTagIn(ns[..|ns| - 1], tag) + CountTag(ns[|ns| - 1], tag)
  }

  /** The number of decorative elements in the subtree. */
  function CountDecorative(n: Node): nat
    decreases n
  {
    (if IsDecorative(n) then 1 else 0) + CountDecorativeIn(n.children)
  }

  function CountDecorativeIn(ns: seq<Node>): nat
    decreases ns
  {
    if ns == [] then 0 else CountDecorativeIn(ns[..|ns| - 1]) + CountDecorative(ns[|ns| - 1])
  }

  /** The decorative elements of the subtree, each before its descendants. */
  function Decoratives(n: Node): seq<Node>
    decreases n
  {
    (if IsDecorative(n) then [n] else []) + DecorativesIn(n.children)
  }

  function DecorativesIn(ns: seq<Node>): seq<Node>
    decreases ns
  {
    if ns == [] then [] else DecorativesIn(ns[..|ns| - 1]) + Decoratives(ns[|ns| - 1])
  }

  /**
   * The levels of the subtree's leaves, left to right, when `n` sits at
   * `level`.  Every finite tree has a leaf, so the sequence is never empty.
   */
  function LeafDepths(level: nat, n: Node): (r: seq<nat>)
    ensures |r| >= 1
    decreases n
  {
    if |n.children| == 0 then [level] else LeafDepthsIn(level + 1, n.children)
  }

  function LeafDepthsIn(level: nat, ns: seq<Node>): (r: seq<nat>)
    ensures ns != [] ==> |r| >= 1
    decreases ns
  {
    if ns == [] then [] else LeafDepthsIn(level, ns[..|ns| - 1]) + LeafDepths(level, ns[|ns| - 1])
  }

  /** The number of edges on a longest path from `n` down to a leaf. */
  function Height(n: Node): nat
    decreases n
  {
    if |n.children| == 0 then 0 else 1 + HeightIn(n.children)
  }

  function HeightIn(ns: seq<Node>): nat
    decreases ns
  {
    if ns == [] then 0 else
      var h, k := HeightIn(ns[..|ns| - 1]), Height(ns[|ns| - 1]);
      if h < k then k else h
  }
}

/** Facts about the census functions that hold for every tree. */
module CensusFacts {
  import opened Dom
  import opened Census

  /** Exactly one report block is written per decorative element counted. */
  lemma {:induction false} EmissionsMatchCount(n: Node)
    ensures |Decoratives(n)| == CountDecorative(n)
    ensures forall i :: 0 <= i < |Decoratives(n)| ==> IsDecorative(Decoratives(n)[i])
    decreases n
  {
    EmissionsMatchCountIn(n.children);
  }

  lemma {:induction false} EmissionsMatchCountIn(ns: seq<Node>)
    ensures |DecorativesIn(ns)| == CountDecorativeIn(ns)
    ensures forall i :: 0 <= i < |DecorativesIn(ns)| ==> IsDecorative(DecorativesIn(ns)[i])
    decreases ns
  {
    if ns != [] {
      EmissionsMatchCountIn(ns[..|ns| - 1]);
      EmissionsMatchCount(ns[|ns| - 1]);
    }
  }

  /** Every recorded leaf level lies between the subtree's own level and its deepest point. */
  lemma {:induction false} LeafDepthsWithinHeight(level: nat, n: Node)
    ensures forall i :: 0 <= i < |LeafDepths(level, n)| ==>
      level <= LeafDepths(level, n)[i] <= level + Height(n)
    decreases n
  {
    if |n.children| > 0 {
      LeafDepthsWithinHeightIn(level + 1, n.children);
    }
  }

  lemma {:induction false} LeafDepthsWithinHeightIn(level: nat, ns: seq<Node>)
    ensures forall i :: 0 <= i < |LeafDepthsIn(level, ns)| ==>
      level <= LeafDepthsIn(level, ns)[i] <= level + HeightIn(ns)
    decreases ns
  {
    if ns != [] {
      LeafDepthsWithinHeightIn(level, ns[..|ns| - 1]);
      LeafDepthsWithinHeight(level, ns[|ns| - 1]);
    }
  }
}

