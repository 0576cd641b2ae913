/**
 * The tree walk: a recursive pre-order traversal that updates a mutable
 * statistics record and writes one report block per decorative element to
 * standard output, followed by the driver that starts it at the document
 * root and computes the summary.
 */
module Walker {
  import opened Dom
  import opened Census
  import Report
  import CensusFacts

  /** The statistics the walk accumulates. */
  class Stats {
    var decorativeNodes: nat
    var depths: seq<nat>
    var scriptTags: nat
    var navTags: nat

    /** Every statistic starts at zero, the depth list empty. */
    constructor ()
      ensures decorativeNodes == 0 && depths == [] && scriptTags == 0 && navTags == 0
    {
      decorativeNodes, depths, scriptTags, navTags := 0, [], 0, 0;
    }
  }

  /**
   * Standard output, seen as the report blocks written to it.  A block is
   * the marker line followed by the serialised markup of one element; the
   * element stands for its serialisation here.
   */
  class Output {
    var badTags: seq<Node>

    constructor ()
      ensures badTags == []
    {
      badTags := [];
    }

    /** Writes the marker line and the markup of `n`, the node included. */
    method EmitBadTag(n: Node)
      modifies this
      ensures badTags == old(badTags) + [n]
    {
      badTags := badTags + [n];
    }
  }

  /**
   * The per-node step of the walk: bumps the script and nav counters by the
   * element's local name and counts it when it is decorative.  Other node
   * kinds change nothing.  The result says whether a report block is due.
   */
  method Classify(node: Node, stats: Stats) returns (printTag: bool)
    requires !node.ProcessingInstruction?
    modifies stats
    ensures printTag == IsDecorative(node)
    ensures stats.scriptTags == old(stats.scriptTags) + if node.Element? && node.name == "script" then 1 else 0
    ensures stats.navTags == old(stats.navTags) + if node.Element? && node.name == "nav" then 1 else 0
    ensures stats.decorativeNodes == old(stats.decorativeNodes) + if printTag then 1 else 0
    ensures stats.depths == old(stats.depths)
  {
    printTag := false;
    var children := node.children;

    match node {
    case Document(_) =>
    case Doctype(_) =>
    case Text(_) =>
    case Comment(_) =>
    case Element(name, _, _) =>
      if name == "script" {
        stats.scriptTags := stats.scriptTags + 1;
      }
      if name == "nav" {
        stats.navTags := stats.navTags + 1;
      }
      if |children| == 1 {
        if name !in NonDecorative {
          match children[0] {
          case Text(_) =>
          case _ =>
            stats.decorativeNodes := stats.decorativeNodes + 1;
            printTag := true;
          }
        }
      }
    case ProcessingInstruction(_) =>
      assert false;
    }
  }

  /**
   * Visits `node` at `level` and then its children left to right at
   * `level + 1`.  Each statistic grows by exactly the subtree's contribution,
   * the leaf levels are appended in document order, and one block is written
   * per decorative element, each before the blocks of its descendants.
   */
  method Walk(level: nat, node: Node, stats: Stats, out: Output)
    requires NoProcessingInstruction(node)
    modifies stats, out
    ensures stats.scriptTags == old(stats.scriptTags) + CountTag(node, "script")
    ensures stats.navTags == old(stats.navTags) + CountTag(node, "nav")
    ensures stats.decorativeNodes == old(stats.decorativeNodes) + CountDecorative(node)
    ensures stats.depths == old(stats.depths) + LeafDepths(level, node)
    ensures out.badTags == old(out.badTags) + Decoratives(node)
    decreases node, 1
  {
    var printTag := Classify(node, stats);
    if printTag {
      out.EmitBadTag(node);
    }
    WalkChildren(level + 1, node.children, stats, out);
    if |node.children| == 0 {
      stats.depths := stats.depths + [level];
    }
  }

  /** Walks each of `children` in turn, left to right, all at `level`. */
  method WalkChildren(level: nat, children: seq<Node>, stats: Stats, out: Output)
    requires forall i :: 0 <= i < |children| ==> NoProcessingInstruction(children[i])
    modifies stats, out
    ensures stats.scriptTags == old(stats.scriptTags) + CountTagIn(children, "script")
    ensures stats.navTags == old(stats.navTags) + CountTagIn(children, "nav")
    ensures stats.decorativeNodes == old(stats.decorativeNodes) + CountDecorativeIn(children)
    ensures stats.depths == old(stats.depths) + LeafDepthsIn(level, children)
    ensures out.badTags == old(out.badTags) + DecorativesIn(children)
    decreases children, 0
  {
    var i := 0;
    while i < |children|
      invariant 0 <= i <= |children|
      invariant stats.scriptTags == old(stats.scriptTags) + CountTagIn(children[..i], "script")
      invariant stats.navTags == old(stats.navTags) + CountTagIn(children[..i], "nav")
      invariant stats.decorativeNodes == old(stats.decorativeNodes) + CountDecorativeIn(children[..i])
      invariant stats.depths == old(stats.depths) + LeafDepthsIn(level, children[..i])
      invariant out.badTags == old(out.badTags) + DecorativesIn(children[..i])
    {
      assert children[..i + 1][..i] == children[..i];
      Walk(level, children[i], stats, out);
      i := i + 1;
    }
    assert children[..i] == children;
  }

  /** The figures of the final report, in the order they are printed. */
  datatype Summary = Summary(
    scriptTags: nat,
    decorativeNodes: nat,
    averageDepth: nat,
    maxDepth: nat,
    navTags: nat)

  /**
   * Walks the parsed document from the root at level 0 with fresh
   * statistics, then computes the report.  Returns what the walk wrote to
   * standard output and the summary figures.
   */
  method Run(document: Node) returns (badTags: seq<Node>, summary: Summary)
    requires NoProcessingInstruction(document)
    ensures badTags == Decoratives(document)
    ensures summary.scriptTags == CountTag(document, "script")
    ensures summary.navTags == CountTag(document, "nav")
    ensures summary.decorativeNodes == CountDecorative(document) == |badTags|
    ensures summary.averageDepth == Report.AverageDepth(LeafDepths(0, document))
    ensures summary.maxDepth == Height(document)
    ensures summary.averageDepth <= summary.maxDepth
  {
    var s := new Stats();
    var out := new Output();
    Walk(0, document, s, out);
    CensusFacts.EmissionsMatchCount(document);
    Report.MaxLeafDepthIsHeight(0, document);

    var depths := s.depths;
    assert depths == LeafDepths(0, document);
    Report.AverageAtMostMax(depths);
    summary := Summary(
      s.scriptTags,
      s.decorativeNodes,
      Report.AverageDepth(depths),
      Report.MaxDepth(depths),
      s.navTags);
    badTags := out.badTags;
  }
}
