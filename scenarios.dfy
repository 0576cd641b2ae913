/** Small trees worked through by hand, stating what the walk reports for each. */
module Scenarios {
  import opened Dom
  import opened Census
  import Report
  import CensusFacts

  // One step up the tree for each census function: the value at a node
  // with one or two children, from the values at those children.

  lemma OneChildDecoratives(n: Node, below: seq<Node>)
    requires |n.children| == 1 && Decoratives(n.children[0]) == below
    ensures Decoratives(n) == (if IsDecorative(n) then [n] else []) + below
  {
    assert n.children[..0] == [];
    assert DecorativesIn(n.children) == DecorativesIn([]) + below;
  }

  lemma TwoChildrenDecoratives(n: Node, left: seq<Node>, right: seq<Node>)
    requires |n.children| == 2
    requires Decoratives(n.children[0]) == left && Decoratives(n.children[1]) == right
    ensures Decoratives(n) == (if IsDecorative(n) then [n] else []) + left + right
  {
    var first := n.children[..1];
    assert first[..0] == [];
    assert DecorativesIn(first) == DecorativesIn([]) + left;
    assert DecorativesIn(n.children) == DecorativesIn(first) + right;
  }

  lemma OneChildTag(n: Node, tag: string, below: nat)
    requires |n.children| == 1 && CountTag(n.children[0], tag) == below
    ensures CountTag(n, tag) == (if n.Element? && n.name == tag then 1 else 0) + below
  {
    assert n.children[..0] == [];
    assert CountTagIn(n.children, tag) == CountTagIn([], tag) + below;
  }

  lemma TwoChildrenTag(n: Node, tag: string, left: nat, right: nat)
    requires |n.children| == 2
    requires CountTag(n.children[0], tag) == left && CountTag(n.children[1], tag) == right
    ensures CountTag(n, tag) == (if n.Element? && n.name == tag then 1 else 0) + left + right
  {
    var first := n.children[..1];
    assert first[..0] == [];
    assert CountTagIn(first, tag) == CountTagIn([], tag) + left;
    assert CountTagIn(n.children, tag) == CountTagIn(first, tag) + right;
  }

  lemma OneChildDepths(level: nat, n: Node, below: seq<nat>)
    requires |n.children| == 1 && LeafDepths(level + 1, n.children[0]) == below
    ensures LeafDepths(level, n) == below
  {
    assert n.children[..0] == [];
    assert LeafDepthsIn(level + 1, n.children) == LeafDepthsIn(level + 1, []) + below;
  }

  lemma TwoChildrenDepths(level: nat, n: Node, left: seq<nat>, right: seq<nat>)
    requires |n.children| == 2
    requires LeafDepths(level + 1, n.children[0]) == left && LeafDepths(level + 1, n.children[1]) == right
    ensures LeafDepths(level, n) == left + right
  {
    var first := n.children[..1];
    assert first[..0] == [];
    assert LeafDepthsIn(level + 1, first) == LeafDepthsIn(level + 1, []) + left;
    assert LeafDepthsIn(level + 1, n.children) == LeafDepthsIn(level + 1, first) + right;
  }

  /** The report figures for two small runs of leaf levels. */
  lemma ReportFigures()
    ensures Report.Sum([0]) == 0 && Report.AverageDepth([0]) == 0 && Report.MaxDepth([0]) == 0
    ensures Report.Sum([1, 3, 5, 4]) == 13
    ensures Report.AverageDepth([1, 3, 5, 4]) == 3
    ensures Report.MaxDepth([1, 3, 5, 4]) == 5
  {
    assert [0][..0] == [] && [1][..0] == [];
    assert [1, 3][..1] == [1];
    assert [1, 3, 5][..2] == [1, 3];
    assert [1, 3, 5, 4][..3] == [1, 3, 5];
  }

  /** A lone element with no children: nothing counted, one leaf at level 0. */
  lemma LoneElement()
    ensures var e := Element("div", [], []);
      && CountTag(e, "script") == 0 && CountTag(e, "nav") == 0
      && CountDecorative(e) == 0 && Decoratives(e) == []
      && LeafDepths(0, e) == [0]
      && Report.AverageDepth(LeafDepths(0, e)) == 0
      && Report.MaxDepth(LeafDepths(0, e)) == 0
  {
    ReportFigures();
  }

  // table > tbody > tr > td > div > p > text
  const TableText: Node := Text([])
  const TablePara: Node := Element("p", [], [TableText])
  const TableDiv: Node := Element("div", [], [TablePara])
  const TableCell: Node := Element("td", [], [TableDiv])
  const TableRow: Node := Element("tr", [], [TableCell])
  const TableBody: Node := Element("tbody", [], [TableRow])
  const Table: Node := Element("table", [], [TableBody])

  /**
   * The exempt table, tbody and td are not reported and p wraps text, but
   * tr is not exempt, so both tr and div are reported, in that order.
   */
  lemma TableWrappers()
    ensures Decoratives(Table) == [TableRow, TableDiv]
    ensures CountDecorative(Table) == 2
  {
    OneChildDecoratives(TablePara, []);
    OneChildDecoratives(TableDiv, []);
    OneChildDecoratives(TableCell, [TableDiv]);
    OneChildDecoratives(TableRow, [TableDiv]);
    OneChildDecoratives(TableBody, [TableRow, TableDiv]);
    OneChildDecoratives(Table, [TableRow, TableDiv]);
    CensusFacts.EmissionsMatchCount(Table);
  }

  /** The one leaf, the text, sits six levels below the table. */
  lemma TableLeaf()
    ensures LeafDepths(0, Table) == [6]
  {
    OneChildDepths(5, TablePara, [6]);
    OneChildDepths(4, TableDiv, [6]);
    OneChildDepths(3, TableCell, [6]);
    OneChildDepths(2, TableRow, [6]);
    OneChildDepths(1, TableBody, [6]);
    OneChildDepths(0, Table, [6]);
  }

  // A doctype, then html holding a head with a script, and a body holding
  // a nav around a link and a script around text.
  const HeadScript: Node := Element("script", [], [])
  const Head: Node := Element("head", [], [HeadScript])
  const LinkText: Node := Text([])
  const Link: Node := Element("a", [], [LinkText])
  const Nav: Node := Element("nav", [], [Link])
  const ScriptText: Node := Text([])
  const BodyScript: Node := Element("script", [], [ScriptText])
  const Body: Node := Element("body", [], [Nav, BodyScript])
  const Html: Node := Element("html", [], [Head, Body])
  const SmallDoc: Node := Document([Doctype([]), Html])

  /** Two scripts at different depths and one nav are counted. */
  lemma SmallDocumentTags()
    ensures CountTag(SmallDoc, "script") == 2
    ensures CountTag(SmallDoc, "nav") == 1
  {
    OneChildTag(Head, "script", 1);
    OneChildTag(Link, "script", 0);
    OneChildTag(Nav, "script", 0);
    OneChildTag(BodyScript, "script", 0);
    TwoChildrenTag(Body, "script", 0, 1);
    TwoChildrenTag(Html, "script", 1, 1);
    TwoChildrenTag(SmallDoc, "script", 0, 2);
    OneChildTag(Head, "nav", 0);
    OneChildTag(Link, "nav", 0);
    OneChildTag(Nav, "nav", 0);
    OneChildTag(BodyScript, "nav", 0);
    TwoChildrenTag(Body, "nav", 1, 0);
    TwoChildrenTag(Html, "nav", 0, 1);
    TwoChildrenTag(SmallDoc, "nav", 0, 1);
  }

  /** head and nav each wrap one element; the link is exempt and the script wraps text. */
  lemma SmallDocumentWrappers()
    ensures Decoratives(SmallDoc) == [Head, Nav]
  {
    OneChildDecoratives(Head, []);
    OneChildDecoratives(Link, []);
    OneChildDecoratives(Nav, []);
    OneChildDecoratives(BodyScript, []);
    TwoChildrenDecoratives(Body, [Nav], []);
    TwoChildrenDecoratives(Html, [Head], [Nav]);
    TwoChildrenDecoratives(SmallDoc, [], [Head, Nav]);
  }

  /** The leaves are the doctype, the head's script and the two texts, in document order. */
  lemma SmallDocumentDepths()
    ensures LeafDepths(0, SmallDoc) == [1, 3, 5, 4]
    ensures Report.AverageDepth(LeafDepths(0, SmallDoc)) == 3
    ensures Report.MaxDepth(LeafDepths(0, SmallDoc)) == 5
  {
    OneChildDepths(2, Head, [3]);
    OneChildDepths(4, Link, [5]);
    OneChildDepths(3, Nav, [5]);
    OneChildDepths(3, BodyScript, [4]);
    TwoChildrenDepths(2, Body, [5], [4]);
    TwoChildrenDepths(1, Html, [3], [5, 4]);
    TwoChildrenDepths(0, SmallDoc, [1], [3, 5, 4]);
    ReportFigures();
  }
}
