/**
 * An independent account of the walk's visiting order.  `Visits` lists every
 * node of a tree once, in pre-order (a node, then each child's subtree from
 * left to right), together with the level it is visited at (one more than
 * its parent's).  Each census function is then shown to be a plain filter of
 * this list: counting, collecting or reading the levels of the visits that
 * meet a criterion.
 */
module DocumentOrder {
  import opened Dom
  import opened Census

  /** One visit of the walk: the node, and its distance from the walk's start plus the start level. */
  datatype Visit = Visit(node: Node, level: nat)

  function Visits(level: nat, n: Node): seq<Visit>
    decreases n
  {
    [Visit(n, level)] + VisitsIn(level + 1, n.children)
  }

  function VisitsIn(level: nat, ns: seq<Node>): seq<Visit>
    decreases ns
  {
    if ns == [] then [] else VisitsIn(level, ns[..|ns| - 1]) + Visits(level, ns[|ns| - 1])
  }

  /** What a statistic looks for in a visited node. */
  datatype Criterion = Tagged(tag: string) | Decorative | Childless

  predicate Meets(n: Node, c: Criterion) {
    match c
    case Tagged(tag) => n.Element? && n.name == tag
    case Decorative => IsDecorative(n)
    case Childless => IsLeaf(n)
  }

  /** The visits that meet `c`, in their original order. */
  function Select(vs: seq<Visit>, c: Criterion): seq<Visit> {
    if vs == [] then [] else (if Meets(vs[0].node, c) then [vs[0]] else []) + Select(vs[1..], c)
  }

  function NodesOf(vs: seq<Visit>): seq<Node> {
    seq(|vs|, i requires 0 <= i < |vs| => vs[i].node)
  }

  function LevelsOf(vs: seq<Visit>): seq<nat> {
    seq(|vs|, i requires 0 <= i < |vs| => vs[i].level)
  }

  /** Filtering two runs of visits one after the other is filtering each. */
  lemma {:induction false} SelectAppend(a: seq<Visit>, b: seq<Visit>, c: Criterion)
    ensures Select(a + b, c) == Select(a, c) + Select(b, c)
  {
    if a != [] {
      assert (a + b)[0] == a[0] && (a + b)[1..] == a[1..] + b;
      SelectAppend(a[1..], b, c);
      var h := if Meets(a[0].node, c) then [a[0]] else [];
      assert Select(a + b, c) == h + (Select(a[1..], c) + Select(b, c));
      assert h + (Select(a[1..], c) + Select(b, c)) == (h + Select(a[1..], c)) + Select(b, c);
    } else {
      assert a + b == b;
    }
  }

  lemma NodesOfAppend(a: seq<Visit>, b: seq<Visit>)
    ensures NodesOf(a + b) == NodesOf(a) + NodesOf(b)
  {
  }

  lemma LevelsOfAppend(a: seq<Visit>, b: seq<Visit>)
    ensures LevelsOf(a + b) == LevelsOf(a) + LevelsOf(b)
  {
  }

  /** The nodes of a subtree are visited once each: the first visit is the node itself, at its own level. */
  lemma {:induction false} VisitsStartAtRoot(level: nat, n: Node)
    ensures Visits(level, n)[0] == Visit(n, level)
    ensures forall i :: 0 <= i < |Visits(level, n)| ==> Visits(level, n)[i].level >= level
    decreases n
  {
    VisitsAtLeastIn(level + 1, n.children);
  }

  lemma {:induction false} VisitsAtLeastIn(level: nat, ns: seq<Node>)
    ensures forall i :: 0 <= i < |VisitsIn(level, ns)| ==> VisitsIn(level, ns)[i].level >= level
    decreases ns
  {
    if ns != [] {
      VisitsAtLeastIn(level, ns[..|ns| - 1]);
      VisitsStartAtRoot(level, ns[|ns| - 1]);
    }
  }

  /** A tag count is the number of visited elements of that name, at any depth. */
  lemma {:induction false} TagCountIsVisitCount(level: nat, n: Node, tag: string)
    ensures CountTag(n, tag) == |Select(Visits(level, n), Tagged(tag))|
    decreases n
  {
    TagCountIsVisitCountIn(level + 1, n.children, tag);
    SelectAppend([Visit(n, level)], VisitsIn(level + 1, n.children), Tagged(tag));
  }

  lemma {:induction false} TagCountIsVisitCountIn(level: nat, ns: seq<Node>, tag: string)
    ensures CountTagIn(ns, tag) == |Select(VisitsIn(level, ns), Tagged(tag))|
    decreases ns
  {
    if ns != [] {
      var init, last := ns[..|ns| - 1], ns[|ns| - 1];
      TagCountIsVisitCountIn(level, init, tag);
      TagCountIsVisitCount(level, last, tag);
      SelectAppend(VisitsIn(level, init), Visits(level, last), Tagged(tag));
    }
  }

  /**
   * The report blocks are exactly the visited decorative elements, in
   * visiting order, and the decorative count is their number.
   */
  lemma {:induction false} DecorativesAreDecorativeVisits(level: nat, n: Node)
    ensures Decoratives(n) == NodesOf(Select(Visits(level, n), Decorative))
    ensures CountDecorative(n) == |Select(Visits(level, n), Decorative)|
    decreases n
  {
    var head, rest := [Visit(n, level)], VisitsIn(level + 1, n.children);
    DecorativesAreDecorativeVisitsIn(level + 1, n.children);
    SelectAppend(head, rest, Decorative);
    NodesOfAppend(Select(head, Decorative), Select(rest, Decorative));
  }

  lemma {:induction false} DecorativesAreDecorativeVisitsIn(level: nat, ns: seq<Node>)
    ensures DecorativesIn(ns) == NodesOf(Select(VisitsIn(level, ns), Decorative))
    ensures CountDecorativeIn(ns) == |Select(VisitsIn(level, ns), Decorative)|
    decreases ns
  {
    if ns != [] {
      var init, last := ns[..|ns| - 1], ns[|ns| - 1];
      DecorativesAreDecorativeVisitsIn(level, init);
      DecorativesAreDecorativeVisits(level, last);
      SelectAppend(VisitsIn(level, init), Visits(level, last), Decorative);
      NodesOfAppend(Select(VisitsIn(level, init), Decorative), Select(Visits(level, last), Decorative));
    }
  }

  /**
   * The recorded depths are the levels of the childless visits, one per
   * leaf, in visiting order.
   */
  lemma {:induction false} LeafDepthsAreLeafLevels(level: nat, n: Node)
    ensures LeafDepths(level, n) == LevelsOf(Select(Visits(level, n), Childless))
    decreases n
  {
    var head, rest := [Visit(n, level)], VisitsIn(level + 1, n.children);
    SelectAppend(head, rest, Childless);
    if |n.children| == 0 {
      assert rest == [];
    } else {
      LeafDepthsAreLeafLevelsIn(level + 1, n.children);
    }
  }

  lemma {:induction false} LeafDepthsAreLeafLevelsIn(level: nat, ns: seq<Node>)
    ensures LeafDepthsIn(level, ns) == LevelsOf(Select(VisitsIn(level, ns), Childless))
    decreases ns
  {
    if ns != [] {
      var init, last := ns[..|ns| - 1], ns[|ns| - 1];
      LeafDepthsAreLeafLevelsIn(level, init);
      LeafDepthsAreLeafLevels(level, last);
      SelectAppend(VisitsIn(level, init), Visits(level, last), Childless);
      LevelsOfAppend(Select(VisitsIn(level, init), Childless), Select(Visits(level, last), Childless));
    }
  }
}
