# sane-web-doc: the tree walk and its statistics

`sane-web-doc` reads an HTML document, walks the parsed tree once in document
order and reports markup-quality statistics: how many `<script>` and `<nav>`
elements it holds, how many elements are "decorative" wrappers (exactly one
child, that child not text, the tag not in the exempt list
`li svg a table tbody h1 h2 h3 td`), the average leaf depth and the maximum
leaf depth.  Each decorative element is written to standard output, behind a
`BAD tag ========` marker line, as soon as the walk meets it.

This project models that walk and the report arithmetic, and proves what the
statistics mean.

- `dom.dfy` (module `Dom`): the parsed tree as a datatype with the parser's
  six node kinds; every kind has ordered children, an element also has a
  local name and attributes.
- `census.dfy` (modules `Census`, `CensusFacts`): the decorative rule and, by
  structural recursion, what a subtree contributes to each statistic
  (`CountTag`, `CountDecorative`, `Decoratives`, `LeafDepths`), plus the
  height of a tree; and lemmas about them.
- `walker.dfy` (module `Walker`): the imperative walk.  `Stats` is a class
  whose fields the walk updates in place; `Output` is standard output, seen as
  the sequence of report blocks written to it.  `Walk` is the recursive
  `walk` function of `src/main.rs`; its per-node step is the method
  `Classify` and its loop over the children is the method `WalkChildren`
  (the source has both inline; they are split out so each proof stays
  small).  `Run` is the body of `main` after parsing: fresh statistics, the
  walk from the root at level 0, then the figures of the report.
- `report.dfy` (module `Report`): sum, integer average and maximum of the
  recorded leaf levels, and how the maximum relates to the tree's height.
- `document_order.dfy` (module `DocumentOrder`): an independent description
  of the visiting order, the list of every node in pre-order with its level,
  and proofs that each statistic is a filter of that list.
- `scenarios.dfy` (module `Scenarios`): small trees worked through by hand.

The walk is specified against the census functions: after `Walk(level, node,
stats, out)` every counter equals its old value plus the subtree's
contribution, `depths` equals its old value followed by the subtree's leaf
levels in document order, and the output gained exactly the subtree's
decorative elements, each before its descendants.  Starting from zero, as
`main` does, the counters are therefore exactly the number of matching
elements in the tree, and the lemmas in `DocumentOrder` show these are the
counts of matching nodes over a pre-order enumeration.

In the tree `table > tbody > tr > td > div > p > text`, both `tr` and `div`
are decorative, because `tr` is not in the exempt list; the count is 2
(`Scenarios.TableWrappers`).  The model follows the code here.

Only the exemption-list rule and the list of leaf depths exist in this
source; no attribute-based rule and no running maximum depth are modelled.

## Model

| member | source | states |
|---|---|---|
| `Census.LeafDepths` | src/main.rs:72-78 | the leaf levels of a subtree are never empty: every finite tree has a leaf, so the average's divisor is positive |
| `CensusFacts.EmissionsMatchCount` | src/main.rs:48-71 | the sequence of emitted elements has exactly as many entries as the decorative counter grows by, and every entry satisfies the decorative rule |
| `CensusFacts.LeafDepthsWithinHeight` | src/main.rs:72-78 | every recorded leaf level lies between the subtree's level and that level plus the subtree's height |
| `Walker.Stats.constructor` | src/main.rs:88-93 | the statistics start with all counters 0 and an empty depth list |
| `Walker.Output.constructor` | src/main.rs:81-94 | nothing has been written to standard output before the walk |
| `Walker.Output.EmitBadTag` | src/main.rs:64-71 | writing a report block appends exactly that element to the output |
| `Walker.Classify` | src/main.rs:30-62 | an element bumps the script or nav counter exactly when its name is `script` or `nav`; it adds 1 to the decorative counter, and asks for a report block, exactly when it has one child, that child is not text and its name is not exempt; document, doctype, text and comment nodes change nothing; depths are untouched |
| `Walker.Walk` | src/main.rs:27-79 | each counter ends as its old value plus the subtree's matching elements, depths as its old value followed by the subtree's leaf levels in document order, and the output gains the subtree's decorative elements in pre-order; processing instructions are excluded |
| `Walker.WalkChildren` | src/main.rs:72-74 | walking the children left to right adds the children's contributions in order |
| `Walker.Run` | src/main.rs:88-109 | from zeroed statistics and level 0, the report's script and nav counts are the numbers of such elements anywhere in the tree, the decorative count equals the number of blocks written and these are the decorative elements in document order, the average is the integer average of the leaf levels, the maximum is the tree's height, and the average never exceeds the maximum |
| `Report.AverageDepth` | src/main.rs:106-107 | the average is the sum divided by the count rounded down: `r * n <= sum < (r + 1) * n` |
| `Report.MaxDepth` | src/main.rs:108 | the maximum is 0 for an empty list, otherwise a member of the list and at least every member |
| `Report.SumAtMostCountTimesMax` | src/main.rs:106-108 | the sum of the levels is at most their count times their maximum |
| `Report.AverageAtMostMax` | src/main.rs:106-108 | the reported average never exceeds the reported maximum |
| `Report.MaxLeafDepthIsHeight` | src/main.rs:108 | the maximum of a subtree's leaf levels is its level plus its height, the length of its longest downward path |
| `DocumentOrder.VisitsStartAtRoot` | src/main.rs:72-74 | the pre-order enumeration starts at the node itself at its own level and never goes above it |
| `DocumentOrder.TagCountIsVisitCount` | src/main.rs:40-46 | the script and nav contributions are the number of visited elements with that name, at any depth |
| `DocumentOrder.DecorativesAreDecorativeVisits` | src/main.rs:48-71 | the emitted elements, and their count, are exactly the visited nodes that satisfy the decorative rule, in visiting order |
| `DocumentOrder.LeafDepthsAreLeafLevels` | src/main.rs:76-78 | the recorded depths are the levels of the childless visited nodes, one per leaf, in visiting order |
| `Scenarios.LoneElement` | src/main.rs:76-78 | a single childless element counts nothing and yields one leaf at level 0, average 0 and maximum 0 |
| `Scenarios.TableWrappers` | src/main.rs:21-25 | in `table > tbody > tr > td > div > p > text` the exempt tags are skipped, `p` wraps text, and `tr` then `div` are reported |
| `Scenarios.TableLeaf` | src/main.rs:76-78 | that table's only leaf is the text, at level 6 |
| `Scenarios.SmallDocumentTags` | src/main.rs:40-46 | a document with a script in the head and one in the body, and one nav, counts 2 scripts and 1 nav |
| `Scenarios.SmallDocumentWrappers` | src/main.rs:48-58 | in that document the head and the nav are reported, in that order; the exempt link and the script around text are not |
| `Scenarios.SmallDocumentDepths` | src/main.rs:106-108 | that document's leaf levels are 1, 3, 5, 4 in document order, average 3, maximum 5 |
| `Scenarios.ReportFigures` | src/main.rs:106-108 | sum, average and maximum of two small leaf-level lists |

## Left out

- Parsing: reading standard input, decoding UTF-8 and building the tree with
  html5ever (src/main.rs:82-86) is an external library and I/O; the parsed
  tree is the input of `Run`.
- Serialisation of a reported element (src/main.rs:66-70) is a foreign
  library call; a report block is represented by the element it serialises.
  The text of the marker line is not modelled.
- The parse-error listing (src/main.rs:96-101) and the layout of the printed
  report lines (src/main.rs:103-109): output formatting over data the model
  does not produce; `Run` returns the figures in the printed order.
- Reference counting and `RefCell` borrows of the children
  (src/main.rs:31, 50, 73): an immutable recursive datatype replaces them.
- Interned tag atoms are plain strings; the payloads of doctype, text and
  comment nodes and the attributes of elements are carried or dropped but
  never consulted, as in the source.
- Processing-instruction nodes: the source panics on them as unreachable
  (src/main.rs:61); the model requires a tree without them.
- Machine integers: counters, levels and the sum are unbounded; `usize`
  overflow is not modelled.
