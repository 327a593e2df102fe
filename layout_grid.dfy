/**
  The two-column grid builder (`buildLayoutContainer`, scripts/scripts.js):
  a top-level element with class `section` and `data-layout="columns"` that
  has exactly two children gets each child moved into its own `grid-column`
  div, and both of those into one `default-content-wrapper` div appended to
  the section. Because appending moves the children, the wrapper ends up as
  the section's only child.
*/
module LayoutGrid {
  import opened Wrappers
  import opened Dom
  import LayoutMeta

  const GridColumnClass := "grid-column"
  const WrapperClass := "default-content-wrapper"

  /** The selector `.section[data-layout="columns"]` on one element. */
  predicate IsColumnsSection(n: Node)
  {
    "section" in n.classes && LayoutMeta.LayoutKey in n.dataset && n.dataset[LayoutMeta.LayoutKey] == LayoutMeta.ColumnsValue
  }

  /** `createDiv`: a new `grid-column` div holding `content`. */
  function CreateDiv(content: Node): Node
  {
    NewDiv({GridColumnClass}, [content])
  }

  function Wrapper(left: Node, right: Node): Node
  {
    NewDiv({WrapperClass}, [left, right])
  }

  /** A section the builder rearranges: tagged for columns and with exactly two children. */
  predicate GridApplies(section: Node)
  {
    IsColumnsSection(section) && |section.kids| == 2
  }

  /** The two original children read back out of a built grid, None when the section is not shaped as one. */
  function GridContents(section: Node): Option<seq<Node>>
  {
    if |section.kids| == 1 && section.kids[0].classes == {WrapperClass} && |section.kids[0].kids| == 2
       && section.kids[0].kids[0].classes == {GridColumnClass} && |section.kids[0].kids[0].kids| == 1
       && section.kids[0].kids[1].classes == {GridColumnClass} && |section.kids[0].kids[1].kids| == 1
    then Some([section.kids[0].kids[0].kids[0], section.kids[0].kids[1].kids[0]])
    else None
  }

  /** One top-level element after the builder has visited it: a section it does not apply to is left as it is,
      and the children of one it rearranges can be read back out of the grid. */
  function BuildGrid(section: Node): (r: Node)
    ensures !GridApplies(section) ==> r == section
    ensures GridApplies(section) ==> GridContents(r) == Some(section.kids)
  {
    if GridApplies(section)
    then
      assert [section.kids[0], section.kids[1]] == section.kids;
      section.(kids := [Wrapper(CreateDiv(section.kids[0]), CreateDiv(section.kids[1]))])
    else section
  }

  /** All top-level elements of `main` after the builder: each keeps its place, the others are never touched. */
  function BuildGridAll(ns: seq<Node>): (r: seq<Node>)
    ensures |r| == |ns|
    ensures forall i :: 0 <= i < |ns| && !GridApplies(ns[i]) ==> r[i] == ns[i]
    ensures forall i :: 0 <= i < |ns| && GridApplies(ns[i]) ==> GridContents(r[i]) == Some(ns[i].kids)
  {
    seq(|ns|, i requires 0 <= i < |ns| => BuildGrid(ns[i]))
  }

  /** Grid shape: one wrapper child holding two grid columns that hold the old children in order; nothing else changes. */
  lemma GridShape(section: Node)
    requires GridApplies(section)
    ensures var r := BuildGrid(section);
            && r.(kids := section.kids) == section
            && |r.kids| == 1 && r.kids[0].tag == "div" && r.kids[0].classes == {WrapperClass}
            && |r.kids[0].kids| == 2
            && (forall i :: 0 <= i < 2 ==> r.kids[0].kids[i].tag == "div" && r.kids[0].kids[i].classes == {GridColumnClass})
            && (forall i :: 0 <= i < 2 ==> r.kids[0].kids[i].kids == [section.kids[i]])
  {
  }

  /** After one run the section has a single child, so a second run leaves it alone. */
  lemma GridIdempotent(section: Node)
    ensures BuildGrid(BuildGrid(section)) == BuildGrid(section)
  {
  }

  lemma {:induction false} GridAllIdempotent(ns: seq<Node>)
    ensures BuildGridAll(BuildGridAll(ns)) == BuildGridAll(ns)
  {
    forall i | 0 <= i < |ns|
      ensures BuildGridAll(BuildGridAll(ns))[i] == BuildGridAll(ns)[i]
    {
      GridIdempotent(ns[i]);
    }
  }

  /** Moving the children keeps their content in document order: only the three new divs are added around them. */
  lemma {:induction false} GridKeepsDocumentOrder(section: Node)
    requires GridApplies(section)
    ensures var r := BuildGrid(section);
            var wrapper := r.kids[0];
            var a := section.kids[0];
            var b := section.kids[1];
            && Preorder(section.kids) == Preorder([a]) + Preorder([b])
            && Preorder(r.kids) == [wrapper, wrapper.kids[0]] + Preorder([a]) + [wrapper.kids[1]] + Preorder([b])
  {
    var a, b := section.kids[0], section.kids[1];
    var left, right := CreateDiv(a), CreateDiv(b);
    var wrapper := Wrapper(left, right);
    assert section.kids == [a] + [b];
    PreorderAppend([a], [b]);
    PreorderSingle(wrapper);
    assert wrapper.kids == [left] + [right];
    PreorderAppend([left], [right]);
    PreorderSingle(left);
    PreorderSingle(right);
  }
}
