/**
 * The row renderer (`renderHorizontalRow`): the style decisions it makes
 * for a row and for its items, and the ordered calls it makes to the
 * caller's `renderItem`. The view tree itself is not modelled.
 */
module RowRender {
  import opened Js
  import opened Dimensions
  import opened Chunking
  import Decimal

  /** The row container's style; its `flexDirection: 'row'` never varies. */
  datatype RowStyle = RowStyle(paddingLeft: real, paddingBottom: real, marginBottom: Option<real>)

  /**
   * Each item container's style; `flexDirection: 'column'` and
   * `justifyContent: 'center'` never vary.
   */
  datatype ItemContainerStyle = ItemContainerStyle(width: Number, paddingRight: real)

  /** The style of the view around an item: `{}`, or a fixed width centred in its container. */
  datatype ItemStyle = Unconstrained | FixedCentered(width: real)

  /** One call `renderItem(item, index)`, made inside the container keyed `key`. */
  datatype RenderCall<I> = RenderCall(key: string, item: I, index: nat)

  datatype RenderedRow<I> = RenderedRow(
    rowStyle: RowStyle,
    containerStyle: ItemContainerStyle,
    itemStyle: ItemStyle,
    calls: seq<RenderCall<I>>)

  /** The key of item `i` in the row keyed `rowKey`: `${rowKey}_${i}`. */
  function ItemKey(rowKey: string, i: nat): (key: string) {
    rowKey + "_" + Decimal.Show(i)
  }

  /** `renderHorizontalRow(row)` with the component state `s`. */
  function RenderHorizontalRow<I>(s: GridState, row: Row<I>): (rendered: RenderedRow<I>) {
    var baseStyle := RowStyle(s.spacing, s.spacing, None);
    var rowStyle := if row.isLast then baseStyle.(marginBottom := Some(s.spacing)) else baseStyle;
    var containerStyle := ItemContainerStyle(s.containerDimension, s.spacing);
    var itemStyle := if s.fixed then FixedCentered(s.itemDimension) else Unconstrained;
    var calls := seq(|row.items|, i requires 0 <= i < |row.items| =>
      RenderCall(ItemKey(row.key, i), row.items[i], i));
    RenderedRow(rowStyle, containerStyle, itemStyle, calls)
  }

  /** The items handed to `renderItem`, in call order. */
  function RenderedItems<I>(calls: seq<RenderCall<I>>): (items: seq<I>) {
    seq(|calls|, i requires 0 <= i < |calls| => calls[i].item)
  }

  /**
   * Every row gets left and bottom padding of one spacing unit; only the
   * last row of a section also gets a bottom margin of one spacing unit.
   */
  lemma RowStyleDecision<I>(s: GridState, row: Row<I>)
    ensures var style := RenderHorizontalRow(s, row).rowStyle;
      && style.paddingLeft == s.spacing && style.paddingBottom == s.spacing
      && (style.marginBottom.Some? <==> row.isLast)
      && (row.isLast ==> style.marginBottom == Some(s.spacing))
  {
  }

  /**
   * Item containers take the computed container width with a right padding
   * of one spacing unit; the item itself is pinned to the item dimension
   * only in fixed mode.
   */
  lemma ItemStyleDecision<I>(s: GridState, row: Row<I>)
    ensures var r := RenderHorizontalRow(s, row);
      && r.containerStyle == ItemContainerStyle(s.containerDimension, s.spacing)
      && (r.itemStyle.FixedCentered? <==> s.fixed)
      && (s.fixed ==> r.itemStyle.width == s.itemDimension)
  {
  }

  /**
   * `renderItem` is called once per item of the row, in row order, with the
   * item and its index in the row; the item keys within the row are
   * pairwise distinct.
   */
  lemma RenderCallsInRowOrder<I>(s: GridState, row: Row<I>)
    ensures var calls := RenderHorizontalRow(s, row).calls;
      && RenderedItems(calls) == row.items
      && (forall i :: 0 <= i < |calls| ==> calls[i].index == i && calls[i].key == row.key + "_" + Decimal.Show(i))
      && (forall i, j :: 0 <= i < j < |calls| ==> calls[i].key != calls[j].key)
  {
    var calls := RenderHorizontalRow(s, row).calls;
    forall i, j | 0 <= i < j < |calls|
      ensures calls[i].key != calls[j].key
    {
      ItemKeysDistinct(row.key, i, j);
    }
  }

  lemma ItemKeysDistinct(rowKey: string, i: nat, j: nat)
    requires i != j
    ensures ItemKey(rowKey, i) != ItemKey(rowKey, j)
  {
    var p := rowKey + "_";
    assert ItemKey(rowKey, i)[|p|..] == Decimal.Show(i);
    assert ItemKey(rowKey, j)[|p|..] == Decimal.Show(j);
    Decimal.ShowInjective(i, j);
  }

  /** What the rows of one section hand to `renderItem`, row after row. */
  function SectionRenderedItems<I>(s: GridState, rows: seq<Row<I>>): (items: seq<I>) {
    if rows == [] then [] else RenderedItems(RenderHorizontalRow(s, rows[0]).calls) + SectionRenderedItems(s, rows[1..])
  }

  /** The rows that get a bottom margin. */
  function MarginRows<I>(s: GridState, rows: seq<Row<I>>): (margined: set<nat>) {
    set i: nat | i < |rows| && RenderHorizontalRow(s, rows[i]).rowStyle.marginBottom.Some?
  }

  lemma {:induction false} SectionRenderedItemsFlatten<I>(s: GridState, rows: seq<Row<I>>)
    ensures SectionRenderedItems(s, rows) == Flatten(RowItems(rows))
  {
    if rows != [] {
      RenderCallsInRowOrder(s, rows[0]);
      SectionRenderedItemsFlatten(s, rows[1..]);
      assert RowItems(rows)[1..] == RowItems(rows[1..]);
    }
  }

  /**
   * Rendering a chunked section calls `renderItem` on exactly the
   * section's items, in their original order, and gives a bottom margin to
   * one row of a non-empty section (its last) and to none of an empty one.
   */
  lemma SectionRendersItemsInOrder<H, I>(s: GridState, section: Section<H, I>, itemsPerRow: nat)
    requires itemsPerRow >= 1
    ensures var rows := ChunkSection(section, itemsPerRow).data;
      && SectionRenderedItems(s, rows) == section.data
      && MarginRows(s, rows) == (if section.data == [] then {} else {|rows| - 1})
  {
    var rows := ChunkSection(section, itemsPerRow).data;
    SectionRenderedItemsFlatten(s, rows);
    ChunkSectionKeepsItems(section, itemsPerRow);
    ChunkSectionTags(section, itemsPerRow);
    assert MarginRows(s, rows) == LastRows(rows);
  }
}
