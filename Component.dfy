/**
 * The component object: its props, its state (the grid configuration), the
 * three events that recompute the state (construction, a layout event, a
 * change of props) and the render pass that chunks a copy of the sections.
 * The window width, which the source asks the platform for, is passed in.
 */
module Component {
  import opened Js
  import opened Dimensions
  import opened Chunking

  /** The props the model reads: the sections and the layout options. */
  datatype Props<H, I> = Props(items: seq<Section<H, I>>, layout: LayoutProps)

  class SuperGridSectionList<H, I> {
    var props: Props<H, I>
    var state: GridState

    /** The state always satisfies the relation `getDimensions` establishes. */
    ghost predicate Valid()
      reads this
    {
      state.Consistent()
    }

    /** `constructor(props)`: the initial state is computed from props alone, with no measured width. */
    constructor (props: Props<H, I>, windowWidth: real)
      ensures this.props == props
      ensures state == GetDimensions(props.layout, None, None, windowWidth)
      ensures Valid()
    {
      this.props := props;
      state := GetDimensions(props.layout, None, None, windowWidth);
    }

    /**
     * `onLayout(e)`: ignored when a truthy `staticDimension` is set;
     * otherwise the whole state is recomputed from the measured width (which
     * may be missing when the event carries no layout).
     */
    method OnLayout(width: Option<real>, windowWidth: real)
      requires Valid()
      modifies this
      ensures Valid() && props == old(props)
      ensures Truthy(props.layout.staticDimension) ==> state == old(state)
      ensures !Truthy(props.layout.staticDimension) ==>
        state == GetDimensions(props.layout, width, None, windowWidth)
    {
      if !Truthy(props.layout.staticDimension) {
        state := GetDimensions(props.layout, width, None, windowWidth);
      }
    }

    /**
     * `componentWillReceiveProps(next)`, after which the framework installs
     * `next` as the props. The state is recomputed only when the item
     * dimension changes; it reuses the current total width and reads every
     * other option from the props being replaced.
     */
    method ReceiveProps(next: Props<H, I>, windowWidth: real)
      requires Valid()
      modifies this
      ensures Valid() && props == next
      ensures next.layout.itemDimension == old(props.layout.itemDimension) ==> state == old(state)
      ensures next.layout.itemDimension != old(props.layout.itemDimension) ==>
        state == GetDimensions(old(props.layout), Some(old(state.totalDimension)), Some(next.layout.itemDimension), windowWidth)
      ensures old(state.totalDimension) != 0.0 ==> state.totalDimension == old(state.totalDimension)
    {
      if next.layout.itemDimension != props.layout.itemDimension {
        state := GetDimensions(props.layout, Some(state.totalDimension), Some(next.layout.itemDimension), windowWidth);
      }
      props := next;
    }

    /**
     * The section loop of `render`: on a copy of `items`, every section's
     * `data` is replaced by its keyed rows of `itemsPerRow` items. The
     * result is a new array; `props.items` is a value and is not touched.
     */
    method Render() returns (sections: array<Section<H, Row<I>>>)
      requires Valid() && state.itemsPerRow.Finite? && state.itemsPerRow.value >= 1.0
      ensures fresh(sections)
      ensures state.itemsPerRow.value == state.itemsPerRow.value.Floor as real
      ensures sections[..] == ChunkSections(props.items, state.itemsPerRow.value.Floor)
    {
      var itemCopy := props.items;
      var itemsPerRow := state.itemsPerRow.value.Floor;
      sections := new Section<H, Row<I>>[|itemCopy|](j requires 0 <= j < |itemCopy| => Section(itemCopy[j].header, []));
      for j := 0 to sections.Length
        invariant forall m :: 0 <= m < j ==> sections[m] == ChunkSection(itemCopy[m], itemsPerRow)
      {
        var chunked := Chunk(itemCopy[j].data, itemsPerRow);
        sections[j] := Section(itemCopy[j].header, KeyRows(chunked));
      }
    }
  }

  /**
   * A client: the default options on a 375-wide window, a layout event of
   * the same width, then one render of a five-item section.
   */
  method DefaultGridOfFiveItems()
  {
    var layout := LayoutProps(DefaultItemDimension, None, DefaultSpacing, false, None);
    var grid := new SuperGridSectionList<string, int>(Props([Section("A", [1, 2, 3, 4, 5])], layout), 375.0);
    grid.OnLayout(Some(375.0), 375.0);
    DefaultsOn375();
    assert grid.state.itemsPerRow == Finite(2.0);
    var sections := grid.Render();
    FiveItemsInRowsOfTwo();
    assert sections[0].data[2] == Row([5], "row_2", true);
  }
}
