/**
 * The dimension resolver: from the layout props, an optional measured width
 * and an optional item-dimension argument, compute the grid configuration
 * that becomes the component state (total width, item dimension, spacing,
 * items per row, width of each item's container, fixed mode).
 */
module Dimensions {
  import opened Js

  /** The defaults the component declares for `itemDimension` and `spacing`. */
  const DefaultItemDimension: real := 120.0
  const DefaultSpacing: real := 10.0

  /** The props the resolver reads (after defaults are applied). */
  datatype LayoutProps = LayoutProps(
    itemDimension: real,
    itemWidth: Option<real>,        // deprecated alias, `null` by default
    spacing: real,
    fixed: bool,
    staticDimension: Option<real>)  // `undefined` by default

  /** The component state: what `getDimensions` returns. */
  datatype GridState = GridState(
    totalDimension: real,
    itemDimension: real,
    spacing: real,
    itemsPerRow: Number,
    containerDimension: Number,
    fixed: bool)
  {
    /** The width left for items: one spacing unit is reserved at the row's start. */
    function Available(): (a: real) {
      totalDimension - spacing
    }

    /** The width one item occupies together with its trailing spacing. */
    function ItemTotal(): (t: real) {
      itemDimension + spacing
    }

    /** How items per row and container width follow from the other fields. */
    predicate Consistent() {
      && itemsPerRow == MathFloor(Divide(Available(), ItemTotal()))
      && containerDimension == DivideBy(Available(), itemsPerRow)
    }
  }

  /** `itemDim || props.itemDimension`, then overridden by a truthy `itemWidth`. */
  function ResolveItemDimension(p: LayoutProps, itemDim: Option<real>): (d: real)
    ensures Truthy(p.itemWidth) ==> d == p.itemWidth.value
    ensures !Truthy(p.itemWidth) && Truthy(itemDim) ==> d == itemDim.value
    ensures !Truthy(p.itemWidth) && !Truthy(itemDim) ==> d == p.itemDimension
  {
    var d := Or(itemDim, p.itemDimension);
    if Truthy(p.itemWidth) then p.itemWidth.value else d
  }

  /** `lvDimension || staticDimension || windowWidth`. */
  function ResolveTotalDimension(lvDimension: Option<real>, staticDimension: Option<real>, windowWidth: real): (t: real)
    ensures Truthy(lvDimension) ==> t == lvDimension.value
    ensures !Truthy(lvDimension) && Truthy(staticDimension) ==> t == staticDimension.value
    ensures !Truthy(lvDimension) && !Truthy(staticDimension) ==> t == windowWidth
  {
    Or(lvDimension, Or(staticDimension, windowWidth))
  }

  /**
   * `getDimensions(lvDimension, itemDim)`; the window width, which the source
   * queries from the platform, is a parameter.
   */
  function GetDimensions(p: LayoutProps, lvDimension: Option<real>, itemDim: Option<real>, windowWidth: real): (s: GridState)
    ensures Truthy(lvDimension) ==> s.totalDimension == lvDimension.value
    ensures !Truthy(lvDimension) && Truthy(p.staticDimension) ==> s.totalDimension == p.staticDimension.value
    ensures !Truthy(lvDimension) && !Truthy(p.staticDimension) ==> s.totalDimension == windowWidth
    ensures Truthy(p.itemWidth) ==> s.itemDimension == p.itemWidth.value
    ensures !Truthy(p.itemWidth) && Truthy(itemDim) ==> s.itemDimension == itemDim.value
    ensures !Truthy(p.itemWidth) && !Truthy(itemDim) ==> s.itemDimension == p.itemDimension
    ensures s.spacing == p.spacing && s.fixed == p.fixed
    ensures s.Consistent()
  {
    var itemDimension := ResolveItemDimension(p, itemDim);
    var totalDimension := ResolveTotalDimension(lvDimension, p.staticDimension, windowWidth);
    var itemTotalDimension := itemDimension + p.spacing;
    var availableDimension := totalDimension - p.spacing;
    var itemsPerRow := MathFloor(Divide(availableDimension, itemTotalDimension));
    var containerDimension := DivideBy(availableDimension, itemsPerRow);
    GridState(totalDimension, itemDimension, p.spacing, itemsPerRow, containerDimension, p.fixed)
  }

  /**
   * With a non-zero item total, items per row is the whole number
   * floor(available / item total); for a positive item total it is the
   * largest count of items (each with its spacing) whose widths fit.
   */
  lemma ItemsPerRowFits(s: GridState)
    requires s.Consistent() && s.ItemTotal() > 0.0
    ensures IsInteger(s.itemsPerRow)
    ensures s.itemsPerRow.value == (s.Available() / s.ItemTotal()).Floor as real
    ensures s.itemsPerRow.value * s.ItemTotal() <= s.Available()
    ensures s.Available() < (s.itemsPerRow.value + 1.0) * s.ItemTotal()
  {
    var a, t := s.Available(), s.ItemTotal();
    var q := a / t;
    var k := s.itemsPerRow.value;
    assert k <= q < k + 1.0;
    assert q * t == a;
    MultiplyMonotone(k, q, t);
    MultiplyStrict(q, k + 1.0, t);
    assert a < (k + 1.0) * t;
  }

  lemma MultiplyMonotone(a: real, b: real, c: real)
    requires a <= b && c > 0.0
    ensures a * c <= b * c
  {
  }

  lemma MultiplyStrict(a: real, b: real, c: real)
    requires a < b && c > 0.0
    ensures a * c < b * c
  {
  }

  /**
   * When items per row is a non-zero number, the containers of one row
   * share the available width exactly.
   */
  lemma ContainersFillRow(s: GridState)
    requires s.Consistent() && s.itemsPerRow.Finite? && s.itemsPerRow.value != 0.0
    ensures s.containerDimension.Finite?
    ensures s.containerDimension.value * s.itemsPerRow.value == s.Available()
  {
  }

  /**
   * For a positive item total, the grid has zero columns exactly when the
   * item total exceeds a non-negative available width; the division that
   * follows is then unguarded and the container width is not finite.
   */
  lemma ZeroColumnsWhenTooWide(s: GridState)
    requires s.Consistent() && s.ItemTotal() > 0.0
    ensures s.itemsPerRow == Finite(0.0) <==> 0.0 <= s.Available() < s.ItemTotal()
    ensures s.itemsPerRow == Finite(0.0) ==>
      s.containerDimension == if s.Available() > 0.0 then PosInfinity else NaN
  {
    ItemsPerRowFits(s);
    WholeCountZero(s.itemsPerRow.value.Floor, s.Available(), s.ItemTotal());
  }

  /** A whole count `k` with k * t <= a < (k + 1) * t is zero exactly when 0 <= a < t. */
  lemma WholeCountZero(k: int, a: real, t: real)
    requires t > 0.0 && k as real * t <= a < (k as real + 1.0) * t
    ensures k == 0 <==> 0.0 <= a < t
  {
    if k >= 1 {
      MultiplyMonotone(1.0, k as real, t);
    } else if k <= -1 {
      MultiplyMonotone(k as real + 1.0, 0.0, t);
    }
  }

  /**
   * With a positive item total and a total width below the spacing, the
   * available width is negative: items per row is a negative whole number
   * and the container width is a positive finite number.
   */
  lemma NegativeColumnsWhenNarrowerThanSpacing(s: GridState)
    requires s.Consistent() && s.ItemTotal() > 0.0 && s.Available() < 0.0
    ensures IsInteger(s.itemsPerRow) && s.itemsPerRow.value < 0.0
    ensures s.containerDimension.Finite? && s.containerDimension.value > 0.0
  {
    ItemsPerRowFits(s);
    var k := s.itemsPerRow.value;
    if k >= 0.0 {
      MultiplyMonotone(0.0, k, s.ItemTotal());
    }
    var c := s.containerDimension.value;
    assert c * k == s.Available();
    if c <= 0.0 {
      MultiplyMonotone(k, 0.0, -c);
    }
  }

  /**
   * Two widths at the edges of the default item: 5 leaves an available width
   * of -5, so -1 columns each 5 wide; 135 leaves 125, less than one item
   * total of 130, so 0 columns and an infinite container width.
   */
  lemma EdgeWidthsWithDefaults()
    ensures var p := LayoutProps(DefaultItemDimension, None, DefaultSpacing, false, None);
            var narrow := GetDimensions(p, Some(5.0), None, 0.0);
            var short := GetDimensions(p, Some(135.0), None, 0.0);
            && narrow.itemsPerRow == Finite(-1.0) && narrow.containerDimension == Finite(5.0)
            && short.itemsPerRow == Finite(0.0) && short.containerDimension == PosInfinity
  {
  }

  /** For a positive item total, at least one column fits exactly when one item total fits. */
  lemma SomeColumnWhenItemFits(s: GridState)
    requires s.Consistent() && s.ItemTotal() > 0.0
    ensures s.itemsPerRow.value >= 1.0 <==> s.Available() >= s.ItemTotal()
  {
    ItemsPerRowFits(s);
    WholeCountPositive(s.itemsPerRow.value.Floor, s.Available(), s.ItemTotal());
  }

  /** A whole count `k` with k * t <= a < (k + 1) * t is positive exactly when t <= a. */
  lemma WholeCountPositive(k: int, a: real, t: real)
    requires t > 0.0 && k as real * t <= a < (k as real + 1.0) * t
    ensures k >= 1 <==> t <= a
  {
    if k >= 1 {
      MultiplyMonotone(1.0, k as real, t);
    } else {
      MultiplyMonotone(k as real + 1.0, 1.0, t);
    }
  }

  /**
   * With a zero item total the division in `getDimensions` yields an
   * infinite or NaN column count; the container width is then 0, or NaN
   * when the available width is also zero.
   */
  lemma ZeroItemTotal(s: GridState)
    requires s.Consistent() && s.ItemTotal() == 0.0
    ensures !s.itemsPerRow.Finite?
    ensures s.containerDimension == if s.Available() == 0.0 then NaN else Finite(0.0)
  {
  }

  /** The defaults on a 375-wide container give 2 columns 182.5 wide. */
  lemma DefaultsOn375()
    ensures var p := LayoutProps(DefaultItemDimension, None, DefaultSpacing, false, None);
            var s := GetDimensions(p, Some(375.0), None, 0.0);
            s.itemsPerRow == Finite(2.0) && s.containerDimension == Finite(182.5)
  {
  }
}
