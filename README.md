# SuperGridSectionList grid layout engine, in Dafny

This project models the layout engine of `SuperGridSectionList`, a React
Native component. The component draws the sections of a vertically
scrolling list as a responsive grid. It has two parts.

- The **dimension resolver** (`getDimensions` and the events that call
  it). It picks the total width. The measured width comes first, then the
  `staticDimension` option, then the window width. It applies the
  deprecated `itemWidth` override. It computes
  `itemsPerRow = floor((total - spacing) / (itemDimension + spacing))` and
  `containerDimension = (total - spacing) / itemsPerRow`. The state is
  recomputed at construction, on a layout event (unless `staticDimension` is
  set), and when a new `itemDimension` prop arrives.
- The **section row chunker and row renderer**. `render` works on a copy of
  the sections. It replaces each section's `data` with rows of
  `itemsPerRow` items, and tags each row with `key = "row_<i>"` and
  `isLast`. `renderHorizontalRow` pads every row by one spacing unit on the
  left and bottom. It adds a bottom margin only to the last row. It pins
  the item width only in fixed mode. It calls `renderItem(item, i)` for
  each item of the row, in order, under the key `"<rowKey>_<i>"`.

Modules, one per part of the component:

- `Js` (Js.dfy): optional numbers and their truthiness. It also has the
  IEEE results of `/` and `Math.floor` when a divisor is zero or infinite
  (`Number = Finite | PosInfinity | NegInfinity | NaN`). Finite values are
  exact reals.
- `Decimal` (Decimal.dfy): how `${i}` prints an index, and the reading-back
  function that proves distinct indices give distinct keys.
- `Dimensions` (Dimensions.dfy): the layout props, the grid state, and
  `GetDimensions`, with lemmas about every state it produces.
- `Chunking` (Chunking.dfy): sections, rows, the assumed contract of
  `chunkArray`, row tagging, and the section loop as a function.
- `RowRender` (RowRender.dfy): the style decisions and `renderItem` calls of
  one row, and what a whole chunked section renders.
- `Component` (Component.dfy): the class `SuperGridSectionList`, holding
  `props` and `state`. It has the constructor, `OnLayout`, `ReceiveProps`
  and the `Render` loop over an array of sections, plus a small client.

Three behaviours of the code a reader might not expect:

- No clamp keeps `itemsPerRow` at 1 or more. `itemsPerRow` is 0 when
  0 <= total - spacing < itemDimension + spacing. The following division
  then gives `Infinity`, or `NaN` for `0 / 0`. It is negative when the
  total is below the spacing, and the container width is then a positive
  number.
- `componentWillReceiveProps` runs before the new props are installed.
  So the recomputed state takes `spacing`, `fixed`, `itemWidth` and
  `staticDimension` from the props being replaced, and only
  `itemDimension` from the new ones. A change of spacing alone does not
  recompute the state.
- In fixed mode every item container keeps the width `containerDimension`.
  Only the inner view around the item gets `width: itemDimension` and
  `alignSelf: 'center'`.

## Model

| member | source | states |
|---|---|---|
| `Js.Or` | SuperGridSectionList.js:49 | the JavaScript or-operator on an optional number gives it when it is present and non-zero (the test `Js.Truthy`, also used for the checks at :31 and :43), else the second operand |
| `Js.Divide` | SuperGridSectionList.js:52-53 | the quotient is finite exactly when the divisor is non-zero, and then times the divisor gives the dividend; it is NaN exactly for 0 / 0 |
| `Js.DivideBy` | SuperGridSectionList.js:53 | dividing by a finite number is `Divide`; dividing a finite number by an infinity gives 0; dividing by NaN gives NaN |
| `Js.MathFloor` | SuperGridSectionList.js:52 | a finite input gives a whole number within 1 below it; infinities and NaN are returned unchanged |
| `Decimal.ShowRoundTrip` | SuperGridSectionList.js:118 | reading back the decimal digits that `${i}` prints gives `i` |
| `Decimal.Show` | SuperGridSectionList.js:118 | `${i}` of an index is a non-empty string of decimal digits, a single digit exactly when the index is below 10 |
| `Decimal.ShowInjective` | SuperGridSectionList.js:118 | two indices print the same exactly when they are equal |
| `Dimensions.ResolveItemDimension` | SuperGridSectionList.js:42-46 | a truthy `itemWidth` overrides both the argument and the prop; otherwise a truthy argument wins over the `itemDimension` prop |
| `Dimensions.ResolveTotalDimension` | SuperGridSectionList.js:49 | the total width is the measured width if truthy, else `staticDimension` if truthy, else the window width; exactly one of the three cases applies |
| `Dimensions.GetDimensions` | SuperGridSectionList.js:40-63 | the state takes the total width and item dimension by the two rules above, copies `spacing` and `fixed` from the props, and satisfies `Consistent`: itemsPerRow = floor(available / item total) and containerDimension = available / itemsPerRow, with JavaScript's rules for zero and infinite divisors |
| `Dimensions.ItemsPerRowFits` | SuperGridSectionList.js:50-52 | for a positive item total, itemsPerRow is the whole number floor((total - spacing) / (itemDimension + spacing)), so it is the largest count k with k * (itemDimension + spacing) <= total - spacing |
| `Dimensions.ContainersFillRow` | SuperGridSectionList.js:53 | when itemsPerRow is a non-zero number, containerDimension is finite and containerDimension * itemsPerRow = total - spacing |
| `Dimensions.ZeroColumnsWhenTooWide` | SuperGridSectionList.js:50-53 | for a positive item total, itemsPerRow is 0 exactly when 0 <= available < item total; the unguarded division then gives +Infinity, or NaN when the available width is 0 |
| `Dimensions.SomeColumnWhenItemFits` | SuperGridSectionList.js:50-52 | for a positive item total, at least one column fits exactly when the available width is at least one item total |
| `Dimensions.ZeroItemTotal` | SuperGridSectionList.js:50-53 | a zero item total gives a non-finite itemsPerRow; containerDimension is then 0, or NaN when the available width is also 0 |
| `Dimensions.NegativeColumnsWhenNarrowerThanSpacing` | SuperGridSectionList.js:50-53 | for a positive item total and a total width below the spacing, itemsPerRow is a negative whole number and containerDimension is a positive finite number |
| `Dimensions.EdgeWidthsWithDefaults` | SuperGridSectionList.js:50-53 | with the defaults, a measured width of 5 gives -1 items per row 5 wide, and 135 gives 0 items per row and an infinite container width |
| `Dimensions.DefaultsOn375` | SuperGridSectionList.js:153-157 | with the default item dimension 120 and spacing 10, a measured width of 375 gives 2 items per row, each 182.5 wide |
| `Chunking.ChunkContract` | SuperGridSectionList.js:115 | the assumed contract of `chunkArray`, proved of `Chunking.Chunk`, the model's definition of that helper: the chunks concatenate to the input, there are none exactly for an empty input, each holds 1 to `size` items, and all but the last hold exactly `size` |
| `Chunking.ChunkAt` | SuperGridSectionList.js:115 | chunk i is exactly the slice of the input from i * size up to (i + 1) * size or the end |
| `Chunking.ChunkCount` | SuperGridSectionList.js:115 | n items give ceil(n / size) chunks |
| `Chunking.ChunkIsDetermined` | SuperGridSectionList.js:115 | any partition meeting `chunkArray`'s contract equals `Chunk`, so the contract fixes the rows |
| `Chunking.ChunkSectionKeepsItems` | SuperGridSectionList.js:114-122 | `Chunking.ChunkSection`, one pass of the loop body, keeps the section's other fields, and its rows concatenate to its original items, in order |
| `Chunking.ChunkSectionShape` | SuperGridSectionList.js:115-121 | a section of n items has ceil(n / itemsPerRow) rows, none when it is empty; each row holds 1 to itemsPerRow items and all but the last exactly itemsPerRow |
| `Chunking.ChunkSectionTags` | SuperGridSectionList.js:116-121 | the tagging `Chunking.KeyRows` (the `chunked.map` callback) gives row i the key `Chunking.RowKey(i)`, that is `row_<i>`, and flags it `isLast` exactly when it is the final row; the set of last rows is empty for an empty section and exactly the final row otherwise |
| `Chunking.RowKeysDistinct` | SuperGridSectionList.js:118 | two different rows of one section have different `Chunking.RowKey` keys |
| `Chunking.ChunkSectionsKeepOrder` | SuperGridSectionList.js:110-123 | `Chunking.ChunkSections`, the section loop, keeps the number and order of the sections, and each output section keeps its input's other fields and items |
| `Chunking.ChunkSectionsKeepAllItems` | SuperGridSectionList.js:110-123 | reading every row of every chunked section, section by section and row by row, gives every item of every input section in its original order |
| `Chunking.FiveItemsInRowsOfTwo` | SuperGridSectionList.js:114-122 | items 1 to 5 in rows of two give [1, 2] `row_0`, [3, 4] `row_1` and [5] `row_2`, and only the last is flagged |
| `RowRender.RowStyleDecision` | SuperGridSectionList.js:67-74 | `RowRender.RenderHorizontalRow`, the model of `renderHorizontalRow`, gives every row left and bottom padding equal to `spacing`, and a bottom margin, equal to `spacing`, exactly when it is the last row |
| `RowRender.ItemStyleDecision` | SuperGridSectionList.js:75-87 | in `RowRender.RenderHorizontalRow` each item container is `containerDimension` wide with right padding `spacing`; the item is pinned to `itemDimension` exactly in fixed mode |
| `RowRender.RenderCallsInRowOrder` | SuperGridSectionList.js:91-94 | `RowRender.RenderHorizontalRow` hands `renderItem` the row's items in row order, each with its index, under key `<rowKey>_<i>`, and the keys in a row are pairwise distinct |
| `RowRender.ItemKeysDistinct` | SuperGridSectionList.js:92 | two different indices give two different `RowRender.ItemKey` keys (`${data.key}_${i}`) in the same row |
| `RowRender.SectionRendersItemsInOrder` | SuperGridSectionList.js:65-123 | rendering the rows of a chunked section passes exactly the section's items to `renderItem`, in order; only the last row of a non-empty section gets a bottom margin, and no row of an empty one |
| `Component.SuperGridSectionList.constructor` | SuperGridSectionList.js:11-17 | the initial state is `GetDimensions` with no measured width and no item-dimension argument, and it is consistent |
| `Component.SuperGridSectionList.OnLayout` | SuperGridSectionList.js:29-38 | with a truthy `staticDimension` the state is unchanged; otherwise it is recomputed from the measured width; props never change |
| `Component.SuperGridSectionList.ReceiveProps` | SuperGridSectionList.js:20-26 | the state is recomputed only when `itemDimension` differs, from the current total width, the new item dimension and the old props; a non-zero total width is kept; the new props are installed |
| `Component.SuperGridSectionList.Render` | SuperGridSectionList.js:106-123 | returns a new array whose sections are, in order, the props' sections with their `data` chunked into keyed rows of `itemsPerRow` items; the props are not changed |

## Left out

- Chunking.ChunkContract: the body of `chunkArray` lives in `./utils`, and utils is not part of this model. `Chunk` is the model's own definition, and `ChunkContract` proves of it the contract the component relies on. Neither is a verification of the original helper. `ChunkIsDetermined` shows that any function meeting this contract returns the same chunks.
- Component.SuperGridSectionList.Render: requires `itemsPerRow` to be a finite number of at least 1. The source also calls `chunkArray` with 0, a negative number, an infinity or NaN (a zero item total on a zero available width), but what `chunkArray` does then is unknown.
- `Dimensions.get('window')` is a platform query. The model takes the window width as a parameter of every event.
- The JSX tree, `SectionList`, `View`, the list's `paddingTop: spacing` style merged with `style`, and passing other props through to the list are framework plumbing. So are the PropTypes and the defaultProps (beyond the two defaults used in `DefaultsOn375`). `renderRow` only forwards to `renderHorizontalRow`.
- The constant style entries (`flexDirection`, `justifyContent`, `alignSelf`) are folded into the datatypes rather than stored as fields.
- `console.warn` for `itemWidth` is a message with no effect on the layout.
- The `JSON.parse(JSON.stringify(...))` deep copy is modelled as value semantics. How serialisation treats non-JSON item payloads is not modelled.
- React's `setState` merge and scheduling are modelled as direct assignment of the whole state. `getDimensions` returns every state field, so a merge and an assignment agree.
- Floating-point rounding is not modelled: widths are exact reals. Non-number or `NaN` props are not modelled either. Only numbers that the division itself makes non-finite are.
- Component.SuperGridSectionList.Render: models the section loop with a declared loop variable, not the code as written. The loop variable `sectionsPair` is never declared. The file is an ES module (it has `import` and `export default`). Under ES module (strict) semantics the loop's first iteration, an assignment to an undeclared name, throws a ReferenceError, so `render` throws whenever `items` is non-empty. If a bundler compiles the file to sloppy-mode code without "use strict", `sectionsPair` becomes an implicit global and the loop computes what the model computes. The model shows that computation.
