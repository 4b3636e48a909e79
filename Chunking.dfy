/**
 * The section row chunker: each section's flat `data` is split into rows of
 * at most `itemsPerRow` items, and each row is tagged with a key
 * `row_<i>` and an `isLast` flag.
 */
module Chunking {
  import Decimal

  /** A section: its other fields (title, header data) and its `data` array. */
  datatype Section<H, E> = Section(header: H, data: seq<E>)

  /** A row array as the chunker tags it. */
  datatype Row<I> = Row(items: seq<I>, key: string, isLast: bool)

  /** The concatenation of a sequence of sequences. */
  function Flatten<T>(chunks: seq<seq<T>>): (flat: seq<T>) {
    if chunks == [] then [] else chunks[0] + Flatten(chunks[1..])
  }

  lemma {:induction false} FlattenAppend<T>(a: seq<seq<T>>, b: seq<seq<T>>)
    ensures Flatten(a + b) == Flatten(a) + Flatten(b)
  {
    if a == [] {
      assert a + b == b;
    } else {
      assert (a + b)[1..] == a[1..] + b;
      FlattenAppend(a[1..], b);
    }
  }

  /** `chunkArray(s, size)`: consecutive chunks of `size` items, the last one possibly shorter. */
  function Chunk<T>(s: seq<T>, size: nat): (chunks: seq<seq<T>>)
    requires size >= 1
    decreases |s|
  {
    if s == [] then []
    else if |s| <= size then [s]
    else [s[..size]] + Chunk(s[size..], size)
  }

  /**
   * The contract the component relies on: the chunks concatenate to `s`,
   * no chunk is empty or longer than `size`, and all but the last hold
   * exactly `size` items.
   */
  lemma {:induction false} ChunkContract<T>(s: seq<T>, size: nat)
    requires size >= 1
    ensures Flatten(Chunk(s, size)) == s
    ensures Chunk(s, size) == [] <==> s == []
    ensures forall i :: 0 <= i < |Chunk(s, size)| ==> 1 <= |Chunk(s, size)[i]| <= size
    ensures forall i :: 0 <= i < |Chunk(s, size)| - 1 ==> |Chunk(s, size)[i]| == size
    decreases |s|
  {
    if |s| > size {
      var rest := Chunk(s[size..], size);
      ChunkContract(s[size..], size);
      assert Chunk(s, size) == [s[..size]] + rest;
      assert ([s[..size]] + rest)[1..] == rest;
      assert s[..size] + s[size..] == s;
    } else if s != [] {
      assert Chunk(s, size) == [s];
      assert [s][1..] == [];
    }
  }

  function Min(a: int, b: int): (m: int) {
    if a <= b then a else b
  }

  /** Chunk `i` is the slice from `i * size` up to the next multiple of `size` or the end. */
  lemma {:induction false} ChunkAt<T>(s: seq<T>, size: nat, i: nat)
    requires size >= 1 && i < |Chunk(s, size)|
    ensures i * size < |s|
    ensures Chunk(s, size)[i] == s[i * size .. Min(i * size + size, |s|)]
    decreases |s|
  {
    if i > 0 {
      var rest := s[size..];
      assert Chunk(s, size)[i] == Chunk(rest, size)[i - 1];
      ChunkAt(rest, size, i - 1);
      var lo, start := (i - 1) * size, i * size;
      MultiplyStep(i, size);
      var hi := Min(lo + size, |rest|);
      assert hi + size == Min(start + size, |s|);
      assert rest[lo..hi] == s[start .. hi + size];
    }
  }

  lemma MultiplyStep(n: int, size: int)
    ensures n * size == (n - 1) * size + size
  {
  }

  /** The number of rows is the ceiling of `|s| / size`. */
  lemma ChunkCount<T>(s: seq<T>, size: nat)
    requires size >= 1
    ensures |Chunk(s, size)| == (|s| + size - 1) / size
  {
    ChunkCountBounds(s, size);
    DivisionByBounds(|Chunk(s, size)|, |s|, size);
  }

  lemma {:induction false} ChunkCountBounds<T>(s: seq<T>, size: nat)
    requires size >= 1
    ensures (|Chunk(s, size)| - 1) * size < |s| <= |Chunk(s, size)| * size
    decreases |s|
  {
    var n := |Chunk(s, size)|;
    if s == [] {
    } else if |s| <= size {
      assert n == 1;
    } else {
      var m := |Chunk(s[size..], size)|;
      ChunkCountBounds(s[size..], size);
      assert n == m + 1;
      MultiplyStep(n, size);
      MultiplyStep(m, size);
    }
  }

  lemma DivisionByBounds(n: int, m: int, size: int)
    requires size >= 1 && (n - 1) * size < m <= n * size
    ensures n == (m + size - 1) / size
  {
    assert (n - 1) * size == n * size - size;
    DivisionUnique(m + size - 1, size, n);
  }

  /** `x / size` is the `n` with n * size <= x < n * size + size. */
  lemma DivisionUnique(x: int, size: int, n: int)
    requires size >= 1 && n * size <= x < n * size + size
    ensures x / size == n
  {
    var q, r := x / size, x % size;
    var d := q - n;
    assert d * size == q * size - n * size;
    assert -size < d * size < size;
    if d >= 1 {
      MultiplyAtLeast(d, size);
    } else if d <= -1 {
      MultiplyAtLeast(-d, size);
    }
  }

  lemma MultiplyAtLeast(a: int, b: int)
    requires a >= 1 && b >= 1
    ensures a * b >= b
  {
  }

  /**
   * The contract of `chunkArray` determines its result: any partition of `s`
   * into non-empty chunks of at most `size` items, all but the last exactly
   * `size`, is `Chunk(s, size)`.
   */
  lemma {:induction false} ChunkIsDetermined<T>(s: seq<T>, size: nat, chunks: seq<seq<T>>)
    requires size >= 1
    requires Flatten(chunks) == s
    requires forall i :: 0 <= i < |chunks| ==> 1 <= |chunks[i]| <= size
    requires forall i :: 0 <= i < |chunks| - 1 ==> |chunks[i]| == size
    ensures chunks == Chunk(s, size)
    decreases |s|
  {
    if chunks != [] {
      var c := chunks[0];
      assert s == c + Flatten(chunks[1..]);
      if |chunks| == 1 {
        assert chunks[1..] == [];
        assert s == c;
      } else {
        assert |c| == size && |chunks[1] | >= 1;
        assert |Flatten(chunks[1..])| > 0 by {
          assert Flatten(chunks[1..]) == chunks[1] + Flatten(chunks[2..]) by {
            assert chunks[1..][1..] == chunks[2..];
          }
        }
        assert s[..size] == c && s[size..] == Flatten(chunks[1..]);
        ChunkIsDetermined(s[size..], size, chunks[1..]);
      }
    }
  }

  /** The key of the `i`-th row of a section: `row_${i}`. */
  function RowKey(i: nat): (key: string) {
    "row_" + Decimal.Show(i)
  }

  /** Tags the chunks of one section, as the `chunked.map(...)` callback does. */
  function KeyRows<I>(chunked: seq<seq<I>>): (rows: seq<Row<I>>) {
    seq(|chunked|, i requires 0 <= i < |chunked| => Row(chunked[i], RowKey(i), |chunked| - 1 == i))
  }

  /** One pass of the `render` loop body: the section with its `data` replaced by keyed rows. */
  function ChunkSection<H, I>(section: Section<H, I>, itemsPerRow: nat): (chunked: Section<H, Row<I>>)
    requires itemsPerRow >= 1
  {
    Section(section.header, KeyRows(Chunk(section.data, itemsPerRow)))
  }

  /** What the `render` loop leaves in the copy of `items`. */
  function ChunkSections<H, I>(items: seq<Section<H, I>>, itemsPerRow: nat): (out: seq<Section<H, Row<I>>>)
    requires itemsPerRow >= 1
  {
    seq(|items|, j requires 0 <= j < |items| => ChunkSection(items[j], itemsPerRow))
  }

  /** The items of each row, in row order. */
  function RowItems<I>(rows: seq<Row<I>>): (items: seq<seq<I>>) {
    seq(|rows|, i requires 0 <= i < |rows| => rows[i].items)
  }

  /** The indices of the rows flagged `isLast`. */
  function LastRows<I>(rows: seq<Row<I>>): (last: set<nat>) {
    set i: nat | i < |rows| && rows[i].isLast
  }

  /**
   * Chunking keeps the section's other fields, and reading the rows in order
   * gives back the section's items exactly: none lost, none repeated, none
   * reordered.
   */
  lemma ChunkSectionKeepsItems<H, I>(section: Section<H, I>, itemsPerRow: nat)
    requires itemsPerRow >= 1
    ensures ChunkSection(section, itemsPerRow).header == section.header
    ensures Flatten(RowItems(ChunkSection(section, itemsPerRow).data)) == section.data
  {
    var chunked := Chunk(section.data, itemsPerRow);
    ChunkContract(section.data, itemsPerRow);
    assert RowItems(KeyRows(chunked)) == chunked;
  }

  /**
   * Every row holds between 1 and `itemsPerRow` items, every row but the
   * last exactly `itemsPerRow`, and there are ceil(n / itemsPerRow) rows
   * for n items (none for an empty section).
   */
  lemma ChunkSectionShape<H, I>(section: Section<H, I>, itemsPerRow: nat)
    requires itemsPerRow >= 1
    ensures var rows := ChunkSection(section, itemsPerRow).data;
      && |rows| == (|section.data| + itemsPerRow - 1) / itemsPerRow
      && (|rows| == 0 <==> section.data == [])
      && (forall i :: 0 <= i < |rows| ==> 1 <= |rows[i].items| <= itemsPerRow)
      && (forall i :: 0 <= i < |rows| - 1 ==> |rows[i].items| == itemsPerRow)
  {
    ChunkCount(section.data, itemsPerRow);
    ChunkContract(section.data, itemsPerRow);
  }

  /**
   * Row `i` of a section carries the key `row_<i>` and is flagged last
   * exactly when it is the final row; so a non-empty section has exactly
   * one last row and an empty one has none.
   */
  lemma ChunkSectionTags<H, I>(section: Section<H, I>, itemsPerRow: nat)
    requires itemsPerRow >= 1
    ensures var rows := ChunkSection(section, itemsPerRow).data;
      && (forall i :: 0 <= i < |rows| ==> rows[i].key == "row_" + Decimal.Show(i))
      && (forall i :: 0 <= i < |rows| ==> (rows[i].isLast <==> i == |rows| - 1))
      && LastRows(rows) == (if section.data == [] then {} else {|rows| - 1})
      && |LastRows(rows)| == (if section.data == [] then 0 else 1)
  {
    var rows := ChunkSection(section, itemsPerRow).data;
    ChunkContract(section.data, itemsPerRow);
    if section.data != [] {
      assert |rows| - 1 in LastRows(rows);
    }
  }

  /** The row keys within one section are pairwise distinct. */
  lemma RowKeysDistinct<H, I>(section: Section<H, I>, itemsPerRow: nat, i: nat, j: nat)
    requires itemsPerRow >= 1
    requires i < |ChunkSection(section, itemsPerRow).data| && j < |ChunkSection(section, itemsPerRow).data|
    requires i != j
    ensures ChunkSection(section, itemsPerRow).data[i].key != ChunkSection(section, itemsPerRow).data[j].key
  {
    var rows := ChunkSection(section, itemsPerRow).data;
    var p := "row_";
    assert rows[i].key[|p|..] == Decimal.Show(i);
    assert rows[j].key[|p|..] == Decimal.Show(j);
    Decimal.ShowInjective(i, j);
  }

  /**
   * The loop keeps the number and order of the sections; each output
   * section is its input section chunked.
   */
  lemma ChunkSectionsKeepOrder<H, I>(items: seq<Section<H, I>>, itemsPerRow: nat)
    requires itemsPerRow >= 1
    ensures var out := ChunkSections(items, itemsPerRow);
      && |out| == |items|
      && forall j :: 0 <= j < |items| ==>
           out[j].header == items[j].header && Flatten(RowItems(out[j].data)) == items[j].data
  {
    var out := ChunkSections(items, itemsPerRow);
    forall j | 0 <= j < |items|
      ensures out[j].header == items[j].header && Flatten(RowItems(out[j].data)) == items[j].data
    {
      ChunkSectionKeepsItems(items[j], itemsPerRow);
    }
  }

  /** Flattening twice is flattening each inner sequence, then the results. */
  lemma {:induction false} FlattenFlatten<T>(xss: seq<seq<seq<T>>>)
    ensures Flatten(Flatten(xss)) == Flatten(seq(|xss|, i requires 0 <= i < |xss| => Flatten(xss[i])))
  {
    var inner := seq(|xss|, i requires 0 <= i < |xss| => Flatten(xss[i]));
    if xss != [] {
      FlattenAppend(xss[0], Flatten(xss[1..]));
      FlattenFlatten(xss[1..]);
      assert inner[1..] == seq(|xss[1..]|, i requires 0 <= i < |xss[1..]| => Flatten(xss[1..][i]));
    }
  }

  /** The items of every section, in section order. */
  function SectionItems<H, E>(sections: seq<Section<H, E>>): (items: seq<E>) {
    Flatten(seq(|sections|, j requires 0 <= j < |sections| => sections[j].data))
  }

  /** The rows of every section, in section order. */
  function AllRows<H, I>(sections: seq<Section<H, Row<I>>>): (rows: seq<Row<I>>) {
    Flatten(seq(|sections|, j requires 0 <= j < |sections| => sections[j].data))
  }

  /**
   * Reading every row of every chunked section in order, section by section,
   * gives back every item of every input section in its original order.
   */
  lemma ChunkSectionsKeepAllItems<H, I>(items: seq<Section<H, I>>, itemsPerRow: nat)
    requires itemsPerRow >= 1
    ensures Flatten(RowItems(AllRows(ChunkSections(items, itemsPerRow)))) == SectionItems(items)
  {
    var out := ChunkSections(items, itemsPerRow);
    var rowsPerSection := seq(|out|, j requires 0 <= j < |out| => out[j].data);
    var perSection := seq(|out|, j requires 0 <= j < |out| => RowItems(out[j].data));
    RowItemsFlatten(rowsPerSection);
    assert RowItems(AllRows(out)) == Flatten(perSection) by {
      assert seq(|rowsPerSection|, j requires 0 <= j < |rowsPerSection| => RowItems(rowsPerSection[j])) == perSection;
    }
    FlattenFlatten(perSection);
    ChunkSectionsKeepOrder(items, itemsPerRow);
    assert seq(|perSection|, i requires 0 <= i < |perSection| => Flatten(perSection[i]))
        == seq(|items|, j requires 0 <= j < |items| => items[j].data);
  }

  /** The items of a concatenation of row sequences are the concatenation of their items. */
  lemma {:induction false} RowItemsFlatten<I>(rss: seq<seq<Row<I>>>)
    ensures RowItems(Flatten(rss)) == Flatten(seq(|rss|, j requires 0 <= j < |rss| => RowItems(rss[j])))
  {
    if rss != [] {
      RowItemsFlatten(rss[1..]);
      assert seq(|rss|, j requires 0 <= j < |rss| => RowItems(rss[j]))[1..]
          == seq(|rss[1..]|, j requires 0 <= j < |rss[1..]| => RowItems(rss[1..][j]));
      RowItemsAppend(rss[0], Flatten(rss[1..]));
    }
  }

  lemma RowItemsAppend<I>(a: seq<Row<I>>, b: seq<Row<I>>)
    ensures RowItems(a + b) == RowItems(a) + RowItems(b)
  {
  }

  /** Five items in rows of two: [1, 2], [3, 4] and a last row [5]. */
  lemma FiveItemsInRowsOfTwo()
    ensures ChunkSection(Section((), [1, 2, 3, 4, 5]), 2).data ==
      [Row([1, 2], "row_0", false), Row([3, 4], "row_1", false), Row([5], "row_2", true)]
  {
    var s := [1, 2, 3, 4, 5];
    assert s[..2] == [1, 2] && s[2..] == [3, 4, 5];
    assert s[2..][..2] == [3, 4] && s[2..][2..] == [5];
    assert Chunk(s, 2) == [[1, 2], [3, 4], [5]];
    assert Decimal.Show(0) == "0" && Decimal.Show(1) == "1" && Decimal.Show(2) == "2";
    var rows := KeyRows([[1, 2], [3, 4], [5]]);
    assert rows[0] == Row([1, 2], "row_0", false);
    assert rows[1] == Row([3, 4], "row_1", false);
    assert rows[2] == Row([5], "row_2", true);
  }
}
