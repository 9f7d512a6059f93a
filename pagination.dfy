/** `calculateTablePagination`: cutting the table's cells into pages. With a
    positive `rowsPerPage` the chunked rows are sliced `rowsPerPage` at a time,
    the last page optionally filled with blank rows (strategy A); otherwise
    the cells are cut 15 at a time, one cell per row (strategy B). */
module Pagination {
  import opened Values
  import opened Chunking

  /** The rows strategy B puts on a page. */
  const DefaultRows: nat := 15

  // ---------------------------------------------------------------------------
  // Specification
  // ---------------------------------------------------------------------------

  /** `n` pad rows, each `Array(columnsCount).fill({__isBlank: true})`. */
  function BlankRows(n: nat, columns: nat): (r: seq<seq<Cell>>)
    ensures |r| == n
    ensures forall i :: 0 <= i < n ==> r[i] == Blanks(columns)
  {
    seq(n, _ => Blanks(columns))
  }

  /** One strategy-A page: the slice, filled with blank rows up to `perPage`
      rows when it is padded. */
  function PageOf(slice: seq<seq<Cell>>, padded: bool, perPage: nat, columns: nat): seq<seq<Cell>>
  {
    if padded && |slice| <= perPage then slice + BlankRows(perPage - |slice|, columns) else slice
  }

  /** Strategy A: consecutive slices of `perPage` rows; the slice that reaches
      the end is filled up to `perPage` rows when `fill` is set. */
  function FixedPages(rows: seq<seq<Cell>>, perPage: nat, fill: bool, columns: nat): seq<seq<seq<Cell>>>
    requires perPage > 0
    decreases |rows|
  {
    if rows == [] then []
    else
      var k := Min(perPage, |rows|);
      [PageOf(rows[..k], fill && |rows| <= perPage, perPage, columns)] +
      FixedPages(rows[k..], perPage, fill, columns)
  }

  /** Strategy B: slices of 15 cells, each cell its own row. */
  function DefaultPages(items: seq<Cell>): seq<seq<seq<Cell>>>
    decreases |items|
  {
    if items == [] then []
    else
      var k := Min(DefaultRows, |items|);
      [Singletons(items[..k])] + DefaultPages(items[k..])
  }

  /** `calculateTablePagination(table, items)`. */
  function TablePages(items: seq<Cell>, table: TableOptions): seq<seq<seq<Cell>>>
  {
    if table.rowsPerPage > 0 then
      FixedPages(Chunked(items, table.columnsCount, table.dataFlow, table.rowsPerPage),
                 table.rowsPerPage, table.autoFillBlank, table.columnsCount)
    else DefaultPages(items)
  }

  /** One step of strategy A's loop keeps `done + FixedPages(rest)` whole. */
  lemma FixedPagesAdvance(rows: seq<seq<Cell>>, i: nat, perPage: nat, fill: bool, columns: nat, done: seq<seq<seq<Cell>>>)
    requires i < |rows| && perPage > 0
    requires done + FixedPages(rows[i..], perPage, fill, columns) == FixedPages(rows, perPage, fill, columns)
    ensures var end := Min(i + perPage, |rows|);
            (done + [PageOf(rows[i..end], fill && i + perPage >= |rows|, perPage, columns)]) +
              FixedPages(rows[end..], perPage, fill, columns) == FixedPages(rows, perPage, fill, columns)
  {
    var end := Min(i + perPage, |rows|);
    SliceOfSuffix(rows, i, end);
    var page := PageOf(rows[i..end], fill && i + perPage >= |rows|, perPage, columns);
    var later := FixedPages(rows[end..], perPage, fill, columns);
    assert FixedPages(rows[i..], perPage, fill, columns) == [page] + later;
    AppendAssoc(done, [page], later);
  }

  /** Unfolding `DefaultPages` once. */
  lemma DefaultPagesUnfold(xs: seq<Cell>)
    requires xs != []
    ensures DefaultPages(xs) == [Singletons(xs[..Min(DefaultRows, |xs|)])] + DefaultPages(xs[Min(DefaultRows, |xs|)..])
  {
  }

  /** One step of strategy B's loop keeps `done + DefaultPages(rest)` whole. */
  lemma DefaultPagesAdvance(items: seq<Cell>, i: nat, done: seq<seq<seq<Cell>>>)
    requires i < |items|
    requires done + DefaultPages(items[i..]) == DefaultPages(items)
    ensures var end := Min(i + DefaultRows, |items|);
            (done + [Singletons(items[i..end])]) + DefaultPages(items[end..]) == DefaultPages(items)
  {
    var end := Min(i + DefaultRows, |items|);
    var xs := items[i..];
    assert Min(DefaultRows, |xs|) == end - i;
    SliceOfSuffix(items, i, end);
    DefaultPagesUnfold(xs);
    var page := Singletons(items[i..end]);
    var later := DefaultPages(items[end..]);
    AppendAssoc(done, [page], later);
  }

  // ---------------------------------------------------------------------------
  // The loops
  // ---------------------------------------------------------------------------

  /** The fill loop: blank rows of `columns` cells until the page has `perPage` rows. */
  method FillPage(page: seq<seq<Cell>>, perPage: nat, columns: nat) returns (filled: seq<seq<Cell>>)
    requires |page| <= perPage
    ensures filled == page + BlankRows(perPage - |page|, columns)
  {
    filled := page;
    var fillCount := perPage - |page|;
    var j := 0;
    while j < fillCount
      invariant 0 <= j <= fillCount
      invariant filled == page + BlankRows(j, columns)
    {
      filled := filled + [Blanks(columns)];
      j := j + 1;
    }
  }

  /** Strategy A's loop over the chunked rows. */
  method SliceRows(rows: seq<seq<Cell>>, perPage: nat, fill: bool, columns: nat)
    returns (pages: seq<seq<seq<Cell>>>)
    requires perPage > 0
    ensures pages == FixedPages(rows, perPage, fill, columns)
  {
    pages := [];
    var i := 0;
    while i < |rows|
      invariant 0 <= i
      invariant pages + FixedPages(rows[Min(i, |rows|)..], perPage, fill, columns) == FixedPages(rows, perPage, fill, columns)
      decreases |rows| - i
    {
      var end := Min(i + perPage, |rows|);
      var pageRows := rows[i..end];
      if fill && i + perPage >= |rows| {
        pageRows := FillPage(pageRows, perPage, columns);
      }
      assert pageRows == PageOf(rows[i..end], fill && i + perPage >= |rows|, perPage, columns);
      FixedPagesAdvance(rows, i, perPage, fill, columns, pages);
      pages := pages + [pageRows];
      i := i + perPage;
      assert Min(i, |rows|) == end;
    }
    assert rows[Min(i, |rows|)..] == [];
  }

  /** Strategy B's loop over the cells. */
  method SliceCells(items: seq<Cell>) returns (pages: seq<seq<seq<Cell>>>)
    ensures pages == DefaultPages(items)
  {
    pages := [];
    var i := 0;
    while i < |items|
      invariant 0 <= i
      invariant pages + DefaultPages(items[Min(i, |items|)..]) == DefaultPages(items)
      decreases |items| - i
    {
      var end := Min(i + DefaultRows, |items|);
      var pageItems := items[i..end];
      DefaultPagesAdvance(items, i, pages);
      pages := pages + [Singletons(pageItems)];
      i := i + DefaultRows;
      assert Min(i, |items|) == end;
    }
    assert items[Min(i, |items|)..] == [];
  }

  /** `calculateTablePagination(table, items)`. */
  method CalculateTablePagination(table: TableOptions, items: seq<Cell>) returns (pages: seq<seq<seq<Cell>>>)
    ensures pages == TablePages(items, table)
  {
    if table.rowsPerPage > 0 {
      var chunked := ChunkData(items, table.columnsCount, table.dataFlow, table.rowsPerPage);
      pages := SliceRows(chunked, table.rowsPerPage, table.autoFillBlank, table.columnsCount);
    } else {
      pages := SliceCells(items);
    }
  }

  // ---------------------------------------------------------------------------
  // Properties
  // ---------------------------------------------------------------------------

  /** Strategy A gives `ceil(rows / perPage)` pages. */
  lemma {:induction false} FixedPagesCount(rows: seq<seq<Cell>>, perPage: nat, fill: bool, columns: nat)
    requires perPage > 0
    ensures |FixedPages(rows, perPage, fill, columns)| == CeilDiv(|rows|, perPage)
    decreases |rows|
  {
    if rows != [] {
      FixedPagesCount(rows[Min(perPage, |rows|)..], perPage, fill, columns);
      if |rows| <= perPage {
        CeilDivUnique(|rows|, perPage, 1);
      } else {
        CeilDivShift(|rows| - perPage, perPage, 1);
      }
    }
  }

  /** Strategy A: every page but the last has exactly `perPage` rows; the
      last has between one and `perPage` rows, exactly `perPage` when filling. */
  lemma {:induction false} FixedPagesSizes(rows: seq<seq<Cell>>, perPage: nat, fill: bool, columns: nat)
    requires perPage > 0
    ensures var pages := FixedPages(rows, perPage, fill, columns);
            (forall p :: 0 <= p < |pages| - 1 ==> |pages[p]| == perPage) &&
            (|pages| > 0 ==> 0 < |pages[|pages| - 1]| <= perPage) &&
            (|pages| > 0 && fill ==> |pages[|pages| - 1]| == perPage)
    decreases |rows|
  {
    var pages := FixedPages(rows, perPage, fill, columns);
    if rows != [] {
      var k := Min(perPage, |rows|);
      var rest := FixedPages(rows[k..], perPage, fill, columns);
      FixedPagesSizes(rows[k..], perPage, fill, columns);
      assert pages == [pages[0]] + rest;
      if |rows| > perPage {
        assert pages[0] == rows[..perPage];
        FixedPagesCount(rows[k..], perPage, fill, columns);
        assert |rest| > 0;
        assert forall p :: 1 <= p < |pages| ==> pages[p] == rest[p - 1];
      } else {
        assert rest == [];
      }
    }
  }

  lemma FixedPagesOfLast(rows: seq<seq<Cell>>, perPage: nat, fill: bool, columns: nat)
    requires 0 < |rows| <= perPage
    ensures FixedPages(rows, perPage, fill, columns) ==
              [rows + (if fill then BlankRows(TrailingBlanks(|rows|, perPage), columns) else [])]
  {
    assert Min(perPage, |rows|) == |rows|;
    assert rows[..|rows|] == rows && rows[|rows|..] == [];
    assert TrailingBlanks(|rows|, perPage) == perPage - |rows|;
    assert rows + [] == rows;
    assert FixedPages(rows, perPage, fill, columns) == [PageOf(rows, fill, perPage, columns)] + FixedPages([], perPage, fill, columns);
  }

  lemma FixedPagesOfMore(rows: seq<seq<Cell>>, perPage: nat, fill: bool, columns: nat)
    requires 0 < perPage < |rows|
    ensures FixedPages(rows, perPage, fill, columns) ==
              [rows[..perPage]] + FixedPages(rows[perPage..], perPage, fill, columns)
  {
  }

  /** Strategy A loses and reorders nothing: the pages read back as the
      chunked rows, followed by the pad rows when filling. */
  lemma {:induction false} FixedPagesFlatten(rows: seq<seq<Cell>>, perPage: nat, fill: bool, columns: nat)
    requires perPage > 0
    ensures Flatten(FixedPages(rows, perPage, fill, columns)) ==
              rows + (if fill then BlankRows(TrailingBlanks(|rows|, perPage), columns) else [])
    decreases |rows|
  {
    if rows != [] {
      var pad := if fill then BlankRows(TrailingBlanks(|rows|, perPage), columns) else [];
      if |rows| <= perPage {
        FixedPagesOfLast(rows, perPage, fill, columns);
        FlattenAppend([rows + pad], []);
      } else {
        var rest := rows[perPage..];
        var later := FixedPages(rest, perPage, fill, columns);
        FixedPagesFlatten(rest, perPage, fill, columns);
        FixedPagesOfMore(rows, perPage, fill, columns);
        FlattenAppend([rows[..perPage]], later);
        assert Flatten([rows[..perPage]]) == rows[..perPage] by {
          FlattenAppend([rows[..perPage]], []);
          assert [rows[..perPage]][1..] == [];
        }
        assert TrailingBlanks(|rows|, perPage) == TrailingBlanks(|rest|, perPage);
        assert rows[..perPage] + (rest + pad) == rows + pad by {
          assert rows[..perPage] + rest == rows;
        }
      }
    }
  }

  /** Strategy B gives `ceil(n / 15)` pages of at most 15 rows, all but the
      last full, and the rows read back as the cells, one per row. */
  lemma {:induction false} DefaultPagesShape(items: seq<Cell>)
    ensures var pages := DefaultPages(items);
            |pages| == CeilDiv(|items|, DefaultRows) &&
            (forall p :: 0 <= p < |pages| ==> |pages[p]| <= DefaultRows) &&
            (forall p :: 0 <= p < |pages| - 1 ==> |pages[p]| == DefaultRows) &&
            Flatten(pages) == Singletons(items)
    decreases |items|
  {
    var pages := DefaultPages(items);
    if items != [] {
      var k := Min(DefaultRows, |items|);
      var rest := items[k..];
      DefaultPagesShape(rest);
      assert pages[1..] == DefaultPages(rest);
      if |items| <= DefaultRows {
        CeilDivUnique(|items|, DefaultRows, 1);
        assert rest == [] && items[..k] == items;
      } else {
        CeilDivShift(|items| - DefaultRows, DefaultRows, 1);
        SingletonsAppend(items[..DefaultRows], rest);
        assert items[..DefaultRows] + rest == items;
      }
      assert forall p :: 1 <= p < |pages| ==> pages[p] == DefaultPages(rest)[p - 1];
    }
  }

  lemma SingletonsAppend(a: seq<Cell>, b: seq<Cell>)
    ensures Singletons(a + b) == Singletons(a) + Singletons(b)
  {
  }

  /** Strategy B, read page by page and row by row, is the cell list in order. */
  lemma DefaultPagesReadBack(items: seq<Cell>)
    ensures Flatten(Flatten(DefaultPages(items))) == items
  {
    DefaultPagesShape(items);
    SingletonsFlatten(items);
  }

  /** The number of table pages: `ceil(rows / rowsPerPage)` in strategy A,
      `ceil(n / 15)` in strategy B, and none at all exactly when there are no cells. */
  lemma TablePagesCount(items: seq<Cell>, table: TableOptions)
    ensures |TablePages(items, table)| ==
              if table.rowsPerPage > 0
              then CeilDiv(|Chunked(items, table.columnsCount, table.dataFlow, table.rowsPerPage)|, table.rowsPerPage)
              else CeilDiv(|items|, DefaultRows)
    ensures TablePages(items, table) == [] <==> items == []
  {
    if table.rowsPerPage > 0 {
      var rows := Chunked(items, table.columnsCount, table.dataFlow, table.rowsPerPage);
      FixedPagesCount(rows, table.rowsPerPage, table.autoFillBlank, table.columnsCount);
      ChunkedCount(items, table.columnsCount, table.dataFlow, table.rowsPerPage);
    } else {
      DefaultPagesShape(items);
    }
  }

  /** Column-major pages described block by block: each page is one block of
      `perPage * columns` cells laid out column-first, the last one filled. */
  function BlockPages(items: seq<Cell>, columns: nat, perPage: nat, fill: bool): seq<seq<seq<Cell>>>
    requires columns > 0 && perPage > 0
    decreases |items|
  {
    if items == [] then []
    else
      var size := perPage * columns;
      var k := Min(size, |items|);
      [PageOf(ColumnBlock(items[..k], columns), fill && |items| <= size, perPage, columns)] +
      BlockPages(items[k..], columns, perPage, fill)
  }

  lemma FixedPagesSingle(rows: seq<seq<Cell>>, perPage: nat, fill: bool, columns: nat)
    requires 0 < |rows| <= perPage
    ensures FixedPages(rows, perPage, fill, columns) == [PageOf(rows, fill, perPage, columns)]
  {
    assert Min(perPage, |rows|) == |rows|;
    assert rows[..|rows|] == rows && rows[|rows|..] == [];
  }

  lemma ColumnMajorOfLast(items: seq<Cell>, columns: nat, size: nat)
    requires columns > 0 && 0 < |items| <= size
    ensures ColumnMajor(items, columns, size) == ColumnBlock(items, columns)
  {
    assert items[..|items|] == items && items[|items|..] == [];
    assert ColumnMajor(items, columns, size) == ColumnBlock(items, columns) + ColumnMajor([], columns, size);
  }

  lemma BlockPagesOfLast(items: seq<Cell>, columns: nat, perPage: nat, fill: bool)
    requires columns > 0 && perPage > 0 && 0 < |items| <= perPage * columns
    ensures BlockPages(items, columns, perPage, fill) == [PageOf(ColumnBlock(items, columns), fill, perPage, columns)]
  {
    assert items[..|items|] == items && items[|items|..] == [];
  }

  lemma BlockPagesOfMore(items: seq<Cell>, columns: nat, perPage: nat, fill: bool)
    requires columns > 0 && perPage > 0 && |items| > perPage * columns
    ensures BlockPages(items, columns, perPage, fill) ==
              [ColumnBlock(items[..perPage * columns], columns)] + BlockPages(items[perPage * columns..], columns, perPage, fill)
  {
  }

  /** A column-major block of `n` cells has rows, and at most `perPage` of them
      when `n <= perPage * columns`. */
  lemma ColumnBlockFits(block: seq<Cell>, columns: nat, perPage: nat)
    requires columns > 0 && 0 < |block| <= perPage * columns
    ensures 0 < |ColumnBlock(block, columns)| <= perPage
  {
    ColumnBlockShape(block, columns, perPage);
  }

  /** Column-major blocks and pages line up: slicing the column-major rows
      `perPage` at a time gives exactly one block per page. */
  lemma {:induction false} ColumnPagesAreBlocks(items: seq<Cell>, columns: nat, perPage: nat, fill: bool)
    requires columns > 0 && perPage > 0
    ensures FixedPages(ColumnMajor(items, columns, perPage * columns), perPage, fill, columns) ==
              BlockPages(items, columns, perPage, fill)
    decreases |items|
  {
    var size := perPage * columns;
    MulMono(1, perPage, columns);
    if items != [] {
      if |items| <= size {
        ColumnMajorOfLast(items, columns, size);
        ColumnBlockFits(items, columns, perPage);
        FixedPagesSingle(ColumnBlock(items, columns), perPage, fill, columns);
        BlockPagesOfLast(items, columns, perPage, fill);
      } else {
        ColumnPagesStep(items, columns, perPage, fill);
        ColumnPagesAreBlocks(items[size..], columns, perPage, fill);
        BlockPagesOfMore(items, columns, perPage, fill);
      }
    }
  }

  lemma ColumnPagesStep(items: seq<Cell>, columns: nat, perPage: nat, fill: bool)
    requires columns > 0 && perPage > 0 && |items| > perPage * columns
    ensures FixedPages(ColumnMajor(items, columns, perPage * columns), perPage, fill, columns) ==
              [ColumnBlock(items[..perPage * columns], columns)] +
              FixedPages(ColumnMajor(items[perPage * columns..], columns, perPage * columns), perPage, fill, columns)
  {
    var size := perPage * columns;
    var rows := ColumnMajor(items, columns, size);
    var block := ColumnBlock(items[..size], columns);
    var rest := ColumnMajor(items[size..], columns, size);
    assert rows == block + rest;
    assert |block| == perPage by {
      CeilDivShift(0, columns, perPage);
    }
    assert |rest| > 0 by {
      ColumnMajorCount(items[size..], columns, perPage);
    }
    FixedPagesOfMore(rows, perPage, fill, columns);
    assert rows[..perPage] == block && rows[perPage..] == rest;
  }

  /** In a column-major table (any flow but `ltr-ttb`, more than one column,
      positive `rowsPerPage`) every page is one block laid out column-first. */
  lemma ColumnFlowPages(items: seq<Cell>, table: TableOptions)
    requires table.rowsPerPage > 0 && table.columnsCount > 1 && table.dataFlow != "ltr-ttb"
    ensures TablePages(items, table) ==
              BlockPages(items, table.columnsCount, table.rowsPerPage, table.autoFillBlank)
  {
    ColumnPagesAreBlocks(items, table.columnsCount, table.rowsPerPage, table.autoFillBlank);
  }
}
