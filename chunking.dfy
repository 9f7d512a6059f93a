/** `chunkData`: arranging the (possibly grouped) cells of a table into rows of
    `columnsCount` cells, either across each row first (`ltr-ttb`) or down
    each column first, one block of `rowsPerPage * columns` cells at a time. */
module Chunking {
  import opened Values

  // ---------------------------------------------------------------------------
  // Specification
  // ---------------------------------------------------------------------------

  /** `items.map(item => [item])`: one single-cell row per cell. */
  function Singletons(items: seq<Cell>): (rows: seq<seq<Cell>>)
    ensures |rows| == |items|
    ensures forall i :: 0 <= i < |rows| ==> rows[i] == [items[i]]
  {
    seq(|items|, i requires 0 <= i < |items| => [items[i]])
  }

  /** Row-major layout: consecutive runs of `columns` cells, the last run
      padded with blanks up to `columns`. */
  function RowMajor(items: seq<Cell>, columns: nat): seq<seq<Cell>>
    requires columns > 0
    decreases |items|
  {
    if items == [] then []
    else
      var k := Min(columns, |items|);
      [items[..k] + Blanks(columns - k)] + RowMajor(items[k..], columns)
  }

  /** `pageItems[index] || {__isBlank: true}` for an index inside the block. */
  function Shown(c: Cell): (s: Cell)
    ensures CellTruthy(s)
    ensures CellTruthy(c) ==> s == c
    ensures !CellTruthy(c) ==> s == Blank
  {
    if CellTruthy(c) then c else Blank
  }

  /** Cell `(r, c)` of a column-major block with `rows` rows: block entry
      `c * rows + r`, or a blank when that index is past the block. */
  function BlockCell(block: seq<Cell>, rows: nat, r: nat, c: nat): (cell: Cell)
    ensures CellTruthy(cell)
    ensures cell != Blank ==> c * rows + r < |block| && cell == block[c * rows + r]
    ensures c * rows + r < |block| && CellTruthy(block[c * rows + r]) ==>
      cell == block[c * rows + r]
  {
    var index := c * rows + r;
    if index < |block| then Shown(block[index]) else Blank
  }

  /** The rows of one column-major block: `ceil(n / columns)` rows of
      `columns` cells each. */
  function ColumnBlock(block: seq<Cell>, columns: nat): seq<seq<Cell>>
    requires columns > 0
  {
    var rows := CeilDiv(|block|, columns);
    seq(rows, r requires 0 <= r < rows =>
      seq(columns, c requires 0 <= c < columns => BlockCell(block, rows, r, c)))
  }

  /** Column-major layout: the cells are cut into blocks of `blockSize` and
      each block is laid out on its own. */
  function ColumnMajor(items: seq<Cell>, columns: nat, blockSize: nat): seq<seq<Cell>>
    requires columns > 0 && blockSize > 0
    decreases |items|
  {
    if items == [] then []
    else
      var k := Min(blockSize, |items|);
      ColumnBlock(items[..k], columns) + ColumnMajor(items[k..], columns, blockSize)
  }

  /** `rowsPerPage || 15`: the rows of one column-major block. */
  function BlockRows(rowsPerPage: nat): nat
  {
    if rowsPerPage != 0 then rowsPerPage else 15
  }

  /** `chunkData(items, columns, flow)`, with the table's `rowsPerPage`. */
  function Chunked(items: seq<Cell>, columns: nat, flow: string, rowsPerPage: nat): seq<seq<Cell>>
  {
    if columns <= 1 then Singletons(items)
    else if flow == "ltr-ttb" then RowMajor(items, columns)
    else ColumnMajor(items, columns, BlockRows(rowsPerPage) * columns)
  }

  /** Unfolding `RowMajor` at position `i` of the input. */
  lemma RowMajorStep(items: seq<Cell>, i: nat, columns: nat)
    requires i < |items| && columns > 0
    ensures var end := Min(i + columns, |items|);
            RowMajor(items[i..], columns) ==
              [items[i..end] + Blanks(columns - (end - i))] + RowMajor(items[end..], columns)
  {
    var end := Min(i + columns, |items|);
    SliceOfSuffix(items, i, end);
  }

  /** Unfolding `ColumnMajor` at position `i` of the input. */
  lemma ColumnMajorStep(items: seq<Cell>, i: nat, columns: nat, blockSize: nat)
    requires i < |items| && columns > 0 && blockSize > 0
    ensures var end := Min(i + blockSize, |items|);
            ColumnMajor(items[i..], columns, blockSize) ==
              ColumnBlock(items[i..end], columns) + ColumnMajor(items[end..], columns, blockSize)
  {
    var end := Min(i + blockSize, |items|);
    SliceOfSuffix(items, i, end);
  }

  /** One step of the row-major loop keeps `done + RowMajor(rest)` whole. */
  lemma RowMajorAdvance(items: seq<Cell>, i: nat, columns: nat, done: seq<seq<Cell>>)
    requires i < |items| && columns > 0
    requires done + RowMajor(items[i..], columns) == RowMajor(items, columns)
    ensures var end := Min(i + columns, |items|);
            (done + [items[i..end] + Blanks(columns - (end - i))]) + RowMajor(items[end..], columns) ==
              RowMajor(items, columns)
  {
    var end := Min(i + columns, |items|);
    var row := items[i..end] + Blanks(columns - (end - i));
    RowMajorStep(items, i, columns);
    var later := RowMajor(items[end..], columns);
    AppendAssoc(done, [row], later);
  }

  /** One step of the column-major loop keeps `done + ColumnMajor(rest)` whole,
      where `rest` starts at `i` (or is empty once `i` has passed the end). */
  lemma ColumnMajorAdvance(items: seq<Cell>, i: nat, columns: nat, blockSize: nat, done: seq<seq<Cell>>)
    requires i < |items| && columns > 0 && blockSize > 0
    requires done + ColumnMajor(items[i..], columns, blockSize) == ColumnMajor(items, columns, blockSize)
    ensures var end := Min(i + blockSize, |items|);
            (done + ColumnBlock(items[i..end], columns)) + ColumnMajor(items[end..], columns, blockSize) ==
              ColumnMajor(items, columns, blockSize)
  {
    var end := Min(i + blockSize, |items|);
    ColumnMajorStep(items, i, columns, blockSize);
    var later := ColumnMajor(items[end..], columns, blockSize);
    AppendAssoc(done, ColumnBlock(items[i..end], columns), later);
  }

  // ---------------------------------------------------------------------------
  // The loops
  // ---------------------------------------------------------------------------

  /** `while (row.length < columns) row.push({__isBlank: true})`. */
  method PadRow(slice: seq<Cell>, columns: nat) returns (row: seq<Cell>)
    requires |slice| <= columns
    ensures row == slice + Blanks(columns - |slice|)
  {
    row := slice;
    while |row| < columns
      invariant |slice| <= |row| <= columns
      invariant row == slice + Blanks(|row| - |slice|)
    {
      row := row + [Blank];
    }
  }

  /** The row-major branch: slice `columns` cells at a time and pad the row. */
  method RowMajorRows(items: seq<Cell>, columns: nat) returns (result: seq<seq<Cell>>)
    requires columns > 1
    ensures result == RowMajor(items, columns)
  {
    result := [];
    var i := 0;
    while i < |items|
      invariant 0 <= i
      invariant result + RowMajor(items[Min(i, |items|)..], columns) == RowMajor(items, columns)
      decreases |items| - i
    {
      var end := Min(i + columns, |items|);
      var row := PadRow(items[i..end], columns);
      RowMajorAdvance(items, i, columns, result);
      result := result + [row];
      i := i + columns;
      assert Min(i, |items|) == end;
    }
    assert items[Min(i, |items|)..] == [];
  }

  /** One column-major block: `rows` rows, cell `(r, c)` from entry `c * rows + r`. */
  method ColumnBlockRows(block: seq<Cell>, columns: nat) returns (result: seq<seq<Cell>>)
    requires columns > 1
    ensures result == ColumnBlock(block, columns)
  {
    var rows := CeilDiv(|block|, columns);
    ghost var grid := ColumnBlock(block, columns);
    result := [];
    var r := 0;
    while r < rows
      invariant 0 <= r <= rows
      invariant result == grid[..r]
    {
      var row := [];
      var c := 0;
      while c < columns
        invariant 0 <= c <= columns
        invariant row == grid[r][..c]
      {
        assert grid[r][c] == BlockCell(block, rows, r, c);
        var index := c * rows + r;
        if index < |block| && CellTruthy(block[index]) {
          row := row + [block[index]];
        } else {
          row := row + [Blank];
        }
        assert grid[r][..c + 1] == grid[r][..c] + [grid[r][c]];
        c := c + 1;
      }
      assert row == grid[r];
      assert grid[..r + 1] == grid[..r] + [grid[r]];
      result := result + [row];
      r := r + 1;
    }
  }

  /** The column-major branch: one block of `pageSize` cells at a time. */
  method ColumnMajorRows(items: seq<Cell>, columns: nat, pageSize: nat) returns (result: seq<seq<Cell>>)
    requires columns > 1 && pageSize > 0
    ensures result == ColumnMajor(items, columns, pageSize)
  {
    result := [];
    var i := 0;
    while i < |items|
      invariant 0 <= i
      invariant result + ColumnMajor(items[Min(i, |items|)..], columns, pageSize) == ColumnMajor(items, columns, pageSize)
      decreases |items| - i
    {
      var end := Min(i + pageSize, |items|);
      var pageItems := items[i..end];
      var blockRows := ColumnBlockRows(pageItems, columns);
      ColumnMajorAdvance(items, i, columns, pageSize, result);
      result := result + blockRows;
      i := i + pageSize;
      assert Min(i, |items|) == end;
    }
    assert items[Min(i, |items|)..] == [];
  }

  /** `chunkData(items, columns, flow)`. */
  method ChunkData(items: seq<Cell>, columns: nat, flow: string, rowsPerPage: nat)
    returns (result: seq<seq<Cell>>)
    ensures result == Chunked(items, columns, flow, rowsPerPage)
  {
    if columns <= 1 {
      return Singletons(items);
    }
    if flow == "ltr-ttb" {
      result := RowMajorRows(items, columns);
    } else {
      result := ColumnMajorRows(items, columns, BlockRows(rowsPerPage) * columns);
    }
  }

  // ---------------------------------------------------------------------------
  // Properties
  // ---------------------------------------------------------------------------

  /** One cell per row, nothing lost: the rows read back as the input. */
  lemma {:induction false} SingletonsFlatten(items: seq<Cell>)
    ensures Flatten(Singletons(items)) == items
  {
    if items != [] {
      SingletonsFlatten(items[1..]);
      assert Singletons(items)[1..] == Singletons(items[1..]);
    }
  }

  /** The blanks that complete the last row of `n` cells in rows of `columns`. */
  function TrailingBlanks(n: nat, columns: nat): (r: nat)
    requires columns > 0
    ensures r < columns
    decreases n
  {
    if n == 0 then 0
    else if n <= columns then columns - n
    else TrailingBlanks(n - columns, columns)
  }

  /** The trailing blanks round `n` up to whole rows: `ceil(n / columns)` of them. */
  lemma {:induction false} TrailingBlanksFill(n: nat, columns: nat)
    requires columns > 0
    ensures n + TrailingBlanks(n, columns) == CeilDiv(n, columns) * columns
    decreases n
  {
    if n == 0 {
    } else if n <= columns {
      CeilDivUnique(n, columns, 1);
      assert TrailingBlanks(n, columns) == columns - n;
    } else {
      var q := CeilDiv(n - columns, columns);
      TrailingBlanksFill(n - columns, columns);
      CeilDivShift(n - columns, columns, 1);
      assert CeilDiv(n, columns) == q + 1;
      assert TrailingBlanks(n, columns) == TrailingBlanks(n - columns, columns);
      assert (q + 1) * columns == q * columns + columns;
    }
  }

  /** Row-major: `ceil(n / columns)` rows. */
  lemma {:induction false} RowMajorCount(items: seq<Cell>, columns: nat)
    requires columns > 0
    ensures |RowMajor(items, columns)| == CeilDiv(|items|, columns)
    decreases |items|
  {
    if items != [] {
      var k := Min(columns, |items|);
      RowMajorCount(items[k..], columns);
      if |items| <= columns {
        CeilDivUnique(|items|, columns, 1);
      } else {
        CeilDivShift(|items| - columns, columns, 1);
      }
    }
  }

  /** Row-major: every row has exactly `columns` cells. */
  lemma {:induction false} RowMajorWidth(items: seq<Cell>, columns: nat)
    requires columns > 0
    ensures forall i :: 0 <= i < |RowMajor(items, columns)| ==> |RowMajor(items, columns)[i]| == columns
    decreases |items|
  {
    if items != [] {
      RowMajorWidth(items[Min(columns, |items|)..], columns);
    }
  }

  /** Row-major: the rows read back as the input followed by the blanks of
      the last row, fewer than `columns` of them. */
  lemma {:induction false} RowMajorFlatten(items: seq<Cell>, columns: nat)
    requires columns > 0
    ensures Flatten(RowMajor(items, columns)) == items + Blanks(TrailingBlanks(|items|, columns))
    decreases |items|
  {
    var rows := RowMajor(items, columns);
    if items != [] {
      var k := Min(columns, |items|);
      var rest := items[k..];
      RowMajorFlatten(rest, columns);
      assert rows[1..] == RowMajor(rest, columns);
      if |items| <= columns {
        assert rest == [] && items[..k] == items;
      } else {
        assert Blanks(0) == [];
        assert rows[0] == items[..columns];
        assert items[..columns] + rest == items;
      }
    }
  }

  /** Cell `(r, c)` of a column-major block. */
  lemma ColumnBlockCell(block: seq<Cell>, columns: nat, r: nat, c: nat)
    requires columns > 0 && r < CeilDiv(|block|, columns) && c < columns
    ensures |ColumnBlock(block, columns)| == CeilDiv(|block|, columns)
    ensures |ColumnBlock(block, columns)[r]| == columns
    ensures ColumnBlock(block, columns)[r][c] == BlockCell(block, CeilDiv(|block|, columns), r, c)
  {
  }

  /** Column-major block: `ceil(n / columns)` rows of exactly `columns`
      cells; a block of at most `limit * columns` cells has at most `limit` rows. */
  lemma ColumnBlockShape(block: seq<Cell>, columns: nat, limit: nat)
    requires columns > 0
    ensures |ColumnBlock(block, columns)| == CeilDiv(|block|, columns)
    ensures forall r :: 0 <= r < |ColumnBlock(block, columns)| ==> |ColumnBlock(block, columns)[r]| == columns
    ensures |block| <= limit * columns ==> |ColumnBlock(block, columns)| <= limit
  {
    if |block| <= limit * columns {
      CeilDivAtMost(|block|, columns, limit);
    }
  }

  lemma DivModSplit(j: nat, rows: nat)
    requires rows > 0
    ensures j == (j / rows) * rows + j % rows && j % rows < rows
  {
  }

  /** Column-major placement: with `rows` rows in the block, entry `j` sits in
      row `j % rows` of column `j / rows` (as a blank if it is falsy). */
  lemma ColumnBlockPosition(block: seq<Cell>, columns: nat, rows: nat, j: nat)
    requires columns > 0 && rows == CeilDiv(|block|, columns) && j < |block|
    ensures rows > 0 && j % rows < rows && j / rows < columns
    ensures |ColumnBlock(block, columns)| == rows && |ColumnBlock(block, columns)[j % rows]| == columns
    ensures ColumnBlock(block, columns)[j % rows][j / rows] == Shown(block[j])
  {
    var r, c := j % rows, j / rows;
    DivModSplit(j, rows);
    if c >= columns {
      MulMono(columns, c, rows);
    }
    ColumnBlockCell(block, columns, r, c);
  }

  /** Distinct cells of a column-major block read distinct entries, so no
      entry is shown twice. */
  lemma ColumnBlockSourcesDistinct(block: seq<Cell>, columns: nat, r1: nat, c1: nat, r2: nat, c2: nat)
    requires columns > 0
    requires r1 < CeilDiv(|block|, columns) && r2 < CeilDiv(|block|, columns)
    requires (r1, c1) != (r2, c2)
    ensures c1 * CeilDiv(|block|, columns) + r1 != c2 * CeilDiv(|block|, columns) + r2
  {
    var rows := CeilDiv(|block|, columns);
    if c1 < c2 {
      MulMono(c1 + 1, c2, rows);
      assert (c1 + 1) * rows == c1 * rows + rows;
    } else if c2 < c1 {
      MulMono(c2 + 1, c1, rows);
      assert (c2 + 1) * rows == c2 * rows + rows;
    }
  }

  /** The number of column-major rows: every full block contributes
      `blockRows` rows, so the total is `ceil(n / columns)` as in row-major. */
  lemma {:induction false} ColumnMajorCount(items: seq<Cell>, columns: nat, blockRows: nat)
    requires columns > 0 && blockRows > 0
    ensures |ColumnMajor(items, columns, blockRows * columns)| == CeilDiv(|items|, columns)
    decreases |items|
  {
    var size := blockRows * columns;
    MulMono(1, blockRows, columns);
    if items != [] {
      var k := Min(size, |items|);
      ColumnMajorCount(items[k..], columns, blockRows);
      if |items| > size {
        var rest := |items| - size;
        assert CeilDiv(size, columns) == blockRows by {
          CeilDivShift(0, columns, blockRows);
        }
        CeilDivShift(rest, columns, blockRows);
        assert rest + blockRows * columns == |items|;
      }
    }
  }

  lemma {:induction false} ColumnMajorWidth(items: seq<Cell>, columns: nat, blockSize: nat)
    requires columns > 0 && blockSize > 0
    ensures forall i :: 0 <= i < |ColumnMajor(items, columns, blockSize)| ==> |ColumnMajor(items, columns, blockSize)[i]| == columns
    decreases |items|
  {
    if items != [] {
      var k := Min(blockSize, |items|);
      ColumnMajorWidth(items[k..], columns, blockSize);
    }
  }

  /** There are `ceil(n / columns)` rows (`n` when `columns <= 1`), whatever the flow. */
  lemma ChunkedCount(items: seq<Cell>, columns: nat, flow: string, rowsPerPage: nat)
    ensures |Chunked(items, columns, flow, rowsPerPage)| == if columns <= 1 then |items| else CeilDiv(|items|, columns)
  {
    if columns > 1 {
      if flow == "ltr-ttb" {
        RowMajorCount(items, columns);
      } else {
        ColumnMajorCount(items, columns, BlockRows(rowsPerPage));
      }
    }
  }

  /** Every row has `columns` cells (one when `columns <= 1`), whatever the flow. */
  lemma ChunkedWidth(items: seq<Cell>, columns: nat, flow: string, rowsPerPage: nat)
    ensures forall i :: 0 <= i < |Chunked(items, columns, flow, rowsPerPage)| ==>
              |Chunked(items, columns, flow, rowsPerPage)[i]| == if columns <= 1 then 1 else columns
  {
    if columns > 1 {
      if flow == "ltr-ttb" {
        RowMajorWidth(items, columns);
      } else {
        ColumnMajorWidth(items, columns, BlockRows(rowsPerPage) * columns);
      }
    }
  }

  /** Six entries in two columns fill the first column before the second:
      a..f become [[a, d], [b, e], [c, f]] when all six are truthy. */
  lemma ColumnBlockOfSix(a: Cell, b: Cell, c: Cell, d: Cell, e: Cell, f: Cell)
    requires CellTruthy(a) && CellTruthy(b) && CellTruthy(c)
    requires CellTruthy(d) && CellTruthy(e) && CellTruthy(f)
    ensures Chunked([a, b, c, d, e, f], 2, "ttb-ltr", 3) == [[a, d], [b, e], [c, f]]
  {
    var items := [a, b, c, d, e, f];
    CeilDivUnique(6, 2, 3);
    assert ColumnMajor(items, 2, 6) == ColumnBlock(items, 2) + ColumnMajor([], 2, 6) by {
      assert items[..6] == items && items[6..] == [];
    }
    var grid := ColumnBlock(items, 2);
    assert grid[0] == [a, d] && grid[1] == [b, e] && grid[2] == [c, f];
  }

  /** A falsy entry survives row-major layout but becomes a blank in
      column-major layout. */
  lemma FalsyEntryExample()
    ensures var zero := Data(Prim(Num(0)));
            var one := Data(Prim(Num(1)));
            Chunked([zero, one], 2, "ltr-ttb", 3) == [[zero, one]] &&
            Chunked([zero, one], 2, "ttb-ltr", 3) == [[Blank, one]]
  {
    var zero := Data(Prim(Num(0)));
    var one := Data(Prim(Num(1)));
    var items := [zero, one];
    CeilDivUnique(2, 2, 1);
    assert items[..2] == items && items[2..] == [];
    assert Blanks(0) == [] && Min(2, |items|) == 2;
    assert items[..2] + Blanks(0) == items;
    assert RowMajor(items, 2) == [items] + RowMajor([], 2);
    assert ColumnMajor(items, 2, 6) == ColumnBlock(items, 2) + ColumnMajor([], 2, 6);
    var grid := ColumnBlock(items, 2);
    assert grid[0] == [Blank, one];
  }
}
