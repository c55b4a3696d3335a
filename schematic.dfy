/**
 * The engine schematic of `src/solutions/three.rs`: the ring of cells around
 * a horizontal run of digits, and the test whether a run touches a symbol.
 */
module Schematic {
  import opened RustText

  /** A (row, column) pair; signed, so that the ring may stick out of the grid. */
  type Coord = (int, int)

  type Grid = seq<seq<char>>

  /** A run of digits: its text, its column (`posX`) and its row (`posY`). */
  datatype EnginePart = EnginePart(value: string, posX: int, posY: int)

  /** The loop of `get_neighbors` keeps offset (dr, dc) unless it is a cell of the run itself. */
  predicate Kept(dr: int, dc: int, size: int) {
    !(dr == 0 && dc != -1 && dc != size)
  }

  /** How many column offsets the range `-1..=size` holds. */
  function ColumnCount(size: int): nat {
    if size < -1 then 0 else size + 2
  }

  /** The kept cells of row offset `dr` among the first `k` column offsets -1, 0, 1, …. */
  function RowCells(coord: Coord, size: int, dr: int, k: nat): seq<Coord>
  {
    if k == 0 then []
    else
      RowCells(coord, size, dr, k - 1) +
      (if Kept(dr, k - 2, size) then [(coord.0 + dr, coord.1 + k - 2)] else [])
  }

  /** The cells pushed for the first `m` row offsets -1, 0, 1. */
  function Rows(coord: Coord, size: int, m: nat): seq<Coord>
    requires m <= 3
  {
    if m == 0 then [] else Rows(coord, size, m - 1) + RowCells(coord, size, m - 2, ColumnCount(size))
  }

  /** What `get_neighbors(coord, size)` returns. */
  function Neighbors(coord: Coord, size: int): seq<Coord>
  {
    Rows(coord, size, 3)
  }

  /** The nested loop of `get_neighbors`: row offsets outside, column offsets inside. */
  method GetNeighbors(coord: Coord, size: int) returns (res: seq<Coord>)
    ensures res == Neighbors(coord, size)
  {
    res := [];
    var dr := -1;
    while dr <= 1
      invariant -1 <= dr <= 2
      invariant res == Rows(coord, size, dr + 1)
    {
      var dc := -1;
      while dc <= size
        invariant -1 <= dc && dc + 1 <= ColumnCount(size)
        invariant res == Rows(coord, size, dr + 1) + RowCells(coord, size, dr, dc + 1)
      {
        if !(dr == 0 && dc != -1 && dc != size) {
          res := res + [(coord.0 + dr, coord.1 + dc)];
        }
        dc := dc + 1;
      }
      assert dc + 1 == ColumnCount(size);
      dr := dr + 1;
    }
  }

  /** The cell lies in the box one cell wider than the run on every side. */
  predicate InBox(coord: Coord, size: int, x: Coord) {
    coord.0 - 1 <= x.0 <= coord.0 + 1 && coord.1 - 1 <= x.1 <= coord.1 + size
  }

  /** The cell is one of the run's own cells. */
  predicate InRun(coord: Coord, size: int, x: Coord) {
    x.0 == coord.0 && coord.1 <= x.1 < coord.1 + size
  }

  /** Row-major order: by row, then by column. */
  predicate Before(a: Coord, b: Coord) {
    a.0 < b.0 || (a.0 == b.0 && a.1 < b.1)
  }

  predicate StrictlyRowMajor(cells: seq<Coord>) {
    forall i, j :: 0 <= i < j < |cells| ==> Before(cells[i], cells[j])
  }

  lemma {:induction false} RowCellsMember(coord: Coord, size: int, dr: int, k: nat, x: Coord)
    ensures x in RowCells(coord, size, dr, k) <==>
              x.0 == coord.0 + dr && coord.1 - 1 <= x.1 <= coord.1 + k - 2 && Kept(dr, x.1 - coord.1, size)
  {
    if k > 0 {
      RowCellsMember(coord, size, dr, k - 1, x);
    }
  }

  lemma {:induction false} RowCellsOrdered(coord: Coord, size: int, dr: int, k: nat)
    ensures forall i :: 0 <= i < |RowCells(coord, size, dr, k)| ==>
              RowCells(coord, size, dr, k)[i].0 == coord.0 + dr
    ensures StrictlyRowMajor(RowCells(coord, size, dr, k))
  {
    if k > 0 {
      RowCellsOrdered(coord, size, dr, k - 1);
      var prev := RowCells(coord, size, dr, k - 1);
      forall i | 0 <= i < |prev| ensures prev[i].1 < coord.1 + k - 2 {
        RowCellsMember(coord, size, dr, k - 1, prev[i]);
      }
    }
  }

  lemma {:induction false} RowsOrdered(coord: Coord, size: int, m: nat)
    requires m <= 3
    ensures forall i :: 0 <= i < |Rows(coord, size, m)| ==> Rows(coord, size, m)[i].0 < coord.0 + m - 1
    ensures StrictlyRowMajor(Rows(coord, size, m))
  {
    if m > 0 {
      RowsOrdered(coord, size, m - 1);
      RowCellsOrdered(coord, size, m - 2, ColumnCount(size));
    }
  }

  lemma NeighborsRows(coord: Coord, size: int)
    ensures Neighbors(coord, size) ==
      RowCells(coord, size, -1, ColumnCount(size)) + RowCells(coord, size, 0, ColumnCount(size)) +
      RowCells(coord, size, 1, ColumnCount(size))
  {
    var n := ColumnCount(size);
    assert Rows(coord, size, 1) == RowCells(coord, size, -1, n);
    assert Rows(coord, size, 2) == RowCells(coord, size, -1, n) + RowCells(coord, size, 0, n);
  }

  /** The row above and the row below are the whole stretch of columns `col-1 ..= col+size`. */
  lemma {:induction false} OuterRow(coord: Coord, size: int, dr: int, k: nat)
    requires dr != 0
    ensures RowCells(coord, size, dr, k) == seq(k, i => (coord.0 + dr, coord.1 + i - 1))
  {
    if k > 0 {
      OuterRow(coord, size, dr, k - 1);
    }
  }

  lemma {:induction false} MiddleRowPrefix(coord: Coord, size: int, k: nat)
    requires 1 <= k <= size + 1
    ensures RowCells(coord, size, 0, k) == [(coord.0, coord.1 - 1)]
  {
    if k > 1 {
      MiddleRowPrefix(coord, size, k - 1);
    }
  }

  /** On the run's own row only the two flanking cells remain. */
  lemma MiddleRow(coord: Coord, size: int)
    requires size >= 0
    ensures RowCells(coord, size, 0, size + 2) == [(coord.0, coord.1 - 1), (coord.0, coord.1 + size)]
  {
    MiddleRowPrefix(coord, size, size + 1);
  }

  /** Exactly the cells of the box that are not run cells, as the source's geometry promises. */
  lemma NeighborsMember(coord: Coord, size: int, x: Coord)
    ensures x in Neighbors(coord, size) <==> InBox(coord, size, x) && !InRun(coord, size, x)
  {
    var n := ColumnCount(size);
    RowCellsMember(coord, size, -1, n, x);
    RowCellsMember(coord, size, 0, n, x);
    RowCellsMember(coord, size, 1, n, x);
    NeighborsRows(coord, size);
  }

  /** Every cell appears once, rows top to bottom and columns left to right. */
  lemma NeighborsRowMajor(coord: Coord, size: int)
    ensures StrictlyRowMajor(Neighbors(coord, size))
    ensures forall i, j :: 0 <= i < j < |Neighbors(coord, size)| ==> Neighbors(coord, size)[i] != Neighbors(coord, size)[j]
  {
    RowsOrdered(coord, size, 3);
  }

  lemma {:induction false} OuterRowLength(coord: Coord, size: int, dr: int, k: nat)
    requires dr != 0
    ensures |RowCells(coord, size, dr, k)| == k
  {
    if k > 0 {
      OuterRowLength(coord, size, dr, k - 1);
    }
  }

  lemma {:induction false} MiddleRowLength(coord: Coord, size: int, k: nat)
    requires k <= ColumnCount(size)
    ensures |RowCells(coord, size, 0, k)| ==
              (if k == 0 then 0 else if k < size + 2 || size == -1 then 1 else 2)
  {
    if k > 0 {
      MiddleRowLength(coord, size, k - 1);
    }
  }

  /** A run of `size >= 0` cells has `2 * size + 6` neighbours, however close to an edge. */
  lemma NeighborsCount(coord: Coord, size: int)
    ensures |Neighbors(coord, size)| ==
              if size < -1 then 0 else if size == -1 then 3 else 2 * size + 6
  {
    var n := ColumnCount(size);
    OuterRowLength(coord, size, -1, n);
    MiddleRowLength(coord, size, n);
    OuterRowLength(coord, size, 1, n);
    NeighborsRows(coord, size);
  }

  /** The fourteen neighbours of a four-digit run at row `r`, column `c`. */
  lemma NeighborsOfFour(r: int, c: int)
    ensures Neighbors((r, c), 4) ==
      [(r - 1, c - 1), (r - 1, c), (r - 1, c + 1), (r - 1, c + 2), (r - 1, c + 3), (r - 1, c + 4),
       (r, c - 1), (r, c + 4),
       (r + 1, c - 1), (r + 1, c), (r + 1, c + 1), (r + 1, c + 2), (r + 1, c + 3), (r + 1, c + 4)]
  {
    NeighborsRows((r, c), 4);
    OuterRow((r, c), 4, -1, 6);
    MiddleRow((r, c), 4);
    OuterRow((r, c), 4, 1, 6);
  }

  /** The fourteen neighbours of the four-digit run at row 2, column 4. */
  lemma NeighborsExample()
    ensures Neighbors((2, 4), 4) ==
      [(1, 3), (1, 4), (1, 5), (1, 6), (1, 7), (1, 8), (2, 3), (2, 8),
       (3, 3), (3, 4), (3, 5), (3, 6), (3, 7), (3, 8)]
  {
    NeighborsOfFour(2, 4);
  }

  /**
   * The same fourteen cells in the order the unit test lists them: sorting that
   * list gives the (already sorted) result.
   */
  lemma NeighborsExampleUnordered()
    ensures forall x :: x in Neighbors((2, 4), 4) <==>
      x in [(2, 3), (1, 3), (1, 4), (1, 5), (1, 6), (1, 7), (1, 8),
            (2, 8), (3, 8), (3, 7), (3, 6), (3, 5), (3, 4), (3, 3)]
  {
    NeighborsExample();
  }

  /** A symbol is any character that is neither `.` nor a decimal digit. */
  predicate IsSymbol(c: char) {
    c != '.' && !IsAsciiDigit(c)
  }

  /**
   * What `is_target_part` needs of the grid in order not to panic: a first row
   * to take the width from, and no row narrower than it.
   */
  predicate WideRows(graph: Grid) {
    |graph| > 0 && forall i :: 0 <= i < |graph| ==> |graph[0]| <= |graph[i]|
  }

  /** Inside `[0, m) x [0, n)` with `m` the number of rows and `n` the first row's width. */
  predicate InBounds(graph: Grid, x: Coord)
    requires |graph| > 0
  {
    0 <= x.0 < |graph| && 0 <= x.1 < |graph[0]|
  }

  /** The `filter`/`map`/`any` chain: some in-bounds cell of `cells` holds a symbol. */
  function AnySymbol(graph: Grid, cells: seq<Coord>): (r: bool)
    requires WideRows(graph)
    ensures r <==> exists i :: 0 <= i < |cells| && InBounds(graph, cells[i]) && IsSymbol(graph[cells[i].0][cells[i].1])
  {
    if cells == [] then false
    else
      var x := cells[0];
      (InBounds(graph, x) && IsSymbol(graph[x.0][x.1])) || AnySymbol(graph, cells[1..])
  }

  /**
   * `is_target_part(graph, part)`: a part is a target part exactly when some
   * in-bounds cell of its box, other than its own digits, holds a symbol.
   */
  function IsTargetPart(graph: Grid, part: EnginePart): (r: bool)
    requires WideRows(graph)
    ensures r <==>
      exists i, j :: 0 <= i < |graph| && 0 <= j < |graph[0]| &&
        InBox((part.posY, part.posX), Utf8Len(part.value), (i, j)) &&
        !InRun((part.posY, part.posX), Utf8Len(part.value), (i, j)) &&
        IsSymbol(graph[i][j])
  {
    AdjacentSymbolIff(graph, (part.posY, part.posX), Utf8Len(part.value));
    AnySymbol(graph, Neighbors((part.posY, part.posX), Utf8Len(part.value)))
  }

  /** Some in-bounds neighbour holds a symbol exactly when some in-grid cell of the box outside the run does. */
  lemma AdjacentSymbolIff(graph: Grid, coord: Coord, size: int)
    requires WideRows(graph)
    ensures AnySymbol(graph, Neighbors(coord, size)) <==>
      exists i, j :: 0 <= i < |graph| && 0 <= j < |graph[0]| &&
        InBox(coord, size, (i, j)) && !InRun(coord, size, (i, j)) && IsSymbol(graph[i][j])
  {
    var cells := Neighbors(coord, size);
    if AnySymbol(graph, cells) {
      var k :| 0 <= k < |cells| && InBounds(graph, cells[k]) && IsSymbol(graph[cells[k].0][cells[k].1]);
      NeighborsMember(coord, size, cells[k]);
      var i, j := cells[k].0, cells[k].1;
      assert InBox(coord, size, (i, j)) && !InRun(coord, size, (i, j)) && IsSymbol(graph[i][j]);
    }
    if exists i, j :: 0 <= i < |graph| && 0 <= j < |graph[0]| &&
        InBox(coord, size, (i, j)) && !InRun(coord, size, (i, j)) && IsSymbol(graph[i][j]) {
      var i, j :| 0 <= i < |graph| && 0 <= j < |graph[0]| &&
        InBox(coord, size, (i, j)) && !InRun(coord, size, (i, j)) && IsSymbol(graph[i][j]);
      NeighborsMember(coord, size, (i, j));
      var k :| 0 <= k < |cells| && cells[k] == (i, j);
      assert InBounds(graph, cells[k]);
    }
  }

  /** The part value of the tests is four bytes long. */
  lemma TestValueLength()
    ensures Utf8Len("4401") == 4
  {
    Utf8LenAscii("4401");
  }

  /** A run in the top-left corner with `*` diagonally below its right end. */
  lemma BoundaryExample()
    ensures IsTargetPart(
      [['4', '4', '0', '1', '.', '.', '.', '.', '.'],
       ['.', '.', '.', '.', '*', '.', '.', '.', '.'],
       ['.', '.', '.', '.', '.', '.', '.', '.', '.']],
      EnginePart("4401", 0, 0))
  {
    var graph := [['4', '4', '0', '1', '.', '.', '.', '.', '.'],
                  ['.', '.', '.', '.', '*', '.', '.', '.', '.'],
                  ['.', '.', '.', '.', '.', '.', '.', '.', '.']];
    TestValueLength();
    assert IsSymbol(graph[1][4]);
  }

  /** An `@` directly above the part, over its third digit. */
  lemma SymbolAboveExample()
    ensures IsTargetPart(
      [['.', '.', '.', '.', '.', '@', '.', '.', '.'],
       ['.', '.', '.', '4', '4', '0', '1', '.', '.'],
       ['.', '.', '.', '.', '.', '.', '.', '.', '.']],
      EnginePart("4401", 3, 1))
  {
    var graph := [['.', '.', '.', '.', '.', '@', '.', '.', '.'],
                  ['.', '.', '.', '4', '4', '0', '1', '.', '.'],
                  ['.', '.', '.', '.', '.', '.', '.', '.', '.']];
    TestValueLength();
    assert IsSymbol(graph[0][5]);
  }

  /** A row that holds no symbol. */
  predicate Plain(row: seq<char>) {
    forall j :: 0 <= j < |row| ==> !IsSymbol(row[j])
  }

  /** In a grid whose rows hold no symbol, no part is a target part. */
  lemma PlainGridHasNoTarget(graph: Grid, part: EnginePart)
    requires WideRows(graph)
    requires forall i :: 0 <= i < |graph| ==> Plain(graph[i])
    ensures !IsTargetPart(graph, part)
  {
  }

  /** The rows of the test grid without its part hold no symbol. */
  lemma DotsRowPlain()
    ensures Plain(['.', '.', '.', '.', '.', '.', '.', '.', '.'])
  {
  }

  /** The part's own row of the test grid holds no symbol. */
  lemma PartRowPlain()
    ensures Plain(['.', '.', '.', '4', '4', '0', '1', '.', '.'])
  {
  }

  /** A run surrounded by dots only. */
  lemma NoSymbolExample()
    ensures !IsTargetPart(
      [['.', '.', '.', '.', '.', '.', '.', '.', '.'],
       ['.', '.', '.', '4', '4', '0', '1', '.', '.'],
       ['.', '.', '.', '.', '.', '.', '.', '.', '.']],
      EnginePart("4401", 3, 1))
  {
    DotsRowPlain();
    PartRowPlain();
    PlainGridHasNoTarget(
      [['.', '.', '.', '.', '.', '.', '.', '.', '.'],
       ['.', '.', '.', '4', '4', '0', '1', '.', '.'],
       ['.', '.', '.', '.', '.', '.', '.', '.', '.']],
      EnginePart("4401", 3, 1));
  }
}
