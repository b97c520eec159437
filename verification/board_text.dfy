/**
 * The text of a rendered board, as pure functions of the grid.
 *
 * A grid is a square of cells, one `char` per cell. A row of n cells is shown
 * as one line: every cell padded with a blank on each side, the padded cells
 * separated by '|', and a newline at the end. Consecutive row lines are
 * separated by a break line made of n runs of "---" separated by '+'. The whole
 * board is a newline followed by the row lines and break lines.
 *
 * Besides these definitions the module gives an independent, position by
 * position description of the same text (`LineCharAt`, `BreakCharAt`,
 * `LineStart`) and proves that the two agree.
 */
module BoardText {
  import opened Joining

  /** A grid of `n` rows of `n` cells each. */
  predicate IsSquare(grid: seq<seq<char>>, n: nat)
  {
    |grid| == n && forall i :: 0 <= i < n ==> |grid[i]| == n
  }

  /** A grid of `n` by `n` blank cells. */
  function BlankGrid(n: nat): seq<seq<char>>
  {
    seq(n, _ => seq(n, _ => ' '))
  }

  /** One cell, padded with a blank on each side. */
  function CellText(c: char): seq<char>
  {
    [' ', c, ' ']
  }

  function CellTexts(row: seq<char>): seq<seq<char>>
  {
    seq(|row|, j requires 0 <= j < |row| => CellText(row[j]))
  }

  /** The line showing one row of the grid. */
  function LineText(row: seq<char>): seq<char>
  {
    Join(CellTexts(row), "|") + "\n"
  }

  function Dashes(n: nat): seq<seq<char>>
  {
    seq(n, _ => "---")
  }

  /** The line drawn between two row lines of a board with `n` columns. */
  function BreakText(n: nat): seq<char>
  {
    Join(Dashes(n), "+") + "\n"
  }

  function RowLines(grid: seq<seq<char>>): seq<seq<char>>
  {
    seq(|grid|, i requires 0 <= i < |grid| => LineText(grid[i]))
  }

  /** The whole board: a newline, then the row lines with a break line between consecutive ones. */
  function Render(grid: seq<seq<char>>): seq<char>
  {
    "\n" + Join(RowLines(grid), BreakText(|grid|))
  }

  /** Character `k` of the line for `row`, described position by position. */
  function LineCharAt(row: seq<char>, k: nat): char
    requires k < 4 * |row|
  {
    if k == 4 * |row| - 1 then '\n'
    else if k % 4 == 1 then row[k / 4]
    else if k % 4 == 3 then '|'
    else ' '
  }

  /** Character `k` of the break line for `n` columns, described position by position. */
  function BreakCharAt(n: nat, k: nat): char
    requires k < 4 * n
  {
    if k == 4 * n - 1 then '\n'
    else if k % 4 == 3 then '+'
    else '-'
  }

  /** Where the line of row `i` starts in the board of an `n` by `n` grid. */
  function LineStart(n: nat, i: nat): nat
  {
    1 + Offset(i, 8 * n)
  }

  /**
   * The line for a row of n >= 1 cells has 4n characters: cell j sits at
   * offset 4j + 1 between two blanks, a '|' follows every cell but the last,
   * and the line ends in a newline.
   */
  lemma LineTextLayout(row: seq<char>)
    requires |row| >= 1
    ensures |LineText(row)| == 4 * |row|
    ensures forall k :: 0 <= k < 4 * |row| ==> LineText(row)[k] == LineCharAt(row, k)
  {
    var n := |row|;
    var cells := CellTexts(row);
    assert Uniform(cells, 3);
    JoinLength(cells, "|", 3);
    var line := LineText(row);
    forall k | 0 <= k < 4 * n
      ensures line[k] == LineCharAt(row, k)
    {
      if k < 4 * n - 1 {
        var i, o := k / 4, k % 4;
        OffsetIsProduct(i, 4);
        assert k == Offset(i, 4) + o;
        if o < 3 {
          JoinPartAt(cells, "|", 3, i);
          assert line[k] == cells[i][o];
        } else {
          JoinSepAt(cells, "|", 3, i);
          assert line[k] == "|"[0];
        }
      }
    }
  }

  /**
   * The break line for n >= 1 columns has 4n characters: runs of three '-'
   * with a '+' between consecutive runs, then a newline.
   */
  lemma BreakTextLayout(n: nat)
    requires n >= 1
    ensures |BreakText(n)| == 4 * n
    ensures forall k :: 0 <= k < 4 * n ==> BreakText(n)[k] == BreakCharAt(n, k)
  {
    var dashes := Dashes(n);
    assert Uniform(dashes, 3);
    JoinLength(dashes, "+", 3);
    forall k | 0 <= k < 4 * n
      ensures BreakText(n)[k] == BreakCharAt(n, k)
    {
      BreakCharIs(n, k);
    }
  }

  /** Character `k` of the break line is the one `BreakCharAt` describes. */
  lemma BreakCharIs(n: nat, k: nat)
    requires k < 4 * n
    ensures |BreakText(n)| == 4 * n
    ensures BreakText(n)[k] == BreakCharAt(n, k)
  {
    BreakJoinLength(n);
    if k < 4 * n - 1 {
      BreakJoinAt(n, k);
    }
  }

  /** The runs of dashes joined by '+' take 4n - 1 characters; with the newline, 4n. */
  lemma BreakJoinLength(n: nat)
    requires n >= 1
    ensures |Join(Dashes(n), "+")| == 4 * n - 1
    ensures |BreakText(n)| == 4 * n
  {
    var dashes := Dashes(n);
    assert |dashes| == n && Uniform(dashes, 3);
    JoinLength(dashes, "+", 3);
  }

  /** Before the newline, the break line has '+' at every offset 4j + 3 and '-' elsewhere. */
  lemma BreakJoinAt(n: nat, k: nat)
    requires k < 4 * n - 1
    ensures k < |Join(Dashes(n), "+")|
    ensures Join(Dashes(n), "+")[k] == if k % 4 == 3 then '+' else '-'
  {
    var dashes := Dashes(n);
    var join := Join(dashes, "+");
    var i, o := k / 4, k % 4;
    assert Uniform(dashes, 3);
    OffsetIsProduct(i, 4);
    assert k == Offset(i, 4) + o;
    if o < 3 {
      JoinPartAt(dashes, "+", 3, i);
      assert join[Offset(i, 4)..Offset(i, 4) + 3] == dashes[i] == "---";
      assert join[k] == "---"[o] == '-';
    } else {
      JoinSepAt(dashes, "+", 3, i);
      assert join[k] == join[Offset(i, 4) + 3..Offset(i, 4) + 4][0];
    }
  }

  /** The break line of a three-column board. */
  lemma BreakTextOfThree()
    ensures BreakText(3) == "---+---+---\n"
  {
    BreakTextLayout(3);
    var expected := "---+---+---\n";
    forall k | 0 <= k < 12
      ensures BreakText(3)[k] == expected[k]
    {
      assert BreakText(3)[k] == BreakCharAt(3, k);
    }
  }

  /** Every row line of an `n` by `n` grid has 4n characters. */
  lemma RowLinesUniform(grid: seq<seq<char>>, n: nat)
    requires n >= 1 && IsSquare(grid, n)
    ensures |RowLines(grid)| == n && Uniform(RowLines(grid), 4 * n)
  {
    forall i | 0 <= i < n
      ensures |RowLines(grid)[i]| == 4 * n
    {
      LineTextLayout(grid[i]);
    }
  }

  /** The board of an n by n grid, n >= 1, has 1 + (2n - 1) * 4n characters and starts with a newline. */
  lemma RenderLength(grid: seq<seq<char>>, n: nat)
    requires n >= 1 && IsSquare(grid, n)
    ensures |Render(grid)| == 1 + (2 * n - 1) * (4 * n)
    ensures Render(grid)[0] == '\n'
  {
    RowLinesUniform(grid, n);
    BreakJoinLength(n);
    JoinLength(RowLines(grid), BreakText(n), 4 * n);
    calc {
      n * (4 * n + 4 * n) - 4 * n;
      n * (8 * n) - 4 * n;
      (2 * n - 1) * (4 * n);
    }
  }

  /** Row i's line occupies the 4n characters of the board from `LineStart(n, i)` on. */
  lemma RenderLineAt(grid: seq<seq<char>>, n: nat, i: nat)
    requires IsSquare(grid, n) && i < n
    ensures LineStart(n, i) + 4 * n <= |Render(grid)|
    ensures Render(grid)[LineStart(n, i)..LineStart(n, i) + 4 * n] == LineText(grid[i])
  {
    var lines := RowLines(grid);
    var sep := BreakText(n);
    RowLinesUniform(grid, n);
    BreakJoinLength(n);
    JoinPartAt(lines, sep, 4 * n, i);
    var o := Offset(i, 4 * n + |sep|);
    assert LineStart(n, i) == 1 + o;
    assert Render(grid)[1 + o..1 + o + 4 * n] == Join(lines, sep)[o..o + 4 * n];
  }

  /** The break line fills the 4n characters between row i's line and row i + 1's. */
  lemma RenderBreakAt(grid: seq<seq<char>>, n: nat, i: nat)
    requires IsSquare(grid, n) && i + 1 < n
    ensures LineStart(n, i) + 8 * n == LineStart(n, i + 1) <= |Render(grid)|
    ensures Render(grid)[LineStart(n, i) + 4 * n..LineStart(n, i + 1)] == BreakText(n)
  {
    var lines := RowLines(grid);
    var sep := BreakText(n);
    RowLinesUniform(grid, n);
    BreakJoinLength(n);
    assert 4 * n + |sep| == 8 * n;
    JoinSepAt(lines, sep, 4 * n, i);
    var o := Offset(i, 8 * n);
    var join := Join(lines, sep);
    assert join[o + 4 * n..o + 8 * n] == sep;
    assert LineStart(n, i + 1) == 1 + o + 8 * n;
    assert ("\n" + join)[1 + o + 4 * n..1 + o + 8 * n] == join[o + 4 * n..o + 8 * n];
  }

  /**
   * The board of an n by n grid, n >= 1, starts with a newline and has
   * 1 + (2n - 1) * 4n characters: row i's line occupies the 4n characters from
   * `LineStart(n, i)` on, and the break line fills the 4n characters between
   * row i's line and row i + 1's. Together these cover every position, so the
   * board holds nothing else and the rows appear in increasing order.
   */
  lemma RenderLayout(grid: seq<seq<char>>, n: nat)
    requires n >= 1 && IsSquare(grid, n)
    ensures |Render(grid)| == 1 + (2 * n - 1) * (4 * n)
    ensures Render(grid)[0] == '\n'
    ensures forall i :: 0 <= i < n ==>
      LineStart(n, i) + 4 * n <= |Render(grid)| &&
      Render(grid)[LineStart(n, i)..LineStart(n, i) + 4 * n] == LineText(grid[i])
    ensures forall i :: 0 <= i < n - 1 ==>
      LineStart(n, i) + 8 * n <= |Render(grid)| &&
      Render(grid)[LineStart(n, i) + 4 * n..LineStart(n, i) + 8 * n] == BreakText(n)
  {
    RenderLength(grid, n);
    forall i | 0 <= i < n
      ensures LineStart(n, i) + 4 * n <= |Render(grid)|
      ensures Render(grid)[LineStart(n, i)..LineStart(n, i) + 4 * n] == LineText(grid[i])
    {
      RenderLineAt(grid, n, i);
    }
    forall i | 0 <= i < n - 1
      ensures LineStart(n, i) + 8 * n <= |Render(grid)|
      ensures Render(grid)[LineStart(n, i) + 4 * n..LineStart(n, i) + 8 * n] == BreakText(n)
    {
      RenderBreakAt(grid, n, i);
    }
  }

  /** Cell (i, j) of an n by n grid is shown at offset 4j + 1 of row i's line. */
  lemma RenderCellAt(grid: seq<seq<char>>, n: nat, i: nat, j: nat)
    requires IsSquare(grid, n) && i < n && j < n
    ensures LineStart(n, i) + 4 * j + 1 < |Render(grid)|
    ensures Render(grid)[LineStart(n, i) + 4 * j + 1] == grid[i][j]
  {
    RenderLineAt(grid, n, i);
    LineTextLayout(grid[i]);
    var line := Render(grid)[LineStart(n, i)..LineStart(n, i) + 4 * n];
    assert line[4 * j + 1] == LineCharAt(grid[i], 4 * j + 1);
  }

  /** Every cell of an n by n grid is shown at its place on the board. */
  lemma RenderShowsGrid(grid: seq<seq<char>>, n: nat)
    requires IsSquare(grid, n)
    ensures forall i: nat :: i < n ==> LineStart(n, i) + 4 * n <= |Render(grid)|
    ensures forall i: nat, j: nat :: i < n && j < n ==> Render(grid)[LineStart(n, i) + 4 * j + 1] == grid[i][j]
  {
    forall i: nat | i < n
      ensures LineStart(n, i) + 4 * n <= |Render(grid)|
    {
      RenderLineAt(grid, n, i);
    }
    forall i: nat, j: nat | i < n && j < n
      ensures Render(grid)[LineStart(n, i) + 4 * j + 1] == grid[i][j]
    {
      RenderCellAt(grid, n, i, j);
    }
  }

  /** The board shows the whole grid: two grids of the same size have the same board exactly when they are equal. */
  lemma RenderInjective(g1: seq<seq<char>>, g2: seq<seq<char>>, n: nat)
    requires IsSquare(g1, n) && IsSquare(g2, n)
    ensures Render(g1) == Render(g2) <==> g1 == g2
  {
    if Render(g1) == Render(g2) {
      forall i | 0 <= i < n
        ensures g1[i] == g2[i]
      {
        forall j | 0 <= j < n
          ensures g1[i][j] == g2[i][j]
        {
          RenderCellAt(g1, n, i, j);
          RenderCellAt(g2, n, i, j);
        }
      }
    }
  }

  /** The line of a blank three-cell row. */
  lemma BlankLineOfThree()
    ensures LineText("   ") == "   |   |   \n"
  {
    var cell := "   ";
    assert CellTexts("   ") == [cell, cell, cell];
    assert [cell, cell, cell][1..] == [cell, cell];
    assert [cell, cell][1..] == [cell];
  }

  /** The board of a blank three by three grid. */
  lemma BlankRenderOfThree()
    ensures Render(BlankGrid(3))
         == "\n" + "   |   |   \n" + "---+---+---\n" + "   |   |   \n" + "---+---+---\n" + "   |   |   \n"
  {
    var row := "   ";
    var line := "   |   |   \n";
    var brk := "---+---+---\n";
    var grid := BlankGrid(3);
    assert grid == [row, row, row] by {
      forall i | 0 <= i < 3 ensures grid[i] == row {
        assert |grid[i]| == 3 && grid[i][0] == grid[i][1] == grid[i][2] == ' ';
      }
    }
    BlankLineOfThree();
    BreakTextOfThree();
    assert RowLines(grid) == [line, line, line];
    assert [line, line, line][1..] == [line, line];
    assert [line, line][1..] == [line];
    assert Join([line, line], brk) == line + brk + line;
    assert Join([line, line, line], brk) == line + brk + (line + brk + line);
    assert Render(grid) == "\n" + Join([line, line, line], brk);
    assert line + brk + (line + brk + line) == line + brk + line + brk + line;
  }
}
