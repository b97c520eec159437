/**
 * The OldsGame board renderer.
 *
 * An `OldsGame` holds a square grid of cells (`state`) and a text buffer
 * (`board`). Drawing the board rebuilds the buffer from the grid with the
 * text operations of a growable string: clear, push one character, push a
 * string, pop the last character. Each drawing method is proved to leave the
 * buffer equal to the text that module BoardText defines, and never to touch
 * the grid.
 */
module Game {
  import opened Joining
  import opened BoardText

  datatype Option<T> = None | Some(value: T)

  /** An unsigned machine word: taking 1 from 0 is an error, not a wrap-around. */
  newtype usize = x: int | 0 <= x < 0x1_0000_0000_0000_0000

  /** The number of rows, and of columns, of the grid. */
  const BOARD_SIZE: nat := 3

  class OldsGame {
    var state: array2<char>
    var board: seq<char>

    ghost predicate Valid()
      reads this`state
    {
      state.Length0 == BOARD_SIZE && state.Length1 == BOARD_SIZE
    }

    /** The grid as a value: row i, column j holds `state[i, j]`. */
    function Grid(): (g: seq<seq<char>>)
      requires Valid()
      reads this`state, state
      ensures IsSquare(g, BOARD_SIZE)
    {
      var a := state;
      seq(BOARD_SIZE, i requires 0 <= i < a.Length0 reads a =>
        seq(BOARD_SIZE, j requires 0 <= j < a.Length1 reads a => a[i, j]))
    }

    /** `Grid()` holds the cells of `state` at their places. */
    lemma GridHoldsState()
      requires Valid()
      ensures forall i, j :: 0 <= i < BOARD_SIZE && 0 <= j < BOARD_SIZE ==> Grid()[i][j] == state[i, j]
    {
    }

    /** A game whose every cell is blank and whose buffer is empty. */
    constructor ()
      ensures Valid() && fresh(state)
      ensures forall i, j :: 0 <= i < BOARD_SIZE && 0 <= j < BOARD_SIZE ==> state[i, j] == ' '
      ensures Grid() == BlankGrid(BOARD_SIZE)
      ensures board == []
    {
      state := new char[BOARD_SIZE, BOARD_SIZE]((i, j) => ' ');
      board := [];
      new;
      assert Grid() == BlankGrid(BOARD_SIZE) by {
        var g, b := Grid(), BlankGrid(BOARD_SIZE);
        forall i | 0 <= i < BOARD_SIZE
          ensures g[i] == b[i]
        {
          assert forall j :: 0 <= j < BOARD_SIZE ==> g[i][j] == b[i][j];
        }
      }
    }

    /** Empties the buffer. */
    method Clear()
      modifies this`board
      ensures board == []
    {
      board := [];
    }

    /** Appends one character to the buffer. */
    method Push(c: char)
      modifies this`board
      ensures board == old(board) + [c]
    {
      board := board + [c];
    }

    /** Appends a string to the buffer. */
    method PushStr(s: seq<char>)
      modifies this`board
      ensures board == old(board) + s
    {
      board := board + s;
    }

    /** Removes and returns the last character of the buffer; an empty buffer is left alone. */
    method Pop() returns (last: Option<char>)
      modifies this`board
      ensures old(board) == [] ==> last == None && board == []
      ensures old(board) != [] ==>
        last == Some(old(board)[|old(board)| - 1]) && board == old(board)[..|old(board)| - 1]
    {
      if board == [] {
        last := None;
      } else {
        last := Some(board[|board| - 1]);
        board := board[..|board| - 1];
      }
    }

    /**
     * Appends the line for row `i`. Every column pushes a padded cell and a
     * '|'; the '|' after the last column is then popped again, which is the
     * character that the pop removes only because there is at least one
     * column.
     */
    method DrawLine(i: usize)
      requires Valid() && i as nat < BOARD_SIZE
      modifies this`board
      ensures board == old(board) + LineText(Grid()[i])
    {
      ghost var cells := CellTexts(Grid()[i]);
      for j: usize := 0 to BOARD_SIZE as usize
        invariant board == old(board) + Terminated(cells[..j], "|")
      {
        Push(' ');
        Push(state[i, j]);
        Push(' ');
        Push('|');
        assert cells[..j + 1][..j] == cells[..j];
      }
      assert cells[..BOARD_SIZE] == cells;
      TerminatedIsJoinThenSep(cells, "|");
      var popped := Pop();
      assert popped == Some('|');
      Push('\n');
    }

    /** Appends the break line: "---+" per column, with the last '+' popped again. */
    method DrawBreak()
      modifies this`board
      ensures board == old(board) + BreakText(BOARD_SIZE)
    {
      ghost var dashes := Dashes(BOARD_SIZE);
      for k: usize := 0 to BOARD_SIZE as usize
        invariant board == old(board) + Terminated(dashes[..k], "+")
      {
        PushStr("---+");
        assert dashes[..k + 1][..k] == dashes[..k];
      }
      assert dashes[..BOARD_SIZE] == dashes;
      TerminatedIsJoinThenSep(dashes, "+");
      var popped := Pop();
      assert popped == Some('+');
      Push('\n');
    }

    /**
     * Rebuilds the buffer from the grid: a newline, then the lines of rows
     * 0 to BOARD_SIZE - 1 with a break line between consecutive rows. The old
     * buffer is cleared first, so the result depends on the grid alone and
     * drawing twice leaves the same text. `BoardLength` and `RenderShowsGrid`
     * say what that text is made of: 61 characters, with cell (i, j) at
     * offset 4j + 1 of row i's line.
     */
    method DrawBoard()
      requires Valid()
      modifies this`board
      ensures board == Render(Grid())
    {
      ghost var g := Grid();
      ghost var lines := RowLines(g);
      ghost var brk := BreakText(BOARD_SIZE);
      Clear();
      Push('\n');
      var i: usize := 0;
      var last: usize := BOARD_SIZE as usize - 1;
      while i < last
        invariant i <= last
        invariant Grid() == g
        invariant board == "\n" + Terminated(lines[..i], brk)
      {
        DrawLine(i);
        DrawBreak();
        assert lines[..i + 1][..i] == lines[..i];
        i := i + 1;
      }
      assert i == last;
      ghost var rows := board;
      DrawLine(i);
      assert board == rows + LineText(g[BOARD_SIZE - 1]);
      RenderIsRowsThenLast(g);
    }

    /** One round of play: draws the board. */
    method Play()
      requires Valid()
      modifies this`board
      ensures board == Render(Grid())
    {
      DrawBoard();
    }
  }

  /** The board of a BOARD_SIZE by BOARD_SIZE grid has 1 + 5 * 12 = 61 characters and starts with a newline. */
  lemma BoardLength(grid: seq<seq<char>>)
    requires IsSquare(grid, BOARD_SIZE)
    ensures |Render(grid)| == 61 && Render(grid)[0] == '\n'
  {
    RenderLength(grid, BOARD_SIZE);
  }

  /** The board is the first rows, each followed by a break line, then the last row. */
  lemma RenderIsRowsThenLast(g: seq<seq<char>>)
    requires IsSquare(g, BOARD_SIZE)
    ensures Render(g)
         == "\n" + Terminated(RowLines(g)[..BOARD_SIZE - 1], BreakText(BOARD_SIZE)) + LineText(g[BOARD_SIZE - 1])
  {
    JoinIsTerminatedThenLast(RowLines(g), BreakText(BOARD_SIZE));
  }

  /**
   * The program: a new game draws its board once. The text it prints is
   * returned instead.
   */
  method Run() returns (shown: seq<char>)
    ensures shown
         == "\n" + "   |   |   \n" + "---+---+---\n" + "   |   |   \n" + "---+---+---\n" + "   |   |   \n"
  {
    var game := new OldsGame();
    game.Play();
    shown := game.board;
    BlankRenderOfThree();
  }
}
