# OldsGame board renderer in Dafny

This project models the board renderer of OldsGame, a small two-player grid
game written in Rust. An `OldsGame` holds a 3 by 3 grid of `char` cells
(`state`) and a text buffer (`board`). `draw_board` rebuilds the buffer from
the grid. It clears the buffer and writes a newline. Then it writes the line
of each row, with a break line between consecutive rows. A row line is built
by pushing `' '`, the cell, `' '` and `'|'` for every column, then popping the
last `'|'` and pushing a newline. The break line pushes `"---+"` per column,
pops the last `'+'` and pushes a newline. For a blank grid the result is:

```
(empty first line)
   |   |   
---+---+---
   |   |   
---+---+---
   |   |   
```

The model has three modules:

- `Joining` (join.dfy) is text built from equal-width pieces. `Join` puts a
  separator between consecutive pieces only. `Terminated` is what a
  push-per-piece loop leaves: every piece followed by the separator. The
  lemmas relate the two and give the layout of a join.
- `BoardText` (board_text.dfy) gives the expected text as pure functions of
  the grid: `LineText`, `BreakText` and `Render`. It also gives an
  independent, position-by-position description (`LineCharAt`,
  `BreakCharAt`, `LineStart`) and proves the two agree for every grid size
  n >= 1.
- `Game` (olds_game.dfy) is the `OldsGame` class. `state` is an
  `array2<char>` and `board` is a `seq<char>`. The Rust `String` operations
  used by the source (`clear`, `push`, `push_str`, `pop`) are methods that
  change `board` only. `DrawLine`, `DrawBreak` and `DrawBoard` are written
  as the source writes them, with loops and invariants. Each is proved to
  leave `board` equal to (the old buffer plus) the text from `BoardText`.
  Their frames name only the `board` field, which proves that the grid is
  never written.

Rust's `usize` is the newtype `Game.usize`. The loop counters have that type,
and so has `BOARD_SIZE - 1` in `draw_board`'s loop guard. Dafny therefore
checks that this subtraction does not go below zero. `Pop` behaves like
`String::pop`: it does nothing on an empty buffer and returns the removed
character. `DrawLine` and `DrawBreak` prove that the character popped is the
separator pushed by their own loop (`'|'` or `'+'`). This holds only because
the loop runs at least once.

`DrawLine` requires `i < BOARD_SIZE`. The source's only caller, `draw_board`,
always meets this; any other index would make Rust's array indexing panic.

## Model

| member | source | states |
|---|---|---|
| Joining.TerminatedIsJoinThenSep | src/main.rs:35-41 | pushing a piece and a separator per column, for at least one column, leaves the joined text plus exactly one trailing separator, so one pop leaves the joined text |
| Joining.JoinIsTerminatedThenLast | src/main.rs:23-30 | the rows joined by break lines equal the first rows each followed by a break line, then the last row, which is how the `while` loop and the final `draw_line` build them |
| BoardText.LineTextLayout | src/main.rs:34-43 | the line for a row of n >= 1 cells has 4n characters; at offset 4j + 1 it holds cell j, with blanks at 4j and 4j + 2; a bar at 4j + 3 for every column but the last; a final newline |
| BoardText.BreakTextLayout | src/main.rs:45-51 | the break line for n >= 1 columns has 4n characters: '-' everywhere except '+' at 4j + 3 between columns and a final newline |
| BoardText.BreakCharIs | src/main.rs:45-51 | character k of the break line for n columns is '+' at 4j + 3 between columns, a newline at the end and '-' elsewhere |
| BoardText.BreakJoinLength | src/main.rs:45-51 | the n runs of "---" joined by '+' take 4n - 1 characters, and the break line with its newline 4n |
| BoardText.BreakJoinAt | src/main.rs:45-51 | before the final newline, the break line has '+' at every offset 4j + 3 and '-' at every other offset |
| BoardText.BreakTextOfThree | src/main.rs:45-51 | for three columns the break line is exactly "---+---+---\n" |
| BoardText.RenderLength | src/main.rs:21-30 | the board of an n by n grid (n >= 1) has 1 + (2n - 1) * 4n characters and starts with a newline |
| BoardText.RenderLineAt | src/main.rs:23-30 | row i's line occupies the 4n characters from `LineStart(n, i)` = 1 + 8n*i on |
| BoardText.RenderBreakAt | src/main.rs:23-30 | between the lines of rows i and i + 1 there is exactly one break line |
| BoardText.RenderLayout | src/main.rs:20-30 | the board is a newline, then rows 0 to n - 1 in increasing order, with one break line between consecutive rows and none after the last; these pieces cover every position of the board |
| BoardText.RenderCellAt | src/main.rs:23-43 | cell (i, j) appears at position `LineStart(n, i)` + 4j + 1 of the board |
| BoardText.RenderShowsGrid | src/main.rs:23-43 | every row line lies within the board and every cell appears at its position |
| BoardText.RenderInjective | src/main.rs:20-43 | two grids of the same size have the same board exactly when they are equal, so the board shows the whole grid |
| BoardText.BlankLineOfThree | src/main.rs:34-43 | the line of a blank three-cell row is exactly three blank padded cells separated by two bars, then a newline |
| BoardText.BlankRenderOfThree | src/main.rs:20-51 | the board of a blank 3 by 3 grid is exactly the 61-character text shown above |
| Game.OldsGame.Grid | src/main.rs:2 | the grid value read from `state` is BOARD_SIZE by BOARD_SIZE |
| Game.OldsGame.GridHoldsState | src/main.rs:2 | the grid value holds `state[i, j]` at row i, column j |
| Game.OldsGame.constructor | src/main.rs:9-14 | a new game has every cell ' ' (so its grid is the blank grid) and an empty buffer |
| Game.OldsGame.Clear | src/main.rs:21 | `String::clear`: the buffer becomes empty |
| Game.OldsGame.Push | src/main.rs:36-39 | `String::push`: the buffer grows by exactly that character |
| Game.OldsGame.PushStr | src/main.rs:47 | `String::push_str`: the buffer grows by exactly that string |
| Game.OldsGame.Pop | src/main.rs:41 | `String::pop`: an empty buffer is left alone and None returned; otherwise the last character is removed and returned |
| Game.OldsGame.DrawLine | src/main.rs:34-43 | appends exactly `LineText` of row i to the buffer and changes nothing else; the popped character is the bar pushed after the last column |
| Game.OldsGame.DrawBreak | src/main.rs:45-51 | appends exactly `BreakText(BOARD_SIZE)` to the buffer and changes nothing else; the popped character is the last '+' |
| Game.OldsGame.DrawBoard | src/main.rs:20-30 | leaves the buffer equal to `Render` of the grid, whatever it held before, so drawing twice gives the same text; the grid is not written |
| Game.OldsGame.Play | src/main.rs:16-18 | playing draws the board |
| Game.BoardLength | src/main.rs:7 | with BOARD_SIZE = 3 the board has 1 + 5 * 12 = 61 characters and starts with a newline |
| Game.RenderIsRowsThenLast | src/main.rs:23-30 | the board is a newline, the first BOARD_SIZE - 1 rows each followed by a break line, then the last row |
| Game.Run | src/main.rs:54-57 | the program draws a new game's board, which is the blank 3 by 3 board shown above |

## Left out

- The `println!` in `draw_board` (src/main.rs:31) is console output. `DrawBoard` stops at the finished buffer, and `Run` returns the text instead of printing it.
- Rust stores a `String` as UTF-8 bytes. The model counts characters, so its lengths are byte lengths only when every cell is an ASCII character (the blank cells of a new game are).
- `Pop` returns the removed character; the source ignores it.
- The peer-discovery, packet codec, reliable-delivery and turn-exchange networking described in the repository's design notes do not appear in its source. The source is only the renderer above, so the model follows the source; the networking is not part of this model.
