/**
 * Tic-tac-toe board logic: the three kinds of victory check over a 3-by-3 grid of
 * strings, their disjunction, the coin toss for the turn order and the placement rule of
 * a turn. A cell holds " " while
 * empty, "o" for the first player (number 0) and "x" for the second (number 1).
 */
module TicTacToe {
  import opened Wrappers

  const Blank: string := " "

  /** A board as a value: three rows of three cells. */
  type Board = seq<seq<string>>

  predicate IsBoard(b: Board) {
    |b| == 3 && forall r :: 0 <= r < 3 ==> |b[r]| == 3
  }

  /** The grid's cells, read row by row. */
  function Cells(grid: array2<string>): (b: Board)
    requires grid.Length0 == 3 && grid.Length1 == 3
    reads grid
    ensures IsBoard(b) && forall r, c :: 0 <= r < 3 && 0 <= c < 3 ==> b[r][c] == grid[r, c]
  {
    [[grid[0, 0], grid[0, 1], grid[0, 2]],
     [grid[1, 0], grid[1, 1], grid[1, 2]],
     [grid[2, 0], grid[2, 1], grid[2, 2]]]
  }

  lemma BoardExt(a: Board, b: Board)
    requires IsBoard(a) && IsBoard(b)
    requires forall r, c :: 0 <= r < 3 && 0 <= c < 3 ==> a[r][c] == b[r][c]
    ensures a == b
  {
    forall r | 0 <= r < 3
      ensures a[r] == b[r]
    {
      assert a[r][0] == b[r][0] && a[r][1] == b[r][1] && a[r][2] == b[r][2];
    }
  }

  /** Three equal cells that are not blank. */
  predicate Line(a: string, b: string, c: string) {
    a == b && a == c && a != Blank
  }

  predicate RowWins(b: Board, r: nat)
    requires IsBoard(b) && r < 3
  {
    Line(b[r][0], b[r][1], b[r][2])
  }

  predicate ColWins(b: Board, c: nat)
    requires IsBoard(b) && c < 3
  {
    Line(b[0][c], b[1][c], b[2][c])
  }

  predicate RowVictory(b: Board)
    requires IsBoard(b)
  {
    exists r :: 0 <= r < 3 && RowWins(b, r)
  }

  predicate ColVictory(b: Board)
    requires IsBoard(b)
  {
    exists c :: 0 <= c < 3 && ColWins(b, c)
  }

  /** The main diagonal or the anti-diagonal. */
  predicate DiagVictory(b: Board)
    requires IsBoard(b)
  {
    Line(b[0][0], b[1][1], b[2][2]) || Line(b[0][2], b[1][1], b[2][0])
  }

  predicate Victory(b: Board)
    requires IsBoard(b)
  {
    RowVictory(b) || ColVictory(b) || DiagVictory(b)
  }

  /** check_row_victory: the flag is raised by any of the three rows and never lowered. */
  method CheckRowVictory(grid: array2<string>) returns (victory: bool)
    requires grid.Length0 == 3 && grid.Length1 == 3
    ensures victory <==> RowVictory(Cells(grid))
  {
    ghost var b := Cells(grid);
    victory := false;
    for row := 0 to 3
      invariant victory <==> exists r :: 0 <= r < row && RowWins(b, r)
    {
      if grid[row, 0] == grid[row, 1] && grid[row, 0] == grid[row, 2] && grid[row, 0] != Blank {
        assert RowWins(b, row);
        victory := true;
      }
    }
  }

  /** check_col_victory: the same scan over the three columns. */
  method CheckColVictory(grid: array2<string>) returns (victory: bool)
    requires grid.Length0 == 3 && grid.Length1 == 3
    ensures victory <==> ColVictory(Cells(grid))
  {
    ghost var b := Cells(grid);
    victory := false;
    for col := 0 to 3
      invariant victory <==> exists c :: 0 <= c < col && ColWins(b, c)
    {
      if grid[0, col] == grid[1, col] && grid[0, col] == grid[2, col] && grid[0, col] != Blank {
        assert ColWins(b, col);
        victory := true;
      }
    }
  }

  /** check_diag_victory: the main diagonal first, else the anti-diagonal. */
  method CheckDiagVictory(grid: array2<string>) returns (victory: bool)
    requires grid.Length0 == 3 && grid.Length1 == 3
    ensures victory <==> DiagVictory(Cells(grid))
  {
    victory := false;
    if grid[0, 0] == grid[1, 1] && grid[0, 0] == grid[2, 2] && grid[0, 0] != Blank {
      victory := true;
    } else if grid[0, 2] == grid[1, 1] && grid[0, 2] == grid[2, 0] && grid[0, 2] != Blank {
      victory := true;
    }
  }

  /** check_victory: runs the three checks, then returns at the first one that holds. */
  method CheckVictory(grid: array2<string>) returns (victory: bool)
    requires grid.Length0 == 3 && grid.Length1 == 3
    ensures victory <==> Victory(Cells(grid))
  {
    var row := CheckRowVictory(grid);
    var col := CheckColVictory(grid);
    var diag := CheckDiagVictory(grid);
    var checks := [row, col, diag];
    for i := 0 to |checks|
      invariant forall k :: 0 <= k < i ==> !checks[k]
    {
      if checks[i] {
        return true;
      }
    }
    assert !checks[0] && !checks[1] && !checks[2];
    return false;
  }

  /** An empty grid has no line, so no victory. */
  lemma BlankBoardNoVictory(b: Board)
    requires IsBoard(b) && forall r, c :: 0 <= r < 3 && 0 <= c < 3 ==> b[r][c] == Blank
    ensures !Victory(b)
  {
  }

  /** The three example grids of the instructions show a row, a column and a diagonal victory. */
  lemma InstructionExamples()
    ensures RowVictory([["x", "x", "x"], [" ", " ", " "], [" ", " ", " "]])
    ensures ColVictory([["o", " ", " "], ["o", " ", " "], ["o", " ", " "]])
    ensures DiagVictory([["x", " ", " "], [" ", "x", " "], [" ", " ", "x"]])
  {
    assert RowWins([["x", "x", "x"], [" ", " ", " "], [" ", " ", " "]], 0);
    assert ColWins([["o", " ", " "], ["o", " ", " "], ["o", " ", " "]], 0);
  }

  // ---------------------------------------------------------------------------
  // Turn order
  // ---------------------------------------------------------------------------

  /** determine_player_order for the value std::rand() returned: the coin is draw % 2 + 1,
    * heads (1) lets player number 0 move first and tails (2) player number 1. */
  function PlayerOrder(draw: nat): (order: seq<int>)
    ensures order == [0, 1] || order == [1, 0]
    ensures order[0] == draw % 2 && order[1] == 1 - draw % 2
  {
    var coin := draw % 2 + 1;
    if coin == 1 then [0, 1] else [1, 0]
  }

  // ---------------------------------------------------------------------------
  // Placement
  // ---------------------------------------------------------------------------

  /** The token of a player number: "o" for 0, "x" for 1, and none for any other number. */
  function Token(player: int): (t: Option<string>)
    ensures t.Some? <==> player == 0 || player == 1
    ensures t.Some? ==> t.value != Blank
  {
    if player == 0 then Some("o") else if player == 1 then Some("x") else None
  }

  /** One turn on the board value: a blank target receives the player's token (if the
    * player has one); anything else leaves the board as it was. */
  function PlaceOn(b: Board, player: int, row: nat, col: nat): Board
    requires IsBoard(b) && row < 3 && col < 3
  {
    if b[row][col] == Blank && Token(player).Some? then b[row := b[row][col := Token(player).value]]
    else b
  }

  /** Placement changes at most the target cell, and only a blank one. */
  lemma PlaceOnCells(b: Board, player: int, row: nat, col: nat)
    requires IsBoard(b) && row < 3 && col < 3
    ensures IsBoard(PlaceOn(b, player, row, col))
    ensures forall r, c :: 0 <= r < 3 && 0 <= c < 3 && (r != row || c != col) ==>
      PlaceOn(b, player, row, col)[r][c] == b[r][c]
    ensures PlaceOn(b, player, row, col)[row][col] ==
      if b[row][col] == Blank && Token(player).Some? then Token(player).value else b[row][col]
  {
  }

  /** A winning line has no blank cell, so placing on a blank cell never undoes a victory. */
  lemma {:induction false} PlacementKeepsVictory(b: Board, player: int, row: nat, col: nat)
    requires IsBoard(b) && row < 3 && col < 3 && Victory(b)
    ensures IsBoard(PlaceOn(b, player, row, col)) && Victory(PlaceOn(b, player, row, col))
  {
    var p := PlaceOn(b, player, row, col);
    PlaceOnCells(b, player, row, col);
    if RowVictory(b) {
      var r :| 0 <= r < 3 && RowWins(b, r);
      assert RowWins(p, r);
    } else if ColVictory(b) {
      var c :| 0 <= c < 3 && ColWins(b, c);
      assert ColWins(p, c);
    } else {
      assert DiagVictory(p);
    }
  }

  /** The placement rule inside one pass of update_board's loop: an empty target is filled
    * with the player's token and ends the loop; an occupied target changes nothing. */
  method Place(grid: array2<string>, player: int, row: nat, col: nat) returns (isEmpty: bool)
    requires grid.Length0 == 3 && grid.Length1 == 3 && row < 3 && col < 3
    modifies grid
    ensures isEmpty <==> old(grid[row, col]) == Blank
    ensures Cells(grid) == PlaceOn(old(Cells(grid)), player, row, col)
  {
    ghost var b := Cells(grid);
    isEmpty := false;
    if grid[row, col] == Blank {
      isEmpty := true;
      if player == 0 {
        grid[row, col] := "o";
      } else if player == 1 {
        grid[row, col] := "x";
      }
    }
    PlaceOnCells(b, player, row, col);
    BoardExt(Cells(grid), PlaceOn(b, player, row, col));
  }

  /** The first target in the list that is blank on the board, if any. */
  function FirstBlank(b: Board, targets: seq<(nat, nat)>): (k: Option<nat>)
    requires IsBoard(b) && forall i :: 0 <= i < |targets| ==> targets[i].0 < 3 && targets[i].1 < 3
    ensures k.Some? ==> k.value < |targets| && b[targets[k.value].0][targets[k.value].1] == Blank
    ensures k.Some? ==> forall i :: 0 <= i < k.value ==> b[targets[i].0][targets[i].1] != Blank
    ensures k.None? ==> forall i :: 0 <= i < |targets| ==> b[targets[i].0][targets[i].1] != Blank
  {
    if targets == [] then None
    else if b[targets[0].0][targets[0].1] == Blank then Some(0)
    else match FirstBlank(b, targets[1..])
      case None => None
      case Some(k) => Some(k + 1)
  }

  /**
   * update_board with the squares the player types given as a list: squares are read
   * until an empty one is found, which receives the player's token. The result is how
   * many squares were read; when every square in the list is occupied all are read and
   * the grid is unchanged.
   */
  method UpdateBoard(grid: array2<string>, player: int, targets: seq<(nat, nat)>) returns (read: nat)
    requires grid.Length0 == 3 && grid.Length1 == 3
    requires forall i :: 0 <= i < |targets| ==> targets[i].0 < 3 && targets[i].1 < 3
    modifies grid
    ensures var k := FirstBlank(old(Cells(grid)), targets);
      if k.Some? then
        read == k.value + 1 &&
        Cells(grid) == PlaceOn(old(Cells(grid)), player, targets[k.value].0, targets[k.value].1)
      else
        read == |targets| && Cells(grid) == old(Cells(grid))
  {
    ghost var b := Cells(grid);
    ghost var k := FirstBlank(b, targets);
    var isEmpty := false;
    read := 0;
    while !isEmpty && read < |targets|
      invariant read <= |targets|
      invariant !isEmpty ==> Cells(grid) == b && forall i :: 0 <= i < read ==> b[targets[i].0][targets[i].1] != Blank
      invariant isEmpty ==>
        (k == Some(read - 1) && read >= 1 &&
         Cells(grid) == PlaceOn(b, player, targets[read - 1].0, targets[read - 1].1))
      decreases |targets| - read
    {
      var square := targets[read];
      isEmpty := Place(grid, player, square.0, square.1);
      read := read + 1;
      if isEmpty {
        FirstBlankAt(b, targets, read - 1);
      }
    }
  }

  /** A blank target after only occupied ones is the first blank. */
  lemma {:induction false} FirstBlankAt(b: Board, targets: seq<(nat, nat)>, k: nat)
    requires IsBoard(b) && forall i :: 0 <= i < |targets| ==> targets[i].0 < 3 && targets[i].1 < 3
    requires k < |targets| && b[targets[k].0][targets[k].1] == Blank
    requires forall i :: 0 <= i < k ==> b[targets[i].0][targets[i].1] != Blank
    ensures FirstBlank(b, targets) == Some(k)
  {
    if k > 0 {
      FirstBlankAt(b, targets[1..], k - 1);
    }
  }
}
