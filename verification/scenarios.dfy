/** Concrete plays of the game: the component's tests and a few further plays. */
module Scenarios {
  import opened Wrappers
  import opened Rules
  import opened Game

  /** A board on which each of the eight lines, checked one by one, is not uniform. */
  lemma NoLine(b: Board)
    requires !Uniform(b, 0) && !Uniform(b, 1) && !Uniform(b, 2) && !Uniform(b, 3)
    requires !Uniform(b, 4) && !Uniform(b, 5) && !Uniform(b, 6) && !Uniform(b, 7)
    ensures !HasLine(b)
  {
    forall j | 0 <= j < LineCount
      ensures !Uniform(b, j)
    {
      assert j == 0 || j == 1 || j == 2 || j == 3 || j == 4 || j == 5 || j == 6 || j == 7;
    }
  }

  /** A board with no uniform line and an empty cell `k` is still in play. */
  lemma StillRunning(b: Board, k: int)
    requires 0 <= k < 9 && b[k].None?
    requires !Uniform(b, 0) && !Uniform(b, 1) && !Uniform(b, 2) && !Uniform(b, 3)
    requires !Uniform(b, 4) && !Uniform(b, 5) && !Uniform(b, 6) && !Uniform(b, 7)
    ensures !GameOver(b)
  {
    assert !Full(b);
    NoLine(b);
  }

  /** Clicking a filled cell is ignored: the cell keeps X and it stays O's turn. */
  lemma ClickOnFilledCellIgnored()
    ensures var s1 := Click(Initial, 0);
      Click(s1, 0) == s1 && s1.board[0] == Some(X) && !s1.xIsNext
  {
    StillRunning(Initial.board, 0);
  }

  /** The state after X on 0 and O on 1. */
  const AfterTwo: State := State([Some(X), Some(O), None, None, None, None, None, None, None], true)

  /** The state after X on 0, O on 1, X on 4 and O on 2. */
  const AfterFour: State := State([Some(X), Some(O), Some(O), None, Some(X), None, None, None, None], true)

  /** The state after a further X on 8, completing the first diagonal. */
  const DiagonalWon: State := State([Some(X), Some(O), Some(O), None, Some(X), None, None, None, Some(X)], false)

  lemma OpeningMoves()
    ensures Click(Click(Initial, 0), 1) == AfterTwo
  {
    StillRunning(Initial.board, 0);
    var s1 := Click(Initial, 0);
    assert s1 == State([Some(X), None, None, None, None, None, None, None, None], false);
    StillRunning(s1.board, 1);
  }

  lemma MiddleMoves()
    ensures Click(Click(AfterTwo, 4), 2) == AfterFour
  {
    StillRunning(AfterTwo.board, 4);
    var s3 := Click(AfterTwo, 4);
    assert s3 == State([Some(X), Some(O), None, None, Some(X), None, None, None, None], false);
    StillRunning(s3.board, 2);
  }

  /** The first click places X, the second places O, and X is to move again. */
  lemma FirstTwoClicks()
    ensures Click(Initial, 0).board[0] == Some(X)
    ensures Click(Click(Initial, 0), 1).board[1] == Some(O)
    ensures StatusText(Click(Click(Initial, 0), 1)) == "Turn: X"
  {
    OpeningMoves();
    StillRunning(AfterTwo.board, 2);
  }

  /** The clicks 0, 1, 4, 2, 8 from the start complete the first diagonal for X. */
  lemma DiagonalRun()
    ensures Click(Click(Click(Click(Click(Initial, 0), 1), 4), 2), 8) == DiagonalWon
  {
    OpeningMoves();
    MiddleMoves();
    StillRunning(AfterFour.board, 8);
  }

  /** X has won on the first diagonal; a further click on 3 is ignored, and a
      restart clears the board with X to move. */
  lemma DiagonalWinThenRestart()
    ensures StatusOf(DiagonalWon) == Won(X)
    ensures Click(DiagonalWon, 3) == DiagonalWon
    ensures StatusOf(Reset(DiagonalWon)) == InProgress(X)
  {
    var b := DiagonalWon.board;
    assert !Uniform(b, 0) && !Uniform(b, 1) && !Uniform(b, 2);
    assert !Uniform(b, 3) && !Uniform(b, 4) && !Uniform(b, 5);
    assert Uniform(b, 6);
    WinnerIsFirstUniform(b, 6);
    StillRunning(Initial.board, 0);
  }

  /** A full board, X on 0, 2, 3, 7, 8 and O on 1, 4, 5, 6, with no uniform line. */
  const DrawnBoard: Board := [Some(X), Some(O), Some(X), Some(X), Some(O), Some(O), Some(O), Some(X), Some(X)]

  /** The full board left by the clicks 0, 1, 2, 3, 4, 5, 7, 6, 8 (see
      `FullAndWonRun`): its last mark completes the first diagonal for X. */
  const FullAndWon: Board := [Some(X), Some(O), Some(X), Some(O), Some(X), Some(O), Some(O), Some(X), Some(X)]

  /** The states after the first four, six and eight of those clicks. */
  const FilledFour: State := State([Some(X), Some(O), Some(X), Some(O), None, None, None, None, None], true)
  const FilledSix: State := State([Some(X), Some(O), Some(X), Some(O), Some(X), Some(O), None, None, None], true)
  const FilledEight: State := State([Some(X), Some(O), Some(X), Some(O), Some(X), Some(O), Some(O), Some(X), None], true)

  lemma FillToFour()
    ensures Click(Click(AfterTwo, 2), 3) == FilledFour
  {
    StillRunning(AfterTwo.board, 2);
    var s3 := Click(AfterTwo, 2);
    assert s3 == State([Some(X), Some(O), Some(X), None, None, None, None, None, None], false);
    StillRunning(s3.board, 3);
  }

  lemma FillToSix()
    ensures Click(Click(FilledFour, 4), 5) == FilledSix
  {
    StillRunning(FilledFour.board, 4);
    var s5 := Click(FilledFour, 4);
    assert s5 == State([Some(X), Some(O), Some(X), Some(O), Some(X), None, None, None, None], false);
    StillRunning(s5.board, 5);
  }

  lemma FillToEight()
    ensures Click(Click(FilledSix, 7), 6) == FilledEight
  {
    StillRunning(FilledSix.board, 7);
    var s7 := Click(FilledSix, 7);
    assert s7 == State([Some(X), Some(O), Some(X), Some(O), Some(X), Some(O), None, Some(X), None], false);
    StillRunning(s7.board, 6);
  }

  lemma FillToFull()
    ensures Click(Click(Click(FilledSix, 7), 6), 8) == State(FullAndWon, false)
  {
    FillToEight();
    StillRunning(FilledEight.board, 8);
  }

  /** The clicks 0, 1, 2, 3, 4, 5, 7, 6, 8 from the start are all accepted and
      fill the board as `FullAndWon`, with O nominally to move. */
  lemma FullAndWonRun()
    ensures Click(Click(Click(Click(Click(Click(Click(Click(Click(Initial,
      0), 1), 2), 3), 4), 5), 7), 6), 8) == State(FullAndWon, false)
  {
    OpeningMoves();
    FillToFour();
    FillToSix();
    FillToFull();
  }

  /** Clicking cell 0 and then restarting empties every cell, as the
      component's restart test checks. */
  lemma RestartClearsBoard()
    ensures Click(Initial, 0).board[0] == Some(X)
    ensures Reset(Click(Initial, 0)).board == EmptyBoard()
    ensures forall j :: 0 <= j < 9 ==> Reset(Click(Initial, 0)).board[j].None?
  {
    StillRunning(Initial.board, 0);
  }

  /** The states after the first four, six and eight clicks of a drawn game. */
  const DrawFour: State := State([Some(X), Some(O), Some(X), None, Some(O), None, None, None, None], true)
  const DrawSix: State := State([Some(X), Some(O), Some(X), Some(X), Some(O), Some(O), None, None, None], true)
  const DrawEight: State := State([Some(X), Some(O), Some(X), Some(X), Some(O), Some(O), Some(O), Some(X), None], true)

  lemma DrawToFour()
    ensures Click(Click(AfterTwo, 2), 4) == DrawFour
  {
    StillRunning(AfterTwo.board, 2);
    var s3 := Click(AfterTwo, 2);
    assert s3 == State([Some(X), Some(O), Some(X), None, None, None, None, None, None], false);
    StillRunning(s3.board, 4);
  }

  lemma DrawToSix()
    ensures Click(Click(DrawFour, 3), 5) == DrawSix
  {
    StillRunning(DrawFour.board, 3);
    var s5 := Click(DrawFour, 3);
    assert s5 == State([Some(X), Some(O), Some(X), Some(X), Some(O), None, None, None, None], false);
    StillRunning(s5.board, 5);
  }

  lemma DrawToEight()
    ensures Click(Click(DrawSix, 7), 6) == DrawEight
  {
    StillRunning(DrawSix.board, 7);
    var s7 := Click(DrawSix, 7);
    assert s7 == State([Some(X), Some(O), Some(X), Some(X), Some(O), Some(O), None, Some(X), None], false);
    StillRunning(s7.board, 6);
  }

  lemma DrawToFull()
    ensures Click(Click(Click(DrawSix, 7), 6), 8) == State(DrawnBoard, false)
  {
    DrawToEight();
    StillRunning(DrawEight.board, 8);
  }

  /** The clicks 0, 1, 2, 4, 3, 5, 7, 6, 8 from the start are all accepted and
      fill the board as `DrawnBoard`. */
  lemma DrawRun()
    ensures Click(Click(Click(Click(Click(Click(Click(Click(Click(Initial,
      0), 1), 2), 4), 3), 5), 7), 6), 8) == State(DrawnBoard, false)
  {
    OpeningMoves();
    DrawToFour();
    DrawToSix();
    DrawToFull();
  }

  lemma DrawnBoardIsDraw(xIsNext: bool)
    ensures IsDraw(DrawnBoard)
    ensures StatusText(State(DrawnBoard, xIsNext)) == DrawText
  {
    var b := DrawnBoard;
    assert !Uniform(b, 0) && !Uniform(b, 1) && !Uniform(b, 2) && !Uniform(b, 3);
    assert !Uniform(b, 4) && !Uniform(b, 5) && !Uniform(b, 6) && !Uniform(b, 7);
    NoLine(b);
  }

  lemma FullAndWonIsWin(xIsNext: bool)
    ensures !IsDraw(FullAndWon)
    ensures StatusOf(State(FullAndWon, xIsNext)) == Won(X)
  {
    var b := FullAndWon;
    assert !Uniform(b, 0) && !Uniform(b, 1) && !Uniform(b, 2);
    assert !Uniform(b, 3) && !Uniform(b, 4) && !Uniform(b, 5);
    assert Uniform(b, 6);
    WinnerIsFirstUniform(b, 6);
  }
}
