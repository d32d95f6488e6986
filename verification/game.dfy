/** The game state held by the component, its one move transition, the reset
    transition, and the status shown to the players. */
module Game {
  import opened Wrappers
  import opened Rules

  /** The stored state: the board and whether X plays next. */
  datatype State = State(board: Board, xIsNext: bool)

  /** The derived classification of a state, recomputed on every read. */
  datatype Status = Won(winner: Mark) | Draw | InProgress(turn: Mark)

  /** A user intent: activating cell `index`, or pressing Restart. */
  datatype Event = CellClick(index: int) | Restart

  const Initial: State := State(EmptyBoard(), true)

  /** The player to move. */
  function CurrentPlayer(s: State): (r: Mark)
    ensures r == X <==> s.xIsNext
    ensures r == O <==> !s.xIsNext
  {
    if s.xIsNext then X else O
  }

  /** A click is taken only while the game is running and the cell is empty. */
  predicate Accepts(s: State, i: int)
    requires 0 <= i < 9
  {
    !GameOver(s.board) && s.board[i].None?
  }

  /** The move transition. A rejected click returns the state as it was; an
      accepted one writes the current player's mark into cell `i` alone and
      passes the turn. */
  function Click(s: State, i: int): (r: State)
    requires 0 <= i < 9
    ensures !Accepts(s, i) ==> r == s
    ensures Accepts(s, i) ==>
      r.board[i] == Some(CurrentPlayer(s)) && r.xIsNext == !s.xIsNext
    ensures forall j :: 0 <= j < 9 && j != i ==> r.board[j] == s.board[j]
    ensures forall j :: 0 <= j < 9 && s.board[j].Some? ==> r.board[j] == s.board[j]
  {
    if GameOver(s.board) || s.board[i].Some? then s
    else
      var next := s.board[i := Some(CurrentPlayer(s))];
      State(next, !s.xIsNext)
  }

  /** Restart: nine empty cells and X to move, whatever came before. */
  function Reset(s: State): (r: State)
    ensures forall j :: 0 <= j < 9 ==> r.board[j].None?
    ensures r.xIsNext
  {
    Initial
  }

  /** The status as the status bar reports it: a win ahead of a draw ahead of
      the turn. */
  function StatusOf(s: State): (r: Status)
    ensures r.Won? <==> HasLine(s.board)
    ensures r.Won? ==> exists j :: 0 <= j < LineCount && LineOf(s.board, j, r.winner)
    ensures r.Won? ==> r.winner == Winner(s.board).value
    ensures r.Draw? <==> Full(s.board) && !HasLine(s.board)
    ensures r.InProgress? <==> !GameOver(s.board)
    ensures r.InProgress? ==> r.turn == (if s.xIsNext then X else O)
  {
    match Winner(s.board)
    case Some(m) => Won(m)
    case None => if IsDraw(s.board) then Draw else InProgress(CurrentPlayer(s))
  }

  function MarkText(m: Mark): string
  {
    match m
    case X => "X"
    case O => "O"
  }

  const WinPrefix: string := "Winner: "
  const DrawText: string := "It’s a draw!"
  const TurnPrefix: string := "Turn: "

  /** The status line: the winner, else the draw notice, else whose turn it is. */
  function StatusText(s: State): (r: string)
    ensures StatusOf(s).Won? <==> WinPrefix <= r
    ensures StatusOf(s).Draw? <==> r == DrawText
    ensures StatusOf(s).InProgress? <==> TurnPrefix <= r
    ensures StatusOf(s).Won? ==> r == WinPrefix + MarkText(Winner(s.board).value)
    ensures StatusOf(s).InProgress? ==> r == TurnPrefix + MarkText(CurrentPlayer(s))
  {
    match StatusOf(s)
    case Won(m) =>
      var t := WinPrefix + MarkText(m);
      assert t[0] == 'W' && t[0] != TurnPrefix[0] && t != DrawText;
      t
    case Draw =>
      assert DrawText[0] != WinPrefix[0] && DrawText[0] != TurnPrefix[0];
      DrawText
    case InProgress(m) =>
      var t := TurnPrefix + MarkText(m);
      assert t[0] == 'T' && t[0] != WinPrefix[0] && t != DrawText;
      t
  }

  /** Every click in the run targets a cell of the board. */
  predicate InRange(events: seq<Event>)
  {
    forall k :: 0 <= k < |events| && events[k].CellClick? ==> 0 <= events[k].index < 9
  }

  /** Dispatch of one intent to its handler. */
  function Step(s: State, e: Event): State
    requires e.CellClick? ==> 0 <= e.index < 9
  {
    match e
    case CellClick(i) => Click(s, i)
    case Restart => Reset(s)
  }

  /** The state after handling `events` in order, starting from `s`. */
  function Run(s: State, events: seq<Event>): State
    requires InRange(events)
    decreases |events|
  {
    if |events| == 0 then s
    else Run(Step(s, events[0]), events[1..])
  }
}
