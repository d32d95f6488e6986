/** The rules of the game that depend on the board alone: the eight winning
    triples, the scan for a winner, and the derived draw and game-over tests. */
module Rules {
  import opened Wrappers

  datatype Mark = X | O

  /** A position on the 3x3 grid, row-major: index = row * 3 + col. */
  type Pos = i: int | 0 <= i < 9

  /** Nine cells, each empty (`None`) or holding a mark. */
  type Board = b: seq<Option<Mark>> | |b| == 9 witness EmptyBoard()

  function EmptyBoard(): seq<Option<Mark>>
  {
    [None, None, None, None, None, None, None, None, None]
  }

  /** The triples in the order they are scanned: rows, then columns, then diagonals. */
  const Lines: seq<(Pos, Pos, Pos)> := [
    (0, 1, 2), (3, 4, 5), (6, 7, 8),
    (0, 3, 6), (1, 4, 7), (2, 5, 8),
    (0, 4, 8), (2, 4, 6)
  ]

  const LineCount: int := 8

  /** Line `j` is filled with one and the same mark (the truthy-and-equal test of the scan). */
  predicate Uniform(b: Board, j: int)
    requires 0 <= j < LineCount
  {
    var (p, q, r) := Lines[j];
    b[p].Some? && b[p] == b[q] && b[p] == b[r]
  }

  /** All three cells of line `j` hold mark `m`. */
  predicate LineOf(b: Board, j: int, m: Mark)
    requires 0 <= j < LineCount
  {
    var (p, q, r) := Lines[j];
    b[p] == Some(m) && b[q] == Some(m) && b[r] == Some(m)
  }

  /** Some line is uniform: this is what makes the winner non-null. */
  predicate HasLine(b: Board)
  {
    exists j :: 0 <= j < LineCount && Uniform(b, j)
  }

  /** The scan from line `k` on: the mark of the first uniform line at or after `k`. */
  function WinnerFrom(b: Board, k: int): (r: Option<Mark>)
    requires 0 <= k <= LineCount
    ensures r.Some? ==>
      exists j :: k <= j < LineCount && LineOf(b, j, r.value) &&
        forall j' :: k <= j' < j ==> !Uniform(b, j')
    ensures r.None? <==> forall j :: k <= j < LineCount ==> !Uniform(b, j)
    decreases LineCount - k
  {
    if k == LineCount then None
    else
      var (p, q, s) := Lines[k];
      if b[p].Some? && b[p] == b[q] && b[p] == b[s] then
        assert Uniform(b, k) && LineOf(b, k, b[p].value);
        b[p]
      else WinnerFrom(b, k + 1)
  }

  /** The winner of a board: the mark of the first uniform line in scan order,
      or `None` when no line is uniform. */
  function Winner(b: Board): (r: Option<Mark>)
    ensures r.Some? ==>
      exists j :: 0 <= j < LineCount && LineOf(b, j, r.value) &&
        forall j' :: 0 <= j' < j ==> !Uniform(b, j')
    ensures r.None? <==> !HasLine(b)
  {
    WinnerFrom(b, 0)
  }

  /** A uniform line and its mark determine each other. */
  lemma UniformIsLineOf(b: Board, j: int)
    requires 0 <= j < LineCount
    ensures Uniform(b, j) <==> exists m :: LineOf(b, j, m)
  {
    if Uniform(b, j) {
      assert LineOf(b, j, b[Lines[j].0].value);
    }
  }

  /** When several lines are uniform the first one in scan order decides:
      every uniform line before the winning one is impossible, and the
      winner is the mark of the earliest uniform line. */
  lemma {:induction false} WinnerIsFirstUniform(b: Board, j: int)
    requires 0 <= j < LineCount && Uniform(b, j)
    requires forall j' :: 0 <= j' < j ==> !Uniform(b, j')
    ensures Winner(b) == b[Lines[j].0]
  {
    FirstUniformFrom(b, 0, j);
  }

  lemma {:induction false} FirstUniformFrom(b: Board, k: int, j: int)
    requires 0 <= k <= j < LineCount && Uniform(b, j)
    requires forall j' :: k <= j' < j ==> !Uniform(b, j')
    ensures WinnerFrom(b, k) == b[Lines[j].0]
    decreases j - k
  {
    if k < j {
      assert !Uniform(b, k);
      FirstUniformFrom(b, k + 1, j);
    }
  }

  /** Every cell holds a mark (the `every(Boolean)` test). */
  predicate Full(b: Board)
  {
    forall i :: 0 <= i < |b| ==> b[i].Some?
  }

  /** A draw: the board is full and no line is uniform, so a full board with
      a uniform line is a win and not a draw. */
  function IsDraw(b: Board): (r: bool)
    ensures r <==> Full(b) && forall j :: 0 <= j < LineCount ==> !Uniform(b, j)
  {
    Full(b) && Winner(b).None?
  }

  /** The game is over when there is a winner or a draw, that is, when some
      line is uniform or every cell is filled. */
  function GameOver(b: Board): (r: bool)
    ensures r <==> HasLine(b) || Full(b)
  {
    Winner(b).Some? || IsDraw(b)
  }
}
