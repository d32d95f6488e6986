/** Properties of runs of the game: the alternation of marks, the uniqueness of
    a winner under legal play, and the absorbing end of a game. */
module Invariants {
  import opened Wrappers
  import opened Rules
  import opened Game

  /** The number of cells of `b` holding mark `m`. */
  function Count(b: seq<Option<Mark>>, m: Mark): nat
  {
    if |b| == 0 then 0
    else (if b[0] == Some(m) then 1 else 0) + Count(b[1..], m)
  }

  /** X leads O by exactly one mark when it is O's turn, and the counts are
      equal when it is X's turn. */
  predicate Balanced(s: State)
  {
    Count(s.board, X) == Count(s.board, O) + (if s.xIsNext then 0 else 1)
  }

  /** Clicks only: the run contains no Restart. */
  predicate ClicksOnly(events: seq<Event>)
  {
    forall k :: 0 <= k < |events| ==> events[k].CellClick?
  }

  /** Filling an empty cell with `c` adds one to the count of `c` and leaves
      the count of the other mark alone. */
  lemma {:induction false} CountFill(b: seq<Option<Mark>>, i: int, c: Mark, m: Mark)
    requires 0 <= i < |b| && b[i].None?
    ensures Count(b[i := Some(c)], m) == Count(b, m) + (if c == m then 1 else 0)
  {
    if i > 0 {
      assert b[i := Some(c)][1..] == b[1..][i - 1 := Some(c)];
      CountFill(b[1..], i - 1, c, m);
    } else {
      assert b[i := Some(c)][1..] == b[1..];
    }
  }

  lemma InitialBalanced()
    ensures Balanced(Initial)
    ensures Count(Initial.board, X) == 0 && Count(Initial.board, O) == 0
  {
  }

  /** A click, accepted or not, keeps the balance between X and O. */
  lemma ClickKeepsBalance(s: State, i: int)
    requires 0 <= i < 9 && Balanced(s)
    ensures Balanced(Click(s, i))
  {
    if Accepts(s, i) {
      CountFill(s.board, i, CurrentPlayer(s), X);
      CountFill(s.board, i, CurrentPlayer(s), O);
    }
  }

  /** Any run of clicks and restarts keeps the balance. */
  lemma {:induction false} RunKeepsBalance(s: State, events: seq<Event>)
    requires InRange(events) && Balanced(s)
    ensures Balanced(Run(s, events))
    decreases |events|
  {
    if |events| > 0 {
      var e := events[0];
      if e.CellClick? {
        ClickKeepsBalance(s, e.index);
      } else {
        InitialBalanced();
      }
      assert InRange(events[1..]) by {
        forall k | 0 <= k < |events[1..]| && events[1..][k].CellClick?
          ensures 0 <= events[1..][k].index < 9
        {
          assert events[1..][k] == events[k + 1];
        }
      }
      RunKeepsBalance(Step(s, e), events[1..]);
    }
  }

  /** From the start, X's count equals O's or exceeds it by one at every
      point, and X is to move exactly when the counts are equal. */
  lemma ReachableBalanced(events: seq<Event>)
    requires InRange(events)
    ensures var r := Run(Initial, events);
      var dx := Count(r.board, X) - Count(r.board, O);
      (dx == 0 || dx == 1) && (r.xIsNext <==> dx == 0)
  {
    InitialBalanced();
    RunKeepsBalance(Initial, events);
  }

  /** Every uniform line of the board carries the same mark. */
  predicate SingleWinner(b: Board)
  {
    forall j, j' :: 0 <= j < LineCount && 0 <= j' < LineCount && Uniform(b, j) && Uniform(b, j') ==>
      b[Lines[j].0] == b[Lines[j'].0]
  }

  /** An accepted click happens on a board with no uniform line, so every
      uniform line afterwards passes through the new mark. */
  lemma ClickKeepsSingleWinner(s: State, i: int)
    requires 0 <= i < 9 && SingleWinner(s.board)
    ensures SingleWinner(Click(s, i).board)
  {
    if Accepts(s, i) {
      var r := Click(s, i);
      forall j | 0 <= j < LineCount && Uniform(r.board, j)
        ensures r.board[Lines[j].0] == Some(CurrentPlayer(s))
      {
        var (p, q, t) := Lines[j];
        if p != i && q != i && t != i {
          assert Uniform(s.board, j);
          assert HasLine(s.board);
          assert false;
        }
      }
    }
  }

  lemma {:induction false} RunKeepsSingleWinner(s: State, events: seq<Event>)
    requires InRange(events) && SingleWinner(s.board)
    ensures SingleWinner(Run(s, events).board)
    decreases |events|
  {
    if |events| > 0 {
      var e := events[0];
      if e.CellClick? {
        ClickKeepsSingleWinner(s, e.index);
      }
      assert InRange(events[1..]) by {
        forall k | 0 <= k < |events[1..]| && events[1..][k].CellClick?
          ensures 0 <= events[1..][k].index < 9
        {
          assert events[1..][k] == events[k + 1];
        }
      }
      RunKeepsSingleWinner(Step(s, e), events[1..]);
    }
  }

  /** Under play from the start, any uniform line names the winner, so the
      order of the scan does not change the result. */
  lemma ReachableWinnerIsAnyLine(events: seq<Event>, j: int)
    requires InRange(events) && 0 <= j < LineCount
    requires Uniform(Run(Initial, events).board, j)
    ensures Winner(Run(Initial, events).board) == Run(Initial, events).board[Lines[j].0]
  {
    var b := Run(Initial, events).board;
    RunKeepsSingleWinner(Initial, events);
    var w := Winner(b);
    var k :| 0 <= k < LineCount && LineOf(b, k, w.value);
    assert Uniform(b, k);
  }

  /** Once the game is won or drawn, clicks change nothing until a restart. */
  lemma {:induction false} GameOverAbsorbs(s: State, events: seq<Event>)
    requires InRange(events) && ClicksOnly(events) && GameOver(s.board)
    ensures Run(s, events) == s
    decreases |events|
  {
    if |events| > 0 {
      assert events[0].CellClick?;
      assert Step(s, events[0]) == s;
      assert InRange(events[1..]) && ClicksOnly(events[1..]) by {
        forall k | 0 <= k < |events[1..]|
          ensures events[1..][k] == events[k + 1]
        {
        }
      }
      GameOverAbsorbs(s, events[1..]);
    }
  }

  /** Without a restart, a mark once placed stays where it is. */
  lemma {:induction false} MarksPersist(s: State, events: seq<Event>, j: int)
    requires InRange(events) && ClicksOnly(events) && 0 <= j < 9 && s.board[j].Some?
    ensures Run(s, events).board[j] == s.board[j]
    decreases |events|
  {
    if |events| > 0 {
      assert events[0].CellClick?;
      var t := Step(s, events[0]);
      assert t.board[j] == s.board[j];
      assert InRange(events[1..]) && ClicksOnly(events[1..]) by {
        forall k | 0 <= k < |events[1..]|
          ensures events[1..][k] == events[k + 1]
        {
        }
      }
      MarksPersist(t, events[1..], j);
    }
  }

  /** Handling `a` then `b` is handling `a` followed by `b`. */
  lemma {:induction false} RunAppend(s: State, a: seq<Event>, b: seq<Event>)
    requires InRange(a) && InRange(b)
    ensures InRange(a + b)
    ensures Run(s, a + b) == Run(Run(s, a), b)
    decreases |a|
  {
    assert InRange(a + b) by {
      forall k | 0 <= k < |a + b| && (a + b)[k].CellClick?
        ensures 0 <= (a + b)[k].index < 9
      {
        if k < |a| { assert (a + b)[k] == a[k]; } else { assert (a + b)[k] == b[k - |a|]; }
      }
    }
    if |a| == 0 {
      assert a + b == b;
    } else {
      assert (a + b)[0] == a[0] && (a + b)[1..] == a[1..] + b;
      assert InRange(a[1..]) by {
        forall k | 0 <= k < |a[1..]| && a[1..][k].CellClick?
          ensures 0 <= a[1..][k].index < 9
        {
          assert a[1..][k] == a[k + 1];
        }
      }
      RunAppend(Step(s, a[0]), a[1..], b);
    }
  }

  /** After a win or a draw, any clicks are ignored, and a restart brings the
      game back to its initial state, from which play resumes. */
  lemma AbsorbedUntilRestart(s: State, clicks: seq<Event>, rest: seq<Event>)
    requires InRange(clicks) && ClicksOnly(clicks) && InRange(rest) && GameOver(s.board)
    ensures InRange(clicks + [Restart] + rest)
    ensures Run(s, clicks + [Restart] + rest) == Run(Initial, rest)
  {
    GameOverAbsorbs(s, clicks);
    assert InRange([Restart]);
    RunAppend(s, clicks, [Restart]);
    RunAppend(s, clicks + [Restart], rest);
  }

  /** A full board with a uniform line is a win, not a draw. */
  lemma WinBeatsDraw(s: State)
    requires Full(s.board) && HasLine(s.board)
    ensures StatusOf(s) == Won(Winner(s.board).value)
    ensures !IsDraw(s.board)
  {
  }

  /** A restart yields a running game with X to move, whatever the prior state. */
  lemma ResetStartsFresh(s: State)
    ensures StatusOf(Reset(s)) == InProgress(X)
    ensures StatusText(Reset(s)) == "Turn: X"
  {
    var b := Reset(s).board;
    assert !Full(b) by { assert b[0].None?; }
    assert !HasLine(b);
  }
}
