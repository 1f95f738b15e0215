/** Outcome evaluation and the computer's move selection
    (services/gameLogic.ts): `calculateWinner`, `minimax`, `getBestMove`. */
module GameLogic {
  import opened Types

  type Line = (Cell, Cell, Cell)

  /** The eight winning lines: the three rows, the three columns and the two
      diagonals, in that order. The order decides which line is reported
      when several are complete at once. */
  const WinningCombinations: seq<Line> := [
    (0, 1, 2), (3, 4, 5), (6, 7, 8),
    (0, 3, 6), (1, 4, 7), (2, 5, 8),
    (0, 4, 8), (2, 4, 6)
  ]

  /** The outcome of a board that has one: a win with its line, or a draw. */
  datatype GameResult = Win(winner: Player, line: Line) | Draw

  /** Line `k` is complete: its three cells hold the same mark. */
  predicate LineWon(b: Board, k: nat)
    requires k < |WinningCombinations|
  {
    var (x, y, z) := WinningCombinations[k];
    b[x].Some? && b[x] == b[y] && b[x] == b[z]
  }

  predicate HasWin(b: Board) {
    exists k :: 0 <= k < |WinningCombinations| && LineWon(b, k)
  }

  /** Line `k` is the first complete line in table order. */
  predicate IsFirstWin(b: Board, k: nat) {
    k < |WinningCombinations| && LineWon(b, k) &&
    forall j :: 0 <= j < k ==> !LineWon(b, j)
  }

  /** The scan over the table from line `k` on: the index of the first complete
      line, or |WinningCombinations| when there is none. */
  function FirstWinFrom(b: Board, k: nat): (r: nat)
    requires k <= |WinningCombinations|
    ensures k <= r <= |WinningCombinations|
    ensures r < |WinningCombinations| ==> LineWon(b, r)
    ensures forall j :: k <= j < r ==> !LineWon(b, j)
    decreases |WinningCombinations| - k
  {
    if k == |WinningCombinations| then k
    else if LineWon(b, k) then k
    else FirstWinFrom(b, k + 1)
  }

  /** `calculateWinner`: the first complete line and its owner, else a draw
      when no cell is empty, else no result. */
  function CalculateWinner(b: Board): Option<GameResult> {
    var k := FirstWinFrom(b, 0);
    if k < |WinningCombinations| then
      var line := WinningCombinations[k];
      Some(Win(b[line.0].value, line))
    else if None !in b then Some(Draw)
    else None
  }

  /** Exactly one of three: a win, reported with the first complete line in
      table order and the mark on it; a draw, exactly when no line is complete
      and no cell is empty; no result, exactly when no line is complete and
      some cell is empty. */
  lemma CalculateWinnerCorrect(b: Board)
    ensures var r := CalculateWinner(b);
      (HasWin(b) <==> r.Some? && r.value.Win?) &&
      (forall k: nat :: IsFirstWin(b, k) ==>
        r == Some(Win(b[WinningCombinations[k].0].value, WinningCombinations[k]))) &&
      (r == Some(Draw) <==> !HasWin(b) && None !in b) &&
      (r == None <==> !HasWin(b) && None in b)
  {
    var k := FirstWinFrom(b, 0);
    if k < |WinningCombinations| {
      assert IsFirstWin(b, k);
    }
  }

  /** A board without a result has an empty cell. */
  lemma NoResultHasEmptyCell(b: Board)
    requires CalculateWinner(b) == None
    ensures None in b
  {
  }

  /** The mark a won line carries really is the reported winner's, on all
      three of its cells. */
  lemma WinnerOwnsLine(b: Board)
    requires HasWin(b)
    ensures var r := CalculateWinner(b).value;
      b[r.line.0] == b[r.line.1] == b[r.line.2] == Some(r.winner)
  {
    CalculateWinnerCorrect(b);
    var k := FirstWinFrom(b, 0);
    assert IsFirstWin(b, k);
  }

  // ---------------------------------------------------------------------------
  // minimax

  /** Integer stand-ins for the source's -Infinity and Infinity. */
  const MinusInfinity: int := -1000
  const PlusInfinity: int := 1000

  /** The maximising side is O, the computer. */
  function Mover(isMaximizing: bool): Player {
    if isMaximizing then O else X
  }

  function Initial(isMaximizing: bool): int {
    if isMaximizing then MinusInfinity else PlusInfinity
  }

  function Combine(isMaximizing: bool, score: int, best: int): int {
    if isMaximizing then (if score > best then score else best)
    else (if score < best then score else best)
  }

  /** The value of the search: 10 - depth for a win by O, depth - 10 for a win
      by X, 0 for a draw, else the best child value for the side to move. */
  function Minimax(b: Board, depth: nat, isMaximizing: bool): int
    decreases EmptyCount(b), 10
  {
    match CalculateWinner(b)
    case Some(Win(O, _)) => 10 - depth
    case Some(Win(X, _)) => depth - 10
    case Some(Draw) => 0
    case None => Fold(b, depth, isMaximizing, 0, Initial(isMaximizing))
  }

  /** The loop over cells `i..8` of `minimax`: every empty cell is tried with
      the mover's mark and its value combined into `best`. */
  function Fold(b: Board, depth: nat, isMaximizing: bool, i: nat, best: int): int
    requires i <= 9
    decreases EmptyCount(b), 9 - i
  {
    if i == 9 then best
    else if b[i] == None then
      PlaceCounts(b, i, Mover(isMaximizing));
      var score := Minimax(b[i := Some(Mover(isMaximizing))], depth + 1, !isMaximizing);
      Fold(b, depth, isMaximizing, i + 1, Combine(isMaximizing, score, best))
    else Fold(b, depth, isMaximizing, i + 1, best)
  }

  /** Scores are bounded by the depth: as long as every leaf lies within ten
      plies of the root, the value lies in [depth - 10, 10 - depth]. In
      particular the value is never one of the two sentinels. */
  lemma {:induction false} MinimaxBounds(b: Board, depth: nat, isMaximizing: bool)
    requires depth + EmptyCount(b) <= 10
    ensures depth - 10 <= Minimax(b, depth, isMaximizing) <= 10 - depth
    decreases EmptyCount(b), 10
  {
    if CalculateWinner(b) == None {
      NoResultHasEmptyCell(b);
      FoldBounds(b, depth, isMaximizing, 0, Initial(isMaximizing));
    }
  }

  lemma {:induction false} FoldBounds(b: Board, depth: nat, isMaximizing: bool, i: nat, best: int)
    requires i <= 9
    requires depth + EmptyCount(b) <= 10
    requires (depth - 10 <= best <= 10 - depth) ||
             (best == Initial(isMaximizing) && exists j :: i <= j < 9 && b[j] == None)
    ensures depth - 10 <= Fold(b, depth, isMaximizing, i, best) <= 10 - depth
    decreases EmptyCount(b), 9 - i
  {
    if i < 9 {
      if b[i] == None {
        var m := Mover(isMaximizing);
        PlaceCounts(b, i, m);
        MinimaxBounds(b[i := Some(m)], depth + 1, !isMaximizing);
        var score := Minimax(b[i := Some(m)], depth + 1, !isMaximizing);
        FoldBounds(b, depth, isMaximizing, i + 1, Combine(isMaximizing, score, best));
      } else {
        FoldBounds(b, depth, isMaximizing, i + 1, best);
      }
    }
  }

  /** A finished game is scored without search: 10 - depth when O owns the
      first complete line, depth - 10 when X does, 0 for a full board with no
      complete line; whichever side is to move. */
  lemma MinimaxTerminalScores(b: Board, depth: nat, isMaximizing: bool)
    ensures forall k: nat :: IsFirstWin(b, k) && b[WinningCombinations[k].0] == Some(O) ==>
      Minimax(b, depth, isMaximizing) == 10 - depth
    ensures forall k: nat :: IsFirstWin(b, k) && b[WinningCombinations[k].0] == Some(X) ==>
      Minimax(b, depth, isMaximizing) == depth - 10
    ensures !HasWin(b) && None !in b ==> Minimax(b, depth, isMaximizing) == 0
  {
    CalculateWinnerCorrect(b);
  }

  /** Past the last empty cell the fold returns what it has. */
  lemma {:induction false} FoldOverOccupied(b: Board, depth: nat, isMaximizing: bool, i: nat, best: int)
    requires i <= 9
    requires forall j :: i <= j < 9 ==> b[j] != None
    ensures Fold(b, depth, isMaximizing, i, best) == best
    decreases 9 - i
  {
    if i < 9 {
      FoldOverOccupied(b, depth, isMaximizing, i + 1, best);
    }
  }

  /** A board with an empty cell and no complete line has no result. */
  lemma NoResultYet(b: Board, c: Cell)
    requires b[c] == None
    requires forall k :: 0 <= k < |WinningCombinations| ==> !LineWon(b, k)
    ensures CalculateWinner(b) == None
  {
    CalculateWinnerCorrect(b);
  }

  /** From the root (depth 0) every value lies in [-10, 10]. */
  lemma MinimaxRootRange(b: Board, isMaximizing: bool)
    ensures -10 <= Minimax(b, 0, isMaximizing) <= 10
  {
    MinimaxBounds(b, 0, isMaximizing);
  }

  /** `minimax` run on a shared array: each trial mark is put back to `null`
      before the next cell, so the array is as it was when the call returns. */
  method MinimaxSearch(board: array<SquareValue>, depth: nat, isMaximizing: bool) returns (score: int)
    requires board.Length == 9
    modifies board
    ensures board[..] == old(board[..])
    ensures score == Minimax(old(board[..]), depth, isMaximizing)
    decreases EmptyCount(board[..])
  {
    var b: Board := board[..];
    var result := CalculateWinner(b);
    if result == Some(Draw) {
      return 0;
    } else if result.Some? {
      return if result.value.winner == O then 10 - depth else depth - 10;
    }
    var mark := Mover(isMaximizing);
    var bestScore := Initial(isMaximizing);
    var i := 0;
    while i < 9
      invariant 0 <= i <= 9
      invariant board[..] == b
      invariant Fold(b, depth, isMaximizing, i, bestScore) == Minimax(b, depth, isMaximizing)
    {
      if board[i] == None {
        PlaceCounts(b, i, mark);
        board[i] := Some(mark);
        assert board[..] == b[i := Some(mark)];
        var s := MinimaxSearch(board, depth + 1, !isMaximizing);
        board[i] := None;
        assert board[..] == b;
        bestScore := Combine(isMaximizing, s, bestScore);
      }
      i := i + 1;
    }
    score := bestScore;
  }

  // ---------------------------------------------------------------------------
  // getBestMove

  /** The empty cells from `i` on, in ascending order. */
  function AvailableFrom(b: Board, i: nat): (r: seq<Cell>)
    requires i <= 9
    ensures forall k :: 0 <= k < |r| ==> i <= r[k] && b[r[k]] == None
    ensures forall c: Cell :: i <= c && b[c] == None ==> c in r
    ensures forall k, l :: 0 <= k < l < |r| ==> r[k] < r[l]
    decreases 9 - i
  {
    if i == 9 then []
    else if b[i] == None then [i as Cell] + AvailableFrom(b, i + 1)
    else AvailableFrom(b, i + 1)
  }

  /** `availableMoves`: exactly the empty cells, in ascending order. */
  function AvailableMoves(b: Board): (r: seq<Cell>)
    ensures forall c: Cell :: c in r <==> b[c] == None
    ensures forall k, l :: 0 <= k < l < |r| ==> r[k] < r[l]
    ensures |r| == 0 <==> None !in b
  {
    var r := AvailableFrom(b, 0);
    assert None in b ==> exists c: Cell :: b[c] == None;
    r
  }

  /** A uniform pick from the list: the draw `pick` in [0, 1), scaled by the
      list's length and rounded down, is the index taken. An empty list yields
      JavaScript's `undefined`, written -1 here. */
  function RandomMove(moves: seq<Cell>, pick: real): (m: int)
    requires 0.0 <= pick < 1.0
    ensures |moves| > 0 ==> m in moves
    ensures |moves| == 0 ==> m == -1
  {
    if |moves| == 0 then -1
    else
      ScaledDrawInRange(pick, |moves|);
      moves[(pick * |moves| as real).Floor]
  }

  /** `Math.floor(r * n)` for a draw r in [0, 1) is an index below n. */
  lemma ScaledDrawInRange(r: real, n: nat)
    requires 0.0 <= r < 1.0 && n > 0
    ensures 0 <= (r * n as real).Floor < n
  {
  }

  /** The value of playing O on cell `i` at the root: `minimax(board, 0, false)`
      after `board[i] = 'O'`. */
  function RootScore(b: Board, i: Cell): int
    requires b[i] == None
  {
    Minimax(b[i := Some(O)], 0, false)
  }

  /** The root scores of all nine cells (0 for an occupied cell, which the
      root loop never looks at). */
  function RootScores(b: Board): (s: seq<int>)
    ensures |s| == 9
    ensures forall i: Cell :: b[i] == None ==> s[i] == RootScore(b, i)
  {
    seq(9, i requires 0 <= i < 9 => if b[i] == None then RootScore(b, i) else 0)
  }

  /** Which cells are empty. */
  function FreeCells(b: Board): (f: seq<bool>)
    ensures |f| == 9
    ensures forall i: Cell :: f[i] <==> b[i] == None
  {
    seq(9, i requires 0 <= i < 9 => b[i] == None)
  }

  /** The root loop of `getBestMove` from cell `i` on, over the cells marked
      `free` and their `scores`: a cell replaces the current choice only when
      its score is strictly greater. */
  function FirstArgmaxFrom(free: seq<bool>, scores: seq<int>, i: nat, bestScore: int, move: int): int
    requires |free| == |scores| && i <= |free|
    decreases |free| - i
  {
    if i == |free| then move
    else if free[i] && scores[i] > bestScore then
      FirstArgmaxFrom(free, scores, i + 1, scores[i], i)
    else FirstArgmaxFrom(free, scores, i + 1, bestScore, move)
  }

  /** The minimax choice: the root loop started with bestScore = -Infinity and
      move = -1. */
  function BestMove(b: Board): int {
    FirstArgmaxFrom(FreeCells(b), RootScores(b), 0, MinusInfinity, -1)
  }

  /** The state of the root loop after cells 0..i-1: nothing chosen while no
      free cell has been seen, else the first free cell of largest score. */
  ghost predicate ArgmaxState(free: seq<bool>, scores: seq<int>, i: nat, bestScore: int, move: int)
    requires |free| == |scores| && i <= |free|
  {
    if forall j :: 0 <= j < i ==> !free[j] then
      move == -1 && bestScore == MinusInfinity
    else
      0 <= move < i && free[move] && bestScore == scores[move] &&
      (forall j :: 0 <= j < i && free[j] ==> scores[j] <= bestScore) &&
      (forall j :: 0 <= j < move && free[j] ==> scores[j] < bestScore)
  }

  /** When every free cell scores above -Infinity, the root loop ends with -1
      if no cell is free, and otherwise with the first free cell of largest
      score. */
  lemma {:induction false} FirstArgmaxFromCorrect(free: seq<bool>, scores: seq<int>, i: nat, bestScore: int, move: int)
    requires |free| == |scores| && i <= |free|
    requires forall j :: 0 <= j < |free| && free[j] ==> scores[j] > MinusInfinity
    requires ArgmaxState(free, scores, i, bestScore, move)
    ensures var m := FirstArgmaxFrom(free, scores, i, bestScore, move);
      if forall j :: 0 <= j < |free| ==> !free[j] then m == -1
      else 0 <= m < |free| && ArgmaxState(free, scores, |free|, scores[m], m)
    decreases |free| - i
  {
    if i < |free| {
      if free[i] && scores[i] > bestScore {
        FirstArgmaxFromCorrect(free, scores, i + 1, scores[i], i);
      } else {
        FirstArgmaxFromCorrect(free, scores, i + 1, bestScore, move);
      }
    }
  }

  lemma RootScoreRange(b: Board, i: Cell)
    requires b[i] == None
    ensures -10 <= RootScore(b, i) <= 10
  {
    PlaceCounts(b, i, O);
    MinimaxBounds(b[i := Some(O)], 0, false);
  }

  /** On a full board no move is chosen (-1); otherwise the choice is an empty
      cell whose score is maximal, and no earlier empty cell has that score. */
  lemma BestMoveIsFirstArgmax(b: Board)
    ensures None !in b ==> BestMove(b) == -1
    ensures None in b ==>
      var m := BestMove(b);
      0 <= m < 9 && b[m] == None &&
      (forall j: Cell :: b[j] == None ==> RootScore(b, j) <= RootScore(b, m)) &&
      (forall j: Cell :: j < m && b[j] == None ==> RootScore(b, j) < RootScore(b, m))
  {
    var free, scores := FreeCells(b), RootScores(b);
    forall j | 0 <= j < 9 && free[j]
      ensures scores[j] > MinusInfinity
    {
      RootScoreRange(b, j);
    }
    FirstArgmaxFromCorrect(free, scores, 0, MinusInfinity, -1);
    if None in b {
      var c :| 0 <= c < 9 && b[c] == None;
      assert free[c];
    }
  }

  /** The whole decision of `getBestMove`, with the random draws as inputs:
      EASY plays at random; MEDIUM plays at random when the first draw exceeds
      0.5; otherwise the minimax choice. */
  function ChooseMove(b: Board, difficulty: Difficulty, coin: real, pick: real): int
    requires 0.0 <= coin < 1.0 && 0.0 <= pick < 1.0
  {
    if difficulty == Easy || (difficulty == Medium && coin > 0.5) then
      RandomMove(AvailableMoves(b), pick)
    else BestMove(b)
  }

  /** Whatever the strength and the draws, a board with an empty cell gets an
      empty cell back, and a full board gets -1. */
  lemma ChooseMoveIsEmptyCell(b: Board, difficulty: Difficulty, coin: real, pick: real)
    requires 0.0 <= coin < 1.0 && 0.0 <= pick < 1.0
    ensures var m := ChooseMove(b, difficulty, coin, pick);
      (None in b ==> 0 <= m < 9 && b[m] == None) && (None !in b ==> m == -1)
  {
    BestMoveIsFirstArgmax(b);
  }

  /** A random choice is one of the available moves; HARD, and MEDIUM when the
      draw is at most 0.5, play the minimax choice, which depends on the board
      alone. */
  lemma ChooseMoveBranches(b: Board, difficulty: Difficulty, coin: real, pick: real)
    requires 0.0 <= coin < 1.0 && 0.0 <= pick < 1.0
    ensures var m := ChooseMove(b, difficulty, coin, pick);
      (difficulty == Easy || (difficulty == Medium && coin > 0.5)) && None in b ==>
        m in AvailableMoves(b)
    ensures difficulty == Hard || (difficulty == Medium && coin <= 0.5) ==>
      ChooseMove(b, difficulty, coin, pick) == BestMove(b)
  {
    BestMoveIsFirstArgmax(b);
  }

  /** One step of the root loop of `getBestMove`: O tries the empty cell `i`,
      the position is searched with X to move, and the cell is cleared again. */
  method TryRootCell(board: array<SquareValue>, i: Cell) returns (score: int)
    requires board.Length == 9 && board[i] == None
    modifies board
    ensures board[..] == old(board[..])
    ensures score == RootScore(old(board[..]), i)
  {
    ghost var b: Board := board[..];
    board[i] := Some(O);
    assert board[..] == b[i := Some(O)];
    score := MinimaxSearch(board, 0, false);
    board[i] := None;
    assert board[..] == b;
  }

  /** `getBestMove` on the shared array: it tries each empty cell in place and
      restores it, so the board is unchanged, and it returns the decision
      `ChooseMove` describes. */
  method GetBestMove(board: array<SquareValue>, difficulty: Difficulty, coin: real, pick: real)
    returns (move: int)
    requires board.Length == 9
    requires 0.0 <= coin < 1.0 && 0.0 <= pick < 1.0
    modifies board
    ensures board[..] == old(board[..])
    ensures move == ChooseMove(old(board[..]), difficulty, coin, pick)
  {
    var b: Board := board[..];
    var availableMoves := AvailableMoves(b);
    if difficulty == Easy {
      return RandomMove(availableMoves, pick);
    }
    if difficulty == Medium {
      if coin > 0.5 {
        return RandomMove(availableMoves, pick);
      }
    }
    ghost var free, scores := FreeCells(b), RootScores(b);
    var bestScore := MinusInfinity;
    move := -1;
    var i := 0;
    while i < 9
      invariant 0 <= i <= 9
      invariant board[..] == b
      invariant FirstArgmaxFrom(free, scores, i, bestScore, move) == BestMove(b)
    {
      if board[i] == None {
        var score := TryRootCell(board, i);
        assert free[i] && score == scores[i];
        if score > bestScore {
          bestScore := score;
          move := i;
        }
      }
      i := i + 1;
    }
  }
}
