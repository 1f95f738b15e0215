/** The game session of App.tsx without its rendering: the timeline of board
    snapshots with its cursor, the move log, the score tally, the settings,
    and the commands that change them. */
module App {
  import opened Types
  import opened GameLogic

  /** The session tally: wins by X, wins by O, draws. */
  datatype Scores = Scores(x: nat, o: nat, draw: nat)

  datatype PlayerNames = PlayerNames(x: string, o: string)

  /** One move-log line: who moved, with which mark, on which cell (1-based). */
  datatype MoveRecord = MoveRecord(player: string, symbol: Player, index: int)

  /** `xIsNext`: X moves on even steps, O on odd ones. */
  function ToMove(step: nat): Player {
    if step % 2 == 0 then X else O
  }

  function NameOf(names: PlayerNames, p: Player): string {
    if p == X then names.x else names.o
  }

  function Total(s: Scores): nat {
    s.x + s.o + s.draw
  }

  /** The tally after a board with result `r`: the draw counter for a draw,
      else the winner's counter; nothing when there is no result. */
  function Tally(s: Scores, r: Option<GameResult>): Scores {
    match r
    case None => s
    case Some(Draw) => s.(draw := s.draw + 1)
    case Some(Win(X, _)) => s.(x := s.x + 1)
    case Some(Win(O, _)) => s.(o := s.o + 1)
  }

  /** Exactly one counter goes up by one for a finished game, the one matching
      its result, and the other two keep their values; a game still in
      progress leaves all three alone. */
  lemma TallyCountsOneGame(s: Scores, r: Option<GameResult>)
    ensures var t := Tally(s, r);
      Total(t) == Total(s) + (if r.Some? then 1 else 0) &&
      t.x >= s.x && t.o >= s.o && t.draw >= s.draw &&
      (t.x == s.x + 1 <==> r.Some? && r.value.Win? && r.value.winner == X) &&
      (t.o == s.o + 1 <==> r.Some? && r.value.Win? && r.value.winner == O) &&
      (t.draw == s.draw + 1 <==> r == Some(Draw))
    ensures r == None ==> Tally(s, r) == s
  {
  }

  /** `leader`: the side with strictly more wins; draws do not count. */
  function Leader(s: Scores): (r: Option<Player>)
    ensures r == Some(X) <==> s.x > s.o
    ensures r == Some(O) <==> s.o > s.x
    ensures r == None <==> s.x == s.o
  {
    if s.x > s.o then Some(X)
    else if s.o > s.x then Some(O)
    else None
  }

  // ---------------------------------------------------------------------------
  // The timeline

  /** Snapshot `after` follows `before` by the move logged in `entry` at step
      `step`: a game without a result, one empty cell filled with the mark of
      the side to move. */
  ghost predicate LoggedMove(before: Board, after: Board, entry: MoveRecord, step: nat) {
    1 <= entry.index <= 9 && before[entry.index - 1] == None &&
    CalculateWinner(before) == None &&
    entry.symbol == ToMove(step) &&
    after == before[entry.index - 1 := Some(entry.symbol)]
  }

  /** The timeline starts from the empty board, holds one log line per move,
      and each snapshot is the previous one plus the logged move. */
  ghost predicate WellFormedTimeline(history: seq<Board>, log: seq<MoveRecord>) {
    |history| >= 1 && history[0] == EmptyBoard && |log| == |history| - 1 &&
    forall k :: 0 <= k < |log| ==> LoggedMove(history[k], history[k + 1], log[k], k)
  }

  /** Snapshot k holds ceil(k/2) X marks, floor(k/2) O marks and 9 - k empty
      cells; so X is never behind O and never more than one ahead. */
  lemma {:induction false} TimelineCounts(history: seq<Board>, log: seq<MoveRecord>, k: nat)
    requires WellFormedTimeline(history, log)
    requires k < |history|
    ensures Count(history[k], Some(X)) == (k + 1) / 2
    ensures Count(history[k], Some(O)) == k / 2
    ensures EmptyCount(history[k]) == 9 - k
  {
    if k == 0 {
      EmptyBoardCounts();
    } else {
      TimelineCounts(history, log, k - 1);
      assert LoggedMove(history[k - 1], history[k], log[k - 1], k - 1);
      PlaceCounts(history[k - 1], log[k - 1].index - 1, ToMove(k - 1));
    }
  }

  /** A game has at most nine moves, so at most ten snapshots. */
  lemma TimelineLength(history: seq<Board>, log: seq<MoveRecord>)
    requires WellFormedTimeline(history, log)
    ensures |history| <= 10
  {
    TimelineCounts(history, log, |history| - 1);
  }

  /** Branching: cutting the timeline after the cursor and appending the next
      move keeps it well formed. */
  lemma AppendKeepsTimeline(history: seq<Board>, log: seq<MoveRecord>, step: nat, entry: MoveRecord, next: Board)
    requires WellFormedTimeline(history, log)
    requires step < |history|
    requires LoggedMove(history[step], next, entry, step)
    ensures WellFormedTimeline(history[..step + 1] + [next], log[..step] + [entry])
  {
    var h, l := history[..step + 1] + [next], log[..step] + [entry];
    forall k | 0 <= k < |l|
      ensures LoggedMove(h[k], h[k + 1], l[k], k)
    {
      if k < step {
        assert LoggedMove(history[k], history[k + 1], log[k], k);
        assert h[k] == history[k] && h[k + 1] == history[k + 1] && l[k] == log[k];
      } else {
        assert h[k] == history[step] && h[k + 1] == next && l[k] == entry;
      }
    }
  }

  // ---------------------------------------------------------------------------
  // The session

  class Session {
    var history: seq<Board>
    var currentStep: nat
    var moveLog: seq<MoveRecord>
    var playerNames: PlayerNames
    var mode: GameMode
    var difficulty: Difficulty
    var isAiThinking: bool
    var scores: Scores

    /** The cursor points into a well-formed timeline. */
    ghost predicate Valid()
      reads this
    {
      WellFormedTimeline(history, moveLog) && currentStep < |history|
    }

    /** The initial state: one empty snapshot, single-player mode at HARD. */
    constructor ()
      ensures Valid()
      ensures history == [EmptyBoard] && currentStep == 0 && moveLog == []
      ensures playerNames == PlayerNames("Player X", "Player O")
      ensures mode == Single && difficulty == Hard && !isAiThinking
      ensures scores == Scores(0, 0, 0)
    {
      history := [EmptyBoard];
      currentStep := 0;
      moveLog := [];
      playerNames := PlayerNames("Player X", "Player O");
      mode := Single;
      difficulty := Hard;
      isAiThinking := false;
      scores := Scores(0, 0, 0);
    }

    /** The board on display: the snapshot under the cursor. */
    function CurrentBoard(): Board
      reads this
      requires Valid()
    {
      history[currentStep]
    }

    /** `makeMove`: ignored on an occupied cell, on a board with a result and
      while the computer is thinking; otherwise the mark of the side to move
      goes on `index`, the timeline is cut after the cursor and the new
      snapshot appended, the log likewise, and the tally counts a finished game. */
    method MakeMove(index: Cell)
      requires Valid()
      modifies this
      ensures Valid()
      ensures var b := old(CurrentBoard());
        old(isAiThinking) || b[index] != None || CalculateWinner(b) != None ==> unchanged(this)
      ensures var b := old(CurrentBoard());
        var p := ToMove(old(currentStep));
        !old(isAiThinking) && b[index] == None && CalculateWinner(b) == None ==>
          history == old(history[..currentStep + 1]) + [b[index := Some(p)]] &&
          currentStep == old(currentStep) + 1 == |history| - 1 &&
          moveLog == old(moveLog[..currentStep]) + [MoveRecord(NameOf(old(playerNames), p), p, index + 1)] &&
          scores == Tally(old(scores), CalculateWinner(b[index := Some(p)])) &&
          playerNames == old(playerNames) && mode == old(mode) &&
          difficulty == old(difficulty) && isAiThinking == old(isAiThinking)
    {
      var board := CurrentBoard();
      if board[index] != None || CalculateWinner(board) != None || isAiThinking {
        return;
      }
      var symbol := ToMove(currentStep);
      var newBoard := board[index := Some(symbol)];
      var entry := MoveRecord(NameOf(playerNames, symbol), symbol, index + 1);
      AppendKeepsTimeline(history, moveLog, currentStep, entry, newBoard);
      moveLog := moveLog[..currentStep] + [entry];
      history := history[..currentStep + 1] + [newBoard];
      currentStep := |history| - 1;
      scores := Tally(scores, CalculateWinner(newBoard));
    }

    /** The condition of the computer's turn (App.tsx, the effect's guard):
      single-player mode, O to move, no result, cursor at the latest snapshot. */
    predicate AiTurn()
      reads this
      requires Valid()
    {
      mode == Single && !(currentStep % 2 == 0) &&
      CalculateWinner(CurrentBoard()) == None && currentStep == |history| - 1
    }

    /** The computer's turn (the delayed effect of App.tsx): it fires only when
      `AiTurn()` holds and then plays `getBestMove` through the `makeMove` path.
      The thinking flag set by the callback is not seen by that `makeMove` (its
      closure holds the flag as it was, false), and it is false again when the
      callback ends. */
    method AiStep(coin: real, pick: real) returns (move: int)
      requires Valid()
      requires 0.0 <= coin < 1.0 && 0.0 <= pick < 1.0
      modifies this
      ensures Valid()
      ensures !old(AiTurn()) ==> unchanged(this) && move == -1
      ensures var b := old(CurrentBoard());
        old(AiTurn()) ==>
          move == ChooseMove(b, old(difficulty), coin, pick) &&
          0 <= move < 9 && b[move] == None &&
          history == old(history) + [b[move := Some(O)]] &&
          currentStep == old(currentStep) + 1 == |history| - 1 &&
          moveLog == old(moveLog) + [MoveRecord(old(playerNames.o), O, move + 1)] &&
          scores == Tally(old(scores), CalculateWinner(b[move := Some(O)])) &&
          playerNames == old(playerNames) && mode == old(mode) &&
          difficulty == old(difficulty) && !isAiThinking
    {
      if !AiTurn() {
        return -1;
      }
      ghost var b, h, l, step := CurrentBoard(), history, moveLog, currentStep;
      move := BestMoveNow(coin, pick);
      isAiThinking := false;
      assert h[..step + 1] == h && l[..step] == l;
      MakeMove(move);
      assert history == h + [b[move := Some(O)]];
    }

    /** `getBestMove(board, difficulty)` on a copy of the snapshot under the
      cursor: on a board without a result it is an empty cell. */
    method BestMoveNow(coin: real, pick: real) returns (move: int)
      requires Valid()
      requires 0.0 <= coin < 1.0 && 0.0 <= pick < 1.0
      ensures move == ChooseMove(CurrentBoard(), difficulty, coin, pick)
      ensures CalculateWinner(CurrentBoard()) == None ==> 0 <= move < 9 && CurrentBoard()[move] == None
    {
      var b := CurrentBoard();
      var board := new SquareValue[9](i requires 0 <= i < 9 => b[i]);
      assert board[..] == b;
      move := GetBestMove(board, difficulty, coin, pick);
      if CalculateWinner(b) == None {
        NoResultHasEmptyCell(b);
      }
      ChooseMoveIsEmptyCell(b, difficulty, coin, pick);
    }

    /** `undo`: nothing at step 0; in single-player mode on X's turn from step 2
      on, two plies back; otherwise one. The timeline itself is kept. */
    method Undo()
      requires Valid()
      modifies this`currentStep
      ensures Valid()
      ensures old(currentStep) == 0 ==> currentStep == 0
      ensures old(currentStep) >= 2 && mode == Single && old(currentStep) % 2 == 0 ==>
        currentStep == old(currentStep) - 2
      ensures old(currentStep) >= 1 && !(old(currentStep) >= 2 && mode == Single && old(currentStep) % 2 == 0) ==>
        currentStep == old(currentStep) - 1
      ensures mode == Single && old(currentStep) > 0 ==> ToMove(currentStep) == X
    {
      if currentStep == 0 {
        return;
      }
      if mode == Single && currentStep >= 2 && currentStep % 2 == 0 {
        currentStep := currentStep - 2;
      } else {
        currentStep := currentStep - 1;
      }
    }

    /** `redo`: one step forward when a later snapshot exists. */
    method Redo()
      requires Valid()
      modifies this`currentStep
      ensures Valid()
      ensures currentStep == if old(currentStep) < |history| - 1 then old(currentStep) + 1 else old(currentStep)
    {
      if currentStep < |history| - 1 {
        currentStep := currentStep + 1;
      }
    }

    /** `resetGame`: back to one empty snapshot at step 0 with an empty log;
      the tally and the settings are kept. */
    method ResetGame()
      requires Valid()
      modifies this`history, this`currentStep, this`moveLog
      ensures Valid()
      ensures history == [EmptyBoard] && currentStep == 0 && moveLog == []
    {
      history := [EmptyBoard];
      currentStep := 0;
      moveLog := [];
    }

    /** `resetScores`: all three counters to zero; the game is kept. */
    method ResetScores()
      requires Valid()
      modifies this`scores
      ensures Valid()
      ensures scores == Scores(0, 0, 0)
    {
      scores := Scores(0, 0, 0);
    }

    /** `updateSettings`: a change of mode or strength is applied and restarts
      the game; asking for the current settings changes nothing. */
    method UpdateSettings(newMode: GameMode, newDifficulty: Difficulty)
      requires Valid()
      modifies this
      ensures Valid()
      ensures newMode == old(mode) && newDifficulty == old(difficulty) ==> unchanged(this)
      ensures newMode != old(mode) || newDifficulty != old(difficulty) ==>
        mode == newMode && difficulty == newDifficulty &&
        history == [EmptyBoard] && currentStep == 0 && moveLog == [] &&
        scores == old(scores) && playerNames == old(playerNames) &&
        isAiThinking == old(isAiThinking)
    {
      if newMode != mode || newDifficulty != difficulty {
        mode := newMode;
        difficulty := newDifficulty;
        ResetGame();
      }
    }

    /** `setPlayerNames`: only the names change; later log lines use them. */
    method SetPlayerNames(names: PlayerNames)
      requires Valid()
      modifies this`playerNames
      ensures Valid()
      ensures playerNames == names
    {
      playerNames := names;
    }
  }
}
