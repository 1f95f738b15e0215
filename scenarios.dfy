/** Concrete games: outcome evaluation on sample boards, the engine taking an
    immediate win, and two session histories (branching after undo in
    two-player mode, the two-ply undo in single-player mode). */
module Scenarios {
  import opened Types
  import opened GameLogic
  import opened App

  /** Three in the top row: X wins on line (0, 1, 2). */
  lemma TopRowWin()
    ensures CalculateWinner([Some(X), Some(X), Some(X), Some(O), Some(O), None, None, None, None]) == Some(Win(X, (0, 1, 2)))
  {
  }

  /** A full board with no complete line is a draw. */
  lemma FullBoardDraw()
    ensures CalculateWinner([Some(X), Some(O), Some(X), Some(X), Some(O), Some(O), Some(O), Some(X), Some(X)]) == Some(Draw)
  {
  }

  /** X in the centre, O in a corner: no result yet. */
  lemma OpeningNoResult()
    ensures CalculateWinner(EmptyBoard[4 := Some(X)][0 := Some(O)]) == None
  {
    NoResultYet(EmptyBoard[4 := Some(X)][0 := Some(O)], 1);
  }

  /** O to move with two empty cells: cell 2 wins at once (score 10), cell 5
      lets X win on the diagonal (score -9), so the engine plays 2. */
  lemma TakeTheWin()
    ensures BestMove([Some(O), Some(O), None, Some(X), Some(X), None, Some(X), Some(O), Some(X)]) == 2
  {
    var b: Board := [Some(O), Some(O), None, Some(X), Some(X), None, Some(X), Some(O), Some(X)];
    assert CalculateWinner(b[2 := Some(O)]) == Some(Win(O, (0, 1, 2)));
    assert RootScore(b, 2) == 10;
    var c := b[5 := Some(O)];
    assert CalculateWinner(c) == None;
    assert CalculateWinner(c[2 := Some(X)]) == Some(Win(X, (2, 4, 6)));
    assert Minimax(c[2 := Some(X)], 1, true) == -9;
    FoldOverOccupied(c, 0, false, 3, -9);
    assert Fold(c, 0, false, 2, PlusInfinity) == -9;
    assert Fold(c, 0, false, 0, PlusInfinity) == -9;
    assert RootScore(b, 5) == -9;
    BestMoveIsFirstArgmax(b);
  }

  /** Two moves in two-player mode from a fresh session. */
  method TwoMoves() returns (s: Session)
    ensures fresh(s) && s.Valid() && s.mode == Multi && !s.isAiThinking && s.currentStep == 2
    ensures s.history == [EmptyBoard, EmptyBoard[4 := Some(X)], EmptyBoard[4 := Some(X)][0 := Some(O)]]
  {
    s := new Session();
    NoResultYet(EmptyBoard, 0);
    s.UpdateSettings(Multi, Hard);
    s.MakeMove(4);
    NoResultYet(EmptyBoard[4 := Some(X)], 0);
    s.MakeMove(0);
  }

  /** Undo then a different move: the snapshot that was undone is gone, and
      redo cannot bring it back. */
  method BranchDiscardsRedo()
  {
    var s := TwoMoves();
    s.Undo();
    assert s.currentStep == 1;
    NoResultYet(EmptyBoard[4 := Some(X)], 0);
    s.MakeMove(8);
    s.Redo();
    assert s.currentStep == 2 && |s.history| == 3;
    assert s.CurrentBoard() == EmptyBoard[4 := Some(X)][8 := Some(O)];
    assert forall k :: 0 <= k < |s.history| ==> s.history[k][0] == None;
  }

  /** X opens in the centre in a fresh single-player session. */
  method CentreOpening() returns (s: Session)
    ensures fresh(s) && s.Valid() && s.mode == Single && !s.isAiThinking
    ensures s.history == [EmptyBoard, EmptyBoard[4 := Some(X)]] && s.currentStep == 1
  {
    s := new Session();
    NoResultYet(EmptyBoard, 0);
    s.MakeMove(4);
  }

  /** Single-player mode: after X's move and the computer's reply, undo goes
      back over both plies to the empty board, where redo can step forward. */
  method UndoSkipsReply(coin: real, pick: real)
    requires 0.0 <= coin < 1.0 && 0.0 <= pick < 1.0
  {
    var s := CentreOpening();
    NoResultYet(EmptyBoard[4 := Some(X)], 0);
    assert s.AiTurn();
    var reply := s.AiStep(coin, pick);
    assert s.currentStep == 2 && reply != 4;
    s.Undo();
    assert s.currentStep == 0 && |s.history| == 3;
    s.Redo();
    assert s.currentStep == 1;
  }
}
