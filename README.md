# Tic-tac-toe engine and session, modelled in Dafny

This project models the game core of a 3×3 tic-tac-toe app, where one human plays another or plays the computer. It covers two parts:

- **Outcome evaluation and move selection** (`services/gameLogic.ts`), in module `GameLogic`:
  - `calculateWinner` becomes the function `CalculateWinner`, using the table `WinningCombinations`.
  - `minimax` becomes the function `Minimax` (with its inner loop `Fold`) and the method `MinimaxSearch`, which works in place on an `array<SquareValue>`.
  - `getBestMove` becomes the function `ChooseMove` and the method `GetBestMove`, which also works in place on an array.
  - Each method is proved to return its function's value and to leave the array as it found it.
- **The session** (the non-rendering part of `App.tsx`), in module `App`:
  - A `Session` class holds the fields `history` (the timeline of board snapshots), `currentStep` (the cursor), `moveLog`, `playerNames`, `mode`, `difficulty`, `isAiThinking` and `scores`.
  - There is one method per command: `makeMove`, the computer's turn, `undo`, `redo`, `resetGame`, `resetScores`, `updateSettings` and `setPlayerNames`.
  - `leader` is a pure function of the scores.
  - The class invariant `Valid()` says three things:
    - the cursor lies inside the timeline;
    - the timeline starts from the empty board;
    - each snapshot is the previous one plus the move logged for it, played by the side whose turn it was, on a board that had no result yet.

The value types of `types.ts` are in module `Types`: `Player`, `SquareValue` (an `Option<Player>`), `GameMode`, `Difficulty` and `Board` (exactly nine cells). Module `Scenarios` holds concrete examples:
- sample boards for `calculateWinner`;
- the engine taking an immediate win;
- two client methods that play games through the session. `BranchDiscardsRedo` shows that redo cannot reach a snapshot discarded by branching. `UndoSkipsReply` shows undo stepping back over the computer's reply.

Three points where the intended behaviour and the code could be read differently; the model follows the code:
- **Successor check.** An appended snapshot could be validated as a legal successor of the previous one. The code never does this, because `makeMove` builds the successor itself. The model proves it as an invariant instead (`App.AppendKeepsTimeline`).
- **Scores.** One might expect one counter per completed game. The code increments a counter on every move that ends a game. So a finishing move that is undone and played again is counted again. `MakeMove` models the code.
- **Undo and redo.** The code does not guard `undo` and `redo` with the thinking flag. Only the buttons are disabled (`App.tsx:222`, `App.tsx:230`).

## Model

| member | source | states |
|---|---|---|
| `GameLogic.CalculateWinner` | services/gameLogic.ts:5-16 | No contract of its own. It is specified by `CalculateWinnerCorrect`, `WinnerOwnsLine` and `NoResultHasEmptyCell`. |
| `GameLogic.FirstWinFrom` | services/gameLogic.ts:6-11 | The scan returns the first complete line at or after `k` in table order, or the table length when no later line is complete. |
| `GameLogic.CalculateWinnerCorrect` | services/gameLogic.ts:5-16 | Exactly one of three results holds. A win happens exactly when some line has three equal non-null marks, and it reports the first such line in table order with its mark. A draw happens exactly when no line is complete and no cell is null. No result happens exactly when no line is complete and some cell is null. |
| `GameLogic.WinnerOwnsLine` | services/gameLogic.ts:8-9 | All three cells of the reported line hold the reported winner's mark. |
| `GameLogic.NoResultHasEmptyCell` | services/gameLogic.ts:12-15 | A board with no result has an empty cell. |
| `GameLogic.MinimaxTerminalScores` | services/gameLogic.ts:19-22 | On a finished board, the score is 10 - depth for an O win, depth - 10 for an X win and 0 for a draw, whichever side is to move. |
| `GameLogic.MinimaxBounds` | services/gameLogic.ts:18-47 | If every leaf is at most ten plies deep, the score lies in [depth - 10, 10 - depth]. So the ±Infinity stand-ins are never returned: a board without a result always has a child to search. |
| `GameLogic.FoldBounds` | services/gameLogic.ts:24-46 | The max and min loops stay within the same bounds once at least one empty cell has been visited. |
| `GameLogic.MinimaxRootRange` | services/gameLogic.ts:18-22 | From depth 0, every score lies in [-10, 10]. |
| `GameLogic.FoldOverOccupied` | services/gameLogic.ts:26-27 | When no empty cell remains, the loop leaves the best score unchanged. |
| `GameLogic.NoResultYet` | services/gameLogic.ts:12-15 | A board with an empty cell and no complete line has no result. |
| `GameLogic.Minimax` | services/gameLogic.ts:18-47 | No contract of its own. It is specified by `MinimaxTerminalScores` and `MinimaxBounds`, and `MinimaxSearch` is proved equal to it. |
| `GameLogic.Fold` | services/gameLogic.ts:24-46 | No contract of its own. It is specified by `FoldBounds` and `FoldOverOccupied`. |
| `GameLogic.MinimaxSearch` | services/gameLogic.ts:18-47 | The in-place search restores every trial cell to null, so the array is unchanged on return. Its result equals `Minimax` of the input board. It terminates because each recursive call has one empty cell fewer. |
| `GameLogic.AvailableFrom` | services/gameLogic.ts:50 | The empty cells from index `i` on, each one exactly once, in strictly ascending order. |
| `GameLogic.AvailableMoves` | services/gameLogic.ts:50 | `availableMoves` holds exactly the null cells, in ascending order. It is empty exactly when the board is full. |
| `GameLogic.RandomMove` | services/gameLogic.ts:53 | `floor(random * n)` indexes the move list, so the random move is one of the available moves. An empty list gives -1, which stands for JavaScript's `undefined`. |
| `GameLogic.ScaledDrawInRange` | services/gameLogic.ts:53 | For a draw in [0, 1), `floor(r * n)` is a valid index below n. |
| `GameLogic.FirstArgmaxFrom` | services/gameLogic.ts:64-77 | No contract of its own. It is specified by `FirstArgmaxFromCorrect`. |
| `GameLogic.BestMove` | services/gameLogic.ts:63-77 | No contract of its own. It is specified by `BestMoveIsFirstArgmax`. |
| `GameLogic.FirstArgmaxFromCorrect` | services/gameLogic.ts:64-77 | The root loop with its strict `>` ends with -1 when no cell is free. Otherwise it ends with a free cell whose score is maximal, and every earlier free cell scores strictly less. |
| `GameLogic.RootScoreRange` | services/gameLogic.ts:69 | Every root score lies in [-10, 10], above the -Infinity start value. |
| `GameLogic.BestMoveIsFirstArgmax` | services/gameLogic.ts:63-77 | On the minimax path, a full board gives -1. Otherwise the result is the lowest-index empty cell with the maximal score. |
| `GameLogic.ChooseMove` | services/gameLogic.ts:49-78 | No contract of its own. It is specified by `ChooseMoveIsEmptyCell` and `ChooseMoveBranches`, and `GetBestMove` is proved equal to it. |
| `GameLogic.ChooseMoveIsEmptyCell` | services/gameLogic.ts:49-78 | At every strength and for every random draw, a board with an empty cell gets an empty cell back, and a full board gets -1. |
| `GameLogic.ChooseMoveBranches` | services/gameLogic.ts:52-61 | EASY, and MEDIUM when the draw is above 0.5, return one of the available moves. HARD, and MEDIUM otherwise, return the minimax choice, which depends on the board alone. |
| `GameLogic.TryRootCell` | services/gameLogic.ts:67-70 | One root step places O on an empty cell, searches with X to move and clears the cell again. The array is unchanged and the score is that cell's root score. |
| `GameLogic.GetBestMove` | services/gameLogic.ts:49-78 | `getBestMove` leaves the shared array unchanged and returns the decision `ChooseMove` describes. |
| `Types.PlaceCounts` | App.tsx:34-35 | Placing a mark on an empty cell removes one empty cell and adds one mark of that side. No other count changes. |
| `Types.EmptyCount` | services/gameLogic.ts:12 | The number of empty cells is at most 9, and it is 0 exactly when the board contains no null. |
| `App.Tally` | App.tsx:46-55 | No contract of its own. It is specified by `TallyCountsOneGame`. |
| `App.TallyCountsOneGame` | App.tsx:46-55 | A finished board raises exactly one counter by one, X's, O's or the draw counter, matching its result. The other two keep their values. A board still in play leaves the scores unchanged. |
| `App.Leader` | App.tsx:104-108 | The leader is X exactly when X has more wins than O, O exactly when O has more wins than X, and nobody on a tie. Draws do not count. |
| `App.TimelineCounts` | App.tsx:32-44 | Snapshot k holds ceil(k/2) X marks, floor(k/2) O marks and 9 - k empty cells. So X is never behind O and never more than one mark ahead. |
| `App.TimelineLength` | App.tsx:37-44 | The timeline never holds more than ten snapshots. |
| `App.AppendKeepsTimeline` | App.tsx:37-44 | Cutting the timeline after the cursor and appending the next snapshot and log line keeps it well formed. |
| `App.Session.constructor` | App.tsx:10-19 | The initial state is one empty snapshot at step 0, an empty log, single-player mode at HARD, the flag false and all scores 0. |
| `App.Session.MakeMove` | App.tsx:29-56 | Nothing changes on an occupied cell, on a board with a result, or while the flag is set. Otherwise: the history becomes `history[..currentStep+1] + [newBoard]`, where `newBoard` is the current board with X (even step) or O (odd step) at `index`. The cursor moves to the new last snapshot. The log becomes `moveLog[..currentStep]` plus one entry for `index + 1`. The tally counts the new board's result. The settings are kept. |
| `App.Session.AiTurn` | App.tsx:59-60 | No contract of its own. It is the guard of the effect; `AiStep` states what happens on each side of it. |
| `App.Session.AiStep` | App.tsx:58-69 | Outside its guard, nothing changes. Inside it, O is placed on the cell `getBestMove` chooses. That cell is proved empty, so the move is always accepted. The timeline grows by that snapshot, the log by O's entry, the tally counts the result, and the flag ends false. |
| `App.Session.BestMoveNow` | App.tsx:63 | The move computed from the current snapshot is `ChooseMove` of it. On a board without a result, it is an empty cell. |
| `App.Session.Undo` | App.tsx:71-78 | At step 0, nothing changes. In single-player mode with X to move and at least two steps, the cursor goes back 2. Otherwise it goes back 1. The timeline is untouched. In single-player mode, undo always lands on X's turn. |
| `App.Session.Redo` | App.tsx:80-84 | The cursor moves forward one step exactly when a later snapshot exists. The timeline is untouched. |
| `App.Session.ResetGame` | App.tsx:86-90 | The timeline becomes one empty snapshot at step 0 with an empty log. Scores and settings are kept. |
| `App.Session.ResetScores` | App.tsx:92-94 | All three counters become 0. The game is kept. |
| `App.Session.UpdateSettings` | App.tsx:96-102 | A new mode or strength is applied and resets the game, keeping scores and names. Asking for the current settings changes nothing. |
| `App.Session.SetPlayerNames` | App.tsx:15 | Only the names change. Later log entries use them. |
| `Scenarios.TopRowWin` | services/gameLogic.ts:6-10 | `[X,X,X,O,O,_,_,_,_]` is a win for X on line (0, 1, 2). |
| `Scenarios.FullBoardDraw` | services/gameLogic.ts:12-14 | `[X,O,X,X,O,O,O,X,X]` is a draw. |
| `Scenarios.OpeningNoResult` | services/gameLogic.ts:15 | X in the centre and O in a corner give no result. |
| `Scenarios.TakeTheWin` | services/gameLogic.ts:63-77 | With O to move on `[O,O,_,X,X,_,X,O,X]`, the engine plays cell 2, the immediate win. |

Every operation of the session keeps `Valid()`, and every state-changing method states its whole new state. The field-level frames (`modifies this`currentStep` and so on) say which fields a command may touch.

## Left out

- Rendering is not modelled: the JSX and styling of `App.tsx` (lines 110-273), `components/SettingsModal.tsx`, `components/Square.tsx` and `tailwind.config.js`. They hold no game rules beyond the `disabled` flags of the buttons.
- The commentary service `services/geminiService.ts` is not part of this model. It calls an external service and has no effect on game state.
- `constants.ts` is not part of this model. The model assumes `WINNING_COMBINATIONS` lists the three rows, then the three columns, then the two diagonals, with row-major indices. That order decides which line is reported when several are complete at once.
- The 600 ms `setTimeout` and its `clearTimeout` cancellation are host scheduling, not modelled. `AiStep` is a step the environment takes, and it re-checks the guard when taken. A timer cancelled by a reset or a settings change corresponds to not taking the step.
- `Math.random()` is replaced by its draws, passed in as parameters: `coin` for the MEDIUM branch and `pick` for the index, both reals in [0, 1). Probabilities are not modelled.
- The float sentinels `-Infinity` and `Infinity` are replaced by the integers -1000 and 1000. `MinimaxBounds` proves that neither is ever returned.
- RandomMove: when no move is available, JavaScript yields `undefined`. The model returns -1 instead. This case cannot happen from the session, because the computer only moves on a board without a result.
- MakeMove: requires `index` to be a cell 0..8. Every caller passes such an index: the squares pass their position, and `getBestMove` passes a cell proved empty. The behaviour of a JavaScript array written out of range is not modelled.
- GetBestMove: the source passes the snapshot `history[currentStep]` itself, so the search mutates it and then restores it. The model copies the snapshot into a fresh array. The aliasing is not modelled; since restoration is proved, no observable state differs.
- Timing of the thinking flag is not modelled. In the source, `isAiThinking` is true only inside the timer callback. In the model it is never left true between commands, so the "ignored while thinking" branch of `MakeMove` is modelled but never reached from the session's own commands.
- Unbeatable play is not proved: neither that the engine never loses, nor that it replies in the centre to a corner opening. Either would need the verifier to evaluate the whole game tree. The model proves the search procedure and the selection rule only.
- Numbers in JavaScript are doubles. The model's scores and counters are unbounded integers, so wrap-around is not modelled; no game reaches the double range.
