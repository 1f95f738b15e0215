/** The value types shared by the engine and the session: players, cells,
    boards, game mode and opponent strength (types.ts). */
module Types {

  datatype Option<+T> = None | Some(value: T)

  /** The two sides; X always moves first. */
  datatype Player = X | O

  /** A cell is empty (`None`, the source's `null`) or holds a player's mark. */
  type SquareValue = Option<Player>

  datatype GameMode = Single | Multi

  datatype Difficulty = Easy | Medium | Hard

  /** A cell index of the 3x3 grid, row-major (index = row * 3 + column). */
  type Cell = i: int | 0 <= i < 9

  /** A board is exactly nine cells. */
  type Board = b: seq<SquareValue> | |b| == 9
    witness [None, None, None, None, None, None, None, None, None]

  const EmptyBoard: Board := [None, None, None, None, None, None, None, None, None]

  /** The other side. */
  function Opponent(p: Player): (q: Player)
    ensures q != p
  {
    if p == X then O else X
  }

  /** The number of cells of `b` that hold `v`. */
  function Count(b: Board, v: SquareValue): (n: nat)
    ensures n <= 9
  {
    multiset(b)[v]
  }

  /** The number of empty cells; it is the termination measure of the search. */
  function EmptyCount(b: Board): (n: nat)
    ensures n <= 9
    ensures n == 0 <==> None !in b
  {
    Count(b, None)
  }

  /** Filling one empty cell removes exactly one empty cell and adds one mark,
      leaving every other count alone. */
  lemma PlaceCounts(b: Board, i: Cell, p: Player)
    requires b[i] == None
    ensures EmptyCount(b[i := Some(p)]) == EmptyCount(b) - 1
    ensures Count(b[i := Some(p)], Some(p)) == Count(b, Some(p)) + 1
    ensures Count(b[i := Some(p)], Some(Opponent(p))) == Count(b, Some(Opponent(p)))
  {
    assert multiset(b[i := Some(p)]) == multiset(b) - multiset{None} + multiset{Some(p)};
  }

  lemma EmptyBoardCounts()
    ensures EmptyCount(EmptyBoard) == 9
    ensures Count(EmptyBoard, Some(X)) == 0 && Count(EmptyBoard, Some(O)) == 0
  {
  }
}
