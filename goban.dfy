/** The board contract of the rules engine (IBoard) and the behaviour the
    GameBoard tests assert of it: a size x size grid of stone colours, the
    snapshot of the previous position used for ko, capture counters. */
module Goban {
  import opened Wrappers

  datatype StoneColor = Empty | Black | White

  /** What GetStone hands out: the coordinates of a cell and its colour. */
  datatype Stone = Stone(x: int, y: int, color: StoneColor)

  datatype BoardError = OutOfRange

  /** Coordinates (x1, y1) and (x2, y2) are orthogonal neighbours. */
  predicate Adjacent(x1: int, y1: int, x2: int, y2: int)
  {
    (x1 == x2 && (y1 == y2 + 1 || y2 == y1 + 1)) || (y1 == y2 && (x1 == x2 + 1 || x2 == x1 + 1))
  }

  /** Two grids of the same dimensions hold the same colour everywhere. */
  ghost predicate SameGrid(a: array2<StoneColor>, b: array2<StoneColor>)
    reads a, b
    requires a.Length0 == b.Length0 && a.Length1 == b.Length1
  {
    forall i, j :: 0 <= i < a.Length0 && 0 <= j < a.Length1 ==> a[i, j] == b[i, j]
  }

  /** Copies `src` into `dst` cell by cell. */
  method CopyGrid(src: array2<StoneColor>, dst: array2<StoneColor>)
    requires src != dst
    requires src.Length0 == dst.Length0 && src.Length1 == dst.Length1
    modifies dst
    ensures SameGrid(src, dst)
  {
    var i := 0;
    while i < src.Length0
      invariant 0 <= i <= src.Length0
      invariant forall a, b :: 0 <= a < i && 0 <= b < src.Length1 ==> dst[a, b] == src[a, b]
    {
      var j := 0;
      while j < src.Length1
        invariant 0 <= j <= src.Length1
        invariant forall a, b :: 0 <= a < i && 0 <= b < src.Length1 ==> dst[a, b] == src[a, b]
        invariant forall b :: 0 <= b < j ==> dst[i, b] == src[i, b]
      {
        dst[i, j] := src[i, j];
        j := j + 1;
      }
      i := i + 1;
    }
  }

  class Board {
    /** Number of lines in each direction. */
    const size: nat
    /** Board[x, y]: the current position. */
    const board: array2<StoneColor>
    /** PreviousBoard: the position retained for the ko comparison. */
    const previousBoard: array2<StoneColor>
    var currentTurn: StoneColor
    var capturedBlackStones: int
    var capturedWhiteStones: int

    ghost predicate Valid()
      reads this
    {
      && board.Length0 == size && board.Length1 == size
      && previousBoard.Length0 == size && previousBoard.Length1 == size
      && board != previousBoard
    }

    /** A new board: every intersection empty, nothing captured. */
    constructor (n: nat)
      ensures Valid() && size == n
      ensures fresh(board) && fresh(previousBoard)
      ensures forall i, j :: 0 <= i < n && 0 <= j < n ==> board[i, j] == Empty && previousBoard[i, j] == Empty
      ensures currentTurn == Black && capturedBlackStones == 0 && capturedWhiteStones == 0
    {
      size := n;
      board := new StoneColor[n, n]((i, j) => Empty);
      previousBoard := new StoneColor[n, n]((i, j) => Empty);
      currentTurn := Black;
      capturedBlackStones, capturedWhiteStones := 0, 0;
    }

    /** Both coordinates lie in [0, size): exactly the pairs that index the
        grid. */
    predicate IsValidCoordinate(x: int, y: int): (r: bool)
      reads this
      ensures Valid() ==> (r <==> 0 <= x < board.Length0 && 0 <= y < board.Length1)
      ensures Valid() ==> (r <==> 0 <= x < previousBoard.Length0 && 0 <= y < previousBoard.Length1)
    {
      0 <= x < size && 0 <= y < size
    }

    /** The stone at exactly (x, y); outside the grid an OutOfRange error,
        never a clamped cell. */
    function GetStone(x: int, y: int): (r: Result<Stone, BoardError>)
      reads this, board
      requires Valid()
      ensures r.Success? <==> IsValidCoordinate(x, y)
      ensures r.Success? ==> r.value.x == x && r.value.y == y && r.value.color == board[x, y]
      ensures r.Failure? ==> r.error == OutOfRange
    {
      if IsValidCoordinate(x, y) then Success(Stone(x, y, board[x, y])) else Failure(OutOfRange)
    }

    /** Gives the cell of `stone` the colour `color`; every other cell, the
        snapshot and the counters keep their values. Coordinates off the grid
        are refused and change nothing. */
    method PlaceStone(stone: Stone, color: StoneColor) returns (r: Outcome<BoardError>)
      requires Valid()
      modifies board
      ensures r.Pass? <==> IsValidCoordinate(stone.x, stone.y)
      ensures forall i, j :: 0 <= i < size && 0 <= j < size ==>
        board[i, j] == if r.Pass? && i == stone.x && j == stone.y then color else old(board[i, j])
    {
      if IsValidCoordinate(stone.x, stone.y) {
        board[stone.x, stone.y] := color;
        r := Pass;
      } else {
        r := Fail(OutOfRange);
      }
    }

    /** The stone at (x, y) when that is on the grid, nothing otherwise. */
    function CellAt(x: int, y: int): (r: seq<Stone>)
      reads this, board
      requires Valid()
      ensures |r| <= 1
      ensures forall n :: n in r ==> n.x == x && n.y == y && IsValidCoordinate(x, y) && n.color == board[x, y]
      ensures IsValidCoordinate(x, y) ==> Stone(x, y, board[x, y]) in r
    {
      if IsValidCoordinate(x, y) then [Stone(x, y, board[x, y])] else []
    }

    /** The orthogonally adjacent stones of `stone` that lie on the grid,
        each with its current colour: at most four, and every on-grid
        neighbour is among them. */
    function GetNeighbors(stone: Stone): (r: seq<Stone>)
      reads this, board
      requires Valid()
      ensures |r| <= 4
      ensures forall n :: n in r ==>
        IsValidCoordinate(n.x, n.y) && Adjacent(stone.x, stone.y, n.x, n.y) && n.color == board[n.x, n.y]
      ensures forall x, y :: IsValidCoordinate(x, y) && Adjacent(stone.x, stone.y, x, y) ==>
        Stone(x, y, board[x, y]) in r
    {
      CellAt(stone.x - 1, stone.y) + CellAt(stone.x + 1, stone.y)
        + CellAt(stone.x, stone.y - 1) + CellAt(stone.x, stone.y + 1)
    }

    /** True exactly when the current position equals the snapshot. */
    method IsKoViolation() returns (r: bool)
      requires Valid()
      ensures r <==> SameGrid(board, previousBoard)
    {
      var i := 0;
      while i < size
        invariant 0 <= i <= size
        invariant forall a, b :: 0 <= a < i && 0 <= b < size ==> board[a, b] == previousBoard[a, b]
      {
        var j := 0;
        while j < size
          invariant 0 <= j <= size
          invariant forall b :: 0 <= b < j ==> board[i, b] == previousBoard[i, b]
        {
          if board[i, j] != previousBoard[i, j] {
            return false;
          }
          j := j + 1;
        }
        i := i + 1;
      }
      return true;
    }

    /** CopieBoard: the snapshot takes the colour of the current position at
        every cell; the current position is untouched. */
    method CopieBoard()
      requires Valid()
      modifies previousBoard
      ensures SameGrid(board, previousBoard)
    {
      CopyGrid(board, previousBoard);
    }

    /** A deep copy: same size, position, snapshot, turn and counters, in
        fresh arrays, so changing the copy leaves this board as it is. */
    method Clone() returns (c: Board)
      requires Valid()
      ensures fresh(c) && fresh(c.board) && fresh(c.previousBoard) && c.Valid()
      ensures c.size == size && SameGrid(board, c.board) && SameGrid(previousBoard, c.previousBoard)
      ensures c.currentTurn == currentTurn
      ensures c.capturedBlackStones == capturedBlackStones && c.capturedWhiteStones == capturedWhiteStones
    {
      c := new Board(size);
      CopyGrid(board, c.board);
      CopyGrid(previousBoard, c.previousBoard);
      c.currentTurn := currentTurn;
      c.capturedBlackStones, c.capturedWhiteStones := capturedBlackStones, capturedWhiteStones;
    }
  }

  /** After CopieBoard the position is a ko repetition of its snapshot, and
      recolouring one cell ends that. */
  method CopieThenKo(b: Board, recolour: StoneColor) returns (afterCopy: bool, afterMove: bool)
    requires b.Valid() && b.size > 0 && recolour != b.board[0, 0]
    modifies b.board, b.previousBoard
    ensures afterCopy && !afterMove
  {
    b.CopieBoard();
    afterCopy := b.IsKoViolation();
    var _ := b.PlaceStone(Stone(0, 0, b.board[0, 0]), recolour);
    afterMove := b.IsKoViolation();
  }

  // ---------------------------------------------------------------------
  // The assertions of GameBoardTests, as scenarios
  // ---------------------------------------------------------------------

  /** A new 9x9 board has size 9 and every cell Empty. */
  method InitializationScenario() returns (size: nat, allEmpty: bool)
    ensures size == 9 && allEmpty
  {
    var b := new Board(9);
    size := b.size;
    allEmpty := forall i, j :: 0 <= i < 9 && 0 <= j < 9 ==> b.board[i, j] == Empty;
  }

  /** GetStone(0, 0) names the stone at 0, 0. */
  method GetStoneScenario() returns (s: Result<Stone, BoardError>)
    ensures s.Success? && s.value.x == 0 && s.value.y == 0
  {
    var b := new Board(9);
    s := b.GetStone(0, 0);
  }

  /** GetStone(10, 10) on a 9x9 board is an out-of-range error. */
  method GetStoneOutOfRangeScenario() returns (s: Result<Stone, BoardError>)
    ensures s == Failure(OutOfRange)
  {
    var b := new Board(9);
    s := b.GetStone(10, 10);
  }

  /** On a 9x9 board (0, 0) is a valid coordinate and (9, 9) is not. */
  method ValidCoordinateScenario() returns (inside: bool, outside: bool)
    ensures inside && !outside
  {
    var b := new Board(9);
    inside := b.IsValidCoordinate(0, 0);
    outside := b.IsValidCoordinate(9, 9);
  }

  /** A White stone at (0, 0) and a Black one at (1, 1) are in the snapshot
      after CopieBoard. */
  method CopieBoardScenario() returns (at00: StoneColor, at11: StoneColor)
    ensures at00 == White && at11 == Black
  {
    var b := new Board(9);
    b.board[0, 0] := White;
    b.board[1, 1] := Black;
    b.CopieBoard();
    at00 := b.previousBoard[0, 0];
    at11 := b.previousBoard[1, 1];
  }
}
