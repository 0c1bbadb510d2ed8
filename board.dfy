/** The board the match plays on: a fixed 8x8 grid whose cells hold at most
    one piece, with the occupancy queries the rules use (`positionExists`,
    `thereIsAPiece`, `piece`) and the lookup of the square a piece stands on.
    A piece's identity never changes; how often it has moved is kept next to
    it on its cell. */
module Board {

  datatype Option<+T> = None | Some(value: T)

  datatype Color = White | Black

  datatype Kind = Pawn | Rook | Knight | Bishop | Queen | King

  /** The identity of a piece: `id` stands for the object reference the
      match's lists and the board share. */
  datatype Piece = Piece(id: nat, color: Color, kind: Kind)

  /** A piece standing on a cell, with the number of times it has moved. */
  datatype Occupant = Occupant(piece: Piece, moveCount: int)

  /** A zero-based (row, column) pair; row 0 is rank 8. */
  datatype Pos = Pos(row: int, col: int)

  const Size: int := 8

  predicate PositionExists(p: Pos) {
    0 <= p.row < Size && 0 <= p.col < Size
  }

  predicate IsGrid(g: seq<seq<Option<Occupant>>>) {
    |g| == Size && forall r | 0 <= r < |g| :: |g[r]| == Size
  }

  function EmptyCells(): (g: seq<seq<Option<Occupant>>>)
    ensures IsGrid(g)
    ensures forall r, c | 0 <= r < Size && 0 <= c < Size :: g[r][c] == None
  {
    seq(Size, _ => seq(Size, _ => None))
  }

  /** A snapshot of the whole board. */
  type Grid = g: seq<seq<Option<Occupant>>> | IsGrid(g) witness EmptyCells()

  /** The cell at `p` (the board's `piece(position)`). */
  function At(g: Grid, p: Pos): Option<Occupant>
    requires PositionExists(p)
  {
    g[p.row][p.col]
  }

  predicate ThereIsAPiece(g: Grid, p: Pos)
    requires PositionExists(p)
  {
    At(g, p).Some?
  }

  /** `p` holds a piece of the colour other than `color`. */
  predicate IsThereOpponentPiece(g: Grid, p: Pos, color: Color)
    requires PositionExists(p)
  {
    At(g, p).Some? && At(g, p).value.piece.color != color
  }

  /** The cell at `p` holds the piece `q`. */
  predicate Holds(g: Grid, p: Pos, q: Piece)
    requires PositionExists(p)
  {
    At(g, p).Some? && At(g, p).value.piece == q
  }

  /** The piece `q` stands somewhere on the board. */
  ghost predicate OnBoard(g: Grid, q: Piece) {
    exists p | PositionExists(p) :: Holds(g, p, q)
  }

  /** The board with cell `p` replaced by `v`: placing a piece when `v` is
      `Some`, removing one when it is `None`. */
  function SetCell(g: Grid, p: Pos, v: Option<Occupant>): (r: Grid)
    requires PositionExists(p)
    ensures At(r, p) == v
    ensures forall q | PositionExists(q) && q != p :: At(r, q) == At(g, q)
  {
    g[p.row := g[p.row][p.col := v]]
  }

  /** Setting a cell twice keeps only the second value. */
  lemma SetCellTwice(g: Grid, p: Pos, v: Option<Occupant>, w: Option<Occupant>)
    requires PositionExists(p)
    ensures SetCell(SetCell(g, p, v), p, w) == SetCell(g, p, w)
  {
    GridEq(SetCell(SetCell(g, p, v), p, w), SetCell(g, p, w));
  }

  /** Setting a cell to what it already holds changes nothing. */
  lemma SetCellSame(g: Grid, p: Pos)
    requires PositionExists(p)
    ensures SetCell(g, p, At(g, p)) == g
  {
    GridEq(SetCell(g, p, At(g, p)), g);
  }

  /** Two boards that agree on every cell are the same board. */
  lemma GridEq(g1: Grid, g2: Grid)
    requires forall p | PositionExists(p) :: At(g1, p) == At(g2, p)
    ensures g1 == g2
  {
    forall r | 0 <= r < Size
      ensures g1[r] == g2[r]
    {
      forall c | 0 <= c < Size
        ensures g1[r][c] == g2[r][c]
      {
        assert At(g1, Pos(r, c)) == At(g2, Pos(r, c));
      }
    }
  }

  /** The first square, in row-major order from `(row, col)` on, that holds
      `q`: the piece's recorded position. */
  function LocateFrom(g: Grid, q: Piece, row: int, col: int): (r: Option<Pos>)
    requires 0 <= row <= Size && 0 <= col <= Size
    decreases Size - row, Size - col
    ensures r.Some? ==> PositionExists(r.value) && Holds(g, r.value, q)
    ensures r.Some? ==> r.value.row > row || (r.value.row == row && r.value.col >= col)
    ensures r.None? ==>
      forall p | PositionExists(p) && (p.row > row || (p.row == row && p.col >= col)) :: !Holds(g, p, q)
  {
    if row == Size then None
    else if col == Size then LocateFrom(g, q, row + 1, 0)
    else if Holds(g, Pos(row, col), q) then Some(Pos(row, col))
    else LocateFrom(g, q, row, col + 1)
  }

  /** Where `q` stands, or `None` when it is not on the board. */
  function Locate(g: Grid, q: Piece): (r: Option<Pos>)
    ensures r.Some? ==> PositionExists(r.value) && Holds(g, r.value, q)
    ensures r.None? <==> !OnBoard(g, q)
  {
    LocateFrom(g, q, 0, 0)
  }

  /** No piece stands on two squares. */
  ghost predicate Distinct(g: Grid) {
    forall p1, p2 | PositionExists(p1) && PositionExists(p2) && At(g, p1).Some? && At(g, p2).Some? &&
                    At(g, p1).value.piece == At(g, p2).value.piece :: p1 == p2
  }

  /** On a board where no piece stands twice, a piece is located exactly on
      the square that holds it. */
  lemma LocateUnique(g: Grid, p: Pos, q: Piece)
    requires Distinct(g) && PositionExists(p) && Holds(g, p, q)
    ensures Locate(g, q) == Some(p)
  {
  }

}
