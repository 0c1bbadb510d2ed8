/** The pawn's pseudo-legal destinations: one square forward onto an empty
    square, two squares forward from a pawn that has never moved through two
    empty squares, and a forward diagonal onto an enemy piece. White moves up
    the board (towards row 0), Black down. */
module PawnRules {
  import opened Board

  /** The row step of a pawn of `color`. */
  function Forward(color: Color): int {
    if color == White then -1 else 1
  }

  function SingleStep(g: Grid, pos: Pos, color: Color): (r: set<Pos>)
    ensures forall q | q in r :: q == Pos(pos.row + Forward(color), pos.col) && PositionExists(q) && !ThereIsAPiece(g, q)
    ensures |r| <= 1
  {
    var one := Pos(pos.row + Forward(color), pos.col);
    if PositionExists(one) && !ThereIsAPiece(g, one) then {one} else {}
  }

  function DoubleStep(g: Grid, pos: Pos, me: Occupant): (r: set<Pos>)
    ensures forall q | q in r :: q == Pos(pos.row + 2 * Forward(me.piece.color), pos.col) && PositionExists(q) && !ThereIsAPiece(g, q)
    ensures |r| <= 1
  {
    var color := me.piece.color;
    var two := Pos(pos.row + 2 * Forward(color), pos.col);
    var one := Pos(pos.row + Forward(color), pos.col);
    if PositionExists(two) && !ThereIsAPiece(g, two) && PositionExists(one) && !ThereIsAPiece(g, one) && me.moveCount == 0
    then {two}
    else {}
  }

  /** The forward diagonal `dc` columns over, marked when an enemy piece
      stands on it. */
  function Diagonal(g: Grid, pos: Pos, color: Color, dc: int): (r: set<Pos>)
    ensures forall q | q in r :: q == Pos(pos.row + Forward(color), pos.col + dc) && PositionExists(q) && IsThereOpponentPiece(g, q, color)
    ensures |r| <= 1
  {
    var d := Pos(pos.row + Forward(color), pos.col + dc);
    if PositionExists(d) && IsThereOpponentPiece(g, d, color) then {d} else {}
  }

  /** The squares a pawn `me` standing on `pos` marks. */
  function PawnMoves(g: Grid, pos: Pos, me: Occupant): (r: set<Pos>)
    ensures forall q | q in r :: PositionExists(q) && q != pos
    ensures forall q | q in r ::
      q.row == pos.row + Forward(me.piece.color) || (q.row == pos.row + 2 * Forward(me.piece.color) && q.col == pos.col)
    ensures forall q | q in r && q.col == pos.col :: !ThereIsAPiece(g, q)
    ensures forall q | q in r && q.col != pos.col ::
      q.row == pos.row + Forward(me.piece.color) && (q.col == pos.col - 1 || q.col == pos.col + 1) &&
      IsThereOpponentPiece(g, q, me.piece.color)
  {
    var color := me.piece.color;
    SingleStep(g, pos, color) + DoubleStep(g, pos, me) + Diagonal(g, pos, color, -1) + Diagonal(g, pos, color, 1)
  }

  /** A pawn marks at most four squares. */
  lemma PawnMovesAtMostFour(g: Grid, pos: Pos, me: Occupant)
    ensures |PawnMoves(g, pos, me)| <= 4
  {
    var color := me.piece.color;
    var s, d, l, rt := SingleStep(g, pos, color), DoubleStep(g, pos, me), Diagonal(g, pos, color, -1), Diagonal(g, pos, color, 1);
    UnionSize(s, d);
    UnionSize(s + d, l);
    UnionSize(s + d + l, rt);
  }

  lemma UnionSize(a: set<Pos>, b: set<Pos>)
    ensures |a + b| <= |a| + |b|
  {
    assert a + b == a + (b - a);
  }

  /** The square straight ahead is marked exactly when it is on the board and
      empty. */
  lemma SingleStepMarked(g: Grid, pos: Pos, me: Occupant)
    ensures var one := Pos(pos.row + Forward(me.piece.color), pos.col);
      one in PawnMoves(g, pos, me) <==> PositionExists(one) && !ThereIsAPiece(g, one)
  {
  }

  /** The square two ahead is marked exactly when it and the square between
      are on the board and empty and the pawn has never moved. */
  lemma DoubleStepMarked(g: Grid, pos: Pos, me: Occupant)
    ensures var one := Pos(pos.row + Forward(me.piece.color), pos.col);
      var two := Pos(pos.row + 2 * Forward(me.piece.color), pos.col);
      two in PawnMoves(g, pos, me) <==>
        PositionExists(two) && !ThereIsAPiece(g, two) && PositionExists(one) && !ThereIsAPiece(g, one) && me.moveCount == 0
  {
    var color := me.piece.color;
    var two := Pos(pos.row + 2 * Forward(color), pos.col);
    assert two !in SingleStep(g, pos, color);
    assert two !in Diagonal(g, pos, color, -1) && two !in Diagonal(g, pos, color, 1);
    assert two in PawnMoves(g, pos, me) <==> two in DoubleStep(g, pos, me);
  }

  /** Each forward diagonal is marked exactly when it is on the board and
      holds an enemy piece. */
  lemma DiagonalMarked(g: Grid, pos: Pos, me: Occupant, dc: int)
    requires dc == -1 || dc == 1
    ensures var d := Pos(pos.row + Forward(me.piece.color), pos.col + dc);
      d in PawnMoves(g, pos, me) <==> PositionExists(d) && IsThereOpponentPiece(g, d, me.piece.color)
  {
  }

  /** The matrix `possibleMoves` returns: a fresh 8x8 array whose entry
      (r, c) is set exactly when (r, c) is a pawn destination. */
  method PossibleMoves(g: Grid, pos: Pos, me: Occupant) returns (mat: array2<bool>)
    ensures fresh(mat) && mat.Length0 == Size && mat.Length1 == Size
    ensures forall r, c | 0 <= r < Size && 0 <= c < Size :: mat[r, c] <==> Pos(r, c) in PawnMoves(g, pos, me)
  {
    mat := new bool[Size, Size]((_, _) => false);
    var color := me.piece.color;
    MarkSingleStep(mat, g, pos, color);
    ghost var marked := SingleStep(g, pos, color);
    assert forall r, c | 0 <= r < Size && 0 <= c < Size :: mat[r, c] == (Pos(r, c) in marked);
    MarkDoubleStep(mat, g, pos, me);
    marked := marked + DoubleStep(g, pos, me);
    assert forall r, c | 0 <= r < Size && 0 <= c < Size :: mat[r, c] == (Pos(r, c) in marked);
    MarkDiagonal(mat, g, pos, color, -1);
    marked := marked + Diagonal(g, pos, color, -1);
    assert forall r, c | 0 <= r < Size && 0 <= c < Size :: mat[r, c] == (Pos(r, c) in marked);
    MarkDiagonal(mat, g, pos, color, 1);
    marked := marked + Diagonal(g, pos, color, 1);
    assert marked == PawnMoves(g, pos, me);
  }

  method MarkSingleStep(mat: array2<bool>, g: Grid, pos: Pos, color: Color)
    requires mat.Length0 == Size && mat.Length1 == Size
    modifies mat
    ensures forall r, c | 0 <= r < Size && 0 <= c < Size :: mat[r, c] == (old(mat[r, c]) || Pos(r, c) in SingleStep(g, pos, color))
  {
    var p := Pos(pos.row + Forward(color), pos.col);
    if PositionExists(p) && !ThereIsAPiece(g, p) {
      mat[p.row, p.col] := true;
    }
  }

  method MarkDoubleStep(mat: array2<bool>, g: Grid, pos: Pos, me: Occupant)
    requires mat.Length0 == Size && mat.Length1 == Size
    modifies mat
    ensures forall r, c | 0 <= r < Size && 0 <= c < Size :: mat[r, c] == (old(mat[r, c]) || Pos(r, c) in DoubleStep(g, pos, me))
  {
    var p := Pos(pos.row + 2 * Forward(me.piece.color), pos.col);
    var p2 := Pos(pos.row + Forward(me.piece.color), pos.col);
    if PositionExists(p) && !ThereIsAPiece(g, p) && PositionExists(p2) && !ThereIsAPiece(g, p2) && me.moveCount == 0 {
      mat[p.row, p.col] := true;
    }
  }

  method MarkDiagonal(mat: array2<bool>, g: Grid, pos: Pos, color: Color, dc: int)
    requires mat.Length0 == Size && mat.Length1 == Size
    modifies mat
    ensures forall r, c | 0 <= r < Size && 0 <= c < Size :: mat[r, c] == (old(mat[r, c]) || Pos(r, c) in Diagonal(g, pos, color, dc))
  {
    var p := Pos(pos.row + Forward(color), pos.col + dc);
    if PositionExists(p) && IsThereOpponentPiece(g, p, color) {
      mat[p.row, p.col] := true;
    }
  }
}
