/** The king's pseudo-legal destinations: the eight neighbouring squares that
    are empty or hold an enemy piece, plus the two castling squares when the
    king has never moved and the match's check flag is off. */
module KingRules {
  import opened Board

  /** The king may step onto `p`: it is empty or holds a piece of the other
      colour. */
  predicate CanMove(g: Grid, p: Pos, color: Color)
    requires PositionExists(p)
  {
    At(g, p).None? || At(g, p).value.piece.color != color
  }

  /** `p` holds a rook of `color` that has never moved. */
  predicate TestRookCastling(g: Grid, p: Pos, color: Color)
    requires PositionExists(p)
  {
    && At(g, p).Some?
    && At(g, p).value.piece.kind == Rook
    && At(g, p).value.piece.color == color
    && At(g, p).value.moveCount == 0
  }

  /** One neighbouring square, marked when it exists and the king can move
      onto it. */
  function Step(g: Grid, p: Pos, color: Color): (r: set<Pos>)
    ensures forall q | q in r :: q == p && PositionExists(q) && CanMove(g, q, color)
    ensures PositionExists(p) && CanMove(g, p, color) ==> p in r
  {
    if PositionExists(p) && CanMove(g, p, color) then {p} else {}
  }

  /** The four orthogonal steps, in the order the source tries them: above,
      below, right, left. */
  function Orthogonal(g: Grid, pos: Pos, color: Color): (r: set<Pos>)
    ensures forall q | q in r ::
      PositionExists(q) && CanMove(g, q, color) && q != pos &&
      -1 <= q.row - pos.row <= 1 && -1 <= q.col - pos.col <= 1
  {
    var r, c := pos.row, pos.col;
    Step(g, Pos(r - 1, c), color) + Step(g, Pos(r + 1, c), color) +
    Step(g, Pos(r, c + 1), color) + Step(g, Pos(r, c - 1), color)
  }

  /** The four diagonal steps, in the order the source tries them: above
      left, above right, below left, below right. */
  function Diagonals(g: Grid, pos: Pos, color: Color): (r: set<Pos>)
    ensures forall q | q in r ::
      PositionExists(q) && CanMove(g, q, color) && q != pos &&
      -1 <= q.row - pos.row <= 1 && -1 <= q.col - pos.col <= 1
  {
    var r, c := pos.row, pos.col;
    Step(g, Pos(r - 1, c - 1), color) + Step(g, Pos(r - 1, c + 1), color) +
    Step(g, Pos(r + 1, c - 1), color) + Step(g, Pos(r + 1, c + 1), color)
  }

  /** The eight neighbour steps. */
  function Neighbours(g: Grid, pos: Pos, color: Color): (r: set<Pos>)
    ensures forall q | q in r ::
      PositionExists(q) && CanMove(g, q, color) && q != pos &&
      -1 <= q.row - pos.row <= 1 && -1 <= q.col - pos.col <= 1
  {
    Orthogonal(g, pos, color) + Diagonals(g, pos, color)
  }

  /** The kingside castling square, two columns right, when the unmoved rook
      of the king's colour stands three columns right and the two squares in
      between are empty. A rook square off the board counts as no rook. */
  function Kingside(g: Grid, pos: Pos, color: Color): (r: set<Pos>)
    requires PositionExists(pos)
    ensures forall q | q in r :: q == Pos(pos.row, pos.col + 2) && PositionExists(q) && At(g, q).None?
  {
    var rook := Pos(pos.row, pos.col + 3);
    if PositionExists(rook) && TestRookCastling(g, rook, color)
       && !ThereIsAPiece(g, Pos(pos.row, pos.col + 1)) && !ThereIsAPiece(g, Pos(pos.row, pos.col + 2))
    then {Pos(pos.row, pos.col + 2)}
    else {}
  }

  /** The queenside castling square, two columns left, when the unmoved rook
      of the king's colour stands four columns left and the three squares in
      between are empty. */
  function Queenside(g: Grid, pos: Pos, color: Color): (r: set<Pos>)
    requires PositionExists(pos)
    ensures forall q | q in r :: q == Pos(pos.row, pos.col - 2) && PositionExists(q) && At(g, q).None?
  {
    var rook := Pos(pos.row, pos.col - 4);
    if PositionExists(rook) && TestRookCastling(g, rook, color)
       && !ThereIsAPiece(g, Pos(pos.row, pos.col - 1)) && !ThereIsAPiece(g, Pos(pos.row, pos.col - 2))
       && !ThereIsAPiece(g, Pos(pos.row, pos.col - 3))
    then {Pos(pos.row, pos.col - 2)}
    else {}
  }

  /** The squares a king `k` standing on `pos` marks; `matchCheck` is the
      match's check flag at the time of the query. */
  function KingMoves(g: Grid, pos: Pos, k: Occupant, matchCheck: bool): (r: set<Pos>)
    requires PositionExists(pos)
    ensures forall q | q in r :: PositionExists(q) && q != pos
    ensures forall q | q in r ::
      (-1 <= q.row - pos.row <= 1 && -1 <= q.col - pos.col <= 1) ||
      (q.row == pos.row && (q.col == pos.col + 2 || q.col == pos.col - 2))
    ensures forall q | q in r :: At(g, q).None? || At(g, q).value.piece.color != k.piece.color
    ensures forall q | q in r && q.col != pos.col - 1 && q.col != pos.col && q.col != pos.col + 1 ::
      k.moveCount == 0 && !matchCheck && At(g, q).None?
  {
    var steps := Neighbours(g, pos, k.piece.color);
    if k.moveCount == 0 && !matchCheck
    then steps + Kingside(g, pos, k.piece.color) + Queenside(g, pos, k.piece.color)
    else steps
  }

  /** Each of the eight neighbours is marked exactly when it is on the board
      and empty or enemy-held. */
  lemma NeighbourMarked(g: Grid, pos: Pos, k: Occupant, matchCheck: bool, q: Pos)
    requires PositionExists(pos)
    requires -1 <= q.row - pos.row <= 1 && -1 <= q.col - pos.col <= 1 && q != pos
    ensures q in KingMoves(g, pos, k, matchCheck) <==> PositionExists(q) && CanMove(g, q, k.piece.color)
  {
  }

  /** Kingside castling is marked exactly under its conditions. */
  lemma KingsideMarked(g: Grid, pos: Pos, k: Occupant, matchCheck: bool)
    requires PositionExists(pos)
    ensures Pos(pos.row, pos.col + 2) in KingMoves(g, pos, k, matchCheck) <==>
      && k.moveCount == 0 && !matchCheck
      && PositionExists(Pos(pos.row, pos.col + 3))
      && TestRookCastling(g, Pos(pos.row, pos.col + 3), k.piece.color)
      && !ThereIsAPiece(g, Pos(pos.row, pos.col + 1)) && !ThereIsAPiece(g, Pos(pos.row, pos.col + 2))
  {
  }

  /** Queenside castling is marked exactly under its conditions. */
  lemma QueensideMarked(g: Grid, pos: Pos, k: Occupant, matchCheck: bool)
    requires PositionExists(pos)
    ensures Pos(pos.row, pos.col - 2) in KingMoves(g, pos, k, matchCheck) <==>
      && k.moveCount == 0 && !matchCheck
      && PositionExists(Pos(pos.row, pos.col - 4))
      && TestRookCastling(g, Pos(pos.row, pos.col - 4), k.piece.color)
      && !ThereIsAPiece(g, Pos(pos.row, pos.col - 1)) && !ThereIsAPiece(g, Pos(pos.row, pos.col - 2))
      && !ThereIsAPiece(g, Pos(pos.row, pos.col - 3))
  {
  }

  /** The matrix `possibleMoves` returns: a fresh 8x8 array whose entry
      (r, c) is set exactly when (r, c) is a king destination. */
  method PossibleMoves(g: Grid, pos: Pos, k: Occupant, matchCheck: bool) returns (mat: array2<bool>)
    requires PositionExists(pos)
    ensures fresh(mat) && mat.Length0 == Size && mat.Length1 == Size
    ensures forall r, c | 0 <= r < Size && 0 <= c < Size :: mat[r, c] <==> Pos(r, c) in KingMoves(g, pos, k, matchCheck)
  {
    mat := new bool[Size, Size]((_, _) => false);
    var color := k.piece.color;
    MarkOrthogonal(mat, g, pos, color);
    MarkDiagonals(mat, g, pos, color);
    if k.moveCount == 0 && !matchCheck {
      MarkKingside(mat, g, pos, color);
      MarkQueenside(mat, g, pos, color);
    }
  }

  /** Marks the four orthogonal neighbours of `pos`. */
  method MarkOrthogonal(mat: array2<bool>, g: Grid, pos: Pos, color: Color)
    requires mat.Length0 == Size && mat.Length1 == Size
    modifies mat
    ensures forall r, c | 0 <= r < Size && 0 <= c < Size ::
      mat[r, c] == (old(mat[r, c]) || Pos(r, c) in Orthogonal(g, pos, color))
  {
    MarkStep(mat, g, Pos(pos.row - 1, pos.col), color);  // above
    MarkStep(mat, g, Pos(pos.row + 1, pos.col), color);  // below
    MarkStep(mat, g, Pos(pos.row, pos.col + 1), color);  // right
    MarkStep(mat, g, Pos(pos.row, pos.col - 1), color);  // left
  }

  /** Marks the four diagonal neighbours of `pos`. */
  method MarkDiagonals(mat: array2<bool>, g: Grid, pos: Pos, color: Color)
    requires mat.Length0 == Size && mat.Length1 == Size
    modifies mat
    ensures forall r, c | 0 <= r < Size && 0 <= c < Size ::
      mat[r, c] == (old(mat[r, c]) || Pos(r, c) in Diagonals(g, pos, color))
  {
    MarkStep(mat, g, Pos(pos.row - 1, pos.col - 1), color);  // above and left
    MarkStep(mat, g, Pos(pos.row - 1, pos.col + 1), color);  // above and right
    MarkStep(mat, g, Pos(pos.row + 1, pos.col - 1), color);  // below and left
    MarkStep(mat, g, Pos(pos.row + 1, pos.col + 1), color);  // below and right
  }

  /** Marks `p` in `mat` when it is on the board and the king can move onto it. */
  method MarkStep(mat: array2<bool>, g: Grid, p: Pos, color: Color)
    requires mat.Length0 == Size && mat.Length1 == Size
    modifies mat
    ensures forall r, c | 0 <= r < Size && 0 <= c < Size :: mat[r, c] == (old(mat[r, c]) || Pos(r, c) in Step(g, p, color))
  {
    if PositionExists(p) && CanMove(g, p, color) {
      mat[p.row, p.col] := true;
    }
  }

  /** Marks the kingside castling square when a castling rook stands three
      columns right and the squares in between are empty. */
  method MarkKingside(mat: array2<bool>, g: Grid, pos: Pos, color: Color)
    requires mat.Length0 == Size && mat.Length1 == Size && PositionExists(pos)
    modifies mat
    ensures forall r, c | 0 <= r < Size && 0 <= c < Size :: mat[r, c] == (old(mat[r, c]) || Pos(r, c) in Kingside(g, pos, color))
  {
    var rook := Pos(pos.row, pos.col + 3);
    if PositionExists(rook) && TestRookCastling(g, rook, color) {
      if !ThereIsAPiece(g, Pos(pos.row, pos.col + 1)) && !ThereIsAPiece(g, Pos(pos.row, pos.col + 2)) {
        mat[pos.row, pos.col + 2] := true;
      }
    }
  }

  /** Marks the queenside castling square when a castling rook stands four
      columns left and the squares in between are empty. */
  method MarkQueenside(mat: array2<bool>, g: Grid, pos: Pos, color: Color)
    requires mat.Length0 == Size && mat.Length1 == Size && PositionExists(pos)
    modifies mat
    ensures forall r, c | 0 <= r < Size && 0 <= c < Size :: mat[r, c] == (old(mat[r, c]) || Pos(r, c) in Queenside(g, pos, color))
  {
    var rook := Pos(pos.row, pos.col - 4);
    if PositionExists(rook) && TestRookCastling(g, rook, color) {
      if !ThereIsAPiece(g, Pos(pos.row, pos.col - 1)) && !ThereIsAPiece(g, Pos(pos.row, pos.col - 2))
         && !ThereIsAPiece(g, Pos(pos.row, pos.col - 3)) {
        mat[pos.row, pos.col - 2] := true;
      }
    }
  }
}
