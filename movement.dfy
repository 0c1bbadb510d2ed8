/** What a move does to the board and to the match's two piece lists
    (`makeMove` and `undoMove`), which squares a piece of any kind marks, and
    the consistency between board and lists that every move keeps. */
module Movement {
  import opened Board
  import KingRules
  import PawnRules

  /** The movement of the pieces whose rules are not part of this model
      (rook, knight, bishop and queen): whether the piece `o` standing on
      `pos` marks the square `t`. A piece never marks its own square. */
  type OtherRule = (Grid, Pos, Occupant, Pos) -> bool

  function OtherMoves(others: OtherRule, g: Grid, pos: Pos, o: Occupant): (r: set<Pos>)
    ensures forall q | q in r :: PositionExists(q) && q != pos && others(g, pos, o, q)
    ensures forall q | PositionExists(q) && q != pos && others(g, pos, o, q) :: q in r
  {
    set row, col | 0 <= row < Size && 0 <= col < Size && Pos(row, col) != pos && others(g, pos, o, Pos(row, col)) :: Pos(row, col)
  }

  /** The squares the piece on `pos` marks (its `possibleMoves`), dispatched on
      its kind; `matchCheck` is the match's check flag, which the king reads. */
  function Moves(g: Grid, pos: Pos, matchCheck: bool, others: OtherRule): (r: set<Pos>)
    requires PositionExists(pos)
    ensures forall q | q in r :: PositionExists(q) && q != pos
    ensures At(g, pos).None? ==> r == {}
  {
    match At(g, pos)
    case None => {}
    case Some(o) =>
      match o.piece.kind
      case King => KingRules.KingMoves(g, pos, o, matchCheck)
      case Pawn => PawnRules.PawnMoves(g, pos, o)
      case _ => OtherMoves(others, g, pos, o)
  }

  /** The matrix `possibleMoves` of the piece on `pos` returns. */
  method PossibleMoves(g: Grid, pos: Pos, matchCheck: bool, others: OtherRule) returns (mat: array2<bool>)
    requires PositionExists(pos) && At(g, pos).Some?
    ensures fresh(mat) && mat.Length0 == Size && mat.Length1 == Size
    ensures forall r, c | 0 <= r < Size && 0 <= c < Size :: mat[r, c] <==> Pos(r, c) in Moves(g, pos, matchCheck, others)
  {
    var o := At(g, pos).value;
    match o.piece.kind
    case King =>
      mat := KingRules.PossibleMoves(g, pos, o, matchCheck);
    case Pawn =>
      mat := PawnRules.PossibleMoves(g, pos, o);
    case _ =>
      mat := new bool[Size, Size]((r, c) => Pos(r, c) != pos && others(g, pos, o, Pos(r, c)));
  }

  // ---------------------------------------------------------------------
  // Castling squares

  /** The king `o` moving from `s` to `t` castles: it goes two columns over. */
  predicate Castles(o: Occupant, s: Pos, t: Pos) {
    o.piece.kind == King && (t.col == s.col + 2 || t.col == s.col - 2)
  }

  /** Where the castling rook starts: three columns right of the king's
      square for a kingside castling, four columns left for a queenside one. */
  function RookFrom(s: Pos, t: Pos): Pos {
    if t.col == s.col + 2 then Pos(s.row, s.col + 3) else Pos(s.row, s.col - 4)
  }

  /** Where the castling rook lands: next to the king's square, on the side
      the king moved to. */
  function RookTo(s: Pos, t: Pos): Pos {
    if t.col == s.col + 2 then Pos(s.row, s.col + 1) else Pos(s.row, s.col - 1)
  }

  // ---------------------------------------------------------------------
  // Moves on the board

  /** The piece on `from` lifted, its move count changed by `delta`, and set
      down on `to`, replacing whatever stood there. */
  function Shift(g: Grid, from: Pos, to: Pos, delta: int): (r: Grid)
    requires PositionExists(from) && PositionExists(to) && from != to && At(g, from).Some?
    ensures At(r, to) == Some(At(g, from).value.(moveCount := At(g, from).value.moveCount + delta))
    ensures At(r, from) == None
    ensures forall q | PositionExists(q) && q != from && q != to :: At(r, q) == At(g, q)
  {
    var o := At(g, from).value;
    SetCell(SetCell(g, from, None), to, Some(o.(moveCount := o.moveCount + delta)))
  }

  /** A move from `s` to `t` can be carried out on `g` without the board
      failing: a piece stands on `s`, a castling rook stands on its square
      with an empty landing square, and a pawn moving diagonally captures
      something. Every marked square satisfies it (`MovesApplicable`). */
  predicate Applicable(g: Grid, s: Pos, t: Pos) {
    && PositionExists(s) && PositionExists(t) && s != t && At(g, s).Some?
    && (Castles(At(g, s).value, s, t) ==>
          PositionExists(RookFrom(s, t)) && At(g, RookFrom(s, t)).Some? && At(g, RookTo(s, t)).None?)
    && (At(g, s).value.piece.kind == Pawn && t.col != s.col ==> At(g, t).Some?)
  }

  /** The piece a move from `s` to `t` captures. */
  function CapturedBy(g: Grid, t: Pos): Option<Occupant>
    requires PositionExists(t)
  {
    At(g, t)
  }

  /** The board after `makeMove(s, t)`: the piece on `s` goes to `t` with one
      more move, whatever stood on `t` is gone, and a king moving two columns
      takes its rook from `RookFrom` to `RookTo`, also with one more move. */
  function MoveGrid(g: Grid, s: Pos, t: Pos): (r: Grid)
    requires Applicable(g, s, t)
    ensures var o := At(g, s).value; At(r, t) == Some(o.(moveCount := o.moveCount + 1))
    ensures At(r, s) == None
    ensures Castles(At(g, s).value, s, t) ==>
      var rook := At(g, RookFrom(s, t)).value;
      At(r, RookTo(s, t)) == Some(rook.(moveCount := rook.moveCount + 1)) && At(r, RookFrom(s, t)) == None
    ensures forall q | PositionExists(q) && q != s && q != t &&
                       (Castles(At(g, s).value, s, t) ==> q != RookFrom(s, t) && q != RookTo(s, t)) ::
      At(r, q) == At(g, q)
  {
    var g1 := Shift(g, s, t, 1);
    if Castles(At(g, s).value, s, t) then Shift(g1, RookFrom(s, t), RookTo(s, t), 1) else g1
  }

  /** What `undoMove(s, t, cap)` needs of the board: a piece on `t`, and for a
      castling king its rook beside it. */
  predicate Undoable(g: Grid, s: Pos, t: Pos) {
    && PositionExists(s) && PositionExists(t) && s != t && At(g, t).Some?
    && (Castles(At(g, t).value, s, t) ==> PositionExists(RookFrom(s, t)) && At(g, RookTo(s, t)).Some?)
  }

  /** The board after `undoMove(s, t, cap)` without its en-passant branch: the
      piece on `t` goes back to `s` with one move less, `cap` is put back on
      `t`, and a castling rook goes back from `RookTo` to `RookFrom` with one
      move less. */
  function UndoGrid(g: Grid, s: Pos, t: Pos, cap: Option<Occupant>): (r: Grid)
    requires Undoable(g, s, t)
    ensures var o := At(g, t).value; At(r, s) == Some(o.(moveCount := o.moveCount - 1))
    ensures At(r, t) == cap
    ensures Castles(At(g, t).value, s, t) ==>
      var rook := At(g, RookTo(s, t)).value;
      At(r, RookFrom(s, t)) == Some(rook.(moveCount := rook.moveCount - 1)) && At(r, RookTo(s, t)) == None
    ensures forall q | PositionExists(q) && q != s && q != t &&
                       (Castles(At(g, t).value, s, t) ==> q != RookFrom(s, t) && q != RookTo(s, t)) ::
      At(r, q) == At(g, q)
  {
    var g1 := SetCell(Shift(g, t, s, -1), t, cap);
    if Castles(At(g, t).value, s, t) then Shift(g1, RookTo(s, t), RookFrom(s, t), -1) else g1
  }

  /** The piece of a cell, if any. */
  function PieceOf(cell: Option<Occupant>): Option<Piece> {
    if cell.Some? then Some(cell.value.piece) else None
  }

  /** The square the en-passant branch of `undoMove` sends the piece on `t`
      to: row 3 after a white pawn's move, row 4 after a black one's. */
  function EnPassantSquare(mover: Color, t: Pos): Pos {
    Pos(if mover == White then 3 else 4, t.col)
  }

  /** `undoMove(s, t, cap)` as written, with the en-passant branch: when the
      piece that moved is a pawn that moved diagonally and `cap` is the piece
      marked vulnerable to en passant, the piece just restored on `t` is
      moved to `EnPassantSquare`. */
  function UndoGridAsWritten(g: Grid, s: Pos, t: Pos, cap: Option<Occupant>, marked: Option<Piece>): (r: Grid)
    requires Undoable(g, s, t)
    requires At(g, t).value.piece.kind == Pawn && s.col != t.col ==> cap.Some?
    ensures var o := At(g, t).value;
      !(o.piece.kind == Pawn && s.col != t.col && PieceOf(cap) == marked) ==> r == UndoGrid(g, s, t, cap)
    ensures var o := At(g, t).value;
      o.piece.kind == Pawn && s.col != t.col && EnPassantSquare(o.piece.color, t) == t ==> r == UndoGrid(g, s, t, cap)
    ensures var o := At(g, t).value;
      var e := EnPassantSquare(o.piece.color, t);
      o.piece.kind == Pawn && s.col != t.col && PieceOf(cap) == marked && e != t ==>
        && At(r, e) == cap && At(r, t) == None
        && forall q | PositionExists(q) && q != e && q != t :: At(r, q) == At(UndoGrid(g, s, t, cap), q)
  {
    var o := At(g, t).value;
    var r1 := UndoGrid(g, s, t, cap);
    var e := EnPassantSquare(o.piece.color, t);
    if o.piece.kind == Pawn && s.col != t.col && PieceOf(cap) == marked && e != t then
      Shift(r1, t, e, 0)
    else
      r1
  }

  /** Every square a piece marks is a move the board can carry out: no
      castling without its rook, no diagonal pawn move onto an empty square
      (so the en-passant branch of `makeMove` is never taken). */
  lemma MovesApplicable(g: Grid, s: Pos, t: Pos, matchCheck: bool, others: OtherRule)
    requires PositionExists(s) && t in Moves(g, s, matchCheck, others)
    ensures Applicable(g, s, t)
  {
    var o := At(g, s).value;
    if o.piece.kind == King {
      KingRules.KingsideMarked(g, s, o, matchCheck);
      KingRules.QueensideMarked(g, s, o, matchCheck);
      if t.col == s.col + 2 {
        assert t == Pos(s.row, s.col + 2);
      } else if t.col == s.col - 2 {
        assert t == Pos(s.row, s.col - 2);
      }
    }
  }

  /** Undoing a move restores the board exactly: `undoMove` is the inverse of
      `makeMove` once the captured piece is handed back. */
  lemma UndoMoveRestoresBoard(g: Grid, s: Pos, t: Pos)
    requires Applicable(g, s, t)
    ensures Undoable(MoveGrid(g, s, t), s, t)
    ensures UndoGrid(MoveGrid(g, s, t), s, t, CapturedBy(g, t)) == g
  {
    var m := MoveGrid(g, s, t);
    var r := UndoGrid(m, s, t, CapturedBy(g, t));
    forall p | PositionExists(p)
      ensures At(r, p) == At(g, p)
    {
    }
    GridEq(r, g);
  }

  /** The board after a move has the same pieces as before, less the
      captured one. */
  lemma MoveKeepsPieces(g: Grid, s: Pos, t: Pos)
    requires Applicable(g, s, t) && Distinct(g)
    ensures Distinct(MoveGrid(g, s, t))
    ensures forall q :: OnBoard(MoveGrid(g, s, t), q) <==> OnBoard(g, q) && PieceOf(CapturedBy(g, t)) != Some(q)
  {
    var m := MoveGrid(g, s, t);
    MoveKeepsDistinct(g, s, t);
    MoveOrigins(g, s, t);
    forall q
      ensures OnBoard(m, q) <==> OnBoard(g, q) && PieceOf(CapturedBy(g, t)) != Some(q)
    {
      if OnBoard(m, q) {
        var p :| PositionExists(p) && Holds(m, p, q);
        assert Holds(g, Origin(g, s, t, p), q);
      }
      if OnBoard(g, q) && PieceOf(CapturedBy(g, t)) != Some(q) {
        var p0 :| PositionExists(p0) && Holds(g, p0, q);
        var castles := Castles(At(g, s).value, s, t);
        var p := if p0 == s then t else if castles && p0 == RookFrom(s, t) then RookTo(s, t) else p0;
        assert Holds(m, p, q);
      }
    }
  }

  /** Where the piece standing on `p` after the move from `s` to `t` stood
      before it. */
  function Origin(g: Grid, s: Pos, t: Pos, p: Pos): Pos
    requires Applicable(g, s, t)
  {
    if p == t then s else if Castles(At(g, s).value, s, t) && p == RookTo(s, t) then RookFrom(s, t) else p
  }

  /** Every piece on the board after a move stood on its `Origin` before. */
  lemma MoveOrigins(g: Grid, s: Pos, t: Pos)
    requires Applicable(g, s, t)
    ensures forall p | PositionExists(p) && At(MoveGrid(g, s, t), p).Some? ::
      PositionExists(Origin(g, s, t, p)) && At(g, Origin(g, s, t, p)).Some? &&
      At(g, Origin(g, s, t, p)).value.piece == At(MoveGrid(g, s, t), p).value.piece
  {
  }

  /** A move does not make a piece stand on two squares. */
  lemma MoveKeepsDistinct(g: Grid, s: Pos, t: Pos)
    requires Applicable(g, s, t) && Distinct(g)
    ensures Distinct(MoveGrid(g, s, t))
  {
    MoveOrigins(g, s, t);
  }

  /** The move of the example in `UndoAsWrittenMisplacesCapture`: a white pawn
      on e5 and a black knight on f6. */
  function PawnTakesKnightBoard(): (g: Grid)
    ensures At(g, Pos(3, 4)) == Some(Occupant(Piece(12, White, Pawn), 1))
    ensures At(g, Pos(2, 5)) == Some(Occupant(Piece(30, Black, Knight), 1))
    ensures At(g, Pos(3, 5)) == None
  {
    var e := EmptyCells();
    SetCell(SetCell(e, Pos(3, 4), Some(Occupant(Piece(12, White, Pawn), 1))), Pos(2, 5), Some(Occupant(Piece(30, Black, Knight), 1)))
  }

  /** A black knight that has just gone from g8 to f6 is marked vulnerable to
      en passant (it moved two rows down). If a white pawn on e5 captures it
      and the move is taken back, the as-written undo leaves f6 empty and puts
      the knight on f5. */
  lemma UndoAsWrittenMisplacesCapture()
    ensures var g := PawnTakesKnightBoard();
      var s, t := Pos(3, 4), Pos(2, 5);
      && Applicable(g, s, t)
      && Undoable(MoveGrid(g, s, t), s, t)
      && var r := UndoGridAsWritten(MoveGrid(g, s, t), s, t, CapturedBy(g, t), Some(Piece(30, Black, Knight)));
         r != g && At(r, Pos(2, 5)) == None && At(r, Pos(3, 5)) == Some(Occupant(Piece(30, Black, Knight), 1))
  {
    var g := PawnTakesKnightBoard();
    var s, t := Pos(3, 4), Pos(2, 5);
    var m := MoveGrid(g, s, t);
    var r := UndoGridAsWritten(m, s, t, CapturedBy(g, t), Some(Piece(30, Black, Knight)));
    assert At(m, t).value.piece == Piece(12, White, Pawn);
    assert EnPassantSquare(White, t) == Pos(3, 5);
    assert At(r, Pos(2, 5)) == None;
    assert At(g, Pos(2, 5)) != None;
  }

  // ---------------------------------------------------------------------
  // The piece lists

  /** `List.remove(x)`: the list without the first occurrence of `x`. */
  function RemoveFirst(l: seq<Piece>, x: Piece): (r: seq<Piece>)
    ensures x in l ==> multiset(r) == multiset(l) - multiset{x}
    ensures x !in l ==> r == l
  {
    if |l| == 0 then []
    else
      assert l == [l[0]] + l[1..];
      if l[0] == x then l[1..] else [l[0]] + RemoveFirst(l[1..], x)
  }

  /** `piecesOnTheBoard` after a move that captured `cap`. */
  function OnBoardAfter(l: seq<Piece>, cap: Option<Occupant>): seq<Piece> {
    if cap.Some? then RemoveFirst(l, cap.value.piece) else l
  }

  /** `capturedPieces` after a move that captured `cap`. */
  function CapturedAfter(cl: seq<Piece>, cap: Option<Occupant>): seq<Piece> {
    if cap.Some? then cl + [cap.value.piece] else cl
  }

  /** `piecesOnTheBoard` after the move that captured `cap` is undone: the
      piece comes back at the end of the list. */
  function OnBoardRestored(l: seq<Piece>, cap: Option<Occupant>): seq<Piece> {
    if cap.Some? then l + [cap.value.piece] else l
  }

  /** `capturedPieces` after the move that captured `cap` is undone. */
  function CapturedRestored(cl: seq<Piece>, cap: Option<Occupant>): seq<Piece> {
    if cap.Some? then RemoveFirst(cl, cap.value.piece) else cl
  }

  /** A capture moves exactly one piece from `piecesOnTheBoard` to
      `capturedPieces`; a move that captures nothing leaves both lists as
      they were. */
  lemma CaptureBookkeeping(l: seq<Piece>, cl: seq<Piece>, cap: Option<Occupant>)
    requires cap.Some? ==> cap.value.piece in l
    ensures cap.Some? ==> |OnBoardAfter(l, cap)| == |l| - 1 && |CapturedAfter(cl, cap)| == |cl| + 1
    ensures cap.None? ==> OnBoardAfter(l, cap) == l && CapturedAfter(cl, cap) == cl
    ensures multiset(OnBoardAfter(l, cap)) + multiset(CapturedAfter(cl, cap)) == multiset(l) + multiset(cl)
  {
    if cap.Some? {
      var x := cap.value.piece;
      assert |multiset(RemoveFirst(l, x))| == |multiset(l)| - 1;
    }
  }

  /** Undoing a move gives both lists back their pieces (the captured piece
      returns at the end of `piecesOnTheBoard`, so only the order may differ). */
  lemma UndoMoveRestoresLists(l: seq<Piece>, cl: seq<Piece>, cap: Option<Occupant>)
    requires cap.Some? ==> cap.value.piece in l
    ensures multiset(OnBoardRestored(OnBoardAfter(l, cap), cap)) == multiset(l)
    ensures multiset(CapturedRestored(CapturedAfter(cl, cap), cap)) == multiset(cl)
  {
    if cap.Some? {
      var x := cap.value.piece;
      assert x in cl + [x];
      calc {
        multiset(CapturedRestored(CapturedAfter(cl, cap), cap));
        multiset(cl + [x]) - multiset{x};
        multiset(cl) + multiset{x} - multiset{x};
      }
    }
  }

  // ---------------------------------------------------------------------
  // Consistency of the board and the lists

  ghost predicate NoDuplicates(l: seq<Piece>) {
    forall q | q in multiset(l) :: multiset(l)[q] == 1
  }

  /** At most one king of each colour is listed. */
  ghost predicate UniqueKings(l: seq<Piece>) {
    forall a, b | a in l && b in l && a.kind == King && b.kind == King && a.color == b.color :: a == b
  }

  /** Every piece on the board has an id below `nextId`. */
  ghost predicate IdsBelow(g: Grid, nextId: nat) {
    forall p | PositionExists(p) && At(g, p).Some? :: At(g, p).value.piece.id < nextId
  }

  /** The board and `piecesOnTheBoard` agree: no piece stands twice, a piece
      is listed exactly when it stands on the board, and only once, each
      colour has at most one king, and newcomer ids start at `nextId`. */
  ghost predicate Consistent(g: Grid, l: seq<Piece>, nextId: nat) {
    && Distinct(g)
    && (forall q :: q in l <==> OnBoard(g, q))
    && NoDuplicates(l)
    && IdsBelow(g, nextId)
    && UniqueKings(l)
  }

  /** Consistency only depends on which pieces are listed, not their order. */
  lemma ConsistentReordered(g: Grid, l1: seq<Piece>, l2: seq<Piece>, nextId: nat)
    requires Consistent(g, l1, nextId) && multiset(l1) == multiset(l2)
    ensures Consistent(g, l2, nextId)
  {
    forall q
      ensures q in l1 <==> q in l2
    {
      assert q in l1 <==> q in multiset(l1);
      assert q in l2 <==> q in multiset(l2);
    }
  }

  /** A move keeps the board and the lists consistent. */
  lemma MoveKeepsConsistent(g: Grid, l: seq<Piece>, nextId: nat, s: Pos, t: Pos)
    requires Consistent(g, l, nextId) && Applicable(g, s, t)
    ensures Consistent(MoveGrid(g, s, t), OnBoardAfter(l, CapturedBy(g, t)), nextId)
  {
    var m := MoveGrid(g, s, t);
    var cap := CapturedBy(g, t);
    var l' := OnBoardAfter(l, cap);
    MoveKeepsPieces(g, s, t);
    if cap.Some? {
      var x := cap.value.piece;
      assert OnBoard(g, x) by { assert Holds(g, t, x); }
      forall q
        ensures q in l' <==> q in l && q != x
      {
        assert q in l' <==> q in multiset(l');
        assert q in l <==> q in multiset(l);
      }
    }
    assert IdsBelow(m, nextId) by {
      forall p | PositionExists(p) && At(m, p).Some?
        ensures At(m, p).value.piece.id < nextId
      {
        var castles := Castles(At(g, s).value, s, t);
        var p0 := if p == t then s else if castles && p == RookTo(s, t) then RookFrom(s, t) else p;
        assert At(g, p0).Some? && At(g, p0).value.piece == At(m, p).value.piece;
      }
    }
  }

  /** Replacing the piece on `p` by a new piece of `kind` (not a king) with
      the newcomer id `nextId`, which `replacePromotedPiece` does, keeps the
      board and the lists consistent. */
  lemma ReplaceKeepsConsistent(g: Grid, l: seq<Piece>, nextId: nat, p: Pos, kind: Kind)
    requires Consistent(g, l, nextId) && PositionExists(p) && At(g, p).Some? && kind != King
    ensures var x := At(g, p).value.piece;
      var newcomer := Piece(nextId, x.color, kind);
      Consistent(SetCell(g, p, Some(Occupant(newcomer, 0))), RemoveFirst(l, x) + [newcomer], nextId + 1)
  {
    var x := At(g, p).value.piece;
    var newcomer := Piece(nextId, x.color, kind);
    var g' := SetCell(g, p, Some(Occupant(newcomer, 0)));
    var l' := RemoveFirst(l, x) + [newcomer];
    assert OnBoard(g, x) by { assert Holds(g, p, x); }
    assert !OnBoard(g, newcomer);
    forall q
      ensures q in RemoveFirst(l, x) <==> q in l && q != x
    {
      assert q in RemoveFirst(l, x) <==> q in multiset(RemoveFirst(l, x));
      assert q in l <==> q in multiset(l);
    }
    forall q
      ensures q in l' <==> OnBoard(g', q)
    {
      if OnBoard(g', q) && q != newcomer {
        var p0 :| PositionExists(p0) && Holds(g', p0, q);
        assert Holds(g, p0, q);
      }
      if q in l && q != x {
        var p0 :| PositionExists(p0) && Holds(g, p0, q);
        assert Holds(g', p0, q);
      }
      assert Holds(g', p, newcomer);
    }
    assert multiset(l') == multiset(l) - multiset{x} + multiset{newcomer};
  }
}
