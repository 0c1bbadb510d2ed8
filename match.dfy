/** The match: the board, whose turn it is, the check and checkmate flags,
    the piece marked vulnerable to en passant, the last promoted piece, and
    the lists of pieces on the board and captured. `PerformChessMove` is the
    move protocol: validate, move, roll back a move into self-check, promote,
    set the check flag, look for checkmate, pass the turn, mark en passant. */
module Match {
  import opened Board
  import opened Movement
  import opened Check
  import opened Setup

  datatype Result<+T, +E> = Success(value: T) | Failure(error: E)

  /** The ways a move is refused. `KingMissing` stands for the source's
      failure when a king cannot be found, reached only once a king has been
      captured. */
  datatype MoveError =
    | NoPieceOnSource
    | NotYourPiece
    | NoPossibleMoves
    | CannotMoveToTarget
    | SelfCheck
    | KingMissing

  /** The ways `replacePromotedPiece` fails. `PromotedNotOnBoard` stands for
      the source's failure when the promoted piece has left the board. */
  datatype PromotionError = NothingToPromote | InvalidType | PromotedNotOnBoard

  /** The letters `replacePromotedPiece` accepts. */
  predicate ValidPromotionCode(code: string) {
    code == "B" || code == "N" || code == "R" || code == "Q"
  }

  /** `newPiece(type, color)`: the kind a promotion letter stands for; every
      letter other than B, N and Q makes a rook. */
  function NewPieceKind(code: string): (k: Kind)
    ensures k != King && k != Pawn
    ensures k == Bishop <==> code == "B"
    ensures k == Knight <==> code == "N"
    ensures k == Queen <==> code == "Q"
  {
    if code == "B" then Bishop
    else if code == "N" then Knight
    else if code == "Q" then Queen
    else Rook
  }

  /** The row on which a pawn of `color` is promoted. */
  function PromotionRow(color: Color): int {
    if color == White then 0 else 7
  }

  /** The moved piece becomes the en-passant candidate: a pawn that moved two
      rows up, or ANY piece that moved two rows down (the `&&` of the source's
      test binds tighter than its `||`). */
  predicate MarksEnPassant(moved: Piece, s: Pos, t: Pos) {
    (moved.kind == Pawn && t.row == s.row - 2) || t.row == s.row + 2
  }

  /** Why the source square is refused, checked in the source's order. */
  function SourceError(g: Grid, s: Pos, player: Color, matchCheck: bool, others: OtherRule): (e: Option<MoveError>)
    requires PositionExists(s)
    ensures e.None? <==> At(g, s).Some? && At(g, s).value.piece.color == player && Moves(g, s, matchCheck, others) != {}
    ensures e == Some(NoPieceOnSource) <==> At(g, s).None?
    ensures e == Some(NotYourPiece) <==> At(g, s).Some? && At(g, s).value.piece.color != player
    ensures e == Some(NoPossibleMoves) <==>
      At(g, s).Some? && At(g, s).value.piece.color == player && Moves(g, s, matchCheck, others) == {}
  {
    if At(g, s).None? then Some(NoPieceOnSource)
    else if At(g, s).value.piece.color != player then Some(NotYourPiece)
    else if Moves(g, s, matchCheck, others) == {} then Some(NoPossibleMoves)
    else None
  }

  /** A pawn standing on `t` is promoted: it has reached the last row for
      its colour. */
  predicate PromotionDue(x: Piece, t: Pos) {
    x.kind == Pawn && t.row == PromotionRow(x.color)
  }

  /** The board after the promotion step with the moved piece on `t`: a pawn
      due for promotion replaced by a queen of its colour numbered `id` that
      has never moved. */
  function PromoteGrid(m: Grid, t: Pos, id: nat): Grid
    requires PositionExists(t) && At(m, t).Some?
  {
    var x := At(m, t).value.piece;
    if PromotionDue(x, t) then SetCell(m, t, Some(Occupant(Piece(id, x.color, Queen), 0))) else m
  }

  /** `piecesOnTheBoard` after the promotion step: the pawn exchanged for its
      queen at the end of the list. */
  function PromoteList(m: Grid, l: seq<Piece>, t: Pos, id: nat): seq<Piece>
    requires PositionExists(t) && At(m, t).Some?
  {
    var x := At(m, t).value.piece;
    if PromotionDue(x, t) then RemoveFirst(l, x) + [Piece(id, x.color, Queen)] else l
  }

  /** The loop of `testCheck`: whether one of the pieces `pieces` marks
      `target`, asking each piece for its matrix in list order. */
  method AnyMarks(g: Grid, pieces: seq<Piece>, target: Pos, matchCheck: bool, others: OtherRule) returns (found: bool)
    requires PositionExists(target)
    ensures found <==> exists q | q in pieces :: Attacks(g, q, target, matchCheck, others)
  {
    ghost var marksTarget := q => Attacks(g, q, target, matchCheck, others);
    var i := 0;
    while i < |pieces|
      invariant 0 <= i <= |pieces|
      invariant !AnyOf(pieces, i, marksTarget)
    {
      var marks := Marks(g, pieces[i], target, matchCheck, others);
      if marks {
        assert pieces[i] in pieces;
        return true;
      }
      i := i + 1;
    }
    NoneOf(pieces, marksTarget);
    return false;
  }

  /** One of the first `n` elements of `s` satisfies `f`. */
  ghost predicate AnyOf<T>(s: seq<T>, n: nat, f: T -> bool)
    requires n <= |s|
  {
    n > 0 && (AnyOf(s, n - 1, f) || f(s[n - 1]))
  }

  /** Each of the first `n` elements of `s` satisfies `f`. */
  ghost predicate AllOf<T>(s: seq<T>, n: nat, f: T -> bool)
    requires n <= |s|
  {
    n == 0 || (AllOf(s, n - 1, f) && f(s[n - 1]))
  }

  lemma {:induction false} AllOfMeans<T>(s: seq<T>, n: nat, f: T -> bool)
    requires n <= |s| && AllOf(s, n, f)
    ensures forall x | x in s[..n] :: f(x)
  {
    if n > 0 {
      AllOfMeans(s, n - 1, f);
      assert s[..n] == s[..n - 1] + [s[n - 1]];
    }
  }

  /** When every element satisfies `f`, taken in order, all do. */
  lemma EveryOf<T>(s: seq<T>, f: T -> bool)
    requires AllOf(s, |s|, f)
    ensures forall x | x in s :: f(x)
  {
    AllOfMeans(s, |s|, f);
    assert s[..|s|] == s;
  }

  /** When no element satisfies `f`, taken in order, none does. */
  lemma NoneOf<T>(s: seq<T>, f: T -> bool)
    requires !AnyOf(s, |s|, f)
    ensures forall x | x in s :: !f(x)
  {
    AnyOfMeans(s, |s|, f);
    assert s[..|s|] == s;
  }

  lemma {:induction false} AnyOfMeans<T>(s: seq<T>, n: nat, f: T -> bool)
    requires n <= |s|
    ensures AnyOf(s, n, f) <==> exists x | x in s[..n] :: f(x)
  {
    if n > 0 {
      AnyOfMeans(s, n - 1, f);
      assert s[..n] == s[..n - 1] + [s[n - 1]];
    }
  }

  /** Whether the piece `q` marks `target`: the matrix of its possible
      moves, read at `target`; a piece not on the board marks nothing. */
  method Marks(g: Grid, q: Piece, target: Pos, matchCheck: bool, others: OtherRule) returns (b: bool)
    requires PositionExists(target)
    ensures b == Attacks(g, q, target, matchCheck, others)
  {
    var p := Locate(g, q);
    if p.None? {
      return false;
    }
    var mat := PossibleMoves(g, p.value, matchCheck, others);
    b := mat[target.row, target.col];
  }

  class ChessMatch {
    var turn: int
    var currentPlayer: Color
    const board: array2<Option<Occupant>>
    var check: bool
    var checkMate: bool
    var enPassantVulnerable: Option<Piece>
    var promoted: Option<Piece>
    var piecesOnTheBoard: seq<Piece>
    var capturedPieces: seq<Piece>
    /** The id the next created piece gets. */
    var nextId: nat
    /** The movement of the rook, knight, bishop and queen. */
    const others: OtherRule

    /** The cells of the board as a value, kept equal to `board` by `Tied`. */
    ghost var grid: Grid

    /** `board` is the 8x8 array whose cells `grid` lists. */
    ghost predicate Tied()
      reads this`grid, board
    {
      && board.Length0 == Size && board.Length1 == Size
      && forall r, c | 0 <= r < Size && 0 <= c < Size :: board[r, c] == grid[r][c]
    }

    /** The cells of the board read off the array. */
    function Snapshot(): (g: Grid)
      reads this`grid, board
      requires Tied()
      ensures g == grid
    {
      var g := seq(Size, r reads board requires 0 <= r < Size =>
        seq(Size, c reads board requires 0 <= c < Size => board[r, c]));
      assert forall p | PositionExists(p) :: At(g, p) == At(grid, p);
      GridEq(g, grid);
      g
    }

    /** The class invariant: an 8x8 board consistent with `piecesOnTheBoard`. */
    ghost predicate Valid()
      reads this`grid, this`piecesOnTheBoard, this`nextId, board
    {
      Tied() && Consistent(grid, piecesOnTheBoard, nextId)
    }

    /** `ChessMatch()`: an 8x8 board with the 32 pieces of `initialSetup`
        on their starting squares, turn 1, white to play, nothing captured,
        no check, no checkmate, no en-passant candidate and no promotion. */
    constructor(others: OtherRule)
      ensures Valid()
      ensures grid == InitialBoard() && piecesOnTheBoard == InitialPieces() && capturedPieces == []
      ensures turn == 1 && currentPlayer == White && !check && !checkMate
      ensures enPassantVulnerable.None? && promoted.None? && nextId == 32
      ensures this.others == others
    {
      board := new Option<Occupant>[Size, Size]((r, c) => None);
      grid := EmptyCells();
      turn := 1;
      currentPlayer := White;
      check, checkMate := false, false;
      enPassantVulnerable, promoted := None, None;
      piecesOnTheBoard, capturedPieces := [], [];
      nextId := 32;
      this.others := others;
      new;
      SetUpToStart(grid);
      var i := 0;
      while i < 32
        invariant 0 <= i <= 32
        invariant Tied() && SetUpTo(grid, piecesOnTheBoard, i)
        invariant capturedPieces == [] && turn == 1 && currentPlayer == White && !check && !checkMate
        invariant enPassantVulnerable.None? && promoted.None? && nextId == 32 && this.others == others
      {
        SetUpToStep(grid, piecesOnTheBoard, i);
        PlaceNewPiece(SetupSquare(i), SetupPiece(i));
        i := i + 1;
      }
      SetUpToEnd(grid, piecesOnTheBoard);
      InitialConsistent();
    }

    /** `placeNewPiece`: a new piece, not yet moved, on the empty square `p`
        and at the end of `piecesOnTheBoard`. */
    method PlaceNewPiece(p: Pos, q: Piece)
      requires Tied() && PositionExists(p) && At(grid, p).None?
      modifies board, this`grid, this`piecesOnTheBoard
      ensures Tied()
      ensures grid == SetCell(old(grid), p, Some(Occupant(q, 0)))
      ensures piecesOnTheBoard == old(piecesOnTheBoard) + [q]
    {
      PlacePiece(Occupant(q, 0), p);
      piecesOnTheBoard := piecesOnTheBoard + [q];
    }

    /** `board.removePiece(p)`: empties `p` and returns what stood there. */
    method RemovePiece(p: Pos) returns (v: Option<Occupant>)
      requires Tied() && PositionExists(p)
      modifies board, this`grid
      ensures Tied()
      ensures v == At(old(grid), p)
      ensures grid == SetCell(old(grid), p, None)
    {
      v := board[p.row, p.col];
      board[p.row, p.col] := None;
      grid := SetCell(grid, p, None);
    }

    /** `board.piece(p)`: what stands on `p`. */
    method PieceAt(p: Pos) returns (v: Option<Occupant>)
      requires Tied() && PositionExists(p)
      ensures v == At(grid, p)
    {
      v := board[p.row, p.col];
    }

    /** `board.placePiece(o, p)` onto an empty square. */
    method PlacePiece(o: Occupant, p: Pos)
      requires Tied() && PositionExists(p) && At(grid, p).None?
      modifies board, this`grid
      ensures Tied()
      ensures grid == SetCell(old(grid), p, Some(o))
    {
      board[p.row, p.col] := Some(o);
      grid := SetCell(grid, p, Some(o));
    }

    /** The castling rook lifted from `from` and set down on `to`, its move
        count changed by `delta`. */
    method RelocateRook(from: Pos, to: Pos, delta: int)
      requires Tied() && PositionExists(from) && PositionExists(to) && from != to
      requires At(grid, from).Some?
      requires At(grid, to).None?
      modifies board, this`grid
      ensures Tied()
      ensures var rook := At(old(grid), from).value;
        grid == SetCell(SetCell(old(grid), from, None), to, Some(rook.(moveCount := rook.moveCount + delta)))
    {
      var rook := RemovePiece(from);
      PlacePiece(rook.value.(moveCount := rook.value.moveCount + delta), to);
    }

    /** `makeMove(s, t)`: returns the captured piece. */
    method MakeMove(s: Pos, t: Pos) returns (cap: Option<Occupant>)
      requires Tied() && Applicable(grid, s, t)
      modifies board, this`grid, this`piecesOnTheBoard, this`capturedPieces
      ensures Tied()
      ensures cap == CapturedBy(old(grid), t)
      ensures grid == MoveGrid(old(grid), s, t)
      ensures piecesOnTheBoard == OnBoardAfter(old(piecesOnTheBoard), cap)
      ensures capturedPieces == CapturedAfter(old(capturedPieces), cap)
    {
      ghost var g0 := grid;
      var p := RemovePiece(s);
      var moved := p.value.(moveCount := p.value.moveCount + 1);
      cap := RemovePiece(t);
      PlacePiece(moved, t);
      SetCellTwice(SetCell(g0, s, None), t, None, Some(moved));
      assert grid == Shift(g0, s, t, 1);
      if cap.Some? {
        piecesOnTheBoard := RemoveFirst(piecesOnTheBoard, cap.value.piece);
        capturedPieces := capturedPieces + [cap.value.piece];
      }
      MoveCastlingRook(s, t, moved, g0);
      if moved.piece.kind == Pawn && s.col != t.col && cap.None? {
        // en passant onto an empty square: no pawn move marks one
        assert false;
      }
    }

    /** The castling step of `makeMove(s, t)`: the king has gone from `s` to
        `t` on the board `g0`, and its rook jumps over it. */
    method MoveCastlingRook(s: Pos, t: Pos, moved: Occupant, ghost g0: Grid)
      requires Tied() && Applicable(g0, s, t) && moved.piece == At(g0, s).value.piece
      requires grid == Shift(g0, s, t, 1)
      modifies board, this`grid
      ensures Tied() && grid == MoveGrid(g0, s, t)
    {
      ghost var g1 := grid;
      if moved.piece.kind == King && t.col == s.col + 2 {
        RelocateRook(Pos(s.row, s.col + 3), Pos(s.row, s.col + 1), 1);
        assert grid == Shift(g1, RookFrom(s, t), RookTo(s, t), 1);
      }
      if moved.piece.kind == King && t.col == s.col - 2 {
        RelocateRook(Pos(s.row, s.col - 4), Pos(s.row, s.col - 1), 1);
        assert grid == Shift(g1, RookFrom(s, t), RookTo(s, t), 1);
      }
    }

    /** `makeMove(s, t)` on a valid match, which it keeps valid. */
    method Move(s: Pos, t: Pos) returns (cap: Option<Occupant>)
      requires Valid() && Applicable(grid, s, t)
      modifies board, this`grid, this`piecesOnTheBoard, this`capturedPieces
      ensures Valid()
      ensures cap == CapturedBy(old(grid), t)
      ensures grid == MoveGrid(old(grid), s, t)
      ensures piecesOnTheBoard == OnBoardAfter(old(piecesOnTheBoard), cap)
      ensures capturedPieces == CapturedAfter(old(capturedPieces), cap)
    {
      MoveKeepsConsistent(grid, piecesOnTheBoard, nextId, s, t);
      cap := MakeMove(s, t);
    }

    /** `undoMove(s, t, cap)` without its en-passant branch (see
        `UndoGridAsWritten` for the branch as written). */
    method UndoMove(s: Pos, t: Pos, cap: Option<Occupant>)
      requires Tied() && Undoable(grid, s, t)
      requires At(grid, s).None?
      requires Castles(At(grid, t).value, s, t) ==> At(grid, RookFrom(s, t)).None?
      modifies board, this`grid, this`piecesOnTheBoard, this`capturedPieces
      ensures Tied()
      ensures grid == UndoGrid(old(grid), s, t, cap)
      ensures piecesOnTheBoard == OnBoardRestored(old(piecesOnTheBoard), cap)
      ensures capturedPieces == CapturedRestored(old(capturedPieces), cap)
    {
      ghost var g0 := grid;
      var p := RemovePiece(t);
      var back := p.value.(moveCount := p.value.moveCount - 1);
      PlacePiece(back, s);
      assert grid == Shift(g0, t, s, -1);
      if cap.Some? {
        PlacePiece(cap.value, t);
        capturedPieces := RemoveFirst(capturedPieces, cap.value.piece);
        piecesOnTheBoard := piecesOnTheBoard + [cap.value.piece];
      } else {
        SetCellSame(grid, t);
      }
      assert grid == SetCell(Shift(g0, t, s, -1), t, cap);
      ghost var g1 := grid;
      ghost var castles := Castles(At(g0, t).value, s, t);
      if back.piece.kind == King && t.col == s.col + 2 {
        RelocateRook(Pos(s.row, s.col + 1), Pos(s.row, s.col + 3), -1);
        assert castles && grid == Shift(g1, RookTo(s, t), RookFrom(s, t), -1);
      }
      if back.piece.kind == King && t.col == s.col - 2 {
        RelocateRook(Pos(s.row, s.col - 1), Pos(s.row, s.col - 4), -1);
        assert castles && grid == Shift(g1, RookTo(s, t), RookFrom(s, t), -1);
      }
      assert grid == if castles then Shift(g1, RookTo(s, t), RookFrom(s, t), -1) else g1;
    }
  
    /** `king(c)`: the first king of colour `c` in `piecesOnTheBoard`, `None`
        where the source throws. */
    method KingPiece(c: Color) returns (k: Option<Piece>)
      ensures k == KingOf(piecesOnTheBoard, c)
    {
      var list := FilterColor(piecesOnTheBoard, c);
      var i := 0;
      while i < |list|
        invariant 0 <= i <= |list|
        invariant FirstKing(list) == FirstKing(list[i..])
      {
        assert list[i..] == [list[i]] + list[i + 1..];
        if list[i].kind == King {
          return Some(list[i]);
        }
        i := i + 1;
      }
      return None;
    }

    /** `testCheck(c)`: whether an enemy piece marks the square of the king of
        colour `c`, `None` where the source throws. */
    method TestCheck(c: Color) returns (r: Option<bool>)
      requires Valid()
      ensures r == InCheck(grid, piecesOnTheBoard, c, check, others)
    {
      var k := KingPiece(c);
      if k.None? {
        return None;
      }
      var g := Snapshot();
      var kingPosition := Locate(g, k.value);
      if kingPosition.None? {
        return None;
      }
      var kp := kingPosition.value;
      var opponentPieces := FilterColor(piecesOnTheBoard, Opponent(c));
      var found := AnyMarks(g, opponentPieces, kp, check, others);
      assert forall q | q in piecesOnTheBoard && q.color == Opponent(c) :: q in opponentPieces;
      return Some(found);
    }
  
    /** One trial of `testCheckMate`: make the move from `source` to `target`,
        ask whether colour `c` is still in check, and undo the move. When the
        king cannot be found the source throws before undoing, so nothing is
        promised about the state then. */
    method TrySquare(source: Pos, target: Pos, c: Color) returns (r: Option<bool>)
      requires Valid() && Applicable(grid, source, target)
      modifies board, this`grid, this`piecesOnTheBoard, this`capturedPieces
      ensures r == old(TrialCheck(grid, piecesOnTheBoard, c, check, others, source, target))
      ensures r.Some? ==> Valid() && grid == old(grid)
      ensures r.Some? ==> multiset(piecesOnTheBoard) == multiset(old(piecesOnTheBoard))
      ensures r.Some? ==> multiset(capturedPieces) == multiset(old(capturedPieces))
    {
      ghost var g0, l0, cl0 := grid, piecesOnTheBoard, capturedPieces;
      var capturedPiece := Move(source, target);
      var inCheck := TestCheck(c);
      if inCheck.None? {
        return None;
      }
      RollBack(source, target, capturedPiece, g0, l0, cl0);
      return inCheck;
    }
  
    /** One square of the inner loops of `testCheckMate(c)`: when `mat`
        marks it, the move of `q` there is made, `c` is tested and the move is
        undone. `g0` and `l0` are the board and list the loops started from. */
    method TryTarget(q: Piece, mat: array2<bool>, c: Color, row: int, col: int, ghost g0: Grid, ghost l0: seq<Piece>, ghost cl0: seq<Piece>)
      returns (r: Option<bool>)
      requires Valid() && grid == g0 && Locate(g0, q).Some? && UniqueKings(l0)
      requires multiset(piecesOnTheBoard) == multiset(l0) && multiset(capturedPieces) == multiset(cl0)
      requires mat.Length0 == Size && mat.Length1 == Size && 0 <= row < Size && 0 <= col < Size
      requires mat[row, col] <==> Pos(row, col) in Moves(g0, Locate(g0, q).value, check, others)
      modifies board, this`grid, this`piecesOnTheBoard, this`capturedPieces
      ensures r.Some? ==> Valid() && grid == g0
      ensures r.Some? ==> multiset(piecesOnTheBoard) == multiset(l0) && multiset(capturedPieces) == multiset(cl0)
      ensures r == Some(true) ==> (Pos(row, col) in Moves(g0, Locate(g0, q).value, check, others) ==>
        TrialCheck(g0, l0, c, check, others, Locate(g0, q).value, Pos(row, col)) == Some(true))
      ensures r != Some(true) ==> Pos(row, col) in Moves(g0, Locate(g0, q).value, check, others)
      ensures r == Some(false) ==> TrialCheck(g0, l0, c, check, others, Locate(g0, q).value, Pos(row, col)) == Some(false)
      ensures r.None? ==> TrialCheck(g0, l0, c, check, others, Locate(g0, q).value, Pos(row, col)).None?
    {
      if !mat[row, col] {
        return Some(true);
      }
      var source := Locate(Snapshot(), q).value;
      var target := Pos(row, col);
      MovesApplicable(g0, source, target, check, others);
      TrialCheckReordered(g0, l0, piecesOnTheBoard, c, check, others, source, target);
      r := TrySquare(source, target, c);
    }

    /** The innermost loop of `testCheckMate(c)`: the squares of one row, left
        to right, stopping at the first move that gets `c` out of check. */
    method TryRow(q: Piece, mat: array2<bool>, c: Color, row: int, ghost g0: Grid, ghost l0: seq<Piece>, ghost cl0: seq<Piece>)
      returns (r: Option<bool>)
      requires Valid() && grid == g0 && Locate(g0, q).Some? && UniqueKings(l0)
      requires multiset(piecesOnTheBoard) == multiset(l0) && multiset(capturedPieces) == multiset(cl0)
      requires mat.Length0 == Size && mat.Length1 == Size && 0 <= row < Size
      requires forall col | 0 <= col < Size :: mat[row, col] <==> Pos(row, col) in Moves(g0, Locate(g0, q).value, check, others)
      modifies board, this`grid, this`piecesOnTheBoard, this`capturedPieces
      ensures r.Some? ==> Valid() && grid == g0
      ensures r.Some? ==> multiset(piecesOnTheBoard) == multiset(l0) && multiset(capturedPieces) == multiset(cl0)
      ensures r == Some(true) ==> forall t | t in Moves(g0, Locate(g0, q).value, check, others) && t.row == row ::
        TrialCheck(g0, l0, c, check, others, Locate(g0, q).value, t) == Some(true)
      ensures r == Some(false) ==> exists t | t in Moves(g0, Locate(g0, q).value, check, others) ::
        TrialCheck(g0, l0, c, check, others, Locate(g0, q).value, t) == Some(false)
      ensures r.None? ==> exists t | t in Moves(g0, Locate(g0, q).value, check, others) ::
        TrialCheck(g0, l0, c, check, others, Locate(g0, q).value, t).None?
    {
      ghost var p := Locate(g0, q).value;
      var col := 0;
      while col < Size
        invariant 0 <= col <= Size
        invariant Valid() && grid == g0
        invariant multiset(piecesOnTheBoard) == multiset(l0) && multiset(capturedPieces) == multiset(cl0)
        invariant forall t | t in Moves(g0, p, check, others) && t.row == row && t.col < col ::
          TrialCheck(g0, l0, c, check, others, p, t) == Some(true)
      {
        r := TryTarget(q, mat, c, row, col, g0, l0, cl0);
        if r != Some(true) {
          return;
        }
        forall t | t in Moves(g0, p, check, others) && t.row == row && t.col == col
          ensures TrialCheck(g0, l0, c, check, others, p, t) == Some(true)
        {
          assert t == Pos(row, col);
        }
        col := col + 1;
      }
      return Some(true);
    }

    /** The two inner loops of `testCheckMate(c)`: every square `mat` marks
        for the piece `q` is tried in row-major order, stopping at the first
        move that gets `c` out of check. */
    method TryMovesOf(q: Piece, mat: array2<bool>, c: Color) returns (r: Option<bool>)
      requires Valid() && Locate(grid, q).Some?
      requires mat.Length0 == Size && mat.Length1 == Size
      requires forall row, col | 0 <= row < Size && 0 <= col < Size ::
        mat[row, col] <==> Pos(row, col) in Moves(grid, Locate(grid, q).value, check, others)
      modifies board, this`grid, this`piecesOnTheBoard, this`capturedPieces
      ensures r.Some? ==> Valid() && grid == old(grid)
      ensures r.Some? ==> multiset(piecesOnTheBoard) == multiset(old(piecesOnTheBoard))
      ensures r.Some? ==> multiset(capturedPieces) == multiset(old(capturedPieces))
      ensures r == Some(true) ==> old(NoEscapeBy(grid, piecesOnTheBoard, c, check, others, q))
      ensures r == Some(false) ==> old(EscapeBy(grid, piecesOnTheBoard, c, check, others, q))
      ensures r.None? ==> old(TrialFailsBy(grid, piecesOnTheBoard, c, check, others, q))
    {
      ghost var g0, l0, cl0 := grid, piecesOnTheBoard, capturedPieces;
      ghost var p := Locate(g0, q).value;
      var row := 0;
      while row < Size
        invariant 0 <= row <= Size
        invariant Valid() && grid == g0
        invariant multiset(piecesOnTheBoard) == multiset(l0) && multiset(capturedPieces) == multiset(cl0)
        invariant forall t | t in Moves(g0, p, check, others) && t.row < row :: TrialCheck(g0, l0, c, check, others, p, t) == Some(true)
      {
        r := TryRow(q, mat, c, row, g0, l0, cl0);
        if r != Some(true) {
          return;
        }
        row := row + 1;
      }
      return Some(true);
    }

    /** One pass of the outer loop of `testCheckMate(c)`: the moves of the
        piece `q`, as `possibleMoves` marks them, each tried and undone. */
    method TryPiece(q: Piece, c: Color, ghost g0: Grid, ghost l0: seq<Piece>, ghost cl0: seq<Piece>) returns (r: Option<bool>)
      requires Valid() && grid == g0 && Locate(g0, q).Some? && UniqueKings(l0)
      requires multiset(piecesOnTheBoard) == multiset(l0) && multiset(capturedPieces) == multiset(cl0)
      modifies board, this`grid, this`piecesOnTheBoard, this`capturedPieces
      ensures r.Some? ==> Valid() && grid == g0
      ensures r.Some? ==> multiset(piecesOnTheBoard) == multiset(l0) && multiset(capturedPieces) == multiset(cl0)
      ensures r == Some(true) ==> NoEscapeBy(g0, l0, c, check, others, q)
      ensures r == Some(false) ==> EscapeBy(g0, l0, c, check, others, q)
      ensures r.None? ==> TrialFailsBy(g0, l0, c, check, others, q)
    {
      var mat := Movement.PossibleMoves(Snapshot(), Locate(Snapshot(), q).value, check, others);
      ByReordered(g0, l0, piecesOnTheBoard, c, check, others, q);
      r := TryMovesOf(q, mat, c);
    }

    /** The board is back to `g0` and the two lists hold the pieces of
        `l0` and `cl0`, in any order. */
    ghost predicate Restored(g0: Grid, l0: seq<Piece>, cl0: seq<Piece>)
      reads this`grid, this`piecesOnTheBoard, this`capturedPieces, board
    {
      Tied() && grid == g0 && multiset(piecesOnTheBoard) == multiset(l0) && multiset(capturedPieces) == multiset(cl0)
    }

    /** The outer loop of `testCheckMate(c)`: the pieces of `list` in order,
        stopping at the first that can get `c` out of check.
        `stuck`, `escapes` and `fails` only name `NoEscapeBy`, `EscapeBy` and
        `TrialFailsBy` on `g0` and `l0` (the requires say so); passing them
        as parameters keeps those definitions folded inside the loop. */
    method TryPieces(list: seq<Piece>, c: Color, ghost g0: Grid, ghost l0: seq<Piece>, ghost cl0: seq<Piece>,
                     ghost stuck: Piece -> bool, ghost escapes: Piece -> bool, ghost fails: Piece -> bool) returns (r: Option<bool>)
      requires Restored(g0, l0, cl0) && Consistent(g0, l0, nextId) && forall q | q in list :: q in l0
      requires forall q {:trigger NoEscapeBy(g0, l0, c, check, others, q)} :: stuck(q) == NoEscapeBy(g0, l0, c, check, others, q)
      requires forall q {:trigger EscapeBy(g0, l0, c, check, others, q)} :: escapes(q) == EscapeBy(g0, l0, c, check, others, q)
      requires forall q {:trigger TrialFailsBy(g0, l0, c, check, others, q)} :: fails(q) == TrialFailsBy(g0, l0, c, check, others, q)
      modifies board, this`grid, this`piecesOnTheBoard, this`capturedPieces
      ensures r.Some? ==> Restored(g0, l0, cl0)
      ensures r == Some(true) ==> forall q | q in list :: stuck(q)
      ensures r == Some(false) ==> exists q | q in list :: escapes(q)
      ensures r.None? ==> exists q | q in list :: fails(q)
    {
      var i := 0;
      while i < |list|
        invariant 0 <= i <= |list|
        invariant Restored(g0, l0, cl0)
        invariant AllOf(list, i, stuck)
      {
        r := TryNext(list, i, c, g0, l0, cl0, stuck, escapes, fails);
        if r != Some(true) {
          return;
        }
        i := i + 1;
      }
      EveryOf(list, stuck);
      return Some(true);
    }

    /** The piece at index `i` of the outer loop of `testCheckMate(c)`: the
        pieces before it have no escape, and it is tried in turn. As in
        `TryPieces`, `stuck`, `escapes` and `fails` only name `NoEscapeBy`,
        `EscapeBy` and `TrialFailsBy`. */
    method TryNext(list: seq<Piece>, i: nat, c: Color, ghost g0: Grid, ghost l0: seq<Piece>, ghost cl0: seq<Piece>,
                   ghost stuck: Piece -> bool, ghost escapes: Piece -> bool, ghost fails: Piece -> bool) returns (r: Option<bool>)
      requires Restored(g0, l0, cl0) && Consistent(g0, l0, nextId) && i < |list| && list[i] in l0
      requires forall q {:trigger NoEscapeBy(g0, l0, c, check, others, q)} :: stuck(q) == NoEscapeBy(g0, l0, c, check, others, q)
      requires forall q {:trigger EscapeBy(g0, l0, c, check, others, q)} :: escapes(q) == EscapeBy(g0, l0, c, check, others, q)
      requires forall q {:trigger TrialFailsBy(g0, l0, c, check, others, q)} :: fails(q) == TrialFailsBy(g0, l0, c, check, others, q)
      requires AllOf(list, i, stuck)
      modifies board, this`grid, this`piecesOnTheBoard, this`capturedPieces
      ensures r.Some? ==> Restored(g0, l0, cl0)
      ensures r == Some(true) ==> AllOf(list, i + 1, stuck)
      ensures r == Some(false) ==> exists q | q in list :: escapes(q)
      ensures r.None? ==> exists q | q in list :: fails(q)
    {
      var q := list[i];
      ConsistentReordered(g0, l0, piecesOnTheBoard, nextId);
      r := TryPiece(q, c, g0, l0, cl0);
      assert q in list;
    }

    /** `testCheckMate(c)`: colour `c` is in check and every move of each of
        its pieces, tried and undone in turn, leaves it in check. */
    method TestCheckMate(c: Color) returns (r: Option<bool>)
      requires Valid()
      modifies board, this`grid, this`piecesOnTheBoard, this`capturedPieces
      ensures r.Some? ==> Valid() && grid == old(grid)
      ensures r.Some? ==> multiset(piecesOnTheBoard) == multiset(old(piecesOnTheBoard))
      ensures r.Some? ==> multiset(capturedPieces) == multiset(old(capturedPieces))
      ensures r.Some? ==> (r.value <==> old(Mated(grid, piecesOnTheBoard, c, check, others)))
      ensures old(InCheck(grid, piecesOnTheBoard, c, check, others)) == Some(false) ==> r == Some(false)
      ensures r.None? ==>
        old(InCheck(grid, piecesOnTheBoard, c, check, others)).None? ||
        old(TrialFails(grid, piecesOnTheBoard, c, check, others))
    {
      var inCheck := TestCheck(c);
      if inCheck.None? {
        return None;
      }
      if !inCheck.value {
        return Some(false);
      }
      r := TryOwnPieces(c);
    }

    /** The trial part of `testCheckMate(c)`: every move of each piece of
        colour `c`, tried and undone; `Some(true)` when none gets `c` out of
        check. */
    method TryOwnPieces(c: Color) returns (r: Option<bool>)
      requires Valid()
      modifies board, this`grid, this`piecesOnTheBoard, this`capturedPieces
      ensures r.Some? ==> Valid() && grid == old(grid)
      ensures r.Some? ==> multiset(piecesOnTheBoard) == multiset(old(piecesOnTheBoard))
      ensures r.Some? ==> multiset(capturedPieces) == multiset(old(capturedPieces))
      ensures r.Some? ==> (r.value <==> !old(Escapes(grid, piecesOnTheBoard, c, check, others)))
      ensures r.None? ==> old(TrialFails(grid, piecesOnTheBoard, c, check, others))
    {
      ghost var g0, l0, cl0 := grid, piecesOnTheBoard, capturedPieces;
      ghost var chk := check;
      ghost var stuck := q => NoEscapeBy(g0, l0, c, chk, others, q);
      ghost var escapes := q => EscapeBy(g0, l0, c, chk, others, q);
      ghost var fails := q => TrialFailsBy(g0, l0, c, chk, others, q);
      var list := FilterColor(piecesOnTheBoard, c);
      r := TryPieces(list, c, g0, l0, cl0, stuck, escapes, fails);
      if r.Some? {
        ConsistentReordered(g0, l0, piecesOnTheBoard, nextId);
      }
    }

    /** `nextTurn()`: the turn number goes up and the other colour plays. */
    method NextTurn()
      modifies this`turn, this`currentPlayer
      ensures turn == old(turn) + 1 && currentPlayer == Opponent(old(currentPlayer))
    {
      turn := turn + 1;
      currentPlayer := if currentPlayer == White then Black else White;
    }

    /** `replacePromotedPiece(code)`: the promoted piece is taken off its
        square and out of `piecesOnTheBoard`, and a new piece of its colour,
        of the kind `code` names, takes its place on both. */
    method ReplacePromotedPiece(code: string) returns (r: Result<Piece, PromotionError>)
      requires Valid()
      modifies board, this`grid, this`piecesOnTheBoard, this`nextId
      ensures Valid()
      ensures promoted.None? ==> r == Failure(NothingToPromote)
      ensures promoted.Some? && !ValidPromotionCode(code) ==> r == Failure(InvalidType)
      ensures promoted.Some? && ValidPromotionCode(code) && !OnBoard(old(grid), promoted.value) ==>
        r == Failure(PromotedNotOnBoard)
      ensures r.Failure? ==>
        grid == old(grid) && piecesOnTheBoard == old(piecesOnTheBoard) && nextId == old(nextId)
      ensures r.Success? <==> promoted.Some? && ValidPromotionCode(code) && OnBoard(old(grid), promoted.value)
      ensures r.Success? ==> r.value == Piece(old(nextId), promoted.value.color, NewPieceKind(code))
      ensures r.Success? ==>
        grid == SetCell(old(grid), Locate(old(grid), promoted.value).value, Some(Occupant(r.value, 0)))
      ensures r.Success? ==>
        piecesOnTheBoard == RemoveFirst(old(piecesOnTheBoard), promoted.value) + [r.value] && nextId == old(nextId) + 1
      ensures r.Success? ==> |piecesOnTheBoard| == |old(piecesOnTheBoard)|
    {
      if promoted.None? {
        return Failure(NothingToPromote);
      }
      if !ValidPromotionCode(code) {
        return Failure(InvalidType);
      }
      var pos := Locate(Snapshot(), promoted.value);
      if pos.None? {
        return Failure(PromotedNotOnBoard);
      }
      ghost var l0 := piecesOnTheBoard;
      assert promoted.value in l0;
      assert |multiset(RemoveFirst(l0, promoted.value))| == |multiset(l0)| - 1;
      var newPiece := Replace(pos.value, promoted.value, NewPieceKind(code));
      return Success(newPiece);
    }

    /** The piece `x` on `pos` taken off the board and out of
        `piecesOnTheBoard`, and a new piece of its colour and of `kind` put
        on `pos` and at the end of the list. */
    method Replace(pos: Pos, x: Piece, kind: Kind) returns (newPiece: Piece)
      requires Valid() && PositionExists(pos) && Holds(grid, pos, x) && kind != King
      modifies board, this`grid, this`piecesOnTheBoard, this`nextId
      ensures Valid()
      ensures newPiece == Piece(old(nextId), x.color, kind) && nextId == old(nextId) + 1
      ensures grid == SetCell(old(grid), pos, Some(Occupant(newPiece, 0)))
      ensures piecesOnTheBoard == RemoveFirst(old(piecesOnTheBoard), x) + [newPiece]
    {
      ghost var g0 := grid;
      ReplaceKeepsConsistent(g0, piecesOnTheBoard, nextId, pos, kind);
      var p := RemovePiece(pos);
      piecesOnTheBoard := RemoveFirst(piecesOnTheBoard, p.value.piece);
      newPiece := Piece(nextId, x.color, kind);
      nextId := nextId + 1;
      PlacePiece(Occupant(newPiece, 0), pos);
      SetCellTwice(g0, pos, None, Some(Occupant(newPiece, 0)));
      piecesOnTheBoard := piecesOnTheBoard + [newPiece];
    }

    /** `possibleMoves(sourcePosition)`: after the source square passes
        validation, the matrix of the squares its piece can move to. */
    method PossibleMoves(s: Pos) returns (r: Result<array2<bool>, MoveError>)
      requires Valid() && PositionExists(s)
      ensures r.Failure? ==> SourceError(grid, s, currentPlayer, check, others) == Some(r.error)
      ensures r.Success? ==> SourceError(grid, s, currentPlayer, check, others).None?
      ensures r.Success? ==> fresh(r.value) && r.value.Length0 == Size && r.value.Length1 == Size
      ensures r.Success? ==> forall row, col | 0 <= row < Size && 0 <= col < Size ::
        r.value[row, col] <==> Pos(row, col) in Moves(grid, s, check, others)
    {
      var e := SourceError(Snapshot(), s, currentPlayer, check, others);
      if e.Some? {
        return Failure(e.value);
      }
      var mat := Movement.PossibleMoves(Snapshot(), s, check, others);
      return Success(mat);
    }

    /** The first half of `performChessMove` after validation: make the move
        and, if it leaves the mover's king attacked, undo it and refuse. */
    method AttemptMove(s: Pos, t: Pos, ghost trial: Option<bool>) returns (r: Result<Option<Occupant>, MoveError>)
      requires Valid() && Applicable(grid, s, t)
      requires trial == TrialCheck(grid, piecesOnTheBoard, currentPlayer, check, others, s, t)
      modifies board, this`grid, this`piecesOnTheBoard, this`capturedPieces
      ensures r == Failure(SelfCheck) <==> trial == Some(true)
      ensures r == Failure(KingMissing) <==> trial.None?
      ensures r.Failure? ==> r.error == SelfCheck || r.error == KingMissing
      ensures r == Failure(SelfCheck) ==> Valid()
      ensures r == Failure(SelfCheck) ==>
        Unchanged(old(grid), old(piecesOnTheBoard), old(capturedPieces), currentPlayer, check, checkMate, turn,
                  enPassantVulnerable, promoted, nextId)
      ensures r.Success? ==> Valid() && r.value == CapturedBy(old(grid), t)
      ensures r.Success? ==> grid == MoveGrid(old(grid), s, t)
      ensures r.Success? ==>
        piecesOnTheBoard == OnBoardAfter(old(piecesOnTheBoard), r.value) &&
        capturedPieces == CapturedAfter(old(capturedPieces), r.value)
    {
      ghost var g0, l0, cl0 := grid, piecesOnTheBoard, capturedPieces;
      var capturedPiece := Move(s, t);
      var inCheck := TestCheck(currentPlayer);
      if inCheck.None? {
        return Failure(KingMissing);
      }
      if inCheck.value {
        RollBack(s, t, capturedPiece, g0, l0, cl0);
        return Failure(SelfCheck);
      }
      return Success(capturedPiece);
    }

    /** `undoMove(s, t, cap)` right after `makeMove(s, t)` returned `cap` on
        board `g0` with lists `l0` and `cl0`: the board and the lists are as
        they were, the lists up to order. */
    method RollBack(s: Pos, t: Pos, cap: Option<Occupant>, ghost g0: Grid, ghost l0: seq<Piece>, ghost cl0: seq<Piece>)
      requires Applicable(g0, s, t) && Consistent(g0, l0, nextId) && cap == CapturedBy(g0, t)
      requires Tied() && grid == MoveGrid(g0, s, t)
      requires piecesOnTheBoard == OnBoardAfter(l0, cap) && capturedPieces == CapturedAfter(cl0, cap)
      modifies board, this`grid, this`piecesOnTheBoard, this`capturedPieces
      ensures Valid() && grid == g0
      ensures multiset(piecesOnTheBoard) == multiset(l0) && multiset(capturedPieces) == multiset(cl0)
    {
      UndoMoveRestoresBoard(g0, s, t);
      if cap.Some? {
        assert Holds(g0, t, cap.value.piece);
      }
      UndoMoveRestoresLists(l0, cl0, cap);
      UndoMove(s, t, cap);
      ConsistentReordered(g0, l0, piecesOnTheBoard, nextId);
    }

    /** The promotion step of `performChessMove`: `promoted` is cleared, and a
        pawn that has reached its last row becomes the promoted piece and is
        replaced by a queen (`replacePromotedPiece("Q")`), which is then the
        promoted piece. */
    method Promote(t: Pos)
      requires Valid() && PositionExists(t) && At(grid, t).Some?
      modifies board, this`grid, this`promoted, this`piecesOnTheBoard, this`nextId
      ensures Valid()
      ensures grid == PromoteGrid(old(grid), t, old(nextId))
      ensures piecesOnTheBoard == PromoteList(old(grid), old(piecesOnTheBoard), t, old(nextId))
      ensures var x := At(old(grid), t).value.piece;
        && promoted == (if PromotionDue(x, t) then Some(Piece(old(nextId), x.color, Queen)) else None)
        && nextId == (if PromotionDue(x, t) then old(nextId) + 1 else old(nextId))
    {
      ghost var g0, l0, id := grid, piecesOnTheBoard, nextId;
      var cell := PieceAt(t);
      var movedPiece := cell.value.piece;
      promoted := None;
      if movedPiece.kind == Pawn {
        if (movedPiece.color == White && t.row == 0) || (movedPiece.color == Black && t.row == 7) {
          assert PromotionDue(movedPiece, t);
          promoted := Some(movedPiece);
          LocateUnique(g0, t, movedPiece);
          assert ValidPromotionCode("Q") && NewPieceKind("Q") == Queen;
          assert OnBoard(g0, movedPiece);
          var queen := ReplacePromotedPiece("Q");
          assert queen == Success(Piece(id, movedPiece.color, Queen));
          assert grid == SetCell(g0, t, Some(Occupant(queen.value, 0)));
          promoted := Some(queen.value);
          return;
        }
      }
      assert !PromotionDue(movedPiece, t);
    }

    /** The check step of `performChessMove`: the check flag says whether
        the opponent of the player to move is in check. `false` where the
        source throws for want of a king. */
    method UpdateCheck() returns (ok: bool)
      requires Valid()
      modifies this`check
      ensures ok <==> InCheck(grid, piecesOnTheBoard, Opponent(currentPlayer), old(check), others).Some?
      ensures ok ==> check == (InCheck(grid, piecesOnTheBoard, Opponent(currentPlayer), old(check), others) == Some(true))
    {
      var oppCheck := TestCheck(Opponent(currentPlayer));
      if oppCheck.None? {
        return false;
      }
      check := oppCheck.value;
      return true;
    }

    /** The checkmate step of `performChessMove`: the opponent of the player
        to move is tested for checkmate; then either the checkmate flag is set
        or the turn passes. `false` where the source throws for want of a
        king. */
    method UpdateMate() returns (ok: bool)
      requires Valid()
      modifies board, this`grid, this`piecesOnTheBoard, this`capturedPieces, this`checkMate, this`turn, this`currentPlayer
      ensures !ok ==> old(InCheck(grid, piecesOnTheBoard, Opponent(currentPlayer), check, others).None?
        || TrialFails(grid, piecesOnTheBoard, Opponent(currentPlayer), check, others))
      ensures ok ==> Valid() && grid == old(grid)
      ensures ok ==> multiset(piecesOnTheBoard) == multiset(old(piecesOnTheBoard))
      ensures ok ==> multiset(capturedPieces) == multiset(old(capturedPieces))
      ensures ok ==> if old(Mated(grid, piecesOnTheBoard, Opponent(currentPlayer), check, others))
                     then checkMate && turn == old(turn) && currentPlayer == old(currentPlayer)
                     else checkMate == old(checkMate) && turn == old(turn) + 1 && currentPlayer == Opponent(old(currentPlayer))
    {
      var mate := TestCheckMate(Opponent(currentPlayer));
      if mate.None? {
        return false;
      }
      EndTurn(mate.value);
      return true;
    }

    /** The end of `performChessMove`'s turn: set the checkmate flag when the
        opponent is mated, pass the turn otherwise. */
    method EndTurn(mated: bool)
      modifies this`checkMate, this`turn, this`currentPlayer
      ensures checkMate == (old(checkMate) || mated)
      ensures if mated then turn == old(turn) && currentPlayer == old(currentPlayer)
              else turn == old(turn) + 1 && currentPlayer == Opponent(old(currentPlayer))
    {
      if mated {
        checkMate := true;
      } else {
        NextTurn();
      }
    }

    /** The state once a kept move has been settled, `g` and `l` being the
        board and list after the promotion step and `cl` the captured list,
        with `c` to play, check flag `chk`, checkmate flag `mate0` and turn
        `turn0` before: the board and lists as they were (the lists up to
        order), the check flag saying whether the opponent is in check, and
        the checkmate flag set or the turn passed. */
    ghost predicate Settled(g: Grid, l: seq<Piece>, cl: seq<Piece>, c: Color, chk: bool, mate0: bool, turn0: int)
      reads this`grid, this`piecesOnTheBoard, this`capturedPieces, this`check, this`checkMate, this`turn, this`currentPlayer
    {
      && grid == g
      && multiset(piecesOnTheBoard) == multiset(l)
      && multiset(capturedPieces) == multiset(cl)
      && check == (InCheck(g, l, Opponent(c), chk, others) == Some(true))
      && (if Mated(g, l, Opponent(c), check, others) then checkMate && turn == turn0 && currentPlayer == c
          else checkMate == mate0 && turn == turn0 + 1 && currentPlayer == Opponent(c))
    }

    /** The check and checkmate steps of `performChessMove`, from the state
        the promotion step left. `false` where the source throws for want of
        a king. */
    method Settle() returns (ok: bool)
      requires Valid()
      modifies board, this`grid, this`piecesOnTheBoard, this`capturedPieces, this`check, this`checkMate, this`turn,
               this`currentPlayer
      ensures !ok ==> InCheck(old(grid), old(piecesOnTheBoard), Opponent(old(currentPlayer)), old(check), others).None?
                      || TrialFails(old(grid), old(piecesOnTheBoard), Opponent(old(currentPlayer)), check, others)
      ensures ok ==> Valid() && Settled(old(grid), old(piecesOnTheBoard), old(capturedPieces),
                                        old(currentPlayer), old(check), old(checkMate), old(turn))
    {
      ok := UpdateCheck();
      if !ok {
        return;
      }
      ok := UpdateMate();
    }

    /** The state after an accepted move from `s` to `t`, where `m` and `l`
        are the board and list right after the move and `cl` the captured
        list, `c` was to play with check flag `chk`, checkmate flag `mate0`,
        turn `turn0` and next id `id`: the state `Settled` describes from the
        board and list of `PromoteGrid` and `PromoteList`, the promoted
        queen recorded, and the mover marked for en passant or not. */
    ghost predicate Accepted(s: Pos, t: Pos, m: Grid, l: seq<Piece>, cl: seq<Piece>, c: Color, chk: bool, mate0: bool, turn0: int, id: nat)
      requires PositionExists(t)
      reads this`grid, this`piecesOnTheBoard, this`capturedPieces, this`check, this`checkMate, this`turn, this`currentPlayer,
        this`promoted, this`nextId, this`enPassantVulnerable
    {
      match At(m, t)
      case None => false
      case Some(o) =>
        var mover := o.piece;
        && Settled(PromoteGrid(m, t, id), PromoteList(m, l, t, id), cl, c, chk, mate0, turn0)
        && promoted == (if PromotionDue(mover, t) then Some(Piece(id, mover.color, Queen)) else None)
        && nextId == (if PromotionDue(mover, t) then id + 1 else id)
        && enPassantVulnerable == (if MarksEnPassant(mover, s, t) then Some(mover) else None)
    }

    /** Why an accepted move to `t` ends in the source throwing, `m` and `l`
        being the board and list right after the move: a king cannot be
        found after the promotion step, or while trying the opponent's
        replies. */
    ghost predicate KingLost(t: Pos, m: Grid, l: seq<Piece>, c: Color, chk: bool, id: nat)
      requires PositionExists(t)
      reads this`check
    {
      match At(m, t)
      case None => false
      case Some(_) =>
        var g1, l1 := PromoteGrid(m, t, id), PromoteList(m, l, t, id);
        InCheck(g1, l1, Opponent(c), chk, others).None? || TrialFails(g1, l1, Opponent(c), check, others)
    }

    /** The second half of `performChessMove`, once the move from `s` to `t`
        is made and kept: promote, settle check and checkmate, and mark the
        en-passant candidate. `false` where the source throws for want of a
        king. */
    method Conclude(s: Pos, t: Pos) returns (ok: bool)
      requires Valid() && PositionExists(t) && At(grid, t).Some?
      modifies board, this`grid, this`promoted, this`piecesOnTheBoard, this`nextId, this`capturedPieces, this`check,
               this`checkMate, this`turn, this`currentPlayer, this`enPassantVulnerable
      ensures !ok ==> KingLost(t, old(grid), old(piecesOnTheBoard), old(currentPlayer), old(check), old(nextId))
      ensures ok ==> Valid() && Accepted(s, t, old(grid), old(piecesOnTheBoard), old(capturedPieces), old(currentPlayer),
                                         old(check), old(checkMate), old(turn), old(nextId))
    {
      ghost var m, l, cl, c, chk, mate0, turn0, id := grid, piecesOnTheBoard, capturedPieces, currentPlayer, check, checkMate, turn, nextId;
      var cell := PieceAt(t);
      var movedPiece := cell.value.piece;
      Promote(t);
      ok := SettleAndMark(movedPiece, s, t, m, l, cl, c, chk, mate0, turn0, id);
    }

    /** The check, checkmate and en-passant steps of `performChessMove`,
        `movedPiece` having moved from `s` to `t` on the board `m`, with the
        list `l`, the captured list `cl`, `c` to play, check flag `chk`,
        checkmate flag `mate0`, turn `turn0` and next id `id`, and the
        promotion step done. */
    method SettleAndMark(movedPiece: Piece, s: Pos, t: Pos, ghost m: Grid, ghost l: seq<Piece>, ghost cl: seq<Piece>,
                         ghost c: Color, ghost chk: bool, ghost mate0: bool, ghost turn0: int, ghost id: nat)
      returns (ok: bool)
      requires PositionExists(t) && At(m, t).Some? && movedPiece == At(m, t).value.piece
      requires Valid() && grid == PromoteGrid(m, t, id) && piecesOnTheBoard == PromoteList(m, l, t, id)
      requires capturedPieces == cl && currentPlayer == c && check == chk && checkMate == mate0 && turn == turn0
      requires promoted == (if PromotionDue(movedPiece, t) then Some(Piece(id, movedPiece.color, Queen)) else None)
      requires nextId == (if PromotionDue(movedPiece, t) then id + 1 else id)
      modifies board, this`grid, this`piecesOnTheBoard, this`capturedPieces, this`check, this`checkMate, this`turn,
               this`currentPlayer, this`enPassantVulnerable
      ensures !ok ==> KingLost(t, m, l, c, chk, id)
      ensures ok ==> Valid() && Accepted(s, t, m, l, cl, c, chk, mate0, turn0, id)
    {
      ok := Settle();
      if ok {
        MarkEnPassant(movedPiece, s, t);
      }
    }

    /** The en-passant step of `performChessMove`. */
    method MarkEnPassant(movedPiece: Piece, s: Pos, t: Pos)
      modifies this`enPassantVulnerable
      ensures enPassantVulnerable == if MarksEnPassant(movedPiece, s, t) then Some(movedPiece) else None
    {
      if (movedPiece.kind == Pawn && t.row == s.row - 2) || t.row == s.row + 2 {
        enPassantVulnerable := Some(movedPiece);
      } else {
        enPassantVulnerable := None;
      }
    }

    /** The state a refused move leaves: the one it started from, board
        `g0`, lists `l0` and `cl0` (up to order), `c` to play, flags `chk`
        and `mate0`, turn `turn0`, markers `ep0` and `pr0`, next id `id`. */
    ghost predicate Unchanged(g0: Grid, l0: seq<Piece>, cl0: seq<Piece>, c: Color, chk: bool, mate0: bool, turn0: int,
                              ep0: Option<Piece>, pr0: Option<Piece>, id: nat)
      reads this`grid, this`piecesOnTheBoard, this`capturedPieces, this`check, this`checkMate, this`turn, this`currentPlayer,
        this`promoted, this`nextId, this`enPassantVulnerable
    {
      && grid == g0
      && multiset(piecesOnTheBoard) == multiset(l0)
      && multiset(capturedPieces) == multiset(cl0)
      && turn == turn0 && currentPlayer == c && check == chk && checkMate == mate0
      && enPassantVulnerable == ep0 && promoted == pr0 && nextId == id
    }

    /** What `performChessMove` does once the move from `s` to `t` has passed
        validation, from board `g0`, lists `l0` and `cl0`, `c` to play, flags
        `chk` and `mate0`, turn `turn0`, markers `ep0` and `pr0` and next id
        `id`, with `r` the outcome: a move that leaves the mover's king
        attacked is refused with `SelfCheck` and the match is as before up
        to list order; an accepted move returns the captured piece and
        leaves the state `Accepted` describes; `KingMissing` where a king
        cannot be found, the state left as it was when the source threw. */
    ghost predicate Executed(s: Pos, t: Pos, r: Result<Option<Piece>, MoveError>, g0: Grid, l0: seq<Piece>, cl0: seq<Piece>,
                             c: Color, chk: bool, mate0: bool, turn0: int, ep0: Option<Piece>, pr0: Option<Piece>, id: nat)
      requires Applicable(g0, s, t)
      reads this`grid, this`piecesOnTheBoard, this`capturedPieces, this`check, this`checkMate, this`turn, this`currentPlayer,
        this`promoted, this`nextId, this`enPassantVulnerable
    {
      var trial := TrialCheck(g0, l0, c, chk, others, s, t);
      var m, l, cl := MoveGrid(g0, s, t), OnBoardAfter(l0, CapturedBy(g0, t)), CapturedAfter(cl0, CapturedBy(g0, t));
      match r
      case Success(captured) =>
        trial == Some(false) && captured == PieceOf(At(g0, t)) && Accepted(s, t, m, l, cl, c, chk, mate0, turn0, id)
      case Failure(SelfCheck) =>
        trial == Some(true) && Unchanged(g0, l0, cl0, c, chk, mate0, turn0, ep0, pr0, id)
      case Failure(KingMissing) =>
        trial != Some(true) && (trial.None? || KingLost(t, m, l, c, chk, id))
      case Failure(_) => false
    }

    /** `performChessMove(s, t)` after validation. */
    method ExecuteMove(s: Pos, t: Pos) returns (r: Result<Option<Piece>, MoveError>)
      requires Valid() && Applicable(grid, s, t)
      modifies this, board
      ensures r != Failure(KingMissing) ==> Valid()
      ensures Executed(s, t, r, old(grid), old(piecesOnTheBoard), old(capturedPieces), old(currentPlayer), old(check),
                       old(checkMate), old(turn), old(enPassantVulnerable), old(promoted), old(nextId))
    {
      ghost var g0, l0, cl0 := grid, piecesOnTheBoard, capturedPieces;
      ghost var trial := TrialCheck(grid, piecesOnTheBoard, currentPlayer, check, others, s, t);
      var moved := AttemptMove(s, t, trial);
      if moved.Failure? {
        r := Failure(moved.error);
        assert r == Failure(SelfCheck) || (r == Failure(KingMissing) && trial.None?);
        return;
      }
      r := Finish(s, t, moved.value, g0, l0, cl0);
    }

    /** The rest of `performChessMove` once the move from `s` to `t`, made
        on board `g0` with lists `l0` and `cl0`, captured `cap` and is kept. */
    method Finish(s: Pos, t: Pos, cap: Option<Occupant>, ghost g0: Grid, ghost l0: seq<Piece>, ghost cl0: seq<Piece>)
      returns (r: Result<Option<Piece>, MoveError>)
      requires Applicable(g0, s, t) && Valid() && cap == CapturedBy(g0, t) && grid == MoveGrid(g0, s, t)
      requires piecesOnTheBoard == OnBoardAfter(l0, cap) && capturedPieces == CapturedAfter(cl0, cap)
      requires TrialCheck(g0, l0, currentPlayer, check, others, s, t) == Some(false)
      modifies this, board
      ensures r != Failure(KingMissing) ==> Valid()
      ensures Executed(s, t, r, g0, l0, cl0, old(currentPlayer), old(check), old(checkMate), old(turn),
                       old(enPassantVulnerable), old(promoted), old(nextId))
    {
      var ok := Conclude(s, t);
      if !ok {
        return Failure(KingMissing);
      }
      return Success(PieceOf(cap));
    }

    /** `performChessMove(s, t)`: validate the source square (a piece of the
        player to move that has somewhere to go) and the target square (one
        of its moves), then carry the move out. */
    method PerformChessMove(s: Pos, t: Pos) returns (r: Result<Option<Piece>, MoveError>)
      requires Valid() && PositionExists(s) && PositionExists(t)
      modifies this, board
      ensures r != Failure(KingMissing) ==> Valid()
      ensures old(SourceError(grid, s, currentPlayer, check, others)).Some? ==>
        r == Failure(old(SourceError(grid, s, currentPlayer, check, others)).value) && unchanged(this, board)
      ensures old(SourceError(grid, s, currentPlayer, check, others)).None? && t !in old(Moves(grid, s, check, others)) ==>
        r == Failure(CannotMoveToTarget) && unchanged(this, board)
      ensures old(SourceError(grid, s, currentPlayer, check, others)).None? && t in old(Moves(grid, s, check, others)) ==>
        && old(Applicable(grid, s, t))
        && Executed(s, t, r, old(grid), old(piecesOnTheBoard), old(capturedPieces), old(currentPlayer), old(check),
                    old(checkMate), old(turn), old(enPassantVulnerable), old(promoted), old(nextId))
      ensures r.Success? || r.error == SelfCheck || r.error == KingMissing ==>
        old(SourceError(grid, s, currentPlayer, check, others)).None? && t in old(Moves(grid, s, check, others))
    {
      var e := SourceError(Snapshot(), s, currentPlayer, check, others);
      if e.Some? {
        return Failure(e.value);
      }
      var mat := Movement.PossibleMoves(Snapshot(), s, check, others);
      if !mat[t.row, t.col] {
        return Failure(CannotMoveToTarget);
      }
      MovesApplicable(grid, s, t, check, others);
      r := ExecuteMove(s, t);
    }
  }
}
