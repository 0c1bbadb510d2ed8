/** The starting position `initialSetup` builds: white's back rank on rank 1
    (row 7) and its pawns on rank 2 (row 6), black's back rank on rank 8
    (row 0) and its pawns on rank 7 (row 1). Pieces are numbered in the order
    they are created: white back rank 0-7, white pawns 8-15, black back rank
    16-23, black pawns 24-31. */
module Setup {
  import opened Board
  import opened Movement

  /** The piece kinds of a back rank, file a to file h. */
  function BackRank(col: int): Kind
    requires 0 <= col < Size
  {
    [Rook, Knight, Bishop, Queen, King, Bishop, Knight, Rook][col]
  }

  /** The `i`-th piece created by the setup. */
  function SetupPiece(i: int): Piece
    requires 0 <= i < 32
  {
    Piece(i, if i < 16 then White else Black, if i % 16 < 8 then BackRank(i % 8) else Pawn)
  }

  /** The square the `i`-th piece is placed on. */
  function SetupSquare(i: int): Pos
    requires 0 <= i < 32
  {
    Pos(if i < 8 then 7 else if i < 16 then 6 else if i < 24 then 0 else 1, i % 8)
  }

  /** `new ChessPosition(column, row).toPosition()`: file `A` is column 0
      and rank 8 is row 0. */
  function ToPosition(column: char, row: int): (p: Pos)
    ensures 'A' <= column <= 'H' && 1 <= row <= 8 <==> PositionExists(p)
  {
    Pos(8 - row, column as int - 'A' as int)
  }

  /** The rank `initialSetup` names for the `i`-th piece: 1 and 2 for
      white, 8 and 7 for black. */
  function SetupRank(i: int): int {
    if i < 8 then 1 else if i < 16 then 2 else if i < 24 then 8 else 7
  }

  /** The `i`-th piece goes on the square `initialSetup` names for it: file
      A to H in turn, on its rank. */
  lemma SetupSquareNamed(i: int)
    requires 0 <= i < 32
    ensures SetupSquare(i) == ToPosition(('A' as int + i % 8) as char, SetupRank(i))
  {
  }

  /** What the starting position holds on `p`. */
  function InitialCell(p: Pos): Option<Occupant>
    requires PositionExists(p)
  {
    if p.row == 7 then Some(Occupant(SetupPiece(p.col), 0))
    else if p.row == 6 then Some(Occupant(SetupPiece(8 + p.col), 0))
    else if p.row == 0 then Some(Occupant(SetupPiece(16 + p.col), 0))
    else if p.row == 1 then Some(Occupant(SetupPiece(24 + p.col), 0))
    else None
  }

  function InitialBoard(): (g: Grid)
    ensures forall p | PositionExists(p) :: At(g, p) == InitialCell(p)
  {
    seq(Size, r => seq(Size, c => if 0 <= r < Size && 0 <= c < Size then InitialCell(Pos(r, c)) else None))
  }

  /** `piecesOnTheBoard` after the setup: the pieces in creation order. */
  function InitialPieces(): (l: seq<Piece>)
    ensures |l| == 32 && forall i | 0 <= i < 32 :: l[i] == SetupPiece(i)
  {
    seq(32, i requires 0 <= i < 32 => SetupPiece(i))
  }

  /** Each piece of the setup stands on its own square, and each square of
      the first two and last two rows holds the piece created for it. */
  lemma SetupSquares(i: int)
    requires 0 <= i < 32
    ensures PositionExists(SetupSquare(i)) && InitialCell(SetupSquare(i)) == Some(Occupant(SetupPiece(i), 0))
  {
    if i < 8 {
      assert i % 8 == i;
    } else if i < 16 {
      assert i % 8 == i - 8;
    } else if i < 24 {
      assert i % 8 == i - 16;
    } else {
      assert i % 8 == i - 24;
    }
  }

  /** A list without repetitions has every element once. */
  lemma {:induction false} NoRepeatsNoDuplicates(l: seq<Piece>)
    requires forall i, j | 0 <= i < j < |l| :: l[i] != l[j]
    ensures NoDuplicates(l)
  {
    if |l| > 0 {
      NoRepeatsNoDuplicates(l[1..]);
      assert l == [l[0]] + l[1..];
      assert l[0] !in l[1..];
    }
  }

  /** The number of the piece the setup puts on `p` (rows 2 to 5 have none). */
  function SetupIndex(p: Pos): int {
    if p.row == 7 then p.col else if p.row == 6 then 8 + p.col else if p.row == 0 then 16 + p.col else 24 + p.col
  }

  lemma InitialCellIndex(p: Pos)
    requires PositionExists(p) && InitialCell(p).Some?
    ensures 0 <= SetupIndex(p) < 32 && InitialCell(p) == Some(Occupant(SetupPiece(SetupIndex(p)), 0))
    ensures SetupSquare(SetupIndex(p)) == p
  {
  }

  lemma InitialDistinct()
    ensures Distinct(InitialBoard())
  {
    var g := InitialBoard();
    forall p1, p2 | PositionExists(p1) && PositionExists(p2) && At(g, p1).Some? && At(g, p2).Some? &&
                    At(g, p1).value.piece == At(g, p2).value.piece
      ensures p1 == p2
    {
      InitialCellIndex(p1);
      InitialCellIndex(p2);
    }
  }

  lemma InitialAgree()
    ensures forall q :: q in InitialPieces() <==> OnBoard(InitialBoard(), q)
  {
    var g, l := InitialBoard(), InitialPieces();
    forall q
      ensures q in l <==> OnBoard(g, q)
    {
      if q in l {
        var i :| 0 <= i < 32 && l[i] == q;
        SetupSquares(i);
        assert Holds(g, SetupSquare(i), q);
      }
      if OnBoard(g, q) {
        var p :| PositionExists(p) && Holds(g, p, q);
        InitialCellIndex(p);
        assert l[SetupIndex(p)] == q;
      }
    }
  }

  lemma InitialUniqueKings()
    ensures UniqueKings(InitialPieces())
  {
    var l := InitialPieces();
    forall a, b | a in l && b in l && a.kind == King && b.kind == King && a.color == b.color
      ensures a == b
    {
      var i :| 0 <= i < 32 && l[i] == a;
      var j :| 0 <= j < 32 && l[j] == b;
    }
  }

  /** The starting position is consistent: board and list hold the same 32
      pieces, each once, one king per colour, and 32 is a fresh id. */
  lemma InitialConsistent()
    ensures Consistent(InitialBoard(), InitialPieces(), 32)
  {
    InitialDistinct();
    InitialAgree();
    InitialUniqueKings();
    NoRepeatsNoDuplicates(InitialPieces());
    assert IdsBelow(InitialBoard(), 32) by {
      forall p | PositionExists(p) && At(InitialBoard(), p).Some?
        ensures At(InitialBoard(), p).value.piece.id < 32
      {
        InitialCellIndex(p);
      }
    }
  }

  /** The board and list after the first `n` pieces of the setup have been
      placed, in creation order. */
  ghost predicate SetUpTo(g: Grid, l: seq<Piece>, n: int)
    requires 0 <= n <= 32
  {
    && (forall p | PositionExists(p) ::
          At(g, p) == (if InitialCell(p).Some? && SetupIndex(p) < n then InitialCell(p) else None))
    && l == InitialPieces()[..n]
  }

  /** Nothing is placed on the empty board. */
  lemma SetUpToStart(g: Grid)
    requires forall p | PositionExists(p) :: At(g, p).None?
    ensures SetUpTo(g, [], 0)
  {
  }

  /** Placing the `n`-th piece on its square, which is still empty, takes
      the setup one piece further. */
  lemma SetUpToStep(g: Grid, l: seq<Piece>, n: int)
    requires 0 <= n < 32 && SetUpTo(g, l, n)
    ensures PositionExists(SetupSquare(n)) && At(g, SetupSquare(n)).None?
    ensures SetUpTo(SetCell(g, SetupSquare(n), Some(Occupant(SetupPiece(n), 0))), l + [SetupPiece(n)], n + 1)
  {
    SetupSquares(n);
    var sq := SetupSquare(n);
    InitialCellIndex(sq);
    var g' := SetCell(g, sq, Some(Occupant(SetupPiece(n), 0)));
    forall p | PositionExists(p)
      ensures At(g', p) == (if InitialCell(p).Some? && SetupIndex(p) < n + 1 then InitialCell(p) else None)
    {
      if p != sq && InitialCell(p).Some? {
        InitialCellIndex(p);
      }
    }
    assert InitialPieces()[..n + 1] == InitialPieces()[..n] + [SetupPiece(n)];
  }

  /** Once all 32 pieces are placed, board and list are the starting
      position. */
  lemma SetUpToEnd(g: Grid, l: seq<Piece>)
    requires SetUpTo(g, l, 32)
    ensures g == InitialBoard() && l == InitialPieces()
  {
    forall p | PositionExists(p)
      ensures At(g, p) == At(InitialBoard(), p)
    {
      if InitialCell(p).Some? {
        InitialCellIndex(p);
      }
    }
    GridEq(g, InitialBoard());
  }
}
