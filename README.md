# Chess rule engine

A model of the rule engine of a two-player console chess game. The match,
`ChessMatch`, owns an 8x8 board and two piece lists: `piecesOnTheBoard` and
`capturedPieces`. It also keeps the turn number, the player to move, the check
and checkmate flags, the piece vulnerable to en passant and the last promoted
piece.

A move (`performChessMove`) goes through these steps in order:

1. validate the source square, then the target square;
2. make the move;
3. undo it and refuse it if it leaves the mover's king attacked;
4. promote a pawn that reached its last row to a queen;
5. set the check flag for the opponent;
6. search for checkmate by trying and undoing every reply;
7. pass the turn, unless the opponent is mated;
8. update the en-passant marker.

Move generation is modelled for the king (neighbours and both castlings) and
the pawn (single and double step, diagonal capture).

## How the model is built

- `board.dfy`, module `Board`: pieces as values (`Piece(id, color, kind)`).
  - A board cell holds an `Occupant`: the piece plus its move count.
  - A board snapshot is a `Grid`, an 8x8 nested sequence of cells.
  - `Locate` finds where a piece stands.
- `king.dfy`, module `KingRules`, and `pawn.dfy`, module `PawnRules`: the
  squares a king or a pawn marks, as sets.
  - Each has a method that fills a fresh `array2<bool>` step by step, as
    `possibleMoves` does.
  - The method is proved to mark exactly that set.
- `movement.dfy`, module `Movement`:
  - the squares any piece marks;
  - `makeMove` and `undoMove` as functions on boards and lists;
  - the consistency invariant between board and list.
- `check.dfy`, module `Check`: `opponent`, `king`, `testCheck` and
  `testCheckMate` as specification functions on a snapshot.
- `setup.dfy`, module `Setup`: the starting position `initialSetup` builds.
- `match.dfy`, module `Match`: the class `ChessMatch`.
  - Its `board` is an `array2` that the methods update in place.
  - The lists are `seq` fields that the methods reassign.
  - A ghost `grid` mirrors `board`.
  - Every method is proved against the value-level functions above.
  - `testCheckMate` is modelled as its nested loops. Each trial makes a move,
    tests check and undoes the move, and the loops are proved to restore the
    board and the lists.

## Model

| member | source | states |
|---|---|---|
| Board.EmptyCells | src/chess/ChessMatch.java:36 | a new board has eight rows of eight cells, all empty |
| Board.SetCell | src/chess/ChessMatch.java:167-170 | placing or removing a piece changes exactly one cell |
| Board.Locate | src/chess/ChessMatch.java:308 | the position found holds the piece; there is none exactly when the piece is not on the board |
| Board.LocateFrom | src/chess/ChessMatch.java:308 | a row-major search from a square finds a square holding the piece, or proves none at or after it does |
| Board.LocateUnique | src/chess/ChessMatch.java:336 | when no piece stands twice, a piece's position is the square that holds it |
| KingRules.Step | src/chess/pieces/King.java:44-47 | one neighbour is marked exactly when it is on the board and `canMove` allows it |
| KingRules.Orthogonal | src/chess/pieces/King.java:43-65 | the four orthogonal steps mark only on-board squares, not the king's own, at distance 1, that are empty or enemy-held |
| KingRules.Diagonals | src/chess/pieces/King.java:67-86 | the same for the four diagonal steps |
| KingRules.Neighbours | src/chess/pieces/King.java:43-86 | the eight steps together keep those bounds |
| KingRules.Kingside | src/chess/pieces/King.java:89-99 | the only square kingside castling marks is two columns right, on the board and empty |
| KingRules.Queenside | src/chess/pieces/King.java:100-111 | the only square queenside castling marks is two columns left, on the board and empty |
| KingRules.KingMoves | src/chess/pieces/King.java:24-115 | a marked square is on the board, is never the king's own square and never holds a piece of the king's colour; a square two columns away is marked only when the king has not moved, the check flag is off and that square is empty |
| KingRules.NeighbourMarked | src/chess/pieces/King.java:43-86 | each of the eight neighbours is marked if and only if it is on the board and empty or enemy-held |
| KingRules.KingsideMarked | src/chess/pieces/King.java:88-99 | col+2 is marked if and only if: the king has not moved; the check flag is off; col+3 holds an unmoved rook of its colour; col+1 and col+2 are empty |
| KingRules.QueensideMarked | src/chess/pieces/King.java:100-111 | col-2 is marked if and only if: the king has not moved; the check flag is off; col-4 holds an unmoved rook of its colour; col-1, col-2 and col-3 are empty |
| KingRules.PossibleMoves | src/chess/pieces/King.java:38-115 | the fresh 8x8 matrix marks a square exactly when it is a king move |
| KingRules.MarkOrthogonal | src/chess/pieces/King.java:43-65 | the four orthogonal tests add exactly the orthogonal steps to the matrix |
| KingRules.MarkDiagonals | src/chess/pieces/King.java:67-86 | the four diagonal tests add exactly the diagonal steps |
| KingRules.MarkStep | src/chess/pieces/King.java:44-47 | one neighbour test sets that entry exactly when the step is allowed |
| KingRules.MarkKingside | src/chess/pieces/King.java:89-99 | the kingside test adds exactly the kingside castling square |
| KingRules.MarkQueenside | src/chess/pieces/King.java:100-111 | the queenside test adds exactly the queenside castling square |
| PawnRules.SingleStep | src/chess/pieces/Pawn.java:22-25 | the only square marked is one row forward, on the board and empty |
| PawnRules.DoubleStep | src/chess/pieces/Pawn.java:26-33 | the only square marked is two rows forward, on the board and empty |
| PawnRules.Diagonal | src/chess/pieces/Pawn.java:35-42 | the only square marked is the forward diagonal, on the board and holding an enemy piece |
| PawnRules.PawnMoves | src/chess/pieces/Pawn.java:15-69 | marked squares are on the board and never the pawn's own; they lie one row forward, or two rows forward in the same column, for the pawn's colour; one in the pawn's column is empty (no straight capture); one in another column is an adjacent forward diagonal holding an enemy piece (no capture onto an empty square, so no en passant) |
| PawnRules.PawnMovesAtMostFour | src/chess/pieces/Pawn.java:15-69 | a pawn marks at most four squares |
| PawnRules.SingleStepMarked | src/chess/pieces/Pawn.java:22-25 | the square straight ahead is marked if and only if it is on the board and empty |
| PawnRules.DoubleStepMarked | src/chess/pieces/Pawn.java:26-33 | the square two ahead is marked if and only if it and the square between are on the board and empty and the pawn has not moved |
| PawnRules.DiagonalMarked | src/chess/pieces/Pawn.java:35-42 | each forward diagonal is marked if and only if it is on the board and holds an enemy piece |
| PawnRules.PossibleMoves | src/chess/pieces/Pawn.java:15-69 | the fresh 8x8 matrix marks a square exactly when it is a pawn move |
| PawnRules.MarkSingleStep | src/chess/pieces/Pawn.java:22-25 | the single-step test adds exactly the single-step square |
| PawnRules.MarkDoubleStep | src/chess/pieces/Pawn.java:26-33 | the double-step test adds exactly the double-step square |
| PawnRules.MarkDiagonal | src/chess/pieces/Pawn.java:35-42 | a diagonal test adds exactly that diagonal capture |
| Movement.OtherMoves | src/chess/ChessMatch.java:314 | a rook, knight, bishop or queen marks exactly the on-board squares, other than its own, that its movement rule allows |
| Movement.Moves | src/chess/ChessMatch.java:314 | a piece marks only on-board squares other than its own; an empty square marks nothing |
| Movement.PossibleMoves | src/chess/ChessMatch.java:81 | the piece's fresh 8x8 matrix marks a square exactly when it is one of that piece's moves |
| Movement.Shift | src/chess/ChessMatch.java:167-170 | a lifted piece lands on the target with its move count changed; its source is empty; every other square is unchanged |
| Movement.MoveGrid | src/chess/ChessMatch.java:166-197 | `makeMove`: the mover reaches the target with one more move and the source is empty; a castling rook goes from col+3 to col+1 or from col-4 to col-1 with one more move; nothing else changes |
| Movement.UndoGrid | src/chess/ChessMatch.java:220-246 | `undoMove`: the mover returns with one move less, the captured piece is back on the target, and a castling rook is back with one move less; nothing else changes |
| Movement.UndoGridAsWritten | src/chess/ChessMatch.java:220-262 | `undoMove` with its en-passant branch: equal to `UndoGrid` except after a diagonal pawn capture of the marked piece, which is then written onto row 3 or 4, over any piece standing there, and leaves the target empty while every other square is as `UndoGrid` has it; when that row-3 or row-4 square is the target itself, the board equals `UndoGrid`'s |
| Movement.MovesApplicable | src/chess/ChessMatch.java:199-214 | every marked move can be made: castling finds its rook and an empty landing square, and no pawn moves diagonally onto an empty square, so the en-passant branch of `makeMove` is never taken |
| Movement.UndoMoveRestoresBoard | src/chess/ChessMatch.java:166-246 | undoing a move with its captured piece restores every cell, move counts included, for plain moves, captures and both castlings |
| Movement.MoveKeepsPieces | src/chess/ChessMatch.java:166-197 | after a move, the pieces on the board are those before it less the captured one, and none stands twice |
| Movement.MoveKeepsDistinct | src/chess/ChessMatch.java:166-197 | a move, castling included, never leaves one piece on two squares |
| Movement.UndoAsWrittenMisplacesCapture | src/chess/ChessMatch.java:249-261 | the en-passant branch of `undoMove` as written leaves the board different from before the move |
| Movement.RemoveFirst | src/chess/ChessMatch.java:173 | `List.remove` takes out one occurrence of a listed piece and leaves an unlisted one's list as it was |
| Movement.CaptureBookkeeping | src/chess/ChessMatch.java:172-175 | a capture moves exactly one piece from the board list to the captured list; without a capture both lists stay as they were |
| Movement.UndoMoveRestoresLists | src/chess/ChessMatch.java:224-228 | undoing the capture gives both lists back their pieces, up to order |
| Movement.MoveKeepsConsistent | src/chess/ChessMatch.java:166-217 | a move keeps board and list consistent: no piece twice, listed exactly when on the board, at most one king per colour |
| Movement.ReplaceKeepsConsistent | src/chess/ChessMatch.java:143-149 | replacing a promoted piece by a new one keeps board and list consistent |
| Check.Opponent | src/chess/ChessMatch.java:291-293 | `opponent` never returns its argument |
| Check.OpponentInvolutive | src/chess/ChessMatch.java:291-293 | `opponent` applied twice gives the colour back |
| Check.FilterColor | src/chess/ChessMatch.java:297 | the stream filter keeps exactly the listed pieces of the colour |
| Check.FirstKing | src/chess/ChessMatch.java:298-302 | the first king of a list, or none when no king is listed |
| Check.KingOf | src/chess/ChessMatch.java:296-304 | `king(c)` is a listed king of colour `c`, or there is none (the source throws) |
| Check.InCheckMeansAttacked | src/chess/ChessMatch.java:306-320 | on a consistent board, a colour is in check if and only if a listed enemy piece on some square marks its king's square |
| Check.InCheckReordered | src/chess/ChessMatch.java:306-320 | whether a colour is in check does not depend on list order |
| Check.TrialCheckReordered | src/chess/ChessMatch.java:336-341 | the outcome of a trial move does not depend on list order |
| Check.ByReordered | src/chess/ChessMatch.java:328-348 | whether a piece can escape check does not depend on list order |
| Check.MatedReordered | src/chess/ChessMatch.java:322-351 | whether a colour is mated does not depend on list order |
| Setup.ToPosition | src/chess/ChessMatch.java:355 | a chess coordinate names a board square exactly when its file is A-H and its rank is 1-8 |
| Setup.SetupSquareNamed | src/chess/ChessMatch.java:360-392 | each piece the setup places goes on the file and rank that `initialSetup` names for it |
| Setup.InitialBoard | src/chess/ChessMatch.java:359-392 | every square holds what the starting position puts there |
| Setup.InitialPieces | src/chess/ChessMatch.java:359-392 | the list holds the 32 pieces in creation order |
| Setup.SetupSquares | src/chess/ChessMatch.java:360-392 | each created piece stands, unmoved, on its own square |
| Setup.InitialConsistent | src/chess/ChessMatch.java:359-392 | the starting position is consistent: 32 pieces, each once, at most one king per colour |
| Setup.SetUpToStep | src/chess/ChessMatch.java:354-357 | placing the next piece on its still-empty square takes the setup one piece further |
| Setup.SetUpToEnd | src/chess/ChessMatch.java:359-392 | once all 32 pieces are placed, board and list are the starting position |
| Match.NewPieceKind | src/chess/ChessMatch.java:154-159 | `newPiece`: B, N and Q give bishop, knight and queen; any other letter gives a rook; never a king or a pawn |
| Match.SourceError | src/chess/ChessMatch.java:265-276 | a source square is refused, in this order, when it is empty, when it holds the other player's piece, or when its piece has no move; otherwise it is accepted |
| Match.AnyMarks | src/chess/ChessMatch.java:313-319 | the loop finds a marking piece if and only if one of the listed pieces marks the target |
| Match.Marks | src/chess/ChessMatch.java:314-315 | reading a piece's matrix at the target tells whether the piece marks it |
| Match.ChessMatch.Snapshot | src/chess/ChessMatch.java:67-75 | `getPieces`: the matrix of cells read off the board is the board's contents |
| Match.ChessMatch.constructor | src/chess/ChessMatch.java:35-40 | a new match is consistent and holds the starting position: turn 1, white to play, nothing captured, no check, no checkmate, no markers |
| Match.ChessMatch.PlaceNewPiece | src/chess/ChessMatch.java:354-357 | an unmoved new piece goes on an empty square and at the end of the board list |
| Match.ChessMatch.RemovePiece | src/chess/ChessMatch.java:167 | `removePiece` empties the square and returns what stood there |
| Match.ChessMatch.PieceAt | src/chess/ChessMatch.java:100 | `piece` returns the cell's contents |
| Match.ChessMatch.PlacePiece | src/chess/ChessMatch.java:170 | `placePiece` fills one empty square and changes nothing else |
| Match.ChessMatch.RelocateRook | src/chess/ChessMatch.java:183-185 | the castling rook is lifted, its move count changed, and set down on its new square |
| Match.ChessMatch.MakeMove | src/chess/ChessMatch.java:166-217 | the new board and lists are those of `MoveGrid`, `OnBoardAfter` and `CapturedAfter`, and the piece on the target is returned |
| Match.ChessMatch.MoveCastlingRook | src/chess/ChessMatch.java:177-196 | once the king has gone two columns, its rook ends where `MoveGrid` puts it; otherwise the board stays as the king's move left it |
| Match.ChessMatch.Move | src/chess/ChessMatch.java:90 | `makeMove` on a consistent match keeps it consistent |
| Match.ChessMatch.UndoMove | src/chess/ChessMatch.java:220-246 | the new board and lists are those of `UndoGrid`, `OnBoardRestored` and `CapturedRestored` |
| Match.ChessMatch.KingPiece | src/chess/ChessMatch.java:296-304 | the loop returns the first listed king of the colour, or none |
| Match.ChessMatch.TestCheck | src/chess/ChessMatch.java:306-320 | the result is the `InCheck` characterisation of the current board |
| Match.ChessMatch.TrySquare | src/chess/ChessMatch.java:336-345 | one trial reports whether the colour is still in check after the move, then restores the board and both lists |
| Match.ChessMatch.TryTarget | src/chess/ChessMatch.java:334-346 | one square of the inner loop is skipped when unmarked; otherwise it is tried, and the board is restored |
| Match.ChessMatch.TryRow | src/chess/ChessMatch.java:332-347 | one row of trials stops at the first escape; otherwise every move of that row leaves the colour in check |
| Match.ChessMatch.TryMovesOf | src/chess/ChessMatch.java:330-348 | all trials of one piece: no escape, an escape, or a trial that lost its king |
| Match.ChessMatch.TryPiece | src/chess/ChessMatch.java:328-348 | one pass of the outer loop, its matrix taken from the piece's moves |
| Match.ChessMatch.TryPieces | src/chess/ChessMatch.java:327-350 | the outer loop restores the board and both lists (up to order) and returns true only when no listed piece escapes, false only when one does |
| Match.ChessMatch.TryNext | src/chess/ChessMatch.java:328-348 | one pass of the outer loop extends the run of pieces without an escape by one, or reports a piece that escapes or a trial that lost its king |
| Match.ChessMatch.TestCheckMate | src/chess/ChessMatch.java:322-351 | false when the colour is not in check; otherwise true if and only if no move of its pieces gets it out of check; the board is restored and the lists restored up to order |
| Match.ChessMatch.TryOwnPieces | src/chess/ChessMatch.java:326-350 | the trials of every piece of the colour: true if and only if none escapes |
| Match.ChessMatch.NextTurn | src/chess/ChessMatch.java:285-288 | the turn goes up by exactly one and the other colour plays |
| Match.ChessMatch.ReplacePromotedPiece | src/chess/ChessMatch.java:135-152 | fails with no promoted piece or a letter outside B, N, R, Q, leaving the board untouched; otherwise a new piece of that kind and colour is on the same square and the board list keeps its size |
| Match.ChessMatch.Replace | src/chess/ChessMatch.java:143-149 | the old piece leaves the square and the list; the new one takes its square and joins the end of the list |
| Match.ChessMatch.PossibleMoves | src/chess/ChessMatch.java:78-82 | refused as `validateSourcePosition` refuses; otherwise the matrix of the piece's moves |
| Match.ChessMatch.AttemptMove | src/chess/ChessMatch.java:90-98 | a move into self-check is undone with the corrected `undoMove` (see Findings) and refused, leaving the match as it was up to list order; otherwise the move stays |
| Match.ChessMatch.RollBack | src/chess/ChessMatch.java:96 | the corrected `undoMove` (see Findings) right after `makeMove` restores the board and both lists, up to order |
| Match.ChessMatch.Promote | src/chess/ChessMatch.java:104-111 | a pawn on its last row becomes a queen of its colour, and `promoted` names the queen; otherwise `promoted` is cleared |
| Match.ChessMatch.UpdateCheck | src/chess/ChessMatch.java:114 | the check flag says whether the opponent is in check |
| Match.ChessMatch.UpdateMate | src/chess/ChessMatch.java:117-122 | a mated opponent sets the checkmate flag and the turn stays; otherwise the turn passes |
| Match.ChessMatch.EndTurn | src/chess/ChessMatch.java:117-122 | `nextTurn` is skipped exactly when checkmate is found |
| Match.ChessMatch.Settle | src/chess/ChessMatch.java:113-122 | the check and checkmate steps leave the state `Settled` describes |
| Match.ChessMatch.Conclude | src/chess/ChessMatch.java:100-130 | a kept move is promoted and settled, and the en-passant marker is set, as `Accepted` describes |
| Match.ChessMatch.SettleAndMark | src/chess/ChessMatch.java:113-130 | after the promotion step, the check and checkmate steps and the en-passant marker leave the state `Accepted` describes, or the source throws for want of a king (`KingLost`) |
| Match.ChessMatch.MarkEnPassant | src/chess/ChessMatch.java:125-130 | the moved piece is marked when it is a pawn that moved two rows up, or when it is any piece that moved two rows down |
| Match.ChessMatch.ExecuteMove | src/chess/ChessMatch.java:90-131 | refused with `SelfCheck` exactly when the move leaves the mover in check, and then, with the corrected `undoMove`, nothing changes; an accepted move never leaves the mover in check and returns the captured piece |
| Match.ChessMatch.Finish | src/chess/ChessMatch.java:100-131 | the rest of the move after it is kept |
| Match.ChessMatch.PerformChessMove | src/chess/ChessMatch.java:85-132 | a refused source or target changes nothing and gives the source's reason, in the source's order; a move that passes validation ends as `Executed` describes: accepted, refused with `SelfCheck`, or `KingMissing`, and no other outcome; validation happens before any change |

## Left out

- src/application/UI.java and src/application/Program.java are console input
  and output; they are not part of this model.
- `Board`, `Position`, `ChessPosition` and `ChessPiece` are not part of this
  model. The board is modelled as an 8x8 array with `positionExists`,
  `thereIsAPiece`, `piece`, `placePiece` and `removePiece`.
  - `isThereAnyPossibleMove` is modelled as "the set of moves is not empty".
  - `possibleMove` is modelled as membership in that set.
  - `getChessPosition` is modelled as the square holding the piece.
- `Rook`, `Knight`, `Bishop` and `Queen` are not part of this model. Their
  movement is a parameter of the match, a rule from board, square and piece
  to the squares it marks.
- Exceptions are modelled as `Failure` outcomes and `None` results. Their
  message texts are not modelled.
- Java object identity is modelled by piece ids: pieces are numbered in
  creation order.
- `getTurn`, `getCurrentPlayer`, `getCheck`, `getCheckMate`,
  `getEnPassantVulnerable` and `getPromoted` are plain field reads. They are
  not separate members.
- The source calls a three-argument `Pawn` constructor. The shown `Pawn` has
  only a two-argument one; the match reference is unused, so it is not
  modelled.
- Match.ChessMatch.UndoMove: models `undoMove` without its en-passant branch
  (lines 249-261), which is the corrected definition under Findings.
  `Movement.UndoGridAsWritten` keeps the branch as written.
- Movement.UndoGridAsWritten: when the row-3 or row-4 square of the branch
  is occupied, the model writes the captured piece over its occupant, which
  then stands on no square. What the source's `Board.placePiece` does on an
  occupied square is not part of this model; elsewhere the model only ever
  places a piece on an empty square.
- Match.ChessMatch.MakeMove: the en-passant branch of `makeMove` (lines
  199-214) is never taken, because no pawn move lands diagonally on an empty
  square (`Movement.MovesApplicable`). The model states this instead of
  executing the branch.
- Match.ChessMatch.PerformChessMove: where a king cannot be found (the source
  throws `IllegalStateException` or a null-pointer error), the outcome is
  `KingMissing`, and the model promises only why it happened, not the state
  left behind. It is reached only by capturing a king. In the model, with the
  corrected `undoMove`, that is possible only after checkmate: lines 117-122
  then skip `nextTurn`, so the mating side moves again and can take the mated
  king, and the `testCheck` of line 114 finds no king. In the source, the
  undo at line 96 can also empty a square that shielded a king (see
  Findings), so a king can be taken without checkmate.
- Match.ChessMatch.PerformChessMove: a move refused with `SelfCheck` is undone
  with the corrected `undoMove` (see Findings). On the input under Findings
  the source leaves the captured piece on row 3 or 4 and its square empty;
  the model promises the board as it was.
- Match.ChessMatch.ExecuteMove: the `SelfCheck` outcome promises the match as
  it was because it undoes with the corrected `undoMove` (see Findings), not
  with the branch at lines 249-261.
- Match.ChessMatch.AttemptMove: undoes a move into self-check with the
  corrected `undoMove` (see Findings), so on the input under Findings it puts
  the captured knight back on f6, where line 96's undo puts it on f5.
- Match.ChessMatch.RollBack: models line 96 with the corrected `undoMove`
  (see Findings). "Restores the board" holds for that definition, not for
  the source on the input under Findings.
- Match.ChessMatch.TestCheckMate: the lists are restored only up to order,
  because `undoMove` appends the captured piece at the end of
  `piecesOnTheBoard`, as the source does.
- Match.ChessMatch.TestCheckMate: its trials undo with the corrected
  `undoMove` (see Findings). The branch at lines 249-261 could fire in a
  trial only if the piece marked for en passant belonged to the side that
  just moved. That happens only when that side moves twice in a row, after
  checkmate.
- KingRules.Kingside: a rook square off the board counts as no rook. The shown
  code asks the board for it, and what the board does there is not part of
  this model. KingRules.Queenside does the same.
- Match.ChessMatch.NextTurn: `turn` and move counts are unbounded integers.
  The 32-bit wrap-around of `turn++` is not modelled.
- Match.ChessMatch.PerformChessMove: the model, like the source, does not
  refuse moves after checkmate.
- Match.ChessMatch.constructor: the 32 `placeNewPiece` calls of
  `initialSetup` are written as one loop over the pieces in creation order.
  `Setup.SetupSquareNamed` ties each step to the square the source names.

## Findings

| source | as written | input that shows it | evidently intended | confidence | as-written member | corrected member |
|---|---|---|---|---|---|---|
| src/chess/ChessMatch.java:249-261 | undoing a pawn's diagonal capture of the piece marked for en passant moves the restored piece to row 3 (white mover) or row 4 (black mover) | a black knight goes g8 to f6, which line 125 marks because it moved two rows down; a white pawn on e5 that is pinned to its king takes it, and the capture is undone as a self-check; the knight reappears on f5 and f6 is empty; if the knight on f6 shielded its king (White: Ke1, Ra6, Pe5; Black: Kh6, Re8, Ng8, Black in check from a6 and blocking with Ng8-f6), White, still to move, takes the king with Ra6xh6 without checkmate | `undoMove` restores the board exactly | not executed | Movement.UndoAsWrittenMisplacesCapture | Movement.UndoMoveRestoresBoard |
