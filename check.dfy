/** Check and checkmate on a board snapshot: the king of a colour, whether an
    enemy piece marks its square, and whether every move of that colour leaves
    it marked. */
module Check {
  import opened Board
  import opened Movement

  /** The other colour (`opponent`). */
  function Opponent(c: Color): (r: Color)
    ensures r != c
  {
    if c == White then Black else White
  }

  /** The listed pieces of colour `c`, in list order. */
  function FilterColor(l: seq<Piece>, c: Color): (r: seq<Piece>)
    ensures forall q :: q in r <==> q in l && q.color == c
    ensures |r| <= |l|
  {
    if |l| == 0 then []
    else if l[0].color == c then [l[0]] + FilterColor(l[1..], c)
    else FilterColor(l[1..], c)
  }

  /** The first king of a list. */
  function FirstKing(l: seq<Piece>): (r: Option<Piece>)
    ensures r.Some? ==> r.value in l && r.value.kind == King
    ensures r.Some? ==> exists i | 0 <= i < |l| :: l[i] == r.value && forall j | 0 <= j < i :: l[j].kind != King
    ensures r.None? ==> forall q | q in l :: q.kind != King
  {
    if |l| == 0 then None
    else if l[0].kind == King then Some(l[0])
    else FirstKing(l[1..])
  }

  /** `king(c)`: the first listed king of colour `c`, `None` when there is
      none (the source throws). */
  function KingOf(l: seq<Piece>, c: Color): (r: Option<Piece>)
    ensures r.Some? ==> r.value in l && r.value.kind == King && r.value.color == c
    ensures r.None? ==> forall q | q in l && q.color == c :: q.kind != King
  {
    FirstKing(FilterColor(l, c))
  }

  /** The piece `q`, wherever it stands, marks `target`. */
  function Attacks(g: Grid, q: Piece, target: Pos, matchCheck: bool, others: OtherRule): bool {
    match Locate(g, q)
    case None => false
    case Some(p) => target in Moves(g, p, matchCheck, others)
  }

  /** `testCheck(c)`: some listed enemy piece marks the square of the king of
      colour `c`; `None` when that king is not listed or not on the board. */
  function InCheck(g: Grid, l: seq<Piece>, c: Color, matchCheck: bool, others: OtherRule): Option<bool> {
    match KingOf(l, c)
    case None => None
    case Some(k) =>
      match Locate(g, k)
      case None => None
      case Some(kp) => Some(exists q | q in l && q.color == Opponent(c) :: Attacks(g, q, kp, matchCheck, others))
  }

  /** On a consistent board, colour `c` is in check exactly when a listed enemy
      piece standing on some square marks the square its king stands on. */
  lemma InCheckMeansAttacked(g: Grid, l: seq<Piece>, c: Color, matchCheck: bool, others: OtherRule, kp: Pos)
    requires Distinct(g) && KingOf(l, c).Some? && PositionExists(kp) && Holds(g, kp, KingOf(l, c).value)
    ensures InCheck(g, l, c, matchCheck, others).Some?
    ensures InCheck(g, l, c, matchCheck, others) == Some(true) <==>
      exists p | PositionExists(p) && At(g, p).Some? ::
        At(g, p).value.piece in l && At(g, p).value.piece.color == Opponent(c) && kp in Moves(g, p, matchCheck, others)
  {
    LocateUnique(g, kp, KingOf(l, c).value);
    if InCheck(g, l, c, matchCheck, others) == Some(true) {
      var q :| q in l && q.color == Opponent(c) && Attacks(g, q, kp, matchCheck, others);
      var p := Locate(g, q).value;
      assert At(g, p).value.piece == q;
    }
    if exists p | PositionExists(p) && At(g, p).Some? ::
         At(g, p).value.piece in l && At(g, p).value.piece.color == Opponent(c) && kp in Moves(g, p, matchCheck, others)
    {
      var p :| PositionExists(p) && At(g, p).Some? &&
               At(g, p).value.piece in l && At(g, p).value.piece.color == Opponent(c) && kp in Moves(g, p, matchCheck, others);
      var q := At(g, p).value.piece;
      LocateUnique(g, p, q);
      assert Attacks(g, q, kp, matchCheck, others);
    }
  }

  /** Whether a colour is in check does not depend on the order of the
      list. */
  lemma InCheckReordered(g: Grid, l1: seq<Piece>, l2: seq<Piece>, c: Color, matchCheck: bool, others: OtherRule)
    requires multiset(l1) == multiset(l2) && UniqueKings(l1)
    ensures InCheck(g, l1, c, matchCheck, others) == InCheck(g, l2, c, matchCheck, others)
  {
    forall q
      ensures q in l1 <==> q in l2
    {
      assert q in l1 <==> q in multiset(l1);
      assert q in l2 <==> q in multiset(l2);
    }
    var k1, k2 := KingOf(l1, c), KingOf(l2, c);
    if k1.Some? {
      assert k2.Some?;
    }
  }

  /** Whether colour `c` is in check after trying the move from `s` to `t`
      (`None` when the move cannot be tried or the king is gone). */
  ghost function TrialCheck(g: Grid, l: seq<Piece>, c: Color, matchCheck: bool, others: OtherRule, s: Pos, t: Pos): Option<bool> {
    if Applicable(g, s, t) then InCheck(MoveGrid(g, s, t), OnBoardAfter(l, CapturedBy(g, t)), c, matchCheck, others)
    else None
  }

  /** Some move of the piece `q` gets colour `c` out of check. */
  ghost predicate EscapeBy(g: Grid, l: seq<Piece>, c: Color, matchCheck: bool, others: OtherRule, q: Piece) {
    Locate(g, q).Some? &&
    exists t | t in Moves(g, Locate(g, q).value, matchCheck, others) ::
      TrialCheck(g, l, c, matchCheck, others, Locate(g, q).value, t) == Some(false)
  }

  /** Some trial move of the piece `q` cannot be judged (the king of colour
      `c` is gone after it). */
  ghost predicate TrialFailsBy(g: Grid, l: seq<Piece>, c: Color, matchCheck: bool, others: OtherRule, q: Piece) {
    Locate(g, q).Some? &&
    exists t | t in Moves(g, Locate(g, q).value, matchCheck, others) ::
      TrialCheck(g, l, c, matchCheck, others, Locate(g, q).value, t).None?
  }

  /** Some move of a listed piece of colour `c` gets `c` out of check. */
  ghost predicate Escapes(g: Grid, l: seq<Piece>, c: Color, matchCheck: bool, others: OtherRule) {
    exists q | q in l && q.color == c :: EscapeBy(g, l, c, matchCheck, others, q)
  }

  /** Some trial move of colour `c` cannot be judged. */
  ghost predicate TrialFails(g: Grid, l: seq<Piece>, c: Color, matchCheck: bool, others: OtherRule) {
    exists q | q in l && q.color == c :: TrialFailsBy(g, l, c, matchCheck, others, q)
  }

  /** Every move of the piece `q` leaves colour `c` in check. */
  ghost predicate NoEscapeBy(g: Grid, l: seq<Piece>, c: Color, matchCheck: bool, others: OtherRule, q: Piece) {
    Locate(g, q).Some? ==>
      forall t | t in Moves(g, Locate(g, q).value, matchCheck, others) ::
        TrialCheck(g, l, c, matchCheck, others, Locate(g, q).value, t) == Some(true)
  }

  /** `testCheckMate(c)`: `c` is in check and no move of its pieces gets it
      out. */
  ghost predicate Mated(g: Grid, l: seq<Piece>, c: Color, matchCheck: bool, others: OtherRule) {
    InCheck(g, l, c, matchCheck, others) == Some(true) && !Escapes(g, l, c, matchCheck, others)
  }

  /** `opponent` is an involution. */
  lemma OpponentInvolutive(c: Color)
    ensures Opponent(Opponent(c)) == c
  {
  }

  /** Removing a piece from a list keeps at most one king per colour. */
  lemma RemoveFirstKeepsUniqueKings(l: seq<Piece>, x: Piece)
    requires UniqueKings(l)
    ensures UniqueKings(RemoveFirst(l, x))
    ensures forall q | q in RemoveFirst(l, x) :: q in l
  {
    forall q | q in RemoveFirst(l, x)
      ensures q in l
    {
      assert q in multiset(RemoveFirst(l, x));
    }
  }

  /** Whether a trial move leaves colour `c` in check does not depend on the
      order of the list. */
  lemma TrialCheckReordered(g: Grid, l1: seq<Piece>, l2: seq<Piece>, c: Color, matchCheck: bool, others: OtherRule, s: Pos, t: Pos)
    requires multiset(l1) == multiset(l2) && UniqueKings(l1)
    ensures TrialCheck(g, l1, c, matchCheck, others, s, t) == TrialCheck(g, l2, c, matchCheck, others, s, t)
  {
    if Applicable(g, s, t) {
      var cap := CapturedBy(g, t);
      if cap.Some? {
        var x := cap.value.piece;
        assert x in l1 <==> x in l2 by {
          assert x in l1 <==> x in multiset(l1);
          assert x in l2 <==> x in multiset(l2);
        }
        RemoveFirstKeepsUniqueKings(l1, x);
      }
      InCheckReordered(MoveGrid(g, s, t), OnBoardAfter(l1, cap), OnBoardAfter(l2, cap), c, matchCheck, others);
    }
  }

  /** What the trial moves of one piece show does not depend on the order of
      the list. */
  lemma ByReordered(g: Grid, l1: seq<Piece>, l2: seq<Piece>, c: Color, matchCheck: bool, others: OtherRule, q: Piece)
    requires multiset(l1) == multiset(l2) && UniqueKings(l1)
    ensures NoEscapeBy(g, l1, c, matchCheck, others, q) <==> NoEscapeBy(g, l2, c, matchCheck, others, q)
    ensures EscapeBy(g, l1, c, matchCheck, others, q) <==> EscapeBy(g, l2, c, matchCheck, others, q)
    ensures TrialFailsBy(g, l1, c, matchCheck, others, q) <==> TrialFailsBy(g, l2, c, matchCheck, others, q)
  {
    if Locate(g, q).Some? {
      var p := Locate(g, q).value;
      forall t
        ensures TrialCheck(g, l1, c, matchCheck, others, p, t) == TrialCheck(g, l2, c, matchCheck, others, p, t)
      {
        TrialCheckReordered(g, l1, l2, c, matchCheck, others, p, t);
      }
    }
  }

  /** Whether colour `c` is mated does not depend on the order of the list. */
  lemma MatedReordered(g: Grid, l1: seq<Piece>, l2: seq<Piece>, c: Color, matchCheck: bool, others: OtherRule)
    requires multiset(l1) == multiset(l2) && UniqueKings(l1)
    ensures Mated(g, l1, c, matchCheck, others) == Mated(g, l2, c, matchCheck, others)
  {
    InCheckReordered(g, l1, l2, c, matchCheck, others);
    forall q
      ensures q in l1 <==> q in l2
    {
      assert q in l1 <==> q in multiset(l1);
      assert q in l2 <==> q in multiset(l2);
    }
    forall s, t
      ensures TrialCheck(g, l1, c, matchCheck, others, s, t) == TrialCheck(g, l2, c, matchCheck, others, s, t)
    {
      TrialCheckReordered(g, l1, l2, c, matchCheck, others, s, t);
    }
  }
}
