/** The castling-rights tests, stated on a board value.

    A right holds when the king's home square holds an unmoved king, the
    rook's home square an unmoved rook, and every square strictly between
    them is empty. The tests look at neither the colour of the two pieces nor
    attacked squares. */
module Castling {
  import opened Enums
  import opened Constants

  /** Square `s` holds a piece of kind `kind` that has not moved. */
  predicate UnmovedAt(b: seq<Cell>, s: int, kind: PieceType)
    requires |b| == 120 && 0 <= s < 120
  {
    b[s].Some? && b[s].value.kind == kind && !b[s].value.hasMoved
  }

  /** Every square strictly between `x` and `y` is empty. */
  predicate EmptyBetween(b: seq<Cell>, x: int, y: int)
    requires |b| == 120 && 0 <= x < 120 && 0 <= y < 120
  {
    forall i :: 0 <= i < 120 && (x < i < y || y < i < x) ==> b[i].None?
  }

  /** The castling right for the king on `king` and the rook on `rook`. */
  predicate CastleRight(b: seq<Cell>, king: int, rook: int)
    requires |b| == 120 && 0 <= king < 120 && 0 <= rook < 120
  {
    UnmovedAt(b, king, King) && UnmovedAt(b, rook, Rook) && EmptyBetween(b, king, rook)
  }

  /** Home squares of the kings and rooks. */
  const WhiteKingHome := 102
  const BlackKingHome := 18
  const WhiteKingRook := 105
  const WhiteQueenRook := 98
  const BlackKingRook := 21
  const BlackQueenRook := 14

  /** The four rights, spelled out square by square. */
  lemma CastleRightSquares(b: seq<Cell>)
    requires |b| == 120
    ensures CastleRight(b, WhiteKingHome, WhiteKingRook) <==>
      UnmovedAt(b, 102, King) && UnmovedAt(b, 105, Rook) && b[103].None? && b[104].None?
    ensures CastleRight(b, WhiteKingHome, WhiteQueenRook) <==>
      UnmovedAt(b, 102, King) && UnmovedAt(b, 98, Rook) && b[99].None? && b[100].None? && b[101].None?
    ensures CastleRight(b, BlackKingHome, BlackKingRook) <==>
      UnmovedAt(b, 18, King) && UnmovedAt(b, 21, Rook) && b[19].None? && b[20].None?
    ensures CastleRight(b, BlackKingHome, BlackQueenRook) <==>
      UnmovedAt(b, 18, King) && UnmovedAt(b, 14, Rook) && b[15].None? && b[16].None? && b[17].None?
  {
    if b[103].None? && b[104].None? {
      forall i | 0 <= i < 120 && 102 < i < 105 ensures b[i].None? {}
    }
    if b[99].None? && b[100].None? && b[101].None? {
      forall i | 0 <= i < 120 && 98 < i < 102 ensures b[i].None? {}
    }
    if b[19].None? && b[20].None? {
      forall i | 0 <= i < 120 && 18 < i < 21 ensures b[i].None? {}
    }
    if b[15].None? && b[16].None? && b[17].None? {
      forall i | 0 <= i < 120 && 14 < i < 18 ensures b[i].None? {}
    }
  }

  /** In the starting position no right holds: knights, bishops and queens
      stand between the kings and the rooks. */
  lemma NoCastlingAtStart()
    ensures !CastleRight(NewBoard(), WhiteKingHome, WhiteKingRook)
    ensures !CastleRight(NewBoard(), WhiteKingHome, WhiteQueenRook)
    ensures !CastleRight(NewBoard(), BlackKingHome, BlackKingRook)
    ensures !CastleRight(NewBoard(), BlackKingHome, BlackQueenRook)
  {
    var b := NewBoard();
    assert b[103] == StartRow(8)[7] && b[99] == StartRow(8)[3];
    assert b[19] == StartRow(1)[7] && b[15] == StartRow(1)[3];
  }

  /** Colours do not matter: any unmoved king and rook on the home squares,
      of either colour, give the right once the squares between are empty. */
  lemma CastleRightIgnoresColour(b: seq<Cell>, king: int, rook: int, kc: Color, rc: Color, kv: int, rv: int)
    requires |b| == 120 && 0 <= king < 120 && 0 <= rook < 120 && king != rook
    ensures var b' := b[king := Some(Piece(King, kc, kv, false))][rook := Some(Piece(Rook, rc, rv, false))];
      CastleRight(b', king, rook) <==> EmptyBetween(b, king, rook)
  {
    var b' := b[king := Some(Piece(King, kc, kv, false))][rook := Some(Piece(Rook, rc, rv, false))];
    forall i | 0 <= i < 120 && (king < i < rook || rook < i < king) ensures b'[i] == b[i] {}
  }

  /** A moved king or rook loses the right, whatever else is on the board. */
  lemma MovedPieceLosesRight(b: seq<Cell>, king: int, rook: int)
    requires |b| == 120 && 0 <= king < 120 && 0 <= rook < 120
    requires b[king].Some? && b[rook].Some?
    requires b[king].value.hasMoved || b[rook].value.hasMoved
    ensures !CastleRight(b, king, rook)
  {
  }
}
