/** The static tables of the board model: the start position, the piece
    constructors, the offset vectors and the playable and promotion squares.

    The board is a 12-column, 10-row mailbox: index `12 * row + column`,
    rows 1..8 and columns 2..9 are the playable 8x8 area, everything else is
    a border cell, empty in the starting board (`NewBoardShape`). */
module Constants {
  import opened Enums

  function Row(s: int): int { s / 12 }
  function Column(s: int): int { s % 12 }

  /** Row and column of the 8x8 area. */
  predicate OnBoard(row: int, column: int) { 1 <= row <= 8 && 2 <= column <= 9 }

  /** An index whose row and column lie on the 8x8 area. */
  predicate Playable(s: int) { OnBoard(Row(s), Column(s)) }


  /** Membership in the source's table of the 64 playable indices. */
  predicate IsValidSquare(s: int)
  {
    s in {
       14,  15,  16,  17,  18,  19,  20,  21,
       26,  27,  28,  29,  30,  31,  32,  33,
       38,  39,  40,  41,  42,  43,  44,  45,
       50,  51,  52,  53,  54,  55,  56,  57,
       62,  63,  64,  65,  66,  67,  68,  69,
       74,  75,  76,  77,  78,  79,  80,  81,
       86,  87,  88,  89,  90,  91,  92,  93,
       98,  99, 100, 101, 102, 103, 104, 105
    }
  }

  /** Membership in the source's table of promotion squares. */
  predicate IsPromotionSquare(s: int)
  {
    s in {
       14,  15,  16,  17,  18,  19,  20,  21,
       98,  99, 100, 101, 102, 103, 104, 105
    }
  }

  /** The keys of the playable-square table. */
  function ValidSquares(): set<int>
  {
    set s | 0 <= s < 120 && IsValidSquare(s)
  }

  /** Membership in the table is exactly "row 1..8 and column 2..9". */
  lemma ValidSquaresAreTheGrid(s: int)
    ensures IsValidSquare(s) <==> Playable(s)
  {
  }

  /** The i-th playable square in index order (i in 0..63). */
  function NthPlayable(i: int): int { 12 * (i / 8 + 1) + i % 8 + 2 }

  function FirstPlayable(n: int): set<int> { set i | 0 <= i < n :: NthPlayable(i) }

  lemma NthPlayableOrder(i: int, j: int)
    requires 0 <= i < j
    ensures NthPlayable(i) < NthPlayable(j)
  {
    assert i / 8 <= j / 8;
    if i / 8 == j / 8 { assert i % 8 < j % 8; }
  }

  lemma {:induction false} FirstPlayableSize(n: nat)
    ensures |FirstPlayable(n)| == n
  {
    if n > 0 {
      FirstPlayableSize(n - 1);
      assert FirstPlayable(n) == FirstPlayable(n - 1) + {NthPlayable(n - 1)};
      forall i | 0 <= i < n - 1 ensures NthPlayable(i) != NthPlayable(n - 1) {
        NthPlayableOrder(i, n - 1);
      }
    }
  }

  lemma PlayableEnumerated(s: int)
    ensures s in FirstPlayable(64) <==> 0 <= s < 120 && Playable(s)
  {
    if 0 <= s < 120 && Playable(s) {
      var i := 8 * (Row(s) - 1) + Column(s) - 2;
      assert NthPlayable(i) == s;
    }
  }

  /** The table holds exactly 64 squares. */
  lemma ValidSquaresCount()
    ensures |ValidSquares()| == 64
  {
    forall s ensures s in ValidSquares() <==> s in FirstPlayable(64) {
      ValidSquaresAreTheGrid(s);
      PlayableEnumerated(s);
    }
    assert ValidSquares() == FirstPlayable(64);
    FirstPlayableSize(64);
  }

  /** The promotion squares are the playable squares of the first and last rows. */
  lemma PromotionSquaresAreEndRows(s: int)
    ensures IsPromotionSquare(s) <==> IsValidSquare(s) && (Row(s) == 1 || Row(s) == 8)
  {
    ValidSquaresAreTheGrid(s);
  }

  /** The offset vectors per piece kind (unsigned; the generator tries both signs). */
  function MoveVectors(t: PieceType): seq<seq<int>>
  {
    match t
    case King => [[1], [12], [11], [13]]
    case Queen => [
      [1, 2, 3, 4, 5, 6, 7],
      [12, 24, 36, 48, 60, 72, 84],
      [11, 22, 33, 44, 55, 66, 77],
      [13, 26, 39, 52, 65, 78, 91]]
    case Rook => [
      [1, 2, 3, 4, 5, 6, 7],
      [12, 24, 36, 48, 60, 72, 84]]
    case Bishop => [
      [11, 22, 33, 44, 55, 66, 77],
      [13, 26, 39, 52, 65, 78, 91]]
    case Knight => [[10], [14], [23], [25]]
    case Pawn => [[12, 24], [11], [13]]
  }

  /** The king, rook, bishop and queen step units (horizontal, vertical, two diagonals)
      and the knight jumps, each with the row and column change it means. */
  function Delta(offset: int): (d: (int, int))
    requires offset in {1, 11, 12, 13, 10, 14, 23, 25}
    ensures 12 * d.0 + d.1 == offset
    ensures -2 <= d.1 <= 2
  {
    match offset
    case 1 => (0, 1)
    case 11 => (1, -1)
    case 12 => (1, 0)
    case 13 => (1, 1)
    case 10 => (1, -2)
    case 14 => (1, 2)
    case 23 => (2, -1)
    case 25 => (2, 1)
  }

  /** `x * sign` for a sign of +1 or -1, written without a multiplication. */
  function Signed(sign: int, x: int): int
  {
    if sign < 0 then -x else x
  }

  lemma SignedIsProduct(sign: int, x: int)
    requires sign == 1 || sign == -1
    ensures Signed(sign, x) == x * sign
  {
  }

  /** No wrap-around: a unit step or knight jump from a playable square lands on
      a playable square exactly when the row and column it means stay on the
      8x8 area, and then it lands on that row and column. The two border columns
      on each side absorb any column change of at most two. */
  lemma NoWrapAround(s: int, offset: int, sign: int)
    requires Playable(s)
    requires offset in {1, 11, 12, 13, 10, 14, 23, 25} && (sign == 1 || sign == -1)
    ensures var t, d := s + Signed(sign, offset), Delta(offset);
      && (Playable(t) <==> OnBoard(Row(s) + Signed(sign, d.0), Column(s) + Signed(sign, d.1)))
      && Row(t) == Row(s) + Signed(sign, d.0) && Column(t) == Column(s) + Signed(sign, d.1)
  {
    var d := Delta(offset);
    if sign == 1 {
      RowColumnUnique(s + offset, Row(s) + d.0, Column(s) + d.1);
    } else {
      RowColumnUnique(s - offset, Row(s) - d.0, Column(s) - d.1);
    }
  }

  lemma RowColumnUnique(t: int, r: int, c: int)
    requires 0 <= c < 12 && t == 12 * r + c
    ensures Row(t) == r && Column(t) == c
  {
  }

  predicate IsSlider(t: PieceType) { t == Queen || t == Rook || t == Bishop }

  /** Sliding vectors are the multiples 1..7 of one unit step; king and knight
      vectors are one offset each; pawn vectors are the push pair and two diagonals. */
  lemma VectorShapes(t: PieceType, vi: int)
    requires 0 <= vi < |MoveVectors(t)|
    ensures IsSlider(t) ==>
              && |MoveVectors(t)[vi]| == 7
              && MoveVectors(t)[vi][0] in {1, 11, 12, 13}
              && forall k :: 0 <= k < 7 ==> MoveVectors(t)[vi][k] == (k + 1) * MoveVectors(t)[vi][0]
    ensures t == King ==> |MoveVectors(t)[vi]| == 1 && MoveVectors(t)[vi][0] in {1, 11, 12, 13}
    ensures t == Knight ==> |MoveVectors(t)[vi]| == 1 && MoveVectors(t)[vi][0] in {10, 14, 23, 25}
    ensures t == Pawn ==> MoveVectors(t)[vi] in [[12, 24], [11], [13]]
    ensures forall k :: 0 <= k < |MoveVectors(t)[vi]| ==> 1 <= MoveVectors(t)[vi][k] <= 91
  {
  }

  // The piece constructors; `HasMoved` is left at its zero value.
  const BlackRook := Piece(Rook, Black, 5, false)
  const WhiteRook := Piece(Rook, White, 5, false)
  const BlackKing := Piece(King, Black, 10000, false)
  const WhiteKing := Piece(King, White, 10000, false)
  const BlackQueen := Piece(Queen, Black, 9, false)
  const WhiteQueen := Piece(Queen, White, 9, false)
  const BlackBishop := Piece(Bishop, Black, 3, false)
  const WhiteBishop := Piece(Bishop, White, 3, false)
  const BlackKnight := Piece(Knight, Black, 3, false)
  const WhiteKnight := Piece(Knight, White, 3, false)
  const BlackPawn := Piece(Pawn, Black, 1, false)
  const WhitePawn := Piece(Pawn, White, 1, false)

  const EmptyRow: seq<Cell> := [None, None, None, None, None, None, None, None, None, None, None, None]

  /** Row `r` of the starting position, as laid out in the source. */
  function StartRow(r: int): (row: seq<Cell>)
    requires 0 <= r < 10
    ensures |row| == 12
  {
    var e: Cell := None;
    var bR, bN, bB, bQ, bK := Some(BlackRook), Some(BlackKnight), Some(BlackBishop), Some(BlackQueen), Some(BlackKing);
    var wR, wN, wB, wQ, wK := Some(WhiteRook), Some(WhiteKnight), Some(WhiteBishop), Some(WhiteQueen), Some(WhiteKing);
    var bP, wP := Some(BlackPawn), Some(WhitePawn);
    match r
    case 0 => EmptyRow
    case 1 => [e, e, bR, bN, bB, bQ, bK, bB, bN, bR, e, e]
    case 2 => [e, e, bP, bP, bP, bP, bP, bP, bP, bP, e, e]
    case 3 => EmptyRow
    case 4 => EmptyRow
    case 5 => EmptyRow
    case 6 => EmptyRow
    case 7 => [e, e, wP, wP, wP, wP, wP, wP, wP, wP, e, e]
    case 8 => [e, e, wR, wN, wB, wQ, wK, wB, wN, wR, e, e]
    case 9 => EmptyRow
  }

  /** The starting position: 120 cells, row after row. */
  function NewBoard(): (b: seq<Cell>)
    ensures |b| == 120
  {
    seq(120, i requires 0 <= i < 120 => StartRow(i / 12)[i % 12])
  }

  /** The back-rank piece kind standing on column `c` (2..9). */
  function BackRankKind(c: int): PieceType
    requires 2 <= c <= 9
  {
    if c == 2 || c == 9 then Rook
    else if c == 3 || c == 8 then Knight
    else if c == 4 || c == 7 then Bishop
    else if c == 5 then Queen
    else King
  }

  /** Start position, described square by square from rows and columns:
      rows 1-2 black, rows 7-8 white, pawns on rows 2 and 7, all other cells nil,
      and no constructed piece has moved. */
  lemma NewBoardShape(i: int)
    requires 0 <= i < 120
    ensures NewBoard()[i].Some? <==> IsValidSquare(i) && Row(i) in {1, 2, 7, 8}
    ensures NewBoard()[i].Some? ==> !NewBoard()[i].value.hasMoved
    ensures NewBoard()[i].Some? ==> (NewBoard()[i].value.color == Black <==> Row(i) <= 2)
    ensures NewBoard()[i].Some? ==> (NewBoard()[i].value.kind == Pawn <==> Row(i) in {2, 7})
    ensures NewBoard()[i].Some? && Row(i) in {1, 8} ==> NewBoard()[i].value.kind == BackRankKind(Column(i))
  {
    ValidSquaresAreTheGrid(i);
    var b := NewBoard();
    var r, c := Row(i), Column(i);
    assert i == 12 * r + c;
    assert b[i] == StartRow(r)[c];
  }

  /** Kings on 18 (black) and 102 (white), rooks on the four corners. */
  lemma NewBoardKingsAndRooks()
    ensures NewBoard()[18] == Some(BlackKing) && NewBoard()[102] == Some(WhiteKing)
    ensures NewBoard()[14] == Some(BlackRook) && NewBoard()[21] == Some(BlackRook)
    ensures NewBoard()[98] == Some(WhiteRook) && NewBoard()[105] == Some(WhiteRook)
  {
  }
}
