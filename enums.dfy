/** The tags of the rules core: side colour, move kinds and piece kinds. */
module Enums {

  /** Go's `int8`: the width of squares, offsets and the colour tag. */
  newtype Int8 = x: int | -128 <= x < 128

  /** A side is the int8 value +1 (White) or -1 (Black); the sign is used
      arithmetically, for example `currColor *= -1` flips the side to move. */
  newtype Color = c: int | c == 1 || c == -1 witness 1

  const White: Color := 1
  const Black: Color := -1

  /** The other side, computed as the source does: multiplication by -1. */
  function Opponent(c: Color): (o: Color)
    ensures o != c
    ensures c == White ==> o == Black
    ensures c == Black ==> o == White
  {
    (c as int * -1) as Color
  }

  lemma ColorHasTwoValues(c: Color)
    ensures c == White || c == Black
    ensures White != Black
    ensures Opponent(Opponent(c)) == c
  {
  }

  /** Move kinds; `Code` gives the int8 constant the source assigns. */
  datatype MoveType =
    | Neutral
    | EnPassantAttack | EnPassantTrigger
    | WhiteKingSideCastle | WhiteQueenSideCastle | BlackKingSideCastle | BlackQueenSideCastle
    | QueenPromotion | RookPromotion | BishopPromotion | KnightPromotion

  function MoveTypeCode(m: MoveType): (n: Int8)
    ensures 0 <= n <= 10
  {
    match m
    case Neutral => 0
    case EnPassantAttack => 1
    case EnPassantTrigger => 2
    case WhiteKingSideCastle => 3
    case WhiteQueenSideCastle => 4
    case BlackKingSideCastle => 5
    case BlackQueenSideCastle => 6
    case QueenPromotion => 7
    case RookPromotion => 8
    case BishopPromotion => 9
    case KnightPromotion => 10
  }

  datatype Option<T> = None | Some(value: T)

  /** The tag whose constant is `n`, if any. */
  function MoveTypeFromCode(n: Int8): (r: Option<MoveType>)
    ensures r.Some? <==> 0 <= n <= 10
    ensures r.Some? ==> MoveTypeCode(r.value) == n
  {
    match n
    case 0 => Some(Neutral)
    case 1 => Some(EnPassantAttack)
    case 2 => Some(EnPassantTrigger)
    case 3 => Some(WhiteKingSideCastle)
    case 4 => Some(WhiteQueenSideCastle)
    case 5 => Some(BlackKingSideCastle)
    case 6 => Some(BlackQueenSideCastle)
    case 7 => Some(QueenPromotion)
    case 8 => Some(RookPromotion)
    case 9 => Some(BishopPromotion)
    case 10 => Some(KnightPromotion)
    case _ => None
  }

  /** The eleven constants are pairwise distinct: the code determines the tag. */
  lemma MoveTypeCodeRoundTrip(m: MoveType)
    ensures MoveTypeFromCode(MoveTypeCode(m)) == Some(m)
  {
  }

  predicate IsEnPassant(m: MoveType) { m == EnPassantAttack || m == EnPassantTrigger }

  predicate IsCastle(m: MoveType)
  {
    m == WhiteKingSideCastle || m == WhiteQueenSideCastle
    || m == BlackKingSideCastle || m == BlackQueenSideCastle
  }

  predicate IsPromotion(m: MoveType)
  {
    m == QueenPromotion || m == RookPromotion || m == BishopPromotion || m == KnightPromotion
  }

  /** The comment groups of the source partition the tags: Neutral (0),
      en passant (1-2), castling (3-6) and promotion (7-10). */
  lemma MoveTypeGroups(m: MoveType)
    ensures m == Neutral || IsEnPassant(m) || IsCastle(m) || IsPromotion(m)
    ensures m == Neutral ==> !IsEnPassant(m) && !IsCastle(m) && !IsPromotion(m)
    ensures !(IsEnPassant(m) && IsCastle(m)) && !(IsEnPassant(m) && IsPromotion(m))
    ensures !(IsCastle(m) && IsPromotion(m))
    ensures IsEnPassant(m) <==> 1 <= MoveTypeCode(m) <= 2
    ensures IsCastle(m) <==> 3 <= MoveTypeCode(m) <= 6
    ensures IsPromotion(m) <==> 7 <= MoveTypeCode(m) <= 10
  {
  }

  /** Piece kinds; `PieceTypeCode` gives the source's `Type` constant. */
  datatype PieceType = King | Queen | Rook | Bishop | Knight | Pawn

  function PieceTypeCode(t: PieceType): (n: int)
    ensures 0 <= n <= 5
  {
    match t
    case King => 0
    case Queen => 1
    case Rook => 2
    case Bishop => 3
    case Knight => 4
    case Pawn => 5
  }

  function PieceTypeFromCode(n: int): (r: Option<PieceType>)
    ensures r.Some? <==> 0 <= n <= 5
    ensures r.Some? ==> PieceTypeCode(r.value) == n
  {
    if n == 0 then Some(King)
    else if n == 1 then Some(Queen)
    else if n == 2 then Some(Rook)
    else if n == 3 then Some(Bishop)
    else if n == 4 then Some(Knight)
    else if n == 5 then Some(Pawn)
    else None
  }

  /** The six constants are pairwise distinct. */
  lemma PieceTypeCodeRoundTrip(t: PieceType)
    ensures PieceTypeFromCode(PieceTypeCode(t)) == Some(t)
  {
  }

  /** A piece value: the source's `*Piece`, copied instead of shared.
      `value` is the material value (a float in the source, only copied here). */
  datatype Piece = Piece(kind: PieceType, color: Color, value: int, hasMoved: bool)

  /** A board cell: nil or one piece. */
  type Cell = Option<Piece>
}
