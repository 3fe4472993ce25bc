/** The game state: the board array and the bookkeeping fields the rules core
    reads and restores. Its methods are the move generator, the four
    castling-rights tests and the undo of the latest move. */
module Game {
  import opened Enums
  import opened Constants
  import opened Walks
  import opened MoveGen
  import opened Castling
  import opened History

  class GameState {
    var board: array<Cell>
    var currColor: Color
    var enPassantSquare: Int8
    var kingSquares: map<Color, Int8>
    /** Material scores; floats in the source, integers that are only copied here. */
    var score: map<Color, int>
    var history: seq<HistoryEntry>

    predicate Valid()
      reads this
    {
      board.Length == 120
    }

    /** A game on the given board, with no history. */
    constructor (cells: seq<Cell>, toMove: Color, ep: Int8)
      requires |cells| == 120
      ensures Valid() && fresh(board) && board[..] == cells
      ensures currColor == toMove && enPassantSquare == ep && history == []
    {
      board := new Cell[120](i requires 0 <= i < 120 => cells[i]);
      currColor := toMove;
      enPassantSquare := ep;
      kingSquares := map[];
      score := map[];
      history := [];
    }

    /** The pseudo-legal targets of the piece on `square`, walking every
        vector of the piece with the sign +1 and then -1. Check is not taken
        into account. */
    method GetMovesPreCheck(square: Int8, withCastle: bool) returns (moves: set<int>)
      requires Valid() && 0 <= square < 120
      ensures moves == PseudoMoves(board[..], square as int, enPassantSquare as int)
      ensures board[square].None? ==> moves == {}
      ensures forall t :: t in moves ==>
        && 0 <= t < 120 && IsValidSquare(t) && board[square].Some?
        && !(board[t].Some? && board[t].value.color == board[square].value.color)
    {
      ghost var b, ep := board[..], enPassantSquare as int;
      if board[square].None? {
        return {};
      }
      var p := board[square].value;
      var vectors := MoveVectors(p.kind);
      ghost var sets := AllVectorMoves(b, p, square as int, ep, vectors);
      moves := {};
      for vi := 0 to |vectors|
        invariant moves == Union(sets, vi)
      {
        VectorShapes(p.kind, vi);
        // No king offset is 2, so the source's castling branch is never taken
        // and `withCastle` has no effect.
        assert p.kind == King ==> forall k :: 0 <= k < |vectors[vi]| ==> vectors[vi][k] != 2;
        var forth := Walk(square as int, p, 1, vectors[vi]);
        var back := Walk(square as int, p, -1, vectors[vi]);
        moves := moves + forth + back;
      }
      forall t | t in moves
        ensures 0 <= t < 120 && IsValidSquare(t) && !(board[t].Some? && board[t].value.color == p.color)
      {
        PseudoMovesAllowed(b, square as int, ep, t);
        ValidSquaresAreTheGrid(t);
      }
    }

    /** The innermost loop of the generator: the targets one walk of `vector`
        with `sign` records for `p` standing on `square`. A `break` of the
        source ends the walk, a `continue` goes on to the next offset. */
    method Walk(square: int, p: Piece, sign: int, vector: seq<int>) returns (found: set<int>)
      requires Valid() && 0 <= square < 120 && (sign == 1 || sign == -1)
      requires forall k :: 0 <= k < |vector| ==> 1 <= vector[k] <= 91
      ensures found == Ray(board[..], p, square, enPassantSquare as int, sign, vector)
    {
      ghost var steps := Steps(board[..], p, square, enPassantSquare as int, sign, vector);
      ghost var targets := Targets(square, sign, vector);
      found := {};
      for k := 0 to |vector|
        invariant Reached(steps, k)
        invariant found == Recorded(steps, targets, k)
      {
        var step, target := Try(square, p, sign, vector[k]);
        assert steps[k] == step && targets[k] == target;
        if step.Records() {
          found := found + {target};
        }
        if !step.Continues() {
          WalkEnds(steps, targets, k);
          break;
        }
        if step == Skip {
          WalkSkips(steps, targets, k);
        } else {
          WalkRecords(steps, targets, k);
        }
      }
    }

    /** One pass of the innermost loop body for `offset`: the target
        `square + offset*sign` in int8 arithmetic and what the loop does with
        it, tested in the source's order. The castling branch is left out: it
        needs a king offset of 2, which no king vector has. */
    method Try(square: int, p: Piece, sign: int, offset: int) returns (step: Step, target: int)
      requires Valid() && 0 <= square < 120 && (sign == 1 || sign == -1) && 1 <= offset <= 91
      ensures target == Target(square, sign, offset)
      ensures step == Outcome(board[..], p, square, enPassantSquare as int, sign, offset)
    {
      target := Wrap8(square + offset * sign);
      SignedIsProduct(sign, offset);

      // The target must be a square of the board.
      ValidSquaresAreTheGrid(target);
      if !IsValidSquare(target) {
        return if p.kind == Knight then Skip else Break, target;
      }
      ValidSquareBounds(target);

      // It must not hold a piece of the mover's colour.
      if board[target].Some? && board[target].value.color == p.color {
        return if p.kind == Knight then Skip else Break, target;
      }

      // Pawns: direction, double push, pushes and diagonals.
      if p.kind == Pawn {
        if p.color == White && sign != -1 {
          return Break, target;
        } else if p.color == Black && sign != 1 {
          return Break, target;
        }
        if p.hasMoved && offset == 24 {
          return Skip, target;
        }
        if offset % 12 == 0 && board[target].Some? {
          return Break, target;
        }
        if offset % 12 != 0 && board[target].None? && target != enPassantSquare as int {
          return Skip, target;
        }
      }

      // The target is recorded; an occupied one ends the walk.
      if board[target].Some? && p.kind != Knight {
        return RecordAndBreak, target;
      }
      return Record, target;
    }

    /** White may castle on the queen side: unmoved king on 102, unmoved rook
        on 98, and 99 to 101 empty. */
    function WhiteQueenSide(): (r: bool)
      reads this, board
      requires Valid()
      ensures r == CastleRight(board[..], WhiteKingHome, WhiteQueenRook)
    {
      CastleRightSquares(board[..]);
      if board[102].None? || board[102].value.kind != King || board[102].value.hasMoved then false
      else if board[98].None? || board[98].value.kind != Rook || board[98].value.hasMoved then false
      else if board[101].Some? || board[100].Some? || board[99].Some? then false
      else true
    }

    /** White may castle on the king side: unmoved king on 102, unmoved rook
        on 105, and 103 and 104 empty. */
    function WhiteKingSide(): (r: bool)
      reads this, board
      requires Valid()
      ensures r == CastleRight(board[..], WhiteKingHome, WhiteKingRook)
    {
      CastleRightSquares(board[..]);
      if board[102].None? || board[102].value.kind != King || board[102].value.hasMoved then false
      else if board[105].None? || board[105].value.kind != Rook || board[105].value.hasMoved then false
      else if board[103].Some? || board[104].Some? then false
      else true
    }

    /** Black may castle on the queen side: unmoved king on 18, unmoved rook
        on 14, and 15 to 17 empty. */
    function BlackQueenSide(): (r: bool)
      reads this, board
      requires Valid()
      ensures r == CastleRight(board[..], BlackKingHome, BlackQueenRook)
    {
      CastleRightSquares(board[..]);
      if board[18].None? || board[18].value.kind != King || board[18].value.hasMoved then false
      else if board[14].None? || board[14].value.kind != Rook || board[14].value.hasMoved then false
      else if board[15].Some? || board[16].Some? || board[17].Some? then false
      else true
    }

    /** Black may castle on the king side: unmoved king on 18, unmoved rook
        on 21, and 19 and 20 empty. */
    function BlackKingSide(): (r: bool)
      reads this, board
      requires Valid()
      ensures r == CastleRight(board[..], BlackKingHome, BlackKingRook)
    {
      CastleRightSquares(board[..]);
      if board[18].None? || board[18].value.kind != King || board[18].value.hasMoved then false
      else if board[21].None? || board[21].value.kind != Rook || board[21].value.hasMoved then false
      else if board[19].Some? || board[20].Some? then false
      else true
    }

    /** Undo the latest move: pop the last history entry, replay its actions
        into the board in recorded order, restore the en-passant square, the
        king squares and the scores, and hand the move back. */
    method Undo(withHardUpdate: bool) returns (ok: bool)
      requires Valid()
      requires |history| > 0 ==> ReplayDefined(board[..], history[|history| - 1].actions)
      modifies this, board
      ensures Valid() && board == old(board)
      ensures ok <==> |old(history)| > 0
      ensures !ok ==>
        && board[..] == old(board[..]) && history == old(history) && currColor == old(currColor)
        && enPassantSquare == old(enPassantSquare) && kingSquares == old(kingSquares) && score == old(score)
      ensures ok ==>
        var entry := old(history)[|old(history)| - 1];
        && history == old(history)[..|old(history)| - 1]
        && board[..] == Replay(old(board[..]), entry.actions)
        && enPassantSquare == entry.enPassantSquare
        && kingSquares == old(kingSquares)[White := entry.whiteKingSquare][Black := entry.blackKingSquare]
        && score == old(score)[White := entry.whiteScore][Black := entry.blackScore]
        && currColor == Opponent(old(currColor))
    {
      if |history| == 0 {
        return false;
      }
      var entry := history[|history| - 1];
      history := history[..|history| - 1];
      ghost var b0 := board[..];
      for i := 0 to |entry.actions|
        invariant board == old(board) && history == old(history)[..|old(history)| - 1]
        invariant currColor == old(currColor) && enPassantSquare == old(enPassantSquare)
        invariant kingSquares == old(kingSquares) && score == old(score)
        invariant ReplayDefined(b0, entry.actions[..i])
        invariant board[..] == Replay(b0, entry.actions[..i])
      {
        var change := entry.actions[i];
        ReplayDefinedPrefix(b0, entry.actions, i + 1);
        assert entry.actions[..i + 1] == entry.actions[..i] + [change];
        ReplaySnoc(b0, entry.actions[..i], change);
        ReplayAction(change);
      }
      assert entry.actions[..|entry.actions|] == entry.actions;
      enPassantSquare := entry.enPassantSquare;
      kingSquares := kingSquares[White := entry.whiteKingSquare];
      kingSquares := kingSquares[Black := entry.blackKingSquare];
      score := score[White := entry.whiteScore];
      score := score[Black := entry.blackScore];
      currColor := Opponent(currColor);
      return true;
    }

    /** One pass of the replay loop of `Undo`: a promotion action puts the
        pawn back on `to`; an en-passant action puts the captured pawn back
        on `from` and is done; otherwise the piece on `to` goes back to
        `from` with its recorded moved flag and the capture returns to `to`. */
    method ReplayAction(change: Action)
      requires Valid() && ActionDefined(board[..], change)
      modifies board
      ensures board[..] == UndoAction(old(board[..]), change)
    {
      if change.promotionPawn.Some? {
        board[change.to] := change.promotionPawn;
      } else if change.enPassantPawn.Some? {
        board[change.from] := change.enPassantPawn;
        return;
      }
      board[change.from] := board[change.to];
      board[change.to] := change.capture;
      board[change.from] := Some(board[change.from].value.(hasMoved := change.hasMoved));
    }
  }
}
