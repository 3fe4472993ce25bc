/** Specification of the pseudo-legal move generator `getMovesPreCheck`.

    The generator walks every offset vector of the moving piece, each with the
    sign +1 and then -1. `Outcome` is the decision one try takes, in the
    source's order of tests; a walk records the targets `Walks.Recorded` says.
    Targets are computed in int8 arithmetic, as squares and offsets are int8
    in the source. */
module MoveGen {
  import opened Enums
  import opened Constants
  import opened Walks

  /** Two's-complement wrap-around of an int8 result. */
  function Wrap8(x: int): (r: int)
    ensures -128 <= r < 128
    ensures (r - x) % 256 == 0
    ensures -128 <= x < 128 ==> r == x
  {
    if -128 <= x < 128 then x else (x + 128) % 256 - 128
  }

  /** `square + offset*sign`, computed in int8 (see `SignedIsProduct`). */
  function Target(square: int, sign: int, offset: int): int
  {
    Wrap8(square + Signed(sign, offset))
  }

  lemma ValidSquareBounds(s: int)
    requires IsValidSquare(s)
    ensures 14 <= s <= 105
  {
  }

  lemma Wrap8High(x: int)
    requires 128 <= x < 256
    ensures Wrap8(x) == x - 256
  {
  }

  /** On the sums a move can produce, int8 wrap-around never yields a playable
      square: the wrapped value is playable exactly when the sum is, and then
      the two agree. */
  lemma Wrap8KeepsSquares(raw: int)
    requires -128 <= raw < 256
    ensures IsValidSquare(Wrap8(raw)) <==> IsValidSquare(raw)
    ensures IsValidSquare(Wrap8(raw)) ==> Wrap8(raw) == raw
  {
    var t := Wrap8(raw);
    if raw >= 128 {
      Wrap8High(raw);
      if IsValidSquare(t) { ValidSquareBounds(t); }
      if IsValidSquare(raw) { ValidSquareBounds(raw); }
    }
  }

  /** From any board index, a target is playable exactly when the unwrapped
      sum is, and then the two agree. */
  lemma TargetNoOverflow(square: int, sign: int, offset: int)
    requires 0 <= square < 120 && (sign == 1 || sign == -1) && 1 <= offset <= 91
    ensures IsValidSquare(Target(square, sign, offset)) <==> IsValidSquare(square + Signed(sign, offset))
    ensures IsValidSquare(Target(square, sign, offset)) ==> Target(square, sign, offset) == square + Signed(sign, offset)
  {
    Wrap8KeepsSquares(square + Signed(sign, offset));
  }

  predicate Friendly(b: seq<Cell>, t: int, p: Piece)
    requires |b| == 120 && 0 <= t < 120
  {
    b[t].Some? && b[t].value.color == p.color
  }

  /** A playable square holding no piece. Playability is stated on rows and
      columns; `ValidSquaresAreTheGrid` ties it to the table of valid squares. */
  predicate Vacant(b: seq<Cell>, s: int)
    requires |b| == 120
  {
    0 <= s < 120 && Playable(s) && b[s].None?
  }

  /** A playable square not holding a piece of `p`'s colour. */
  predicate Open(b: seq<Cell>, s: int, p: Piece)
    requires |b| == 120
  {
    0 <= s < 120 && Playable(s) && !Friendly(b, s, p)
  }

  /** One try for piece `p` on `square` of `offset` with `sign`; `ep` is the
      en-passant square. Board membership is tested before any board access,
      then the friendly-piece test, the pawn rules and the blocker test.
      Membership in the table of valid squares is written as `Playable`, which
      `ValidSquaresAreTheGrid` shows to be the same test. */
  function Outcome(b: seq<Cell>, p: Piece, square: int, ep: int, sign: int, offset: int): Step
    requires |b| == 120
  {
    var target := Target(square, sign, offset);
    if !Playable(target) then
      if p.kind == Knight then Skip else Break
    else if b[target].Some? && b[target].value.color == p.color then
      if p.kind == Knight then Skip else Break
    else if p.kind == Pawn && ((p.color == White && sign != -1) || (p.color == Black && sign != 1)) then
      Break
    else if p.kind == Pawn && p.hasMoved && offset == 24 then
      Skip
    else if p.kind == Pawn && offset % 12 == 0 && b[target].Some? then
      Break
    else if p.kind == Pawn && offset % 12 != 0 && b[target].None? && target != ep then
      Skip
    else if b[target].Some? && p.kind != Knight then
      RecordAndBreak
    else
      Record
  }

  /** The decisions of the tries of `vector` with `sign`. */
  function Steps(b: seq<Cell>, p: Piece, square: int, ep: int, sign: int, vector: seq<int>): seq<Step>
    requires |b| == 120
  {
    seq(|vector|, i requires 0 <= i < |vector| => Outcome(b, p, square, ep, sign, vector[i]))
  }

  /** The targets of the tries of `vector` with `sign`. */
  function Targets(square: int, sign: int, vector: seq<int>): seq<int>
  {
    seq(|vector|, i requires 0 <= i < |vector| => Target(square, sign, vector[i]))
  }

  /** The targets one walk records. */
  function Ray(b: seq<Cell>, p: Piece, square: int, ep: int, sign: int, vector: seq<int>): set<int>
    requires |b| == 120
  {
    Recorded(Steps(b, p, square, ep, sign, vector), Targets(square, sign, vector), |vector|)
  }

  /** The targets of the two walks of one vector, with +1 and then -1. */
  function VectorMoves(b: seq<Cell>, p: Piece, square: int, ep: int, vector: seq<int>): set<int>
    requires |b| == 120
  {
    Ray(b, p, square, ep, 1, vector) + Ray(b, p, square, ep, -1, vector)
  }

  function AllVectorMoves(b: seq<Cell>, p: Piece, square: int, ep: int, vectors: seq<seq<int>>): seq<set<int>>
    requires |b| == 120
  {
    seq(|vectors|, i requires 0 <= i < |vectors| => VectorMoves(b, p, square, ep, vectors[i]))
  }

  /** All pseudo-legal targets of the piece on `square`: none for an empty square. */
  function PseudoMoves(b: seq<Cell>, square: int, ep: int): set<int>
    requires |b| == 120 && 0 <= square < 120
  {
    if b[square].None? then {}
    else
      var p := b[square].value;
      Union(AllVectorMoves(b, p, square, ep, MoveVectors(p.kind)), |MoveVectors(p.kind)|)
  }

  /** A target is generated exactly when one of the piece's walks records it. */
  lemma PseudoMovesMember(b: seq<Cell>, square: int, ep: int, t: int)
    requires |b| == 120 && 0 <= square < 120 && b[square].Some?
    ensures var p := b[square].value; var vs := MoveVectors(p.kind);
      t in PseudoMoves(b, square, ep) <==>
      exists vi :: 0 <= vi < |vs| && (t in Ray(b, p, square, ep, 1, vs[vi]) || t in Ray(b, p, square, ep, -1, vs[vi]))
  {
    var p := b[square].value;
    var vs := MoveVectors(p.kind);
    var sets := AllVectorMoves(b, p, square, ep, vs);
    UnionMember(sets, |vs|, t);
    if vi :| 0 <= vi < |vs| && (t in Ray(b, p, square, ep, 1, vs[vi]) || t in Ray(b, p, square, ep, -1, vs[vi])) {
      assert t in sets[vi];
    }
  }

  /** The walk that generated a target. */
  lemma WalkOf(b: seq<Cell>, square: int, ep: int, t: int) returns (vi: int, sign: int)
    requires |b| == 120 && 0 <= square < 120
    requires t in PseudoMoves(b, square, ep)
    ensures b[square].Some? && 0 <= vi < |MoveVectors(b[square].value.kind)| && (sign == 1 || sign == -1)
    ensures t in Ray(b, b[square].value, square, ep, sign, MoveVectors(b[square].value.kind)[vi])
  {
    var p := b[square].value;
    var vs := MoveVectors(p.kind);
    PseudoMovesMember(b, square, ep, t);
    vi :| 0 <= vi < |vs| && (t in Ray(b, p, square, ep, 1, vs[vi]) || t in Ray(b, p, square, ep, -1, vs[vi]));
    sign := if t in Ray(b, p, square, ep, 1, vs[vi]) then 1 else -1;
  }

  // ---------------------------------------------------------------------------
  // What one try decides.

  /** A recorded target is on the board and not occupied by the mover's side. */
  lemma RecordedTarget(b: seq<Cell>, p: Piece, square: int, ep: int, sign: int, offset: int)
    requires |b| == 120
    requires Outcome(b, p, square, ep, sign, offset).Records()
    ensures Open(b, Target(square, sign, offset), p)
  {
    ValidSquaresAreTheGrid(Target(square, sign, offset));
    ValidSquareBounds(Target(square, sign, offset));
  }

  /** The knight never stops a walk; it records every open target. */
  lemma KnightDecision(b: seq<Cell>, p: Piece, square: int, ep: int, sign: int, offset: int)
    requires |b| == 120 && p.kind == Knight
    ensures var step, t := Outcome(b, p, square, ep, sign, offset), Target(square, sign, offset);
      step.Continues() && (step.Records() <==> Open(b, t, p))
  {
    ValidSquaresAreTheGrid(Target(square, sign, offset));
    if IsValidSquare(Target(square, sign, offset)) { ValidSquareBounds(Target(square, sign, offset)); }
  }

  /** King, queen, rook and bishop: an empty target is recorded and the walk
      goes on, an enemy target is recorded and ends it, anything else ends it. */
  lemma StepperDecision(b: seq<Cell>, p: Piece, square: int, ep: int, sign: int, offset: int)
    requires |b| == 120 && p.kind != Knight && p.kind != Pawn
    ensures var step, t := Outcome(b, p, square, ep, sign, offset), Target(square, sign, offset);
      && (step.Continues() <==> Vacant(b, t))
      && (step.Records() <==> Open(b, t, p))
      && (step == RecordAndBreak <==> Open(b, t, p) && b[t].Some?)
  {
    ValidSquaresAreTheGrid(Target(square, sign, offset));
    if IsValidSquare(Target(square, sign, offset)) { ValidSquareBounds(Target(square, sign, offset)); }
  }

  /** The sign a pawn of colour `c` moves with: White towards row 1, Black
      towards row 8. */
  function Forward(c: Color): (f: int)
    ensures f == 1 || f == -1
    ensures c == White <==> f == -1
  {
    if c == White then -1 else 1
  }

  /** Pawns: a walk against the pawn's direction stops at once; a push needs
      an empty square, the double push also an unmoved pawn; a diagonal needs
      an enemy piece or the en-passant square. */
  lemma PawnDecision(b: seq<Cell>, p: Piece, square: int, ep: int, sign: int, offset: int)
    requires |b| == 120 && p.kind == Pawn && offset in {11, 12, 13, 24}
    ensures var step, t := Outcome(b, p, square, ep, sign, offset), Target(square, sign, offset);
      && (sign != Forward(p.color) ==> step == Break)
      && (sign == Forward(p.color) && offset == 12 ==>
            (step.Continues() <==> Vacant(b, t)) && (step.Records() <==> Vacant(b, t)))
      && (sign == Forward(p.color) && offset == 24 ==>
            (step.Records() <==> Vacant(b, t) && !p.hasMoved))
      && (sign == Forward(p.color) && offset in {11, 13} ==>
            (step.Records() <==> Open(b, t, p) && (b[t].Some? || t == ep)))
  {
    ValidSquaresAreTheGrid(Target(square, sign, offset));
    if IsValidSquare(Target(square, sign, offset)) { ValidSquareBounds(Target(square, sign, offset)); }
  }

  /** Within the board, `Target` is the plain sum wherever the decisions above
      look at it. */
  lemma TargetIsSum(b: seq<Cell>, p: Piece, square: int, sign: int, offset: int)
    requires |b| == 120 && 0 <= square < 120 && (sign == 1 || sign == -1) && 1 <= offset <= 91
    ensures var t, raw := Target(square, sign, offset), square + Signed(sign, offset);
      && (Vacant(b, t) <==> Vacant(b, raw)) && (Open(b, t, p) <==> Open(b, raw, p))
      && (Open(b, t, p) ==> t == raw)
  {
    TargetNoOverflow(square, sign, offset);
    ValidSquaresAreTheGrid(Target(square, sign, offset));
    ValidSquaresAreTheGrid(square + Signed(sign, offset));
  }

  /** Outside the pawn's double push, a walk continues only over empty squares. */
  lemma ContinuesOnlyPastEmpty(b: seq<Cell>, p: Piece, square: int, ep: int, sign: int, offset: int)
    requires |b| == 120 && p.kind != Knight && !(p.kind == Pawn && offset == 24)
    requires Outcome(b, p, square, ep, sign, offset).Continues()
    ensures Vacant(b, Target(square, sign, offset))
  {
    ValidSquaresAreTheGrid(Target(square, sign, offset));
    ValidSquareBounds(Target(square, sign, offset));
  }

  // ---------------------------------------------------------------------------
  // Walks on the board.

  /** The first `m` tries of a walk land on empty playable squares. */
  predicate Clear(b: seq<Cell>, square: int, sign: int, vector: seq<int>, m: int)
    requires |b| == 120 && 0 <= m <= |vector|
  {
    forall j :: 0 <= j < m ==> Vacant(b, square + Signed(sign, vector[j]))
  }

  /** One try of a king, queen, rook or bishop, stated on the unwrapped sum. */
  lemma StepperTry(b: seq<Cell>, p: Piece, square: int, ep: int, sign: int, offset: int)
    requires |b| == 120 && 0 <= square < 120 && p.kind != Knight && p.kind != Pawn
    requires (sign == 1 || sign == -1) && 1 <= offset <= 91
    ensures var step, raw := Outcome(b, p, square, ep, sign, offset), square + Signed(sign, offset);
      && (step.Continues() <==> Vacant(b, raw))
      && (step.Records() <==> Open(b, raw, p))
      && (Open(b, raw, p) ==> Target(square, sign, offset) == raw)
  {
    StepperDecision(b, p, square, ep, sign, offset);
    TargetIsSum(b, p, square, sign, offset);
  }

  /** One try of a knight, stated on the unwrapped sum. */
  lemma KnightTry(b: seq<Cell>, p: Piece, square: int, ep: int, sign: int, offset: int)
    requires |b| == 120 && 0 <= square < 120 && p.kind == Knight
    requires (sign == 1 || sign == -1) && 1 <= offset <= 91
    ensures var step, raw := Outcome(b, p, square, ep, sign, offset), square + Signed(sign, offset);
      && step.Continues()
      && (step.Records() <==> Open(b, raw, p))
      && (Open(b, raw, p) ==> Target(square, sign, offset) == raw)
  {
    KnightDecision(b, p, square, ep, sign, offset);
    TargetIsSum(b, p, square, sign, offset);
  }

  /** Which tries of a walk land on an empty playable square. */
  function VacantFlags(b: seq<Cell>, square: int, sign: int, vector: seq<int>): (f: seq<bool>)
    requires |b| == 120
    ensures |f| == |vector|
    ensures forall i :: 0 <= i < |vector| ==> f[i] == Vacant(b, square + Signed(sign, vector[i]))
  {
    seq(|vector|, i requires 0 <= i < |vector| => Vacant(b, square + Signed(sign, vector[i])))
  }

  /** Which tries of a walk land on a square the piece may move to. */
  function OpenFlags(b: seq<Cell>, p: Piece, square: int, sign: int, vector: seq<int>): (f: seq<bool>)
    requires |b| == 120
    ensures |f| == |vector|
    ensures forall i :: 0 <= i < |vector| ==> f[i] == Open(b, square + Signed(sign, vector[i]), p)
  {
    seq(|vector|, i requires 0 <= i < |vector| => Open(b, square + Signed(sign, vector[i]), p))
  }

  lemma ClearIsAllBefore(b: seq<Cell>, square: int, sign: int, vector: seq<int>, m: int)
    requires |b| == 120 && 0 <= m <= |vector|
    ensures Clear(b, square, sign, vector, m) <==> AllBefore(VacantFlags(b, square, sign, vector), m)
  {
  }

  /** The unwrapped sums a walk tries. */
  function Sums(square: int, sign: int, vector: seq<int>): (r: seq<int>)
    ensures |r| == |vector|
    ensures forall i :: 0 <= i < |vector| ==> r[i] == square + Signed(sign, vector[i])
  {
    seq(|vector|, i requires 0 <= i < |vector| => square + Signed(sign, vector[i]))
  }

  /** Every try of a king, queen, rook or bishop walk goes on exactly over an
      empty square and records exactly an open one, at the unwrapped sum. */
  lemma StepperTries(b: seq<Cell>, p: Piece, square: int, ep: int, sign: int, vector: seq<int>)
    requires |b| == 120 && 0 <= square < 120 && p.kind != Knight && p.kind != Pawn && (sign == 1 || sign == -1)
    requires forall i :: 0 <= i < |vector| ==> 1 <= vector[i] <= 91
    ensures var steps, targets := Steps(b, p, square, ep, sign, vector), Targets(square, sign, vector);
      var vacant, open, raws := VacantFlags(b, square, sign, vector), OpenFlags(b, p, square, sign, vector), Sums(square, sign, vector);
      forall i :: 0 <= i < |vector| ==>
        && (steps[i].Continues() <==> vacant[i]) && (steps[i].Records() <==> open[i])
        && (open[i] ==> targets[i] == raws[i])
  {
    forall i | 0 <= i < |vector| {
      StepperTry(b, p, square, ep, sign, vector[i]);
    }
  }

  /** Every try of a knight walk goes on, and records exactly an open square,
      at the unwrapped sum. */
  lemma KnightTries(b: seq<Cell>, p: Piece, square: int, ep: int, sign: int, vector: seq<int>)
    requires |b| == 120 && 0 <= square < 120 && p.kind == Knight && (sign == 1 || sign == -1)
    requires forall i :: 0 <= i < |vector| ==> 1 <= vector[i] <= 91
    ensures var steps, targets := Steps(b, p, square, ep, sign, vector), Targets(square, sign, vector);
      var open, raws := OpenFlags(b, p, square, sign, vector), Sums(square, sign, vector);
      forall i :: 0 <= i < |vector| ==>
        && steps[i].Continues() && (steps[i].Records() <==> open[i])
        && (open[i] ==> targets[i] == raws[i])
  {
    forall i | 0 <= i < |vector| {
      KnightTry(b, p, square, ep, sign, vector[i]);
    }
  }

  /** A king, queen, rook or bishop walk, in terms of the flags of its tries. */
  lemma StepperWalk(b: seq<Cell>, p: Piece, square: int, ep: int, sign: int, vector: seq<int>, t: int)
    requires |b| == 120 && 0 <= square < 120 && p.kind != Knight && p.kind != Pawn && (sign == 1 || sign == -1)
    requires forall i :: 0 <= i < |vector| ==> 1 <= vector[i] <= 91
    ensures var vacant, open, raws := VacantFlags(b, square, sign, vector), OpenFlags(b, p, square, sign, vector), Sums(square, sign, vector);
      t in Ray(b, p, square, ep, sign, vector) <==>
      exists m :: 0 <= m < |vector| && AllBefore(vacant, m) && open[m] && t == raws[m]
  {
    StepperTries(b, p, square, ep, sign, vector);
    BlockedWalk(Steps(b, p, square, ep, sign, vector), Targets(square, sign, vector), Sums(square, sign, vector),
                VacantFlags(b, square, sign, vector), OpenFlags(b, p, square, sign, vector), |vector|, t);
  }

  /** A knight walk, in terms of the flags of its tries. */
  lemma KnightWalk(b: seq<Cell>, p: Piece, square: int, ep: int, sign: int, vector: seq<int>, t: int)
    requires |b| == 120 && 0 <= square < 120 && p.kind == Knight && (sign == 1 || sign == -1)
    requires forall i :: 0 <= i < |vector| ==> 1 <= vector[i] <= 91
    ensures var open, raws := OpenFlags(b, p, square, sign, vector), Sums(square, sign, vector);
      t in Ray(b, p, square, ep, sign, vector) <==> exists m :: 0 <= m < |vector| && open[m] && t == raws[m]
  {
    KnightTries(b, p, square, ep, sign, vector);
    FreeWalk(Steps(b, p, square, ep, sign, vector), Targets(square, sign, vector), Sums(square, sign, vector),
             OpenFlags(b, p, square, sign, vector), |vector|, t);
  }

  /** King, queen, rook and bishop: a walk records the open squares up to and
      including the first one that is not empty, and nothing beyond it. */
  lemma StepperRay(b: seq<Cell>, p: Piece, square: int, ep: int, sign: int, vector: seq<int>, t: int)
    requires |b| == 120 && 0 <= square < 120 && p.kind != Knight && p.kind != Pawn && (sign == 1 || sign == -1)
    requires forall i :: 0 <= i < |vector| ==> 1 <= vector[i] <= 91
    ensures t in Ray(b, p, square, ep, sign, vector) <==>
      exists m :: 0 <= m < |vector| && Clear(b, square, sign, vector, m)
                  && t == square + Signed(sign, vector[m]) && Open(b, t, p)
  {
    var vacant, open, raws := VacantFlags(b, square, sign, vector), OpenFlags(b, p, square, sign, vector), Sums(square, sign, vector);
    StepperWalk(b, p, square, ep, sign, vector, t);
    if t in Ray(b, p, square, ep, sign, vector) {
      var m :| 0 <= m < |vector| && AllBefore(vacant, m) && open[m] && t == raws[m];
      ClearIsAllBefore(b, square, sign, vector, m);
      assert t == square + Signed(sign, vector[m]) && Open(b, t, p);
    } else {
      forall m | 0 <= m < |vector|
        ensures !(Clear(b, square, sign, vector, m) && t == square + Signed(sign, vector[m]) && Open(b, t, p))
      {
        ClearIsAllBefore(b, square, sign, vector, m);
        assert open[m] == Open(b, raws[m], p);
      }
    }
  }

  /** Knight: every offset is tried, and each open target is recorded. */
  lemma KnightRay(b: seq<Cell>, p: Piece, square: int, ep: int, sign: int, vector: seq<int>, t: int)
    requires |b| == 120 && 0 <= square < 120 && p.kind == Knight && (sign == 1 || sign == -1)
    requires forall i :: 0 <= i < |vector| ==> 1 <= vector[i] <= 91
    ensures t in Ray(b, p, square, ep, sign, vector) <==>
      exists m :: 0 <= m < |vector| && t == square + Signed(sign, vector[m]) && Open(b, t, p)
  {
    var open, raws := OpenFlags(b, p, square, sign, vector), Sums(square, sign, vector);
    KnightWalk(b, p, square, ep, sign, vector, t);
    if t in Ray(b, p, square, ep, sign, vector) {
      var m :| 0 <= m < |vector| && open[m] && t == raws[m];
      assert t == square + Signed(sign, vector[m]) && Open(b, t, p);
    } else {
      forall m | 0 <= m < |vector| ensures !(t == square + Signed(sign, vector[m]) && Open(b, t, p)) {
        assert open[m] == Open(b, raws[m], p);
      }
    }
  }

  /** Every generated target is a playable square without a piece of the
      mover's colour. */
  lemma PseudoMovesAllowed(b: seq<Cell>, square: int, ep: int, t: int)
    requires |b| == 120 && 0 <= square < 120
    requires t in PseudoMoves(b, square, ep)
    ensures b[square].Some? && Open(b, t, b[square].value)
  {
    var p := b[square].value;
    var vs := MoveVectors(p.kind);
    var vi, sign := WalkOf(b, square, ep, t);
    var steps, targets := Steps(b, p, square, ep, sign, vs[vi]), Targets(square, sign, vs[vi]);
    RecordedMember(steps, targets, |vs[vi]|, t);
    var j :| 0 <= j < |vs[vi]| && Reached(steps, j) && steps[j].Records() && t == targets[j];
    RecordedTarget(b, p, square, ep, sign, vs[vi][j]);
  }

  /** A walk of a piece other than the knight gets to try `k` only over empty
      squares: it ends at the first occupied square. */
  lemma WalkStopsAtBlocker(b: seq<Cell>, p: Piece, square: int, ep: int, sign: int, vi: int, k: int, j: int)
    requires |b| == 120 && p.kind != Knight && 0 <= vi < |MoveVectors(p.kind)|
    requires 0 <= j < k < |MoveVectors(p.kind)[vi]|
    requires Reached(Steps(b, p, square, ep, sign, MoveVectors(p.kind)[vi]), k)
    ensures Vacant(b, Target(square, sign, MoveVectors(p.kind)[vi][j]))
  {
    var vector := MoveVectors(p.kind)[vi];
    var steps := Steps(b, p, square, ep, sign, vector);
    ReachedMeansContinued(steps, k);
    assert steps[j].Continues();
    VectorShapes(p.kind, vi);
    ContinuesOnlyPastEmpty(b, p, square, ep, sign, vector[j]);
  }

  /** The knight tries every offset of every vector, whatever stands on the
      squares it jumps over. */
  lemma KnightTriesEveryOffset(b: seq<Cell>, p: Piece, square: int, ep: int, sign: int, vector: seq<int>, k: int)
    requires |b| == 120 && p.kind == Knight && 0 <= k <= |vector|
    ensures Reached(Steps(b, p, square, ep, sign, vector), k)
  {
    var steps := Steps(b, p, square, ep, sign, vector);
    forall j | 0 <= j < k ensures steps[j].Continues() {
      KnightDecision(b, p, square, ep, sign, vector[j]);
    }
    ReachedMeansContinued(steps, k);
  }

  // ---------------------------------------------------------------------------
  // Geometry of the generated moves.

  function Abs(x: int): int { if x < 0 then -x else x }

  /** `t` is one of the eight squares around `s`. */
  predicate KingStep(s: int, t: int)
  {
    var dr, dc := Row(t) - Row(s), Column(t) - Column(s);
    Abs(dr) <= 1 && Abs(dc) <= 1 && (dr, dc) != (0, 0)
  }

  /** `t` is a knight's jump away from `s`. */
  predicate KnightJump(s: int, t: int)
  {
    var dr, dc := Row(t) - Row(s), Column(t) - Column(s);
    (Abs(dr) == 1 && Abs(dc) == 2) || (Abs(dr) == 2 && Abs(dc) == 1)
  }

  /** From a playable square, adding a single-step offset moves by that
      offset's row and column difference, and nothing else does. */
  lemma OffsetGeometry(s: int, t: int, offset: int, sign: int)
    requires Playable(s)
    requires offset in {1, 11, 12, 13, 10, 14, 23, 25} && (sign == 1 || sign == -1)
    ensures t == s + Signed(sign, offset) <==>
      Row(t) - Row(s) == Signed(sign, Delta(offset).0) && Column(t) - Column(s) == Signed(sign, Delta(offset).1)
  {
    NoWrapAround(s, offset, sign);
    var d := Delta(offset);
    if Row(t) - Row(s) == Signed(sign, d.0) && Column(t) - Column(s) == Signed(sign, d.1) {
      assert t == 12 * Row(t) + Column(t) && s == 12 * Row(s) + Column(s);
    }
  }

  /** A walk of a king has one try. */
  lemma KingRay(b: seq<Cell>, p: Piece, square: int, ep: int, sign: int, vi: int, t: int)
    requires |b| == 120 && 0 <= square < 120 && p.kind == King && (sign == 1 || sign == -1)
    requires 0 <= vi < 4
    ensures var o := MoveVectors(King)[vi][0];
      t in Ray(b, p, square, ep, sign, MoveVectors(King)[vi]) <==> t == square + Signed(sign, o) && Open(b, t, p)
  {
    var v := MoveVectors(King)[vi];
    VectorShapes(King, vi);
    StepperRay(b, p, square, ep, sign, v, t);
    assert Clear(b, square, sign, v, 0);
  }

  /** Every neighbouring square is one try of one king walk. */
  lemma KingDirection(s: int, t: int) returns (sign: int, vi: int)
    requires Playable(s) && KingStep(s, t)
    ensures (sign == 1 || sign == -1) && 0 <= vi < 4
    ensures t == s + Signed(sign, MoveVectors(King)[vi][0])
  {
    var dr, dc := Row(t) - Row(s), Column(t) - Column(s);
    sign := if dr > 0 || (dr == 0 && dc > 0) then 1 else -1;
    var o := 12 * Signed(sign, dr) + Signed(sign, dc);
    vi := if o == 1 then 0 else if o == 12 then 1 else if o == 11 then 2 else 3;
    assert MoveVectors(King)[vi][0] == o;
    OffsetGeometry(s, t, o, sign);
  }

  lemma KingMovesSound(b: seq<Cell>, square: int, ep: int, t: int)
    requires |b| == 120 && 0 <= square < 120 && Playable(square)
    requires b[square].Some? && b[square].value.kind == King
    requires t in PseudoMoves(b, square, ep)
    ensures KingStep(square, t) && Open(b, t, b[square].value)
  {
    var vi, sign := WalkOf(b, square, ep, t);
    KingRay(b, b[square].value, square, ep, sign, vi, t);
    OffsetGeometry(square, t, MoveVectors(King)[vi][0], sign);
  }

  lemma KingMovesComplete(b: seq<Cell>, square: int, ep: int, t: int)
    requires |b| == 120 && 0 <= square < 120 && Playable(square)
    requires b[square].Some? && b[square].value.kind == King
    requires KingStep(square, t) && Open(b, t, b[square].value)
    ensures t in PseudoMoves(b, square, ep)
  {
    var p := b[square].value;
    var sign, vi := KingDirection(square, t);
    KingRay(b, p, square, ep, sign, vi, t);
    PseudoMovesMember(b, square, ep, t);
  }

  /** The king moves to exactly the neighbouring squares it may enter. */
  lemma KingMovesExact(b: seq<Cell>, square: int, ep: int, t: int)
    requires |b| == 120 && 0 <= square < 120 && Playable(square)
    requires b[square].Some? && b[square].value.kind == King
    ensures t in PseudoMoves(b, square, ep) <==> KingStep(square, t) && Open(b, t, b[square].value)
  {
    if t in PseudoMoves(b, square, ep) {
      KingMovesSound(b, square, ep, t);
    }
    if KingStep(square, t) && Open(b, t, b[square].value) {
      KingMovesComplete(b, square, ep, t);
    }
  }

  /** A walk of a knight has one try. */
  lemma KnightSingleRay(b: seq<Cell>, p: Piece, square: int, ep: int, sign: int, vi: int, t: int)
    requires |b| == 120 && 0 <= square < 120 && p.kind == Knight && (sign == 1 || sign == -1)
    requires 0 <= vi < 4
    ensures var o := MoveVectors(Knight)[vi][0];
      t in Ray(b, p, square, ep, sign, MoveVectors(Knight)[vi]) <==> t == square + Signed(sign, o) && Open(b, t, p)
  {
    VectorShapes(Knight, vi);
    KnightRay(b, p, square, ep, sign, MoveVectors(Knight)[vi], t);
  }

  /** Every knight's jump is one try of one knight walk. */
  lemma KnightDirection(s: int, t: int) returns (sign: int, vi: int)
    requires Playable(s) && KnightJump(s, t)
    ensures (sign == 1 || sign == -1) && 0 <= vi < 4
    ensures t == s + Signed(sign, MoveVectors(Knight)[vi][0])
  {
    var dr, dc := Row(t) - Row(s), Column(t) - Column(s);
    sign := if dr > 0 then 1 else -1;
    var o := 12 * Signed(sign, dr) + Signed(sign, dc);
    vi := if o == 10 then 0 else if o == 14 then 1 else if o == 23 then 2 else 3;
    assert MoveVectors(Knight)[vi][0] == o;
    OffsetGeometry(s, t, o, sign);
  }

  lemma KnightMovesSound(b: seq<Cell>, square: int, ep: int, t: int)
    requires |b| == 120 && 0 <= square < 120 && Playable(square)
    requires b[square].Some? && b[square].value.kind == Knight
    requires t in PseudoMoves(b, square, ep)
    ensures KnightJump(square, t) && Open(b, t, b[square].value)
  {
    var vi, sign := WalkOf(b, square, ep, t);
    KnightSingleRay(b, b[square].value, square, ep, sign, vi, t);
    OffsetGeometry(square, t, MoveVectors(Knight)[vi][0], sign);
  }

  lemma KnightMovesComplete(b: seq<Cell>, square: int, ep: int, t: int)
    requires |b| == 120 && 0 <= square < 120 && Playable(square)
    requires b[square].Some? && b[square].value.kind == Knight
    requires KnightJump(square, t) && Open(b, t, b[square].value)
    ensures t in PseudoMoves(b, square, ep)
  {
    var p := b[square].value;
    var sign, vi := KnightDirection(square, t);
    KnightSingleRay(b, p, square, ep, sign, vi, t);
    PseudoMovesMember(b, square, ep, t);
  }

  /** The knight moves to exactly the squares a knight's jump away that it
      may enter, whatever stands in between. */
  lemma KnightMovesExact(b: seq<Cell>, square: int, ep: int, t: int)
    requires |b| == 120 && 0 <= square < 120 && Playable(square)
    requires b[square].Some? && b[square].value.kind == Knight
    ensures t in PseudoMoves(b, square, ep) <==> KnightJump(square, t) && Open(b, t, b[square].value)
  {
    if t in PseudoMoves(b, square, ep) {
      KnightMovesSound(b, square, ep, t);
    }
    if KnightJump(square, t) && Open(b, t, b[square].value) {
      KnightMovesComplete(b, square, ep, t);
    }
  }

  // ---------------------------------------------------------------------------
  // Sliding pieces.

  /** The single-step directions a sliding piece walks along, before the sign. */
  predicate Direction(kind: PieceType, u: int)
  {
    || (kind == Rook && (u == 1 || u == 12))
    || (kind == Bishop && (u == 11 || u == 13))
    || (kind == Queen && (u == 1 || u == 11 || u == 12 || u == 13))
  }

  /** The `n`-th square from `s` along direction `u` with `sign`. */
  function Line(s: int, sign: int, u: int, n: int): int
  {
    s + Signed(sign, n * u)
  }

  /** The squares strictly before the `n`-th on the line are empty and the
      `n`-th may be entered, for a distance of at most seven. */
  predicate Slide(b: seq<Cell>, s: int, p: Piece, sign: int, u: int, n: int)
    requires |b| == 120
  {
    && 1 <= n <= 7
    && (forall j :: 1 <= j < n ==> Vacant(b, Line(s, sign, u, j)))
    && Open(b, Line(s, sign, u, n), p)
  }

  /** Each vector of a sliding piece lists the first seven squares of one of
      its directions; every direction has a vector. */
  lemma SliderVector(kind: PieceType, vi: int)
    requires IsSlider(kind) && 0 <= vi < |MoveVectors(kind)|
    ensures var v := MoveVectors(kind)[vi];
      && Direction(kind, v[0]) && |v| == 7
      && (forall k :: 0 <= k < 7 ==> v[k] == (k + 1) * v[0])
      && (forall k :: 0 <= k < 7 ==> 1 <= v[k] <= 91)
  {
    VectorShapes(kind, vi);
  }

  lemma DirectionVector(kind: PieceType, u: int) returns (vi: int)
    requires Direction(kind, u)
    ensures 0 <= vi < |MoveVectors(kind)| && MoveVectors(kind)[vi][0] == u
  {
    vi := if kind == Queen then (if u == 1 then 0 else if u == 12 then 1 else if u == 11 then 2 else 3)
          else if u == 1 || u == 11 then 0 else 1;
  }

  /** Trying the entries of a vector that lists the first squares of a line
      is walking along that line. */
  lemma ClearAlongLine(b: seq<Cell>, square: int, sign: int, u: int, v: seq<int>, m: int)
    requires |b| == 120 && 0 <= m < |v| && forall k :: 0 <= k < |v| ==> v[k] == (k + 1) * u
    ensures Clear(b, square, sign, v, m) <==> forall j :: 1 <= j <= m ==> Vacant(b, Line(square, sign, u, j))
    ensures square + Signed(sign, v[m]) == Line(square, sign, u, m + 1)
  {
    forall j | 1 <= j <= m ensures Line(square, sign, u, j) == square + Signed(sign, v[j - 1]) {
      assert v[j - 1] == j * u;
    }
    if forall j :: 1 <= j <= m ==> Vacant(b, Line(square, sign, u, j)) {
      forall k | 0 <= k < m ensures Vacant(b, square + Signed(sign, v[k])) {
        assert Vacant(b, Line(square, sign, u, k + 1));
      }
    }
  }

  /** A walk of a sliding piece, read along its line. */
  lemma SliderRayLine(b: seq<Cell>, p: Piece, square: int, ep: int, sign: int, v: seq<int>, t: int)
    requires |b| == 120 && 0 <= square < 120 && IsSlider(p.kind) && (sign == 1 || sign == -1)
    requires |v| == 7 && forall k :: 0 <= k < 7 ==> v[k] == (k + 1) * v[0] && 1 <= v[k] <= 91
    ensures t in Ray(b, p, square, ep, sign, v) <==>
      exists n :: Slide(b, square, p, sign, v[0], n) && t == Line(square, sign, v[0], n)
  {
    var u := v[0];
    StepperRay(b, p, square, ep, sign, v, t);
    if t in Ray(b, p, square, ep, sign, v) {
      var m :| 0 <= m < |v| && Clear(b, square, sign, v, m) && t == square + Signed(sign, v[m]) && Open(b, t, p);
      ClearAlongLine(b, square, sign, u, v, m);
      assert Slide(b, square, p, sign, u, m + 1);
    } else {
      forall n | 1 <= n <= 7 ensures !(Slide(b, square, p, sign, u, n) && t == Line(square, sign, u, n)) {
        ClearAlongLine(b, square, sign, u, v, n - 1);
      }
    }
  }

  /** A queen, rook or bishop moves exactly to the squares it may enter along
      one of its directions, up to and including the first occupied square. */
  lemma SliderMovesExact(b: seq<Cell>, square: int, ep: int, t: int)
    requires |b| == 120 && 0 <= square < 120
    requires b[square].Some? && IsSlider(b[square].value.kind)
    ensures var p := b[square].value;
      t in PseudoMoves(b, square, ep) <==>
      exists u, sign, n :: Direction(p.kind, u) && (sign == 1 || sign == -1)
                           && Slide(b, square, p, sign, u, n) && t == Line(square, sign, u, n)
  {
    var p := b[square].value;
    if t in PseudoMoves(b, square, ep) {
      var vi, sign := WalkOf(b, square, ep, t);
      SliderVector(p.kind, vi);
      SliderRayLine(b, p, square, ep, sign, MoveVectors(p.kind)[vi], t);
    }
    if u, sign, n :| Direction(p.kind, u) && (sign == 1 || sign == -1)
                     && Slide(b, square, p, sign, u, n) && t == Line(square, sign, u, n) {
      var vi := DirectionVector(p.kind, u);
      SliderVector(p.kind, vi);
      SliderRayLine(b, p, square, ep, sign, MoveVectors(p.kind)[vi], t);
      PseudoMovesMember(b, square, ep, t);
    }
  }

  lemma LineStep(s: int, sign: int, u: int, n: int)
    ensures Line(s, sign, u, n) == Line(s, sign, u, n - 1) + Signed(sign, u)
  {
    assert n * u == (n - 1) * u + u;
  }

  /** Along a line whose earlier squares are playable, the `n`-th square is
      `n` rows and/or `n` columns away, as the direction says: a slide never
      wraps around the edge of the board. */
  lemma {:induction false} LineGeometry(s: int, sign: int, u: int, n: int)
    requires Playable(s) && u in {1, 11, 12, 13} && (sign == 1 || sign == -1) && n >= 1
    requires forall j :: 1 <= j < n ==> Playable(Line(s, sign, u, j))
    ensures Row(Line(s, sign, u, n)) - Row(s) == Signed(sign, if u == 1 then 0 else n)
    ensures Column(Line(s, sign, u, n)) - Column(s) == Signed(sign, if u == 12 then 0 else if u == 11 then -n else n)
  {
    LineStep(s, sign, u, n);
    if n == 1 {
      LineStep(s, sign, u, 0);
      NoWrapAround(s, u, sign);
    } else {
      LineGeometry(s, sign, u, n - 1);
      var q := Line(s, sign, u, n - 1);
      assert Playable(q);
      NoWrapAround(q, u, sign);
    }
  }

  /** The `n`-th square of a line lies on a row or column for the straight
      directions and on a diagonal for the others. */
  lemma LineShape(s: int, sign: int, u: int, n: int)
    requires Playable(s) && u in {1, 11, 12, 13} && (sign == 1 || sign == -1) && n >= 1
    requires forall j :: 1 <= j < n ==> Playable(Line(s, sign, u, j))
    ensures var dr, dc := Row(Line(s, sign, u, n)) - Row(s), Column(Line(s, sign, u, n)) - Column(s);
      && (dr, dc) != (0, 0)
      && (u == 1 || u == 12 ==> dr == 0 || dc == 0)
      && (u == 11 || u == 13 ==> Abs(dr) == Abs(dc))
  {
    LineGeometry(s, sign, u, n);
  }

  /** A rook moves along a row or a column, a bishop along a diagonal, a queen
      along either, and none of them stays put. */
  lemma SliderMovesOnLines(b: seq<Cell>, square: int, ep: int, t: int)
    requires |b| == 120 && 0 <= square < 120 && Playable(square)
    requires b[square].Some? && IsSlider(b[square].value.kind)
    requires t in PseudoMoves(b, square, ep)
    ensures var kind, dr, dc := b[square].value.kind, Row(t) - Row(square), Column(t) - Column(square);
      && (dr, dc) != (0, 0)
      && (kind == Rook ==> dr == 0 || dc == 0)
      && (kind == Bishop ==> Abs(dr) == Abs(dc))
      && (kind == Queen ==> dr == 0 || dc == 0 || Abs(dr) == Abs(dc))
  {
    var p := b[square].value;
    var vi, sign := WalkOf(b, square, ep, t);
    var u := MoveVectors(p.kind)[vi][0];
    SliderVector(p.kind, vi);
    SliderRayLine(b, p, square, ep, sign, MoveVectors(p.kind)[vi], t);
    var n :| Slide(b, square, p, sign, u, n) && t == Line(square, sign, u, n);
    LineShape(square, sign, u, n);
  }

  // ---------------------------------------------------------------------------
  // Pawns.

  /** The squares a pawn of `p`'s colour on `square` may go to, stated
      directly: one square forward onto an empty square, two from an unmoved
      pawn over two empty squares, and one diagonally forward onto an enemy
      piece or the en-passant square. */
  function PawnMoves(b: seq<Cell>, p: Piece, square: int, ep: int): set<int>
    requires |b| == 120
  {
    PawnPushes(b, p, square) + PawnCapture(b, p, square, ep, 11) + PawnCapture(b, p, square, ep, 13)
  }

  function PawnPushes(b: seq<Cell>, p: Piece, square: int): set<int>
    requires |b| == 120
  {
    var one, two := square + Signed(Forward(p.color), 12), square + Signed(Forward(p.color), 24);
    (if Vacant(b, one) then {one} else {})
    + (if Vacant(b, one) && Vacant(b, two) && !p.hasMoved then {two} else {})
  }

  function PawnCapture(b: seq<Cell>, p: Piece, square: int, ep: int, o: int): set<int>
    requires |b| == 120
  {
    var t := square + Signed(Forward(p.color), o);
    if Open(b, t, p) && (b[t].Some? || t == ep) then {t} else {}
  }

  /** The push walk of a pawn. */
  lemma PawnPushRay(b: seq<Cell>, p: Piece, square: int, ep: int, sign: int)
    requires |b| == 120 && 0 <= square < 120 && p.kind == Pawn && (sign == 1 || sign == -1)
    ensures var one, two := square + Signed(sign, 12), square + Signed(sign, 24);
      Ray(b, p, square, ep, sign, [12, 24]) ==
        if sign != Forward(p.color) then {}
        else (if Vacant(b, one) then {one} else {})
             + (if Vacant(b, one) && Vacant(b, two) && !p.hasMoved then {two} else {})
  {
    var v := [12, 24];
    var steps, targets := Steps(b, p, square, ep, sign, v), Targets(square, sign, v);
    assert steps[0] == Outcome(b, p, square, ep, sign, 12) && steps[1] == Outcome(b, p, square, ep, sign, 24);
    assert targets[0] == Target(square, sign, 12) && targets[1] == Target(square, sign, 24);
    PawnDecision(b, p, square, ep, sign, 12);
    PawnDecision(b, p, square, ep, sign, 24);
    TargetIsSum(b, p, square, sign, 12);
    TargetIsSum(b, p, square, sign, 24);
    assert Recorded(steps, targets, 1) == if steps[0].Records() then {targets[0]} else {};
  }

  /** A diagonal walk of a pawn. */
  lemma PawnDiagonalRay(b: seq<Cell>, p: Piece, square: int, ep: int, sign: int, o: int)
    requires |b| == 120 && 0 <= square < 120 && p.kind == Pawn && (sign == 1 || sign == -1)
    requires o == 11 || o == 13
    ensures var t := square + Signed(sign, o);
      Ray(b, p, square, ep, sign, [o]) ==
        if sign == Forward(p.color) && Open(b, t, p) && (b[t].Some? || t == ep) then {t} else {}
  {
    var steps, targets := Steps(b, p, square, ep, sign, [o]), Targets(square, sign, [o]);
    assert steps[0] == Outcome(b, p, square, ep, sign, o) && targets[0] == Target(square, sign, o);
    PawnDecision(b, p, square, ep, sign, o);
    TargetIsSum(b, p, square, sign, o);
    assert Recorded(steps, targets, 1) == if steps[0].Records() then {targets[0]} else {};
  }

  lemma PawnPushMoves(b: seq<Cell>, p: Piece, square: int, ep: int)
    requires |b| == 120 && 0 <= square < 120 && p.kind == Pawn
    ensures VectorMoves(b, p, square, ep, [12, 24]) == PawnPushes(b, p, square)
  {
    PawnPushRay(b, p, square, ep, 1);
    PawnPushRay(b, p, square, ep, -1);
  }

  lemma PawnDiagonalMoves(b: seq<Cell>, p: Piece, square: int, ep: int, o: int)
    requires |b| == 120 && 0 <= square < 120 && p.kind == Pawn && (o == 11 || o == 13)
    ensures VectorMoves(b, p, square, ep, [o]) == PawnCapture(b, p, square, ep, o)
  {
    PawnDiagonalRay(b, p, square, ep, 1, o);
    PawnDiagonalRay(b, p, square, ep, -1, o);
  }

  /** The generator's pawn moves are exactly the ones stated directly. */
  lemma PawnMovesExact(b: seq<Cell>, square: int, ep: int)
    requires |b| == 120 && 0 <= square < 120
    requires b[square].Some? && b[square].value.kind == Pawn
    ensures PseudoMoves(b, square, ep) == PawnMoves(b, b[square].value, square, ep)
  {
    var p := b[square].value;
    var vs := MoveVectors(Pawn);
    assert vs == [[12, 24], [11], [13]];
    var sets := AllVectorMoves(b, p, square, ep, vs);
    PawnPushMoves(b, p, square, ep);
    PawnDiagonalMoves(b, p, square, ep, 11);
    PawnDiagonalMoves(b, p, square, ep, 13);
    assert sets[0] == VectorMoves(b, p, square, ep, [12, 24]);
    assert sets[1] == VectorMoves(b, p, square, ep, [11]);
    assert sets[2] == VectorMoves(b, p, square, ep, [13]);
    UnionOfThree(sets);
    assert PseudoMoves(b, square, ep) == Union(sets, 3);
  }

  /** White pawns move towards lower squares (row 1), black pawns towards
      higher ones (row 8), by one or two rows. */
  lemma PawnMovesForward(b: seq<Cell>, square: int, ep: int, t: int)
    requires |b| == 120 && 0 <= square < 120
    requires b[square].Some? && b[square].value.kind == Pawn
    requires t in PseudoMoves(b, square, ep)
    ensures b[square].value.color == White ==> square - 24 <= t < square
    ensures b[square].value.color == Black ==> square < t <= square + 24
  {
    PawnMovesExact(b, square, ep);
  }
}
