/** The undo log: what one recorded change restores, and what replaying the
    changes of one history entry does to a board value.

    An action is replayed as the source does it: a promotion action first puts
    the recorded pawn back on `to`; an en-passant action only puts the
    captured pawn back on `from`; every other action (and a promotion after its
    first write) moves the piece on `to` back to `from`, puts the recorded
    capture on `to` and resets the piece's moved flag. */
module History {
  import opened Enums

  datatype Action = Action(
    from: Int8,
    to: Int8,
    hasMoved: bool,
    capture: Cell,
    promotionPawn: Cell,
    enPassantPawn: Cell)

  /** A recorded move. `whiteScore` and `blackScore` are floats in the source;
      here they are integers that are only copied back. */
  datatype HistoryEntry = HistoryEntry(
    actions: seq<Action>,
    enPassantSquare: Int8,
    whiteKingSquare: Int8,
    blackKingSquare: Int8,
    blackScore: int,
    whiteScore: int)

  /** The action only indexes the board at squares of it, and the piece whose
      flag it resets exists (otherwise the source dereferences nil). An
      en-passant action reads only `from`. Any other action resets the flag of
      what ends up on `from`: the recorded capture when `from == to`, and
      otherwise the recorded pawn or the piece found on `to`. */
  predicate ActionDefined(b: seq<Cell>, a: Action)
    requires |b| == 120
  {
    && 0 <= a.from < 120
    && (a.promotionPawn.Some? || a.enPassantPawn.None? ==>
          && 0 <= a.to < 120
          && if a.from == a.to then a.capture.Some? else (a.promotionPawn.Some? || b[a.to].Some?))
  }

  /** The board after replaying one action. */
  function UndoAction(b: seq<Cell>, a: Action): (r: seq<Cell>)
    requires |b| == 120 && ActionDefined(b, a)
    ensures |r| == 120
  {
    var b1 := if a.promotionPawn.Some? then b[a.to := a.promotionPawn] else b;
    if a.promotionPawn.None? && a.enPassantPawn.Some? then
      b[a.from := a.enPassantPawn]
    else
      var b2 := b1[a.from := b1[a.to]];
      var b3 := b2[a.to := a.capture];
      b3[a.from := Some(b3[a.from].value.(hasMoved := a.hasMoved))]
  }

  /** What one action writes: an en-passant action only `from`, any other
      action `to` (the recorded capture) and `from` (the piece found on `to`,
      or the recorded pawn, with the recorded flag); nothing else changes. */
  lemma UndoActionCells(b: seq<Cell>, a: Action)
    requires |b| == 120 && ActionDefined(b, a)
    ensures var r := UndoAction(b, a);
      && (forall i :: 0 <= i < 120 && i != a.from as int && i != a.to as int ==> r[i] == b[i])
      && (a.promotionPawn.None? && a.enPassantPawn.Some? ==>
            r[a.from] == a.enPassantPawn && (0 <= a.to < 120 && a.from != a.to ==> r[a.to] == b[a.to]))
      && (a.promotionPawn.Some? || a.enPassantPawn.None? ==>
            if a.from != a.to then
              var moved := if a.promotionPawn.Some? then a.promotionPawn.value else b[a.to].value;
              r[a.to] == a.capture && r[a.from] == Some(moved.(hasMoved := a.hasMoved))
            else
              r[a.from] == Some(a.capture.value.(hasMoved := a.hasMoved)))
  {
  }

  /** Replaying `actions` in recorded order is defined at every step. */
  predicate ReplayDefined(b: seq<Cell>, actions: seq<Action>)
    requires |b| == 120
    decreases |actions|, 0
  {
    |actions| == 0 ||
    (ReplayDefined(b, actions[..|actions| - 1]) &&
     ActionDefined(Replay(b, actions[..|actions| - 1]), actions[|actions| - 1]))
  }

  /** The board after replaying `actions` in recorded order. */
  function Replay(b: seq<Cell>, actions: seq<Action>): (r: seq<Cell>)
    requires |b| == 120 && ReplayDefined(b, actions)
    ensures |r| == 120
    decreases |actions|, 1
  {
    if |actions| == 0 then b
    else UndoAction(Replay(b, actions[..|actions| - 1]), actions[|actions| - 1])
  }

  /** Replaying a longer log is replaying its prefix, then its last action. */
  lemma {:induction false} ReplayDefinedPrefix(b: seq<Cell>, actions: seq<Action>, n: int)
    requires |b| == 120 && ReplayDefined(b, actions) && 0 <= n <= |actions|
    ensures ReplayDefined(b, actions[..n])
    decreases |actions|
  {
    if n < |actions| {
      var prefix := actions[..|actions| - 1];
      assert prefix[..n] == actions[..n];
      ReplayDefinedPrefix(b, prefix, n);
    } else {
      assert actions[..n] == actions;
    }
  }

  lemma ReplaySnoc(b: seq<Cell>, actions: seq<Action>, a: Action)
    requires |b| == 120 && ReplayDefined(b, actions) && ActionDefined(Replay(b, actions), a)
    ensures ReplayDefined(b, actions + [a])
    ensures Replay(b, actions + [a]) == UndoAction(Replay(b, actions), a)
  {
    assert (actions + [a])[..|actions|] == actions;
  }

  lemma ReplayTwo(b: seq<Cell>, a1: Action, a2: Action)
    requires |b| == 120 && ActionDefined(b, a1) && ActionDefined(UndoAction(b, a1), a2)
    ensures ReplayDefined(b, [a1, a2]) && Replay(b, [a1, a2]) == UndoAction(UndoAction(b, a1), a2)
  {
    var s1, s2 := [a1], [a1, a2];
    assert s1[..0] == [];
    assert ReplayDefined(b, s1) && Replay(b, s1) == UndoAction(b, a1);
    assert s2[..1] == s1;
  }

  /** `after` is `before` with the piece on `from` moved to `to`, whatever its
      moved flag became; `from` may have been left with anything. */
  predicate Relocated(before: seq<Cell>, after: seq<Cell>, from: int, to: int)
    requires |before| == 120 && |after| == 120 && 0 <= from < 120 && 0 <= to < 120
  {
    && before[from].Some? && after[to].Some?
    && after[to].value == before[from].value.(hasMoved := after[to].value.hasMoved)
    && forall i :: 0 <= i < 120 && i != from && i != to ==> after[i] == before[i]
  }

  /** The action that records a relocation: the mover's former flag and the
      former occupant of the target square. */
  function RelocationRecord(before: seq<Cell>, from: Int8, to: Int8): (a: Action)
    requires |before| == 120 && 0 <= from < 120 && 0 <= to < 120 && before[from].Some?
    ensures a.from == from && a.to == to && a.promotionPawn.None? && a.enPassantPawn.None?
  {
    Action(from, to, before[from].value.hasMoved, before[to], None, None)
  }

  /** Round trip: replaying the record of a relocation restores both cells and
      the flag, and leaves everything else as it is. */
  lemma UndoRelocation(before: seq<Cell>, after: seq<Cell>, from: Int8, to: Int8)
    requires |before| == 120 && |after| == 120 && 0 <= from < 120 && 0 <= to < 120 && from != to
    requires Relocated(before, after, from as int, to as int)
    ensures ActionDefined(after, RelocationRecord(before, from, to))
    ensures UndoAction(after, RelocationRecord(before, from, to)) == before
  {
    var r := UndoAction(after, RelocationRecord(before, from, to));
    assert forall i :: 0 <= i < 120 ==> r[i] == before[i];
  }

  /** Promotion round trip: the promoted piece on `to` is dropped and the
      recorded pawn goes back to `from` with its former flag. */
  lemma UndoPromotion(before: seq<Cell>, after: seq<Cell>, from: Int8, to: Int8)
    requires |before| == 120 && |after| == 120 && 0 <= from < 120 && 0 <= to < 120 && from != to
    requires before[from].Some? && after[to].Some?
    requires forall i :: 0 <= i < 120 && i != from as int && i != to as int ==> after[i] == before[i]
    ensures var pawn := before[from].value;
      var a := Action(from, to, pawn.hasMoved, before[to], Some(pawn), None);
      ActionDefined(after, a) && UndoAction(after, a) == before
  {
    var pawn := before[from].value;
    var r := UndoAction(after, Action(from, to, pawn.hasMoved, before[to], Some(pawn), None));
    assert forall i :: 0 <= i < 120 ==> r[i] == before[i];
  }

  /** Removal round trip: a piece taken off `square`, and the record with
      `from == to` that holds it as the capture, restore the board. This is
      how a captured pawn can be restored without an en-passant pawn. */
  lemma UndoRemoval(before: seq<Cell>, square: Int8)
    requires |before| == 120 && 0 <= square < 120 && before[square].Some?
    ensures var a := Action(square, square, before[square].value.hasMoved, before[square], None, None);
      var after := before[square := None];
      ActionDefined(after, a) && !ActionDefined(after, a.(capture := None))
      && UndoAction(after, a) == before
  {
    var a := Action(square, square, before[square].value.hasMoved, before[square], None, None);
    var r := UndoAction(before[square := None], a);
    assert forall i :: 0 <= i < 120 ==> r[i] == before[i];
  }

  /** En-passant round trip: a move to an empty square, then the record that
      puts the captured pawn back, restore the board. */
  lemma UndoEnPassant(before: seq<Cell>, after: seq<Cell>, from: Int8, to: Int8, captured: Int8)
    requires |before| == 120 && |after| == 120
    requires 0 <= from < 120 && 0 <= to < 120 && 0 <= captured < 120
    requires from != to && captured != from && captured != to
    requires before[to].None? && before[captured].Some? && after[captured].None?
    requires Relocated(before, after[captured := before[captured]], from as int, to as int)
    ensures var move := RelocationRecord(before, from, to);
      var pawn := Action(captured, captured, false, None, None, before[captured]);
      ReplayDefined(after, [move, pawn]) && Replay(after, [move, pawn]) == before
  {
    var move := RelocationRecord(before, from, to);
    var pawn := Action(captured, captured, false, None, None, before[captured]);
    var mid := UndoAction(after, move);
    assert forall i :: 0 <= i < 120 && i != captured as int ==> mid[i] == before[i];
    ReplayTwo(after, move, pawn);
    var r := UndoAction(mid, pawn);
    assert forall i :: 0 <= i < 120 ==> r[i] == before[i];
  }

  /** Two actions on disjoint squares can be replayed in either order. */
  lemma DisjointActionsCommute(b: seq<Cell>, a1: Action, a2: Action)
    requires |b| == 120 && ActionDefined(b, a1) && ActionDefined(b, a2)
    requires a1.from != a2.from && a1.from != a2.to && a1.to != a2.from && a1.to != a2.to
    ensures ActionDefined(UndoAction(b, a1), a2) && ActionDefined(UndoAction(b, a2), a1)
    ensures UndoAction(UndoAction(b, a1), a2) == UndoAction(UndoAction(b, a2), a1)
  {
    var b1, b2 := UndoAction(b, a1), UndoAction(b, a2);
    UndoActionCells(b, a1);
    UndoActionCells(b, a2);
    assert ActionDefined(b1, a2) && ActionDefined(b2, a1);
    var x, y := UndoAction(b1, a2), UndoAction(b2, a1);
    UndoActionCells(b1, a2);
    UndoActionCells(b2, a1);
    assert forall i :: 0 <= i < 120 ==> x[i] == y[i];
  }

  /** Castling round trip: the records of the king's and the rook's
      relocations, on four distinct squares, restore the board in either
      order. */
  lemma UndoCastle(before: seq<Cell>, after: seq<Cell>, kingFrom: Int8, kingTo: Int8, rookFrom: Int8, rookTo: Int8)
    requires |before| == 120 && |after| == 120
    requires 0 <= kingFrom < 120 && 0 <= kingTo < 120 && 0 <= rookFrom < 120 && 0 <= rookTo < 120
    requires kingFrom != kingTo && kingFrom != rookFrom && kingFrom != rookTo
    requires kingTo != rookFrom && kingTo != rookTo && rookFrom != rookTo
    requires before[kingFrom].Some? && before[rookFrom].Some?
    requires Relocated(before, after[rookTo := before[rookTo]][rookFrom := before[rookFrom]], kingFrom as int, kingTo as int)
    requires Relocated(before, after[kingTo := before[kingTo]][kingFrom := before[kingFrom]], rookFrom as int, rookTo as int)
    ensures var king, rook := RelocationRecord(before, kingFrom, kingTo), RelocationRecord(before, rookFrom, rookTo);
      && ReplayDefined(after, [king, rook]) && Replay(after, [king, rook]) == before
      && ReplayDefined(after, [rook, king]) && Replay(after, [rook, king]) == before
  {
    var king, rook := RelocationRecord(before, kingFrom, kingTo), RelocationRecord(before, rookFrom, rookTo);
    var k1 := UndoAction(after, king);
    UndoActionCells(after, king);
    assert forall i :: 0 <= i < 120 && i != rookFrom as int && i != rookTo as int ==> k1[i] == before[i];
    ReplayTwo(after, king, rook);
    var r := UndoAction(k1, rook);
    UndoActionCells(k1, rook);
    assert forall i :: 0 <= i < 120 ==> r[i] == before[i];
    DisjointActionsCommute(after, king, rook);
    ReplayTwo(after, rook, king);
  }
}
