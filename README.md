# GoChess rules core, modelled in Dafny

This project models the chess-rules core of GoChess and proves properties of the model. The core has five parts:

- **Board.** A 10×12 mailbox board of 120 cells. The 64 playable cells are the indices `12*r + c` with rows 1..8 and columns 2..9.
- **Tables.** The piece-kind, colour and move-kind tags, the constructors of the starting position, and the per-piece offset vectors.
- **Move generator.** The pseudo-legal generator `getMovesPreCheck`. It walks every offset vector of a piece, first with sign +1 and then with sign -1. Each walk stops or skips according to board membership, friendly pieces, the pawn rules and the first blocker.
- **Castling tests.** The four castling-rights tests.
- **Undo.** `Undo` replays the actions of the latest history entry into the board.

The model uses the newer revision's types: colours are the int8 values +1 and -1, and squares are int8. `getMovesPreCheck` is ported onto those types. Its target `square + offset*sign` is computed with int8 wrap-around, and `MoveGen.TargetNoOverflow` shows that wrap-around never produces a playable square that the plain sum would not.

Files and modules:

- `enums.dfy` (`Enums`): the colour, move-kind and piece-kind tags, plus the piece value type.
- `constants.dfy` (`Constants`): the starting board, the offset vectors, the valid and promotion squares, and the row/column geometry.
- `walks.dfy` (`Walks`): one walk of the offset loop, abstracted from the board. Each try ends in one of four steps: `Break`, `Skip` (the source's `continue`), `Record`, or `RecordAndBreak`.
- `movegen.dfy` (`MoveGen`): the specification of the generator.
  - `Outcome` is the decision of one try, taken in the source's order of tests.
  - `PseudoMoves` is the set of targets the generator returns.
  - The lemmas characterise `PseudoMoves` for each piece kind in board terms.
- `castling.dfy` (`Castling`): the castling right as a predicate on a board value.
- `history.dfy` (`History`): `Action`, `HistoryEntry`, and what replaying actions does to a board value.
- `game.dfy` (`Game`): the class `GameState` with the board `array`, the side to move, the en-passant square, the king-square and score maps, and the history. Its members:
  - `GetMovesPreCheck`, proved equal to `PseudoMoves`;
  - the four castling tests, proved equal to `CastleRight`;
  - `Undo`, proved to leave the state that `Replay` and the entry's fields describe.

In `GetMovesPreCheck`, the loop over vectors and signs calls `Walk`, which is the innermost loop over offsets. `Try` is one pass of that loop's body: the source's nested `if`s end in `break`, `continue`, or a recorded target, and `Try` returns the `Step` that says which. In `Undo`, the body of the replay loop is `ReplayAction`. The source's `continue` after an en-passant action becomes an early `return` there.

## Model

| member | source | states |
|---|---|---|
| Enums.Opponent | internal/game/enums.go:3-8 | the other colour, computed by multiplying by -1 as `currColor *= -1` does; it differs from its argument and maps White to Black and Black to White |
| Enums.ColorHasTwoValues | internal/game/enums.go:5-8 | a colour is White (+1) or Black (-1), the two differ, and negating twice gives the colour back |
| Enums.MoveTypeCode | internal/game/enums.go:10-30 | the int8 code of each move kind, as the eleven constants give it: Neutral 0, en passant 1-2, castling 3-6, promotion 7-10; always within 0..10 (`MoveTypeCodeRoundTrip` shows the codes distinct) |
| Enums.MoveTypeFromCode | internal/game/enums.go:10-30 | a tag exists for a code exactly when the code is in 0..10, and its code is the given one |
| Enums.MoveTypeCodeRoundTrip | internal/game/enums.go:12-30 | decoding a tag's code gives the tag back, so the eleven constants are pairwise distinct |
| Enums.MoveTypeGroups | internal/game/enums.go:13-29 | Neutral, en passant (1-2), castling (3-6) and promotion (7-10) partition the tags, and each group is the stated code range |
| Enums.PieceTypeCode | internal/game/enums.go:32-41 | the code of each piece kind: King 0, Queen 1, Rook 2, Bishop 3, Knight 4, Pawn 5; always within 0..5 (`PieceTypeCodeRoundTrip` shows the codes distinct) |
| Enums.PieceTypeFromCode | internal/game/enums.go:32-41 | a piece kind exists for a code exactly when the code is in 0..5, and its code is the given one |
| Enums.PieceTypeCodeRoundTrip | internal/game/enums.go:34-41 | decoding a kind's code gives the kind back, so the six constants are distinct |
| Constants.IsValidSquare | internal/game/constants.go:66-75 | membership in the table of the 64 valid squares, listed as in the source; `ValidSquaresAreTheGrid` and `ValidSquaresCount` give its meaning |
| Constants.IsPromotionSquare | internal/game/constants.go:77-80 | membership in the table of the 16 promotion squares, listed as in the source; `PromotionSquaresAreEndRows` gives its meaning |
| Constants.MoveVectors | internal/game/constants.go:32-64 | the offset vectors of each piece kind, entry by entry as in the source; `VectorShapes` and `SliderVector` state their shape |
| Constants.ValidSquaresAreTheGrid | internal/game/constants.go:66-75 | an index is in the valid-square table exactly when its row is 1..8 and its column is 2..9 |
| Constants.ValidSquaresCount | internal/game/constants.go:66-75 | the valid-square table has exactly 64 members |
| Constants.PromotionSquaresAreEndRows | internal/game/constants.go:77-80 | the promotion squares are exactly the valid squares of rows 1 and 8, so they are a subset of the valid squares |
| Constants.NoWrapAround | internal/game/constants.go:32-75 | a unit step or knight jump from a playable square lands on a playable square exactly when the implied row and column stay on the 8×8 area, and it then lands on that row and column |
| Constants.VectorShapes | internal/game/constants.go:32-64 | each queen, rook or bishop vector is the multiples 1..7 of one unit step; king and knight vectors are single offsets; pawn vectors are [12,24], [11] and [13]; every offset is in 1..91 |
| Constants.StartRow | internal/game/constants.go:4-30 | row r of the starting position, 12 cells, built from the twelve piece constructors (kind, colour, value 5/10000/9/3/3/1, not moved) and the empty cell as the source lays them out |
| Constants.NewBoard | internal/game/constants.go:3-16 | the 120-cell starting board, row after row; `NewBoardShape` and `NewBoardKingsAndRooks` state what stands where |
| Constants.NewBoardShape | internal/game/constants.go:3-29 | in the starting board, a cell is occupied exactly on the valid squares of rows 1, 2, 7 and 8; Black is on rows 1-2; pawns are on rows 2 and 7; the back ranks follow the rook-knight-bishop-queen-king order; no piece has moved |
| Constants.NewBoardKingsAndRooks | internal/game/constants.go:6-13 | the starting board has the kings on 18 and 102 and the rooks on 14, 21, 98 and 105 |
| Walks.ReachedMeansContinued | internal/game/game.go:65-176 | a walk gets to try k exactly when every earlier try continued |
| Walks.RecordedMember | internal/game/game.go:65-176 | a target is recorded exactly when some try the walk reaches records it |
| Walks.WalkStopped | internal/game/game.go:65-176 | after a `break`, no later try is reached and nothing more is recorded |
| Walks.WalkEnds | internal/game/game.go:74-75 | a walk that breaks at try k records what it had recorded before k, plus try k's target if that try records |
| Walks.WalkSkips | internal/game/game.go:71-73 | a `continue` reaches the next try and records nothing |
| Walks.WalkRecords | internal/game/game.go:170-175 | a recorded target without a blocker reaches the next try and adds exactly that target |
| Walks.BlockedWalk | internal/game/game.go:65-176 | a walk that goes on exactly over vacant tries records exactly the open targets up to and including the first try that is not vacant |
| Walks.FreeWalk | internal/game/game.go:65-176 | a walk whose every try continues records exactly the open targets |
| Walks.UnionMember | internal/game/game.go:63-64 | a target is in the union of the first n vector sets exactly when it is in one of them |
| MoveGen.Wrap8 | internal/game/game.go:66 | the int8 result of `square + offset*sign`: within int8 range, congruent to the sum modulo 256, and equal to it when the sum fits |
| MoveGen.Wrap8KeepsSquares | internal/game/game.go:66-69 | for the sums a move can produce, the wrapped value is a valid square exactly when the sum is, and then the two agree |
| MoveGen.TargetNoOverflow | internal/game/game.go:66-69 | from any board index, an int8 target is valid exactly when the unwrapped sum is, and then the two agree |
| MoveGen.Outcome | internal/game/game.go:66-175 | the decision of one try, tested in the source's order: off the board or friendly (skip for a knight, break otherwise), the pawn rules, then record, breaking on an occupied square; `KnightDecision`, `StepperDecision` and `PawnDecision` state what it means per piece |
| MoveGen.Ray | internal/game/game.go:65-176 | the targets one walk of a vector with one sign records, per `Walks.Recorded`; `StepperRay`, `KnightRay`, `SliderRayLine`, `PawnPushRay` and `PawnDiagonalRay` state them in board terms |
| MoveGen.PseudoMoves | internal/game/game.go:43-181 | the union, over the piece's vectors and both signs, of the walks' targets, and nothing for an empty origin; the per-piece `...MovesExact` lemmas state it in board terms |
| MoveGen.PseudoMovesMember | internal/game/game.go:63-66 | a target is generated exactly when one walk, of one vector with sign +1 or -1, records it |
| MoveGen.WalkOf | internal/game/game.go:63-66 | every generated target comes from a walk of one vector with one sign, from an occupied origin |
| MoveGen.RecordedTarget | internal/game/game.go:69-84 | a try that records a target has a valid target not held by the mover's side |
| MoveGen.KnightDecision | internal/game/game.go:69-84 | a knight try never stops the walk, and it records exactly an open target |
| MoveGen.StepperDecision | internal/game/game.go:69-84 | a king, queen, rook or bishop try goes on exactly over a vacant square, records exactly an open one, and stops after recording exactly on an enemy piece |
| MoveGen.Forward | internal/game/game.go:90-94 | the sign a pawn walks with: -1 for White, +1 for Black |
| MoveGen.PawnDecision | internal/game/game.go:87-110 | a pawn walk against its direction stops at once; a push needs a vacant square, the double push also an unmoved pawn; a diagonal needs an enemy piece or the en-passant square |
| MoveGen.TargetIsSum | internal/game/game.go:66-69 | a target is vacant or open exactly when the unwrapped sum is, and an open target is that sum |
| MoveGen.ContinuesOnlyPastEmpty | internal/game/game.go:173-175 | apart from the knight and the double push, a walk goes on only over a vacant square |
| MoveGen.StepperTry | internal/game/game.go:69-84 | one king, queen, rook or bishop try, stated on the unwrapped sum |
| MoveGen.KnightTry | internal/game/game.go:69-84 | one knight try, stated on the unwrapped sum |
| MoveGen.StepperTries | internal/game/game.go:65-176 | for every try of a king, queen, rook or bishop walk: it continues exactly when vacant, records exactly when open, and records the sum |
| MoveGen.KnightTries | internal/game/game.go:65-176 | every try of a knight walk continues, and records exactly when open |
| MoveGen.StepperWalk | internal/game/game.go:65-176 | a king, queen, rook or bishop walk, in terms of the vacancy and openness of its tries |
| MoveGen.KnightWalk | internal/game/game.go:65-176 | a knight walk, in terms of the openness of its tries |
| MoveGen.StepperRay | internal/game/game.go:170-175 | a king, queen, rook or bishop walk records exactly the open squares whose earlier squares are all vacant: it stops at the first blocker and includes it only when it is an enemy |
| MoveGen.KnightRay | internal/game/game.go:71-82 | a knight walk records exactly its open targets, whatever stands on the other tries |
| MoveGen.PseudoMovesAllowed | internal/game/game.go:69-84 | every generated target is a playable square not holding the mover's colour, from an occupied origin |
| MoveGen.WalkStopsAtBlocker | internal/game/game.go:170-175 | a walk of a piece other than the knight reaches try k only over vacant earlier squares |
| MoveGen.KnightTriesEveryOffset | internal/game/game.go:71-82 | a knight walk reaches every offset: an off-board or friendly offset skips only that offset |
| MoveGen.OffsetGeometry | internal/game/constants.go:32-75 | from a playable square, adding a step or jump offset is exactly moving by that offset's row and column change |
| MoveGen.KingRay | internal/game/constants.go:33-38 | a king walk has one try, and it records the step exactly when that square is open |
| MoveGen.KingDirection | internal/game/constants.go:33-38 | every neighbouring square is one signed offset of one king vector |
| MoveGen.KingMovesSound | internal/game/game.go:63-176 | every king target is a neighbouring square the king may enter |
| MoveGen.KingMovesComplete | internal/game/game.go:63-176 | every neighbouring square the king may enter is generated |
| MoveGen.KingMovesExact | internal/game/game.go:63-176 | the king's targets are exactly the neighbouring open squares |
| MoveGen.KnightSingleRay | internal/game/constants.go:53-58 | a knight walk has one try, and it records the jump exactly when that square is open |
| MoveGen.KnightDirection | internal/game/constants.go:53-58 | every knight's jump is one signed offset of one knight vector |
| MoveGen.KnightMovesSound | internal/game/game.go:63-176 | every knight target is a knight's jump away and open |
| MoveGen.KnightMovesComplete | internal/game/game.go:63-176 | every open square a knight's jump away is generated |
| MoveGen.KnightMovesExact | internal/game/game.go:63-176 | the knight's targets are exactly the open squares a knight's jump away |
| MoveGen.SliderVector | internal/game/constants.go:39-52 | each queen, rook or bishop vector is seven multiples of one of the piece's directions |
| MoveGen.DirectionVector | internal/game/constants.go:39-52 | every direction of a sliding piece has a vector |
| MoveGen.ClearAlongLine | internal/game/game.go:65-66 | trying the entries of a sliding vector is walking square by square along its line |
| MoveGen.SliderRayLine | internal/game/game.go:65-176 | a sliding walk records exactly the open n-th square of its line whose earlier squares are vacant |
| MoveGen.SliderMovesExact | internal/game/game.go:63-176 | a queen, rook or bishop moves exactly to the open squares of its directions, up to and including the first occupied one |
| MoveGen.LineStep | internal/game/game.go:66 | the n-th square of a line is one signed step past the (n-1)-th |
| MoveGen.LineGeometry | internal/game/constants.go:39-52 | along a line that stays on the board, the n-th square is n rows and/or n columns away as the direction says: no wrap-around |
| MoveGen.LineShape | internal/game/constants.go:39-52 | the n-th square of a straight line keeps the row or the column, and that of a diagonal changes both by the same amount |
| MoveGen.SliderMovesOnLines | internal/game/game.go:63-176 | a rook target is on the rook's row or column, a bishop target on its diagonal, a queen target on either, and no target is the origin |
| MoveGen.PawnPushRay | internal/game/game.go:87-104 | the push walk records one square forward when it is vacant, and two when both are vacant and the pawn has not moved; a walk against the pawn's direction records nothing |
| MoveGen.PawnDiagonalRay | internal/game/game.go:106-109 | a diagonal walk records its square only forward, and only when it holds an enemy piece or is the en-passant square |
| MoveGen.PawnPushMoves | internal/game/game.go:87-104 | both signs of the push vector give exactly the pawn's pushes |
| MoveGen.PawnDiagonalMoves | internal/game/game.go:106-109 | both signs of a diagonal vector give exactly that capture |
| MoveGen.PawnMovesExact | internal/game/game.go:87-110 | the generator's pawn targets are exactly the single push, the double push from an unmoved pawn, and the two forward diagonals onto an enemy or the en-passant square |
| MoveGen.PawnMovesForward | internal/game/game.go:90-94 | a White pawn's targets are at most 24 below its square and a Black pawn's at most 24 above |
| Castling.CastleRight | internal/game/castle.rights.go:3-89 | an unmoved king on the king square, an unmoved rook on the rook square, and every square strictly between them empty; `CastleRightSquares` ties it to the four tests |
| Castling.CastleRightSquares | internal/game/castle.rights.go:3-89 | each of the four rights holds exactly when its king square holds an unmoved king, its rook square an unmoved rook, and the listed squares between are empty |
| Castling.NoCastlingAtStart | internal/game/castle.rights.go:15-81 | no right holds on the starting board |
| Castling.CastleRightIgnoresColour | internal/game/castle.rights.go:5-10 | with an unmoved king and rook of any colours on the two squares, the right holds exactly when the squares between are empty |
| Castling.MovedPieceLosesRight | internal/game/castle.rights.go:5-10 | a moved king or rook loses the right |
| History.ActionDefined | internal/game/history.go:34-42 | the action indexes the 120 cells only at board squares (an en-passant action only at `from`), and the piece whose flag it resets exists: the capture when `from == to`, otherwise the recorded pawn or the piece on `to` |
| History.UndoAction | internal/game/history.go:34-42 | the board after one action: promotion writes the pawn on `to` first, en passant writes only `from`, otherwise `to` goes back to `from` with the recorded flag and the capture to `to`; `UndoActionCells` states which cells change |
| History.UndoActionCells | internal/game/history.go:33-43 | an en-passant action writes only `from`, and writes the recorded pawn there; any other action writes the recorded capture to `to` and the piece from `to` (or the recorded promotion pawn) to `from` with the recorded flag; no other cell changes |
| History.Replay | internal/game/history.go:33-43 | the board after the actions of a log, one after the other in recorded order; `ReplaySnoc` and `ReplayTwo` state the order |
| History.ReplayDefinedPrefix | internal/game/history.go:33 | if replaying a log is defined, replaying any prefix of it is defined |
| History.ReplaySnoc | internal/game/history.go:33 | replaying a log and then one more action is replaying the longer log, in recorded order |
| History.ReplayTwo | internal/game/history.go:33 | a two-action log replays its first action, then its second |
| History.RelocationRecord | internal/game/history.go:3-10 | the action recording a relocation keeps its two squares and carries no promotion or en-passant pawn |
| History.UndoRelocation | internal/game/history.go:33-43 | round trip: replaying the record of a relocation restores both cells and the mover's flag, and nothing else changes |
| History.UndoPromotion | internal/game/history.go:34-42 | replaying a promotion record drops the promoted piece and restores the pawn and the captured piece |
| History.UndoRemoval | internal/game/history.go:40-42 | a piece taken off a square is restored by the record with `from == to` and the piece as its capture, and that record without a capture is not defined |
| History.UndoEnPassant | internal/game/history.go:33-43 | replaying a relocation record followed by an en-passant record restores the board |
| History.DisjointActionsCommute | internal/game/history.go:33-43 | two actions on disjoint squares give the same board in either order |
| History.UndoCastle | internal/game/history.go:33-43 | the records of a king's and a rook's relocations restore the board in either order |
| Game.GameState.constructor | internal/game/game.go:30-39 | a state over the given 120 cells, side to move and en-passant square, with no history |
| Game.GameState.GetMovesPreCheck | internal/game/game.go:43-181 | the generated set is `PseudoMoves` of the board; an empty origin gives no targets; every target is a valid square not holding the mover's colour |
| Game.GameState.Walk | internal/game/game.go:65-176 | the loop over one vector's offsets with one sign returns exactly what that walk records |
| Game.GameState.Try | internal/game/game.go:66-175 | one pass of the loop body returns the int8 target and the decision `Outcome` gives for it |
| Game.GameState.WhiteQueenSide | internal/game/castle.rights.go:3-23 | true exactly when the white queen-side right holds: unmoved king on 102, unmoved rook on 98, and 99-101 empty |
| Game.GameState.WhiteKingSide | internal/game/castle.rights.go:25-45 | true exactly when the white king-side right holds: unmoved king on 102, unmoved rook on 105, and 103-104 empty |
| Game.GameState.BlackQueenSide | internal/game/castle.rights.go:47-67 | true exactly when the black queen-side right holds: unmoved king on 18, unmoved rook on 14, and 15-17 empty |
| Game.GameState.BlackKingSide | internal/game/castle.rights.go:69-89 | true exactly when the black king-side right holds: unmoved king on 18, unmoved rook on 21, and 19-20 empty |
| Game.GameState.Undo | internal/game/history.go:22-59 | with an empty history: false, and nothing changes. Otherwise: true; the last entry is popped; the board is the entry's actions replayed in recorded order; the en-passant square, both king squares and both scores come from the entry; the side to move flips |
| Game.GameState.ReplayAction | internal/game/history.go:34-42 | one pass of the replay loop leaves the board `UndoAction` describes |

## Left out

- main.go: the interactive loop is console input and output, and it calls a search that is not part of this model.
- `update`, `NewGame`, `ExecuteMove`, `ExecuteRandomMove`, `CurrentPlayer` and `PrettyPrint` are not part of this model: their bodies are not among the source files.
- Game.GameState.Undo: the `withHardUpdate` refresh (a call to `update`, internal/game/history.go:54-56) is not modelled, so the parameter has no effect. The move tables it would rebuild are not modelled either.
- Floating point: piece values and scores are float64 in the source. Here they are integers that are only copied. The older revision's infinite king value is not modelled; the newer value 10000 is used.
- `isUnderAttack` (internal/game/game.go:183-194) reads the colour of empty cells through a nil pointer, so it has no defined behaviour to model.
- The castling branch of the generator (internal/game/game.go:112-168) is an unfinished stub with an empty switch. It needs a king offset of 2, and the newer king table `{1}` has none. So `withCastle` never has an effect.
  - Game.GameState.Try and Game.GameState.Walk leave the branch out and take no `withCastle`. `GetMovesPreCheck` asserts, for every vector it walks, that a king offset is never 2.
- The attacked-square tables (`BlackTargetSquares`, `WhiteTargetSquares`, internal/game/game.go:35-36, 52-58) are read only inside that stub, so they are left out.
- The older revision's king vector `{1, 2}`, its `Color bool`, its duplicate `newBoard` and constructors, and the `Prev` pointer are superseded by the newer revision and left out.
- Check: the generator does not filter moves that leave the king in check, and the castling tests do not look at attacked squares (a todo in the source). Neither is modelled.
- Piece aliasing: pieces are values, not shared pointers. When `Undo` sets `HasMoved` on the piece it moves back, the source also changes every other reference to that piece object, such as one kept in another history entry. The model changes only the board cell.
- Game.GameState.GetMovesPreCheck: for an empty origin the source returns a nil map and the model returns the empty set. Both behave as the empty set for lookups.
- History.ActionDefined, Game.GameState.Undo: the source dereferences nil when the piece whose flag it resets is missing. That happens when `from == to` and there is no capture, or when `from != to`, there is no promotion pawn and `to` is empty. `ActionDefined` and `ReplayDefined` require that this does not happen.
- An int8 square outside 0..119 makes the source panic on the 120-cell array. This covers an action's `From`, the `To` of an action that is not en passant, and the `square` of `getMovesPreCheck`. The model requires these indices to be board indices (`ActionDefined`, and the precondition of `Game.GameState.GetMovesPreCheck`).
- Undo order: the code (internal/game/history.go:33) replays an entry's actions in recorded order, and the model follows it. `History.DisjointActionsCommute` and `History.UndoCastle` show that the order does not matter for actions on disjoint squares, which includes castling.
