# A Dafny model of the UnityChessEngine rules core

The engine is a small chess program. Its rules core keeps the game in static state: a
64-entry square array of piece codes, four castling rights, an en-passant target, the two king
squares, the side to move and twelve per-colour, per-type bitboards with their unions. Around
that state sit:

- the piece codec: a 3-bit type plus a White or Black bit;
- the board's make / save / unmake operations and the FEN placement loader;
- an array-based move generator with castling, en passant and a legality filter that makes
  each candidate, regenerates the replies and unmakes it;
- a bitboard move generator over precomputed knight and king attack tables;
- a material evaluator;
- a fixed-depth negamax search with alpha-beta pruning that picks the engine's reply.

The model keeps the source's form. The board (`Boards.Board`), the array generator
(`Logic.GameLogic`), the attack tables (`BitMoves.AttackTables`) and the search
(`Search.Engine`) are classes whose methods update their fields. Each method is proved against a
value-level specification function: `Positions.Make`/`Save`/`Unmake`, `Fen.Load`,
`BoardBits.Scan`, `MoveRules.PieceMoves`/`MovesUpTo`/`LegalMoves`, `BitMoves.BitboardMoves`,
`Evaluation.Material` and `Search.AlphaBetaValue`. The properties the code promises are then
lemmas about those functions.

| file | module | models |
|---|---|---|
| piece.dfy | `Piece` | `Piece.cs`: codes as 8-bit vectors, the codec laws |
| positions.dfy | `Positions` | `Board.cs` make / save / restore / unmake on a board value; round trip |
| fen.dfy | `Fen` | `Board.cs` FEN splitting, `PieceFromChar`, the placement loop |
| bits.dfy | `Bits` | bitboards as sets of squares, `Bit`, the lowest-bit pop and the order it yields |
| boardbits.dfy | `BoardBits` | what `UpdateBitboards` computes from the squares |
| boards.dfy | `Boards` | the `Board` class and its methods |
| rules.dfy | `MoveRules` | `GameLogic.cs` generator as functions, and the move rules proved about them |
| gamelogic.dfy | `Logic` | the `GameLogic` class: the loops, the attack lists, the legality filter |
| bitgen.dfy | `BitMoves` | `BitboardMoveGen.cs`: the attack tables and the generator's loops |
| bitfacts.dfy | `BitMoveFacts` | what the bitboard generator's lists contain |
| evaluation.dfy | `Evaluation` | `Evaluation.cs` |
| search.dfy | `Search` | `Search.cs` over an abstract game |

Behaviours of the code that the model keeps as written, each with a lemma that shows it:

- The bitboard generator cuts a diagonal ray once it is more than two files from the slider.
  Because of that, no diagonal ray is longer than two squares (`BitMoveFacts.BishopRayAtMostTwo`,
  `BitMoveFacts.BishopRayStopsEarly`).
- Bitboard rook and bishop rays end on the first occupied square and include it, whoever holds
  it. So a slider can "capture" its own piece (`BitMoveFacts.RookRayReaches`).
- The bitboard pawn capture only refuses a target in the pawn's own file. A white pawn on a2
  (square 8) can therefore take on h2 (square 15), which is on its own rank
  (`BitMoveFacts.PawnCaptureWraps`).
- The bitboard en-passant test checks neither the pawn's rank nor which pawn moved last
  (`BitMoveFacts.PawnEnPassantAnyRank`). The bitboard generator promotes to a queen only and
  never castles (`BitMoveFacts.PawnMovesQueenOnly`, `BitMoveFacts.KingMovesIff`).
- `GenerateMoves` clears both attack lists before it generates. The opponent list that castling
  consults is therefore empty during that call (`Logic.GameLogic.GenerateMoves` ensures
  `OpponentAttacked(p) == []`).
- `MakeMove` updates the en-passant target only for pawn moves. A stale target can name a square
  that a piece has since moved onto. A pawn taking that piece is then recorded as an en-passant
  capture, and `UnmakeMove` does not put the piece back (`Positions.StaleEnPassantLosesPiece`).
  The make/unmake round trip therefore holds under `Positions.Restorable`. That predicate
  requires such a target square to be empty, and the castling rook's landing square to be empty.
- The search scores a side with no moves as -INF + (MaxDepth - depth) when white is to move and
  INF - (MaxDepth - depth) when black is. It does so although every other score is from the side
  to move's point of view (`Search.NoMovesSignAsWritten`).

## Model

| member | source | states |
|---|---|---|
| Piece.Encode | Assets/Scripts/Piece.cs:3-13 | a colour bit or-ed with a type is a non-empty code whose type bits are the type and whose White bit tells the colour |
| Piece.TypeCodesDistinct | Assets/Scripts/Piece.cs:3-13 | None and the six types are the distinct codes 0..6, and every type lies within TypeMask and is not None |
| Piece.ColourBitsDisjoint | Assets/Scripts/Piece.cs:11-13 | White and Black are distinct single bits, disjoint from each other and from TypeMask |
| Piece.DecodeEncode | Assets/Scripts/Piece.cs:3-13 | for a colour c and a type t, (c or t) masked with TypeMask is t, and its White bit is set iff c is White |
| Piece.EncodeInjective | Assets/Scripts/Piece.cs:3-13 | two encodings are equal iff colour and type are equal |
| Piece.EmptyDecodes | Assets/Scripts/Piece.cs:3 | the empty code has no colour bit and decodes to type None |
| Positions.Landed | Assets/Scripts/Board.cs:156-161 | the landing code is the mover itself without a promotion; with one, it is the promotion type in the pawn's colour |
| Positions.Write | Assets/Scripts/Board.cs:162-215 | the square writes of a move: start emptied, target gets the landing code, the optional en-passant victim square emptied, every other square unchanged |
| Positions.CastleRook | Assets/Scripts/Board.cs:190-199 | a king move of +2 carries the piece on start+3 to start+1, a move of -2 carries start-4 to start-1, any other move leaves the squares alone |
| Positions.UncastleRook | Assets/Scripts/Board.cs:281-293 | keeps the 64 squares; `Positions.UncastleCastle` states that it undoes `CastleRook` |
| Positions.Make | Assets/Scripts/Board.cs:150-219 | after a move the start is empty, the target holds the landing code, squares the move does not touch are unchanged, the turn flips, non-pawn moves keep the en-passant target and non-king moves keep both king squares |
| Positions.MakePawnEffect | Assets/Scripts/Board.cs:156-176 | a pawn move empties the square behind an en-passant target it captures onto, sets the target to start+step after a two-step push and to -1 otherwise, and changes no right or king square |
| Positions.MakeKingEffect | Assets/Scripts/Board.cs:177-200 | a king move records its new square, clears both of its side's rights, moves the castling rook and leaves the other side's rights and king square alone |
| Positions.MakeRookEffect | Assets/Scripts/Board.cs:201-213 | a rook leaving 0, 7, 56 or 63 clears exactly the matching right of its own colour |
| Positions.MakeOtherEffect | Assets/Scripts/Board.cs:214-216 | a knight, bishop or queen move only moves the piece and flips the turn |
| Positions.Save | Assets/Scripts/Board.cs:221-247 | the record holds the moving code, the captured square (one step behind the target for a pawn moving onto the en-passant target) with its code, and the current en-passant target |
| Positions.Restore | Assets/Scripts/Board.cs:249-258 | the rights, en-passant target and king squares come from the record; squares and turn are unchanged |
| Positions.Unmake | Assets/Scripts/Board.cs:260-298 | flips the turn and takes the en-passant target and king squares from the record |
| Positions.SafeAfterMake | Assets/Scripts/Board.cs:300-305 | every index UnmakeMove uses exists when the move and its record could be made |
| Positions.PutBackWrite | Assets/Scripts/Board.cs:262-275 | putting the moved and captured pieces back undoes the square writes of the move |
| Positions.UncastleCastle | Assets/Scripts/Board.cs:281-293 | moving the rook back undoes the castling rook move |
| Positions.RoundTripPawn | Assets/Scripts/Board.cs:300-305 | a pawn move, then its unmake with the saved record, gives the position back, en-passant victim included |
| Positions.RoundTripKing | Assets/Scripts/Board.cs:300-305 | the same for a king move, castling rook, rights and king square included |
| Positions.RoundTripOther | Assets/Scripts/Board.cs:300-305 | the same for every other piece, rook rights included |
| Positions.MakeUnmakeRoundTrip | Assets/Scripts/Board.cs:300-305 | save, make, unmake restores squares, rights, en-passant target, king squares and turn for every restorable move |
| Positions.StaleEnPassantLosesPiece | Assets/Scripts/Board.cs:162-176 | there is a position and move for which make then unmake does not restore the target square (the stale en-passant target) |
| Fen.Fields | Assets/Scripts/Board.cs:59 | splitting on spaces gives at least one field and no field contains a space |
| Fen.SplitJoin | Assets/Scripts/Board.cs:59-61 | the fields joined with spaces give the string back, and there is one more field than spaces |
| Fen.Load | Assets/Scripts/Board.cs:57-87 | loading is rejected exactly when the string has fewer than five spaces (fewer than six fields) |
| Fen.PieceFromChar | Assets/Scripts/Board.cs:136-148 | a letter of pnbrqk in either case gives a code of that type, white exactly for an upper-case letter; any other ASCII character gives None |
| Fen.PieceCharRoundTrip | Assets/Scripts/Board.cs:136-148 | every piece code is the image of its letter |
| Fen.PieceFromCharRoundTrip | Assets/Scripts/Board.cs:136-148 | every character giving a piece is the letter of that piece |
| Fen.Place | Assets/Scripts/Board.cs:68-87 | the placement loop keeps 64 squares; `Fen.RenderRoundTrip` states what it places |
| Fen.RenderRoundTrip | Assets/Scripts/Board.cs:68-87 | reading the placement field written for any board from rank 7, file 0 never leaves the array and puts every piece of that board on its square, leaving the empty squares as they were |
| Bits.Bit | Assets/Scripts/Board.cs:102 | the single-bit board of square i holds i and nothing else |
| Bits.Lowest | Assets/Scripts/BitboardMoveGen.cs:81 | the lowest set square of a non-empty board |
| Bits.Ascending | Assets/Scripts/BitboardMoveGen.cs:78-81 | the squares a board yields when its lowest bit is popped until it is empty all lie in the board |
| Bits.AscendingSorted | Assets/Scripts/BitboardMoveGen.cs:78-81 | that order is strictly increasing and lists exactly the board's squares |
| Bits.SortedIsAscending | Assets/Scripts/BitboardMoveGen.cs:78-81 | any strictly increasing listing of a board's squares is that order |
| Bits.AscendingPop | Assets/Scripts/BitboardMoveGen.cs:79-81 | the order starts with the lowest square and continues with the order of the rest |
| Bits.AscendingEmptyIffZero | Assets/Scripts/BitboardMoveGen.cs:79 | the pop loop runs no iteration exactly when the board is empty |
| Bits.PopLsb | Assets/Scripts/BitboardMoveGen.cs:81 | returns the lowest set square of a non-empty board and the board without it |
| BoardBits.BitboardOf | Assets/Scripts/Board.cs:98-129 | every piece board holds only squares 0..63 |
| BoardBits.ScanHolds | Assets/Scripts/Board.cs:98-129 | after the loop, each colour-and-type board holds exactly the scanned squares holding that colour and type |
| BoardBits.OccupiesUnique | Assets/Scripts/Board.cs:103-127 | a code joins at most one of the twelve boards |
| BoardBits.SideHolds | Assets/Scripts/Board.cs:131-132 | a colour's union holds exactly the squares with a real piece of that colour |
| BoardBits.OccupiedHolds | Assets/Scripts/Board.cs:133 | the occupancy board holds exactly the squares with a real piece |
| BoardBits.SidesDisjoint | Assets/Scripts/Board.cs:131-133 | the two colour unions share no square |
| Boards.ScanSquare | Assets/Scripts/Board.cs:100-127 | one iteration of the loop adds the square's bit to exactly the board its colour and type select |
| Boards.Board.constructor | Assets/Scripts/Board.cs:18-27 | all rights set, no en-passant target, white to move, kings on 4 and 60, then the start position loaded with the bitboards in step |
| Boards.Board.UpdateBitboards | Assets/Scripts/Board.cs:92-134 | every bitboard agrees with the squares afterwards, and the board value is unchanged |
| Boards.Board.LoadPositionFromFen | Assets/Scripts/Board.cs:57-90 | too few fields fails with nothing changed; otherwise the squares are what the placement loop gives, the bitboards follow when it stays on the array, and no right, target, king square or turn changes |
| Boards.Board.MovePawn | Assets/Scripts/Board.cs:156-176 | the pawn branch of MakeMove |
| Boards.Board.MoveKing | Assets/Scripts/Board.cs:177-200 | the king branch of MakeMove |
| Boards.Board.MoveRook | Assets/Scripts/Board.cs:201-213 | the rook branch of MakeMove |
| Boards.Board.PrepareMove | Assets/Scripts/Board.cs:152-213 | the type dispatch of MakeMove, returning the landing code |
| Boards.Board.LandPiece | Assets/Scripts/Board.cs:214-216 | the landing code on the target, the start emptied, the turn flipped |
| Boards.Board.MakeMove | Assets/Scripts/Board.cs:150-219 | the board becomes `Make` of its old value, with the bitboards in step |
| Boards.Board.SaveState | Assets/Scripts/Board.cs:221-247 | the record is `Save` of the board and move |
| Boards.Board.RestoreState | Assets/Scripts/Board.cs:249-258 | the board becomes `Restore` of its old value and the record |
| Boards.Board.PutBackPieces | Assets/Scripts/Board.cs:262-275 | the moved and captured pieces go back to their squares |
| Boards.Board.PutBackRook | Assets/Scripts/Board.cs:280-293 | a castling king move's rook goes back to its corner |
| Boards.Board.UnmakeMove | Assets/Scripts/Board.cs:260-298 | the board becomes `Unmake` of its old value, with the bitboards in step |
| Boards.Board.MakeMoveAndUnmake | Assets/Scripts/Board.cs:300-305 | the board ends as it started, bitboards included, whenever the move is restorable |
| MoveRules.EdgeRow | Assets/Scripts/GameLogic.cs:64-84 | each square's row holds eight counts between 0 and 7 |
| MoveRules.DirectionSteps | Assets/Scripts/GameLogic.cs:27 | each direction offset is a rank step and a file step, each -1, 0 or 1, not both 0 |
| MoveRules.EdgeNoWrap | Assets/Scripts/GameLogic.cs:221-226 | stepping a direction up to its edge count stays on the board and moves rank and file by whole steps, without wrapping |
| MoveRules.EdgeTight | Assets/Scripts/GameLogic.cs:68-84 | one step beyond the edge count leaves the board |
| MoveRules.OffsetMovesIff | Assets/Scripts/GameLogic.cs:177-210 | a move is listed iff it is a plain move along one of the offsets onto an on-board square within two ranks and files that the mover's colour does not hold |
| MoveRules.NoWrap | Assets/Scripts/GameLogic.cs:194-201 | the within-two test makes index arithmetic agree with rank and file arithmetic |
| MoveRules.KnightParts | Assets/Scripts/GameLogic.cs:26 | each knight offset is two ranks and one file, or one rank and two files |
| MoveRules.KnightMovesAreJumps | Assets/Scripts/GameLogic.cs:157-158 | every knight move is an on-board knight jump onto a square the mover's colour does not hold |
| MoveRules.KingStepsAreAdjacent | Assets/Scripts/GameLogic.cs:165-166 | every king step goes to an adjacent on-board square the mover's colour does not hold |
| MoveRules.KingStepsComplete | Assets/Scripts/GameLogic.cs:165-166 | every adjacent on-board square the mover's colour does not hold is stepped to |
| MoveRules.RaySound | Assets/Scripts/GameLogic.cs:223-243 | a ray move goes to an on-board square, all squares before it are empty, and it is empty or holds an enemy |
| MoveRules.RayComplete | Assets/Scripts/GameLogic.cs:223-243 | every such square within the edge count is listed |
| MoveRules.RaysIff | Assets/Scripts/GameLogic.cs:221-244 | a move is in the rays of a direction range iff it reaches its target along one of them |
| MoveRules.SlidingMovesIff | Assets/Scripts/GameLogic.cs:212-247 | a sliding move is listed iff it reaches its target along directions 4-7 for a bishop, 0-3 for a rook, 0-7 for a queen |
| MoveRules.IsLegalMoveIff | Assets/Scripts/GameLogic.cs:89-106 | the test holds iff both squares are on the board, the mover belongs to the side to move and the target is empty or holds the other colour |
| MoveRules.PawnPushesSound | Assets/Scripts/GameLogic.cs:265-286 | a push goes one step onto an empty square, or two steps from the starting rank with both squares empty |
| MoveRules.AdvancePromotion | Assets/Scripts/GameLogic.cs:268-279 | an advance carries a promotion iff it lands on the last rank, and then all four promotions are listed |
| MoveRules.PawnCaptureDiagonal | Assets/Scripts/GameLogic.cs:409-412 | a capture square that passes the adjacent-file test is one rank forward and one file aside |
| MoveRules.PawnCaptureSound | Assets/Scripts/GameLogic.cs:288-343 | a capture goes to that diagonal square and only when it holds a piece of the other colour |
| MoveRules.PawnEnPassantAtMostOnce | Assets/Scripts/GameLogic.cs:345-359 | at most one en-passant move, only from rank 4 (white) or 3 (black), onto the en-passant target diagonally forward |
| MoveRules.PawnPromotionIff | Assets/Scripts/GameLogic.cs:249-362 | a pawn move carries a promotion iff it lands on the last rank, and then all four promotions are listed |
| MoveRules.PawnMovesStart | Assets/Scripts/GameLogic.cs:249-362 | every pawn move starts on the pawn |
| MoveRules.CastlingMovesIff | Assets/Scripts/GameLogic.cs:364-402 | castling is listed iff the right is held, the squares between are empty, the own rook is in the corner and the two squares next to the king are not in the opponent's attack list |
| MoveRules.PieceMovesStart | Assets/Scripts/GameLogic.cs:146-175 | every move listed for a square starts on it |
| MoveRules.PieceStartsHere | Assets/Scripts/GameLogic.cs:146-175 | every listed move for a square starts on it, by index |
| MoveRules.MovesUpToSound | Assets/Scripts/GameLogic.cs:108-144 | every generated move starts on a piece of the side to move and is one of that piece's moves |
| MoveRules.LegalMovesSnoc | Assets/Scripts/GameLogic.cs:39-57 | one more candidate is kept iff it leaves the mover's king unattacked |
| MoveRules.LegalMovesIff | Assets/Scripts/GameLogic.cs:34-60 | a move is kept iff it is a candidate whose made position has the mover's king outside every reply's targets |
| Logic.GameLogic.constructor | Assets/Scripts/GameLogic.cs:28-32 | a 64-row edge table and empty attack and move lists |
| Logic.GameLogic.PrecomputedMoveData | Assets/Scripts/GameLogic.cs:62-87 | every square's row of the table is its edge row |
| Logic.GameLogic.GetMovesForOffsets | Assets/Scripts/GameLogic.cs:177-210 | the loop lists `OffsetMoves` |
| Logic.GameLogic.GetSlidingPieceMoves | Assets/Scripts/GameLogic.cs:212-247 | the loops list `SlidingMoves` from the edge table |
| Logic.GameLogic.AddAttacked | Assets/Scripts/GameLogic.cs:291-298 | appends the square to that colour's attack list only |
| Logic.GameLogic.GetPawnMoves | Assets/Scripts/GameLogic.cs:249-362 | lists `PawnMoves` and appends the pawn's attacked squares to its own colour's list only |
| Logic.GameLogic.GetPawnPushes | Assets/Scripts/GameLogic.cs:265-286 | lists `PawnPushes` |
| Logic.GameLogic.GetPawnCapture | Assets/Scripts/GameLogic.cs:288-314 | lists one diagonal capture, and records its square in the pawn's own list when it passes the file and colour test, occupied or not |
| Logic.GameLogic.GetEnPassant | Assets/Scripts/GameLogic.cs:345-359 | lists `PawnEnPassant` |
| Logic.GameLogic.GetCastlingMoves | Assets/Scripts/GameLogic.cs:364-402 | lists `CastlingMoves` against the current opponent list |
| Logic.GameLogic.GenerateMovesForPiece | Assets/Scripts/GameLogic.cs:146-175 | lists `PieceMoves` and appends only to the side to move's list |
| Logic.GameLogic.GenerateMoves | Assets/Scripts/GameLogic.cs:108-144 | lists every square's moves in square order; the mover's list holds the non-pawn targets and pawn capture squares and the opponent's list is empty |
| Logic.GameLogic.GenerateForSquare | Assets/Scripts/GameLogic.cs:116-141 | one iteration of the square loop |
| Logic.GameLogic.AppendMoves | Assets/Scripts/GameLogic.cs:125-140 | appends the non-pawn targets to the side to move's list |
| Logic.GameLogic.TargetsOf | Assets/Scripts/GameLogic.cs:47-48 | the set of the replies' targets |
| Logic.GameLogic.KingSafeAfter | Assets/Scripts/GameLogic.cs:41-56 | reports whether the move leaves the mover's king unattacked, and the board ends as it was; the replying side's attack list is left holding the attacks of the position after the move and the mover's list is left empty |
| Logic.GameLogic.GenerateLegalMoves | Assets/Scripts/GameLogic.cs:34-60 | returns, in order, the generated moves that leave the mover's king unattacked; squares, rights, target, king squares and turn end as they were; the attack lists end as the last candidate's reply generation leaves them, or as the first GenerateMoves leaves them when there is no candidate |
| Logic.GameLogic.KeepLegal | Assets/Scripts/GameLogic.cs:39-57 | the filter loop over any candidate list: keeps exactly the safe candidates in order, restores the board, and leaves the attack lists as the last candidate's replies set them, or untouched for an empty list |
| Logic.GameLogic.KeepIfSafe | Assets/Scripts/GameLogic.cs:41-56 | one iteration of the filter loop: the candidate is kept iff it is safe, and the attack lists are those of its replies |
| Logic.GameLogic.IsValidMove | Assets/Scripts/GameLogic.cs:414-426 | true iff some listed move has that start, target and promotion |
| BitMoves.GenerateKnightAttacks | Assets/Scripts/BitboardMoveGen.cs:20-40 | the attack set of the eight offsets that stay on the board within two ranks and files |
| BitMoves.GenerateKingAttacks | Assets/Scripts/BitboardMoveGen.cs:42-60 | the on-board squares one rank and one file away at most, the square itself excluded |
| BitMoves.KnightTargetsAreJumps | Assets/Scripts/BitboardMoveGen.cs:20-40 | a square is in a knight's table entry iff it is on the board a knight jump away |
| BitMoves.KnightTargetsSymmetric | Assets/Scripts/BitboardMoveGen.cs:20-40 | b is in a's knight entry iff a is in b's |
| BitMoves.KingTargetsAreSteps | Assets/Scripts/BitboardMoveGen.cs:42-60 | a square is in a king's entry iff it is one direction offset away without wrapping |
| BitMoves.AttackTables.constructor | Assets/Scripts/BitboardMoveGen.cs:11-18 | both tables hold every square's entry |
| BitMoves.PawnMovesAt | Assets/Scripts/BitboardMoveGen.cs:81-122 | one pawn's pushes, captures and en passant, equal to `PawnMovesBB`, which `BitMoveFacts.PawnMovesIff` characterises |
| BitMoves.PawnPushesAt | Assets/Scripts/BitboardMoveGen.cs:84-100 | the single and double pushes, equal to `PawnPushesBB`: onto an empty square, and two steps only from the starting rank over two empty squares (`BitMoveFacts.PawnMovesIff`) |
| BitMoves.PawnCaptureAt | Assets/Scripts/BitboardMoveGen.cs:106-113 | one diagonal capture, equal to `PawnCaptureBB`: only onto the board, outside the pawn's file, where an opponent piece stands (`BitMoveFacts.PawnMovesIff`) |
| BitMoves.JumpMovesAt | Assets/Scripts/BitboardMoveGen.cs:132-136 | one move per square of the attack board, lowest first |
| BitMoves.RookRayAt | Assets/Scripts/BitboardMoveGen.cs:169-175 | one rook ray |
| BitMoves.BishopRayAt | Assets/Scripts/BitboardMoveGen.cs:182-192 | one bishop ray |
| BitMoves.RookRaysAt | Assets/Scripts/BitboardMoveGen.cs:167-176 | the four rook rays in order |
| BitMoves.BishopRaysAt | Assets/Scripts/BitboardMoveGen.cs:180-193 | the four bishop rays in order |
| BitMoves.SliderMovesAt | Assets/Scripts/BitboardMoveGen.cs:163-194 | rook rays for a rook or queen, then bishop rays for a bishop or queen, by the square array's type |
| BitMoves.SquareMovesAt | Assets/Scripts/BitboardMoveGen.cs:126-152 | one square's moves for its group |
| BitMoves.GatherAt | Assets/Scripts/BitboardMoveGen.cs:78-123 | a group's moves, its squares popped lowest first |
| BitMoves.GenerateMovesBitboard | Assets/Scripts/BitboardMoveGen.cs:65-198 | pawns, knights, kings, then sliders, each lowest square first |
| BitMoves.GenerateFromView | Assets/Scripts/BitboardMoveGen.cs:67-197 | the four group loops over what the generator reads |
| BitMoveFacts.JumpMovesIff | Assets/Scripts/BitboardMoveGen.cs:132-136 | a move is listed iff it is a plain move from the square to one of the targets |
| BitMoveFacts.KnightMovesIff | Assets/Scripts/BitboardMoveGen.cs:126-137 | a knight move is listed iff it is a plain on-board knight jump onto a square outside the mover's union |
| BitMoveFacts.KingMovesIff | Assets/Scripts/BitboardMoveGen.cs:139-152 | a king move is listed iff it is a plain step to an adjacent on-board square outside the mover's union, so no castling is listed |
| BitMoveFacts.RookRayShape | Assets/Scripts/BitboardMoveGen.cs:167-175 | the k-th ray move is k+1 steps out, passes the rook test, and every square before the last is empty |
| BitMoveFacts.RookRayReaches | Assets/Scripts/BitboardMoveGen.cs:170-173 | every square along the ray up to and including the first occupied one is listed, whatever its colour |
| BitMoveFacts.BishopRayShape | Assets/Scripts/BitboardMoveGen.cs:182-192 | the k-th ray move is k+1 steps out, within two files, and every square before the last is empty |
| BitMoveFacts.BishopRayAtMostTwo | Assets/Scripts/BitboardMoveGen.cs:186 | no diagonal ray lists more than two squares |
| BitMoveFacts.BishopRayStopsEarly | Assets/Scripts/BitboardMoveGen.cs:182-192 | on an empty board the ray from b1 along +9 stops after c2 and d3 |
| BitMoveFacts.PawnMovesIff | Assets/Scripts/BitboardMoveGen.cs:81-122 | a move is in a pawn's list iff it starts on the pawn and is a single push onto an empty square (a queen on the last rank), a double push from the starting rank over two empty squares, a capture onto from+7/+9 (white) or from-9/-7 (black) on the board, outside the pawn's file, onto an opponent piece, or a move onto the en-passant target when it is one of those two squares |
| BitMoveFacts.PawnMovesQueenOnly | Assets/Scripts/BitboardMoveGen.cs:84-113 | every pawn move starts on the pawn and promotes to nothing or, on the last rank, to a queen |
| BitMoveFacts.PawnCaptureWraps | Assets/Scripts/BitboardMoveGen.cs:103-109 | a white pawn on square 8 takes a black piece on square 15, on its own rank |
| BitMoveFacts.PawnEnPassantAnyRank | Assets/Scripts/BitboardMoveGen.cs:115-122 | a white pawn on rank 1 moves to an en-passant target on square 17 |
| BitMoveFacts.RookRaysStart | Assets/Scripts/BitboardMoveGen.cs:165-177 | every rook-ray move is a plain move from the slider to an on-board square |
| BitMoveFacts.BishopRaysStart | Assets/Scripts/BitboardMoveGen.cs:178-194 | every bishop-ray move is a plain move from the slider to an on-board square |
| BitMoveFacts.SquareMovesStart | Assets/Scripts/BitboardMoveGen.cs:81-194 | every move of a square starts on it |
| BitMoveFacts.GatherStart | Assets/Scripts/BitboardMoveGen.cs:78-195 | every move of a group starts on one of the listed squares |
| BitMoveFacts.GatherBoardStart | Assets/Scripts/BitboardMoveGen.cs:78-195 | every move of a group starts on a set bit of its board |
| BitMoveFacts.BitboardMovesStart | Assets/Scripts/BitboardMoveGen.cs:68-195 | every emitted move starts on a set bit of one of the side to move's piece boards |
| Evaluation.Evaluate | Assets/Scripts/Evaluation.cs:27-37 | the loop returns the material balance, or fails on the first code the table lacks |
| Evaluation.MaterialFails | Assets/Scripts/Evaluation.cs:30-34 | evaluation fails iff some square holds a non-empty code outside the table, and then names the first such code |
| Evaluation.KingFails | Assets/Scripts/Evaluation.cs:13-25 | a position with a king of either colour fails |
| Evaluation.MaterialCounts | Assets/Scripts/Evaluation.cs:7-34 | a successful balance is 100, 300, 320, 500 and 900 times the white minus the black count of pawns, knights, bishops, rooks and queens |
| Evaluation.MaterialPermutation | Assets/Scripts/Evaluation.cs:30-34 | positions with the same count of every code both fail, or score the same |
| Evaluation.EmptyScoresZero | Assets/Scripts/Evaluation.cs:29-36 | an all-empty position scores 0 |
| Evaluation.RecolourValue | Assets/Scripts/Evaluation.cs:13-25 | a single-coloured code is in the table iff its recoloured code is, with the negated value |
| Evaluation.RecolourNegates | Assets/Scripts/Evaluation.cs:13-37 | swapping every piece's colour negates the balance, or fails on the recoloured code |
| Search.AlphaBetaWindow | Assets/Scripts/Search.cs:12-41 | within a window from -INF to INF, the pruned value is the negamax value when that lies strictly inside the window, and lies on the same side of the window otherwise |
| Search.AlphaBetaAtMostBeta | Assets/Scripts/Search.cs:27-40 | a node with moves never returns more than beta (fail-hard cutoff) |
| Search.NoMovesSignAsWritten | Assets/Scripts/Search.cs:20-25 | a side without moves scores near -INF when white is to move and near +INF when black is to move, whichever side that is |
| Search.LeaderIsFirstBest | Assets/Scripts/Search.cs:45-63 | the chosen index has the greatest score, every earlier score is strictly lower, and the best score is at least -INF |
| Search.RootScoresExact | Assets/Scripts/Search.cs:47-52 | each root score is the negated negamax value of the child when that value lies strictly inside the infinite window |
| Search.RootScores | Assets/Scripts/Search.cs:47-52 | one score per candidate move |
| Search.Engine.MakeMoveBB | Assets/Scripts/Search.cs:31 | pushes the current state and plays the move |
| Search.Engine.UnmakeMoveBB | Assets/Scripts/Search.cs:33 | pops back to the state before the last make |
| Search.Engine.AlphaBeta | Assets/Scripts/Search.cs:12-41 | returns the pruned search value of the current state and leaves the state and stack as they were |
| Search.Engine.ChooseComputerMove | Assets/Scripts/Search.cs:43-64 | the default move for an empty list; otherwise the first move with the greatest score; the state is left as it was |

## Left out

- `RepresentPieces.cs` and `BoardGenerator.cs` are user interface (input, rendering, scene handling) and are not part of this model.
- `Bitboard.cs` is entirely commented out, so it is not part of this model.
- `Bitboard.Bit` and `Bitboard.PopLsb` are not defined in the source. They are specified: `Bits.Bit` is the single-square board, and `Bits.PopLsb` returns the lowest square and clears it.
- Bitboards are sets of squares, not 64-bit words. The generator only uses or, and, and-not and single-bit tests, and on those a set is exact. Shifts and word arithmetic are not modelled.
- `Bitboard.MakeMoveBB`, `Bitboard.UnmakeMoveBB` and `Evaluation.EvaluateBitboards` are not defined in the source. The search takes them, with the bitboard generator and the side to move, as the functions of an abstract game. Unmake is a pop of an explicit stack of states, so it undoes make by construction. `Search.Engine.MakeMoveBB` takes the move and plays it through the game.
- `Search.MaxDepth` is a mutable static in the source. The model fixes it at 3.
- A `null` move list passed to `ChooseComputerMove` is modelled as the empty list.
- The static constructors and globals are left out: the board, the generator, the tables and the search are explicit objects. `isWhiteTurn` and the two king squares, which the source keeps in `GameLogic`, are fields of the board.
- Exceptions are modelled as results or preconditions. `LoadPositionFromFen` returns `InvalidFen` or `IndexOutOfRange` where the source throws. `Evaluate` returns `MissingKey` where the dictionary lookup throws. Indices that would fall off the array are excluded by preconditions (`SafeToMake`, `SafeToSave`, `SafeToUnmake`, `CastlingReadsInRange`, `CastlingSafe`).
- The square array is a sequence that the methods reassign, so aliasing and in-place update of the array are not captured. The same holds for the attack and move lists.
- Piece codes are 8-bit vectors. Every code the source stores fits in five bits.
- Nothing about performance or timing is modelled.
- Positions.MakeUnmakeRoundTrip: requires `Restorable`, not only the index conditions, because the source's round trip fails otherwise (`Positions.StaleEnPassantLosesPiece`).
- Fen.PieceFromChar, Fen.Place, Boards.Board.LoadPositionFromFen: the character tests and the case folding are ASCII-only. C# `char.IsDigit` also accepts every other Unicode decimal digit, which moves the file by `c - '0'`. `char.ToLower` also folds non-ASCII letters such as the Kelvin sign U+212A, which becomes 'k' and so reads as a white king. The model reads any non-ASCII character as an empty square, one file wide.
- Logic.GameLogic.GenerateLegalMoves: requires every generated move to be `Checkable`, that is restorable, with the replies' castling reads on the array. The source runs on regardless and can leave a changed board behind.
- Logic.GameLogic.KeepLegal, Logic.GameLogic.KeepIfSafe, Logic.GameLogic.KingSafeAfter: the same `Checkable` requirement for the same reason.
- Search.AlphaBetaWindow: stated for windows inside -INF..INF, the windows the search itself opens.
- Search.RootScoresExact: stated for children whose negamax value lies strictly inside -INF..INF. At the edge of the window the fail-hard cutoff can return the bound instead.
- The active colour, castling and en-passant fields of a FEN string are read but never applied, as in the source; only the field count and the placement field matter.
