/** The board state as a value, and the make/save/unmake operations on it as functions.
    The `Board` class in boards.dfy keeps the same state in an array and fields and proves
    each of its methods against the functions here. */
module Positions {
  import opened Piece

  /** A move: start square, target square and, for a promoting pawn, the promotion type
      (`Piece.None` otherwise, the default of the source's constructor). */
  datatype Move = Move(start: int, target: int, promotion: Code)

  /** What SaveState records before a move so that UnmakeMove can take it back. */
  datatype MoveState = MoveState(
    pieceMoved: Code,
    capturedPiece: Code,
    capturedIndex: int,
    whiteKingside: bool,
    whiteQueenside: bool,
    blackKingside: bool,
    blackQueenside: bool,
    enPassant: int,
    whiteKingSquare: int,
    blackKingSquare: int)

  /** Everything a move reads or writes: the 64 squares, the four castling rights, the
      en-passant target (-1 for none), both king squares and the side to move. */
  datatype Position = Position(
    squares: seq<Code>,
    whiteKingside: bool,
    whiteQueenside: bool,
    blackKingside: bool,
    blackQueenside: bool,
    enPassant: int,
    whiteKingSquare: int,
    blackKingSquare: int,
    whiteToMove: bool)

  predicate OnBoard(i: int) {
    0 <= i < 64
  }

  predicate WellFormed(p: Position) {
    |p.squares| == 64
  }

  /** The rank step of a side's pawns. */
  function Step(white: bool): int {
    if white then 8 else -8
  }

  /** The code that lands on the target: a pawn with a promotion type becomes a piece of
      that type and the pawn's colour; every other move lands the moving code itself. */
  function Landed(piece: Code, promotion: Code): (r: Code)
    ensures promotion == None ==> r == piece
    ensures promotion != None && promotion & TypeMask == promotion ==>
      TypeOf(r) == promotion && IsWhite(r) == IsWhite(piece)
  {
    if promotion != None then ColourBit(IsWhite(piece)) | promotion else piece
  }

  /** A pawn move onto the en-passant target one file to either side: the pawn it takes
      stands one step behind the target. */
  predicate IsEnPassantCapture(p: Position, m: Move)
    requires WellFormed(p) && OnBoard(m.start)
  {
    var piece := p.squares[m.start];
    var step := Step(IsWhite(piece));
    TypeOf(piece) == Pawn && m.target == p.enPassant &&
    (m.start + step + 1 == m.target || m.start + step - 1 == m.target)
  }

  predicate IsCastleKingside(p: Position, m: Move)
    requires WellFormed(p) && OnBoard(m.start)
  {
    TypeOf(p.squares[m.start]) == King && m.target == m.start + 2
  }

  predicate IsCastleQueenside(p: Position, m: Move)
    requires WellFormed(p) && OnBoard(m.start)
  {
    TypeOf(p.squares[m.start]) == King && m.target == m.start - 2
  }

  /** The indices MakeMove reads and writes all exist (otherwise the source throws). */
  predicate SafeToMake(p: Position, m: Move) {
    WellFormed(p) && OnBoard(m.start) && OnBoard(m.target) &&
    (IsEnPassantCapture(p, m) ==> OnBoard(m.target - Step(IsWhite(p.squares[m.start])))) &&
    (IsCastleKingside(p, m) ==> m.start + 3 < 64) &&
    (IsCastleQueenside(p, m) ==> 0 <= m.start - 4)
  }

  /** The square of the piece a move takes: one step behind the target when a pawn moves
      onto the en-passant target, the target itself otherwise. */
  function CaptureSquare(p: Position, m: Move): int
    requires WellFormed(p) && OnBoard(m.start)
  {
    var piece := p.squares[m.start];
    if TypeOf(piece) == Pawn && m.target == p.enPassant then m.target - Step(IsWhite(piece))
    else m.target
  }

  predicate SafeToSave(p: Position, m: Move) {
    WellFormed(p) && OnBoard(m.start) && OnBoard(m.target) && OnBoard(CaptureSquare(p, m))
  }

  /** The last writes of every move: the landing code on the target, the start emptied,
      the turn passed. */
  function Land(p: Position, m: Move, piece: Code): Position
    requires WellFormed(p) && OnBoard(m.start) && OnBoard(m.target)
  {
    p.(squares := p.squares[m.target := piece][m.start := None], whiteToMove := !p.whiteToMove)
  }

  /** The squares a move may change: start and target, the square behind the target of an
      en-passant capture, and the two rook squares of a castling move. */
  predicate Touches(p: Position, m: Move, i: int)
    requires WellFormed(p) && OnBoard(m.start)
  {
    i == m.start || i == m.target ||
    (IsEnPassantCapture(p, m) && i == m.target - Step(IsWhite(p.squares[m.start]))) ||
    (IsCastleKingside(p, m) && (i == m.start + 1 || i == m.start + 3)) ||
    (IsCastleQueenside(p, m) && (i == m.start - 1 || i == m.start - 4))
  }

  /** The square writes of a move: an optional extra square emptied first, then the landing
      code on the target and the start emptied. */
  function Write(sq: seq<Code>, m: Move, clear: bool, c: int, piece: Code): (r: seq<Code>)
    requires |sq| == 64 && OnBoard(m.start) && OnBoard(m.target) && (clear ==> OnBoard(c))
    ensures |r| == 64 && r[m.start] == None
    ensures m.start != m.target ==> r[m.target] == piece
    ensures clear && c != m.start && c != m.target ==> r[c] == None
    ensures forall i :: 0 <= i < 64 && i != m.start && i != m.target && !(clear && i == c) ==> r[i] == sq[i]
  {
    var a := if clear then sq[c := None] else sq;
    a[m.target := piece][m.start := None]
  }

  /** The rook move of castling: a king move of two squares towards the kingside brings the
      piece at start + 3 to target - 1; towards the queenside it brings the piece at
      start - 4 to target + 1. */
  function CastleRook(sq: seq<Code>, m: Move): (r: seq<Code>)
    requires |sq| == 64 && OnBoard(m.start) && OnBoard(m.target)
    requires m.target == m.start + 2 ==> m.start + 3 < 64
    requires m.target == m.start - 2 ==> 0 <= m.start - 4
    ensures |r| == 64
    ensures m.target == m.start + 2 ==> r == sq[m.start + 1 := sq[m.start + 3]][m.start + 3 := None]
    ensures m.target == m.start - 2 ==> r == sq[m.start - 1 := sq[m.start - 4]][m.start - 4 := None]
    ensures m.target != m.start + 2 && m.target != m.start - 2 ==> r == sq
  {
    if m.target == m.start + 2 then sq[m.target - 1 := sq[m.start + 3]][m.start + 3 := None]
    else if m.target == m.start - 2 then sq[m.target + 1 := sq[m.start - 4]][m.start - 4 := None]
    else sq
  }

  /** UnmakeMove's undoing of the castling rook move: the rook goes back to its corner and
      the square it stood on is emptied. */
  function UncastleRook(sq: seq<Code>, m: Move): (r: seq<Code>)
    requires |sq| == 64 && OnBoard(m.start) && OnBoard(m.target)
    requires m.target == m.start + 2 ==> m.start + 3 < 64
    requires m.target == m.start - 2 ==> 0 <= m.start - 4
    ensures |r| == 64
  {
    if m.target == m.start + 2 then sq[m.start + 3 := sq[m.target - 1]][m.target - 1 := None]
    else if m.target == m.start - 2 then sq[m.start - 4 := sq[m.target + 1]][m.target + 1 := None]
    else sq
  }

  /** The pawn branch of MakeMove before the common last writes: an en-passant capture
      empties the square behind the target, a two-step push sets the en-passant target to
      the square passed over, and any other pawn move clears it. */
  function PreparePawn(p: Position, m: Move): (q: Position)
    requires SafeToMake(p, m) && TypeOf(p.squares[m.start]) == Pawn
  {
    var step := Step(IsWhite(p.squares[m.start]));
    var sq := if IsEnPassantCapture(p, m) then p.squares[m.target - step := None] else p.squares;
    p.(squares := sq, enPassant := if m.target == m.start + 2 * step then m.start + step else -1)
  }

  /** The king branch: the side's king square follows the king, both of the side's castling
      rights go, and a two-square move brings the rook from the corner. */
  function PrepareKing(p: Position, m: Move): (q: Position)
    requires SafeToMake(p, m) && TypeOf(p.squares[m.start]) == King
  {
    var k := if IsWhite(p.squares[m.start]) then p.(whiteKingSquare := m.target, whiteKingside := false, whiteQueenside := false)
             else p.(blackKingSquare := m.target, blackKingside := false, blackQueenside := false);
    k.(squares := CastleRook(p.squares, m))
  }

  /** The rook branch: a rook leaving a corner square takes away the castling right on that
      side. */
  function PrepareRook(p: Position, m: Move): (q: Position)
    requires SafeToMake(p, m) && TypeOf(p.squares[m.start]) == Rook
  {
    if IsWhite(p.squares[m.start]) then
      (if m.start == 0 then p.(whiteQueenside := false)
       else if m.start == 7 then p.(whiteKingside := false)
       else p)
    else
      (if m.start == 56 then p.(blackQueenside := false)
       else if m.start == 63 then p.(blackKingside := false)
       else p)
  }

  /** What MakeMove's branch for the moving type does before the common last writes;
      other types have no branch. */
  function Prepare(p: Position, m: Move): (q: Position)
    requires SafeToMake(p, m)
  {
    var t := TypeOf(p.squares[m.start]);
    if t == Pawn then PreparePawn(p, m)
    else if t == King then PrepareKing(p, m)
    else if t == Rook then PrepareRook(p, m)
    else p
  }

  /** The code MakeMove writes on the target: the promoted piece for a pawn that names a
      promotion, the moving code otherwise. */
  function Moving(p: Position, m: Move): Code
    requires WellFormed(p) && OnBoard(m.start)
  {
    var piece := p.squares[m.start];
    if TypeOf(piece) == Pawn then Landed(piece, m.promotion) else piece
  }

  /** MakeMove on a position: the branch of the moving type, then the moving (possibly
      promoted) code on the target, the start emptied and the turn passed. Nothing outside
      the touched squares changes, and only a pawn move changes the en-passant target. */
  function Make(p: Position, m: Move): (q: Position)
    requires SafeToMake(p, m)
    ensures WellFormed(q)
    ensures q.squares[m.start] == None
    ensures m.start != m.target ==> q.squares[m.target] == Moving(p, m)
    ensures forall i :: 0 <= i < 64 && !Touches(p, m, i) ==> q.squares[i] == p.squares[i]
    ensures q.whiteToMove == !p.whiteToMove
    ensures TypeOf(p.squares[m.start]) != Pawn ==> q.enPassant == p.enPassant
    ensures TypeOf(p.squares[m.start]) != King ==>
      q.whiteKingSquare == p.whiteKingSquare && q.blackKingSquare == p.blackKingSquare
  {
    Land(Prepare(p, m), m, Moving(p, m))
  }

  /** A pawn move: an en-passant capture also empties the square behind the target, a
      two-step push sets the en-passant target to the square passed over, any other pawn
      move clears it; rights and king squares stay. */
  lemma MakePawnEffect(p: Position, m: Move)
    requires SafeToMake(p, m) && TypeOf(p.squares[m.start]) == Pawn
    ensures Make(p, m).squares ==
      Write(p.squares, m, IsEnPassantCapture(p, m), m.target - Step(IsWhite(p.squares[m.start])), Moving(p, m))
    ensures Make(p, m).enPassant ==
      (if m.target == m.start + 2 * Step(IsWhite(p.squares[m.start])) then m.start + Step(IsWhite(p.squares[m.start])) else -1)
    ensures Make(p, m).(squares := p.squares, enPassant := p.enPassant, whiteToMove := p.whiteToMove) == p
  {
  }

  /** A king move: the side's king square follows the king and both of the side's castling
      rights go, the other side's stay; a two-square move also brings the rook from the
      corner (start + 3 or start - 4) to the square the king passed over. */
  lemma MakeKingEffect(p: Position, m: Move)
    requires SafeToMake(p, m) && TypeOf(p.squares[m.start]) == King
    ensures Make(p, m).squares == CastleRook(p.squares, m)[m.target := p.squares[m.start]][m.start := None]
    ensures IsWhite(p.squares[m.start]) ==>
      Make(p, m).whiteKingSquare == m.target && !Make(p, m).whiteKingside && !Make(p, m).whiteQueenside &&
      Make(p, m).blackKingSquare == p.blackKingSquare &&
      Make(p, m).blackKingside == p.blackKingside && Make(p, m).blackQueenside == p.blackQueenside
    ensures !IsWhite(p.squares[m.start]) ==>
      Make(p, m).blackKingSquare == m.target && !Make(p, m).blackKingside && !Make(p, m).blackQueenside &&
      Make(p, m).whiteKingSquare == p.whiteKingSquare &&
      Make(p, m).whiteKingside == p.whiteKingside && Make(p, m).whiteQueenside == p.whiteQueenside
  {
  }

  /** A rook move: leaving a corner square takes away the castling right on that side, and
      only that one. */
  lemma MakeRookEffect(p: Position, m: Move)
    requires SafeToMake(p, m) && TypeOf(p.squares[m.start]) == Rook
    ensures Make(p, m).whiteQueenside == (p.whiteQueenside && !(IsWhite(p.squares[m.start]) && m.start == 0))
    ensures Make(p, m).whiteKingside == (p.whiteKingside && !(IsWhite(p.squares[m.start]) && m.start == 7))
    ensures Make(p, m).blackQueenside == (p.blackQueenside && !(!IsWhite(p.squares[m.start]) && m.start == 56))
    ensures Make(p, m).blackKingside == (p.blackKingside && !(!IsWhite(p.squares[m.start]) && m.start == 63))
  {
  }

  /** Any other piece changes nothing but its two squares and the turn. */
  lemma MakeOtherEffect(p: Position, m: Move)
    requires SafeToMake(p, m)
    requires TypeOf(p.squares[m.start]) != Pawn && TypeOf(p.squares[m.start]) != King && TypeOf(p.squares[m.start]) != Rook
    ensures Make(p, m) == p.(squares := p.squares[m.target := p.squares[m.start]][m.start := None], whiteToMove := !p.whiteToMove)
  {
  }

  /** SaveState on a position. */
  function Save(p: Position, m: Move): (s: MoveState)
    requires SafeToSave(p, m)
    ensures s.pieceMoved == p.squares[m.start]
    ensures s.capturedIndex == CaptureSquare(p, m) && s.capturedPiece == p.squares[s.capturedIndex]
    ensures s.enPassant == p.enPassant
  {
    var i := CaptureSquare(p, m);
    MoveState(p.squares[m.start], p.squares[i], i,
              p.whiteKingside, p.whiteQueenside, p.blackKingside, p.blackQueenside,
              p.enPassant, p.whiteKingSquare, p.blackKingSquare)
  }

  /** RestoreState: the rights, the en-passant target and the king squares come back from the
      record; squares and turn are left alone. */
  function Restore(p: Position, s: MoveState): (q: Position)
    ensures q.squares == p.squares && q.whiteToMove == p.whiteToMove
    ensures q.enPassant == s.enPassant
  {
    p.(whiteKingside := s.whiteKingside, whiteQueenside := s.whiteQueenside,
       blackKingside := s.blackKingside, blackQueenside := s.blackQueenside,
       enPassant := s.enPassant,
       whiteKingSquare := s.whiteKingSquare, blackKingSquare := s.blackKingSquare)
  }

  /** The squares UnmakeMove puts back: the moved piece on its start, the taken piece on its
      square (the target being emptied when that square lies elsewhere). */
  function PutBack(sq: seq<Code>, m: Move, s: MoveState): seq<Code>
    requires |sq| == 64 && OnBoard(m.start) && OnBoard(m.target)
    requires s.capturedIndex == m.target || s.capturedIndex < 0 || OnBoard(s.capturedIndex)
  {
    var a := sq[m.start := s.pieceMoved];
    if s.capturedIndex == m.target || s.capturedIndex < 0 then a[m.target := s.capturedPiece]
    else a[m.target := None][s.capturedIndex := s.capturedPiece]
  }

  /** The indices UnmakeMove reads and writes all exist. */
  predicate SafeToUnmake(p: Position, m: Move, s: MoveState) {
    WellFormed(p) && OnBoard(m.start) && OnBoard(m.target) &&
    (s.capturedIndex == m.target || s.capturedIndex < 0 || OnBoard(s.capturedIndex)) &&
    (TypeOf(s.pieceMoved) == King && m.target == m.start + 2 ==> m.start + 3 < 64) &&
    (TypeOf(s.pieceMoved) == King && m.target == m.start - 2 ==> 0 <= m.start - 4)
  }

  /** UnmakeMove on a position. */
  function Unmake(p: Position, m: Move, s: MoveState): (q: Position)
    requires SafeToUnmake(p, m, s)
    ensures WellFormed(q)
    ensures q.whiteToMove == !p.whiteToMove
    ensures q.enPassant == s.enPassant
    ensures q.whiteKingSquare == s.whiteKingSquare && q.blackKingSquare == s.blackKingSquare
  {
    var sq := PutBack(p.squares, m, s);
    var sq' := if TypeOf(s.pieceMoved) == King then UncastleRook(sq, m) else sq;
    Restore(p, s).(squares := sq', whiteToMove := !p.whiteToMove)
  }

  /** The conditions under which a move can be taken back exactly: the indices exist, and
      the squares that the source's bookkeeping assumes empty are empty — the en-passant
      target when a pawn moves onto it, and the square the rook lands on when castling. */
  predicate Restorable(p: Position, m: Move) {
    SafeToMake(p, m) && SafeToSave(p, m) &&
    (TypeOf(p.squares[m.start]) == Pawn && m.target == p.enPassant ==> p.squares[m.target] == None) &&
    (IsCastleKingside(p, m) ==> p.squares[m.start + 1] == None) &&
    (IsCastleQueenside(p, m) ==> p.squares[m.start - 1] == None)
  }

  lemma SafeAfterMake(p: Position, m: Move)
    requires SafeToMake(p, m) && SafeToSave(p, m)
    ensures SafeToUnmake(Make(p, m), m, Save(p, m))
  {
  }

  /** Putting back what was saved undoes the square writes of a move: the saved piece
      returns to the start, and the saved capture to its square, provided an extra cleared
      square is the capture square and the target was empty when the capture lay elsewhere. */
  lemma PutBackWrite(sq: seq<Code>, m: Move, clear: bool, c: int, piece: Code, s: MoveState)
    requires |sq| == 64 && OnBoard(m.start) && OnBoard(m.target) && (clear ==> OnBoard(c))
    requires OnBoard(s.capturedIndex)
    requires s.pieceMoved == sq[m.start] && s.capturedPiece == sq[s.capturedIndex]
    requires clear ==> c == s.capturedIndex
    requires s.capturedIndex != m.target ==> sq[m.target] == None
    ensures PutBack(Write(sq, m, clear, c, piece), m, s) == sq
  {
    var r := PutBack(Write(sq, m, clear, c, piece), m, s);
    assert forall i :: 0 <= i < 64 ==> r[i] == sq[i];
  }

  /** Moving the castling rook and moving it back restores the squares, provided the square
      the rook lands on was empty. */
  lemma UncastleCastle(sq: seq<Code>, m: Move, piece: Code, captured: Code)
    requires |sq| == 64 && OnBoard(m.start) && OnBoard(m.target)
    requires m.target == m.start + 2 ==> m.start + 3 < 64 && sq[m.start + 1] == None
    requires m.target == m.start - 2 ==> 0 <= m.start - 4 && sq[m.start - 1] == None
    requires piece == sq[m.start] && captured == sq[m.target]
    ensures UncastleRook(CastleRook(sq, m)[m.target := piece][m.start := None][m.start := piece][m.target := captured], m) == sq
  {
    var r := UncastleRook(CastleRook(sq, m)[m.target := piece][m.start := None][m.start := piece][m.target := captured], m);
    assert forall i :: 0 <= i < 64 ==> r[i] == sq[i];
  }

  lemma RoundTripPawn(p: Position, m: Move)
    requires Restorable(p, m) && TypeOf(p.squares[m.start]) == Pawn
    ensures SafeToUnmake(Make(p, m), m, Save(p, m))
    ensures Unmake(Make(p, m), m, Save(p, m)) == p
  {
    var piece := p.squares[m.start];
    var s := Save(p, m);
    var step := Step(IsWhite(piece));
    MakePawnEffect(p, m);
    PutBackWrite(p.squares, m, IsEnPassantCapture(p, m), m.target - step, Landed(piece, m.promotion), s);
  }

  lemma RoundTripKing(p: Position, m: Move)
    requires Restorable(p, m) && TypeOf(p.squares[m.start]) == King
    ensures SafeToUnmake(Make(p, m), m, Save(p, m))
    ensures Unmake(Make(p, m), m, Save(p, m)) == p
  {
    var piece := p.squares[m.start];
    var q, s := Make(p, m), Save(p, m);
    MakeKingEffect(p, m);
    assert s.capturedIndex == m.target;
    assert PutBack(q.squares, m, s) == q.squares[m.start := piece][m.target := p.squares[m.target]];
    UncastleCastle(p.squares, m, piece, p.squares[m.target]);
    assert Unmake(q, m, s).squares == p.squares;
  }

  lemma RoundTripOther(p: Position, m: Move)
    requires Restorable(p, m) && TypeOf(p.squares[m.start]) != Pawn && TypeOf(p.squares[m.start]) != King
    ensures SafeToUnmake(Make(p, m), m, Save(p, m))
    ensures Unmake(Make(p, m), m, Save(p, m)) == p
  {
    var s := Save(p, m);
    if TypeOf(p.squares[m.start]) == Rook {
      MakeRookEffect(p, m);
    } else {
      MakeOtherEffect(p, m);
    }
    PutBackWrite(p.squares, m, false, 0, p.squares[m.start], s);
  }

  /** SaveState, MakeMove, UnmakeMove leave the position exactly as it was. */
  lemma MakeUnmakeRoundTrip(p: Position, m: Move)
    requires Restorable(p, m)
    ensures SafeToUnmake(Make(p, m), m, Save(p, m))
    ensures Unmake(Make(p, m), m, Save(p, m)) == p
  {
    var t := TypeOf(p.squares[m.start]);
    if t == Pawn {
      RoundTripPawn(p, m);
    } else if t == King {
      RoundTripKing(p, m);
    } else {
      RoundTripOther(p, m);
    }
  }

  /** The en-passant target survives every non-pawn move, so it can name a square that a
      piece has since moved onto. A pawn capturing that piece is then recorded as an
      en-passant capture, and taking the move back loses the captured piece: here white has
      just played e2-e4 (en-passant target e3), black's knight has gone to e3, and the pawn
      on d2 takes it. */
  lemma StaleEnPassantLosesPiece()
    ensures exists p: Position, m: Move ::
      SafeToMake(p, m) && SafeToSave(p, m) &&
      Unmake(Make(p, m), m, Save(p, m)).squares[m.target] != p.squares[m.target]
  {
    var sq := seq(64, i => if i == 11 || i == 28 then White | Pawn else if i == 20 then Black | Knight else None);
    var p := Position(sq, true, true, true, true, 20, 4, 60, true);
    var m := Move(11, 20, None);
    assert IsEnPassantCapture(p, m);
    assert Unmake(Make(p, m), m, Save(p, m)).squares[20] == None;
  }
}
