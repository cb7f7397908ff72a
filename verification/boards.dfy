/** The mutable board: the 64-square array, the castling rights, the en-passant target, the
    twelve piece bitboards and their three unions, together with the side to move and the
    two king squares (which the source keeps beside the board, in the move generator's
    statics). Each method is proved against the value-level functions of Positions, Fen and
    BoardBits. */
module Boards {
  import opened Piece
  import opened Bits
  import opened Positions
  import opened Fen
  import opened BoardBits

  /** How LoadPositionFromFen ends: it loads, or it throws because the string has fewer than
      six space-separated fields, or because the placement field names a square off the
      array. */
  datatype LoadOutcome = Loaded | InvalidFen | IndexOutOfRange

  /** The body of UpdateBitboards' loop: an empty square is skipped; otherwise the square's
      bit joins the board that its colour bit and type bits select, and a code with type
      bits 0 or 7 joins none. */
  method ScanSquare(b: PieceBoards, p: Code, i: int) returns (r: PieceBoards)
    requires 0 <= i < 64
    ensures r == AddSquare(b, p, i)
    ensures forall white: bool, t: Code :: IsPieceType(t) ==>
      Get(r, white, t) == if Occupies(p, white, t) then Get(b, white, t) + Bit(i) else Get(b, white, t)
  {
    r := b;
    if p == None {
      return;
    }
    var bit := Bit(i);
    var white := IsWhite(p);
    var t := TypeOf(p);
    if white {
      if t == Pawn { r := r.(whitePawns := r.whitePawns + bit); }
      else if t == Knight { r := r.(whiteKnights := r.whiteKnights + bit); }
      else if t == Bishop { r := r.(whiteBishops := r.whiteBishops + bit); }
      else if t == Rook { r := r.(whiteRooks := r.whiteRooks + bit); }
      else if t == Queen { r := r.(whiteQueens := r.whiteQueens + bit); }
      else if t == King { r := r.(whiteKing := r.whiteKing + bit); }
    } else {
      if t == Pawn { r := r.(blackPawns := r.blackPawns + bit); }
      else if t == Knight { r := r.(blackKnights := r.blackKnights + bit); }
      else if t == Bishop { r := r.(blackBishops := r.blackBishops + bit); }
      else if t == Rook { r := r.(blackRooks := r.blackRooks + bit); }
      else if t == Queen { r := r.(blackQueens := r.blackQueens + bit); }
      else if t == King { r := r.(blackKing := r.blackKing + bit); }
    }
    forall white: bool, t: Code | IsPieceType(t)
      ensures Get(r, white, t) == if Occupies(p, white, t) then Get(b, white, t) + Bit(i) else Get(b, white, t)
    {
      GetAddSquare(b, p, i, white, t);
    }
  }

  class Board {
    /** The 64-square array, held as a sequence that the methods reassign. */
    var square: seq<Code>
    var whiteKingside: bool
    var whiteQueenside: bool
    var blackKingside: bool
    var blackQueenside: bool
    var enPassant: int
    var whiteKingSquare: int
    var blackKingSquare: int
    var whiteToMove: bool

    /** The twelve piece bitboards (`WhitePawns` to `BlackKing`), held as one record. */
    var pieces: PieceBoards
    var whitePieces: Bitboard
    var blackPieces: Bitboard
    var occupied: Bitboard

    predicate Valid()
      reads this
    {
      |square| == 64
    }

    /** The board as a value. */
    function State(): Position
      reads this`whiteKingside, this`whiteQueenside, this`blackKingside, this`blackQueenside
      reads this`enPassant, this`whiteKingSquare, this`blackKingSquare, this`whiteToMove, this`square
    {
      Position(square, whiteKingside, whiteQueenside, blackKingside, blackQueenside,
               enPassant, whiteKingSquare, blackKingSquare, whiteToMove)
    }

    /** Every bitboard agrees with the array: the piece boards are what the loop of
        UpdateBitboards computes over all 64 squares, the side boards their unions, and
        `occupied` the union of both sides (see BoardBits.ScanHolds and SideHolds for what
        they then hold). */
    predicate Synced()
      reads this
      requires Valid()
    {
      pieces == Scan(square, 64) &&
      whitePieces == Side(pieces, true) &&
      blackPieces == Side(pieces, false) &&
      occupied == whitePieces + blackPieces
    }

    /** The static constructor: an empty array, all castling rights, no en-passant target,
        white to move with the kings on e1 and e8, then the start position loaded. */
    constructor ()
      ensures Valid()
      ensures whiteKingside && whiteQueenside && blackKingside && blackQueenside
      ensures enPassant == -1 && whiteToMove
      ensures whiteKingSquare == 4 && blackKingSquare == 60
      ensures var r := Load(NoSquares, StartFen);
        && (r.Parsed? ==> square == r.placement.squares)
        && (r.Parsed? && r.placement.Placed? ==> Synced())
    {
      square := NoSquares;
      whiteKingside, whiteQueenside, blackKingside, blackQueenside := true, true, true, true;
      enPassant := -1;
      whiteToMove := true;
      whiteKingSquare, blackKingSquare := 4, 60;
      new;
      var _ := LoadPositionFromFen(StartFen);
    }

    /** Rebuilds every bitboard from the array; nothing else changes. The twelve boards are
        accumulated in a local record and stored once the scan is over, which no reader can
        tell apart from updating them square by square. */
    method UpdateBitboards()
      requires Valid()
      modifies this
      ensures Valid() && Synced()
      ensures State() == old(State())
    {
      var b := NoPieces;
      for i := 0 to 64
        invariant unchanged(this)
        invariant b == Scan(square, i)
      {
        b := ScanSquare(b, square[i], i);
      }
      pieces := b;
      whitePieces := b.whitePawns + b.whiteKnights + b.whiteBishops + b.whiteRooks + b.whiteQueens + b.whiteKing;
      blackPieces := b.blackPawns + b.blackKnights + b.blackBishops + b.blackRooks + b.blackQueens + b.blackKing;
      occupied := whitePieces + blackPieces;
    }

    /** Reads the placement field of a FEN string into the array, rank 7 first, then rebuilds
        the bitboards. The other fields are split off but not read, so side to move, castling
        rights and en-passant target keep their values. */
    method LoadPositionFromFen(fen: string) returns (outcome: LoadOutcome)
      requires Valid()
      modifies this
      ensures Valid()
      ensures var r := Load(old(square), fen);
        && (r.TooFewFields? <==> outcome == InvalidFen)
        && (r.TooFewFields? ==> unchanged(this))
        && (r.Parsed? ==> square == r.placement.squares)
        && (r.Parsed? && r.placement.Placed? ==> outcome == Loaded && Synced())
        && (r.Parsed? && r.placement.OffBoard? ==>
              outcome == IndexOutOfRange && unchanged(this`pieces, this`whitePieces, this`blackPieces, this`occupied))
      ensures State().(squares := old(State()).squares) == old(State())
    {
      SplitJoin(fen);
      var parts := Fields(fen);
      if |parts| < 6 {
        return InvalidFen;
      }
      var placement := parts[0];
      var file, rank := 0, 7;
      for k := 0 to |placement|
        invariant |square| == 64
        invariant Place(old(square), placement, 7, 0) == Place(square, placement[k..], rank, file)
        invariant State().(squares := old(State()).squares) == old(State())
        invariant unchanged(this`pieces, this`whitePieces, this`blackPieces, this`occupied)
      {
        var c := placement[k];
        assert placement[k..][1..] == placement[k + 1..];
        if c == '/' {
          rank := rank - 1;
          file := 0;
        } else if IsDigit(c) {
          file := file + (c as int - '0' as int);
        } else {
          if !(0 <= rank * 8 + file < 64) {
            return IndexOutOfRange;
          }
          square := square[rank * 8 + file := PieceFromChar(c)];
          file := file + 1;
        }
      }
      assert placement[|placement|..] == [];
      UpdateBitboards();
      return Loaded;
    }

    /** MakeMove's pawn branch: the code that lands (promoted when the move names a
        promotion), the pawn taken en passant removed, and the en-passant target set by a
        two-step push and cleared by any other pawn move. */
    method MovePawn(m: Move) returns (piece: Code)
      requires Valid() && SafeToMake(State(), m) && TypeOf(square[m.start]) == Pawn
      modifies this`square, this`enPassant
      ensures Valid()
      ensures State() == PreparePawn(old(State()), m) && piece == Moving(old(State()), m)
    {
      piece := square[m.start];
      var isWhitePiece := IsWhite(piece);
      var step := if isWhitePiece then 8 else -8;
      if m.promotion != None {
        piece := ColourBit(isWhitePiece) | m.promotion;
      }
      if m.target == enPassant && (m.start + step + 1 == m.target || m.start + step - 1 == m.target) {
        square := square[m.target - step := None];
      }
      if m.target == m.start + 2 * step {
        enPassant := m.start + step;
      } else {
        enPassant := -1;
      }
    }

    /** MakeMove's king branch: the side's king square follows the king, the side loses both
        castling rights, and a two-square move brings the rook over from its corner. */
    method MoveKing(m: Move)
      requires Valid() && SafeToMake(State(), m) && TypeOf(square[m.start]) == King
      modifies this`square, this`whiteKingSquare, this`blackKingSquare
      modifies this`whiteKingside, this`whiteQueenside, this`blackKingside, this`blackQueenside
      ensures Valid()
      ensures State() == PrepareKing(old(State()), m)
    {
      if IsWhite(square[m.start]) {
        whiteKingSquare := m.target;
        whiteKingside, whiteQueenside := false, false;
      } else {
        blackKingSquare := m.target;
        blackKingside, blackQueenside := false, false;
      }
      if m.target == m.start + 2 {
        square := square[m.target - 1 := square[m.start + 3]][m.start + 3 := None];
      } else if m.target == m.start - 2 {
        square := square[m.target + 1 := square[m.start - 4]][m.start - 4 := None];
      }
    }

    /** MakeMove's rook branch: a rook leaving its corner gives up castling on that side. */
    method MoveRook(m: Move)
      requires Valid() && SafeToMake(State(), m) && TypeOf(square[m.start]) == Rook
      modifies this`whiteKingside, this`whiteQueenside, this`blackKingside, this`blackQueenside
      ensures State() == PrepareRook(old(State()), m)
    {
      if IsWhite(square[m.start]) {
        if m.start == 0 {
          whiteQueenside := false;
        } else if m.start == 7 {
          whiteKingside := false;
        }
      } else {
        if m.start == 56 {
          blackQueenside := false;
        } else if m.start == 63 {
          blackKingside := false;
        }
      }
    }

    /** The branch of MakeMove for the moving type; other types have none. Returns the code
        that lands on the target. */
    method PrepareMove(m: Move) returns (piece: Code)
      requires Valid() && SafeToMake(State(), m)
      modifies this`square, this`enPassant, this`whiteKingSquare, this`blackKingSquare
      modifies this`whiteKingside, this`whiteQueenside, this`blackKingside, this`blackQueenside
      ensures Valid()
      ensures State() == Prepare(old(State()), m) && piece == Moving(old(State()), m)
    {
      piece := square[m.start];
      var t := TypeOf(piece);
      if t == Pawn {
        piece := MovePawn(m);
      } else if t == King {
        MoveKing(m);
      } else if t == Rook {
        MoveRook(m);
      }
    }

    /** MakeMove's common last writes: the code on the target, the start emptied, the turn
        passed. */
    method LandPiece(m: Move, piece: Code)
      requires Valid() && OnBoard(m.start) && OnBoard(m.target)
      modifies this`square, this`whiteToMove
      ensures Valid()
      ensures State() == Land(old(State()), m, piece)
    {
      square := square[m.target := piece][m.start := None];
      whiteToMove := !whiteToMove;
    }

    /** MakeMove: plays a move on the board, as Positions.Make describes, and rebuilds the
        bitboards. */
    method MakeMove(m: Move)
      requires Valid() && SafeToMake(State(), m)
      modifies this
      ensures Valid() && Synced()
      ensures State() == Make(old(State()), m)
    {
      var piece := PrepareMove(m);
      LandPiece(m, piece);
      UpdateBitboards();
    }

    /** SaveState: what MakeMove is about to overwrite. */
    method SaveState(m: Move) returns (s: MoveState)
      requires Valid() && SafeToSave(State(), m)
      ensures s == Save(State(), m)
    {
      var pieceMoved := square[m.start];
      var capturedIndex := m.target;
      var capturedPiece := square[m.target];
      if TypeOf(pieceMoved) == Pawn && m.target == enPassant {
        var step := if IsWhite(pieceMoved) then 8 else -8;
        capturedIndex := m.target - step;
        capturedPiece := square[capturedIndex];
      }
      s := MoveState(pieceMoved, capturedPiece, capturedIndex,
                     whiteKingside, whiteQueenside, blackKingside, blackQueenside,
                     enPassant, whiteKingSquare, blackKingSquare);
    }

    /** RestoreState: rights, en-passant target and king squares come back from the record. */
    method RestoreState(s: MoveState)
      modifies this`whiteKingside, this`whiteQueenside, this`blackKingside, this`blackQueenside
      modifies this`enPassant, this`whiteKingSquare, this`blackKingSquare
      ensures State() == Restore(old(State()), s)
    {
      whiteKingside, whiteQueenside := s.whiteKingside, s.whiteQueenside;
      blackKingside, blackQueenside := s.blackKingside, s.blackQueenside;
      enPassant := s.enPassant;
      whiteKingSquare, blackKingSquare := s.whiteKingSquare, s.blackKingSquare;
    }

    /** UnmakeMove's first writes: the moved piece back on its start and the taken piece back
        on its square. */
    method PutBackPieces(m: Move, s: MoveState)
      requires Valid() && SafeToUnmake(State(), m, s)
      modifies this`square
      ensures Valid() && square == PutBack(old(square), m, s)
    {
      square := square[m.start := s.pieceMoved];
      if s.capturedIndex == m.target || s.capturedIndex < 0 {
        square := square[m.target := s.capturedPiece];
      } else {
        square := square[m.target := None][s.capturedIndex := s.capturedPiece];
      }
    }

    /** UnmakeMove's castling step: after a king move of two squares the rook goes back to its
        corner. */
    method PutBackRook(m: Move, s: MoveState)
      requires Valid() && SafeToUnmake(State(), m, s)
      modifies this`square
      ensures Valid()
      ensures square == if TypeOf(s.pieceMoved) == King then UncastleRook(old(square), m) else old(square)
    {
      if TypeOf(s.pieceMoved) == King {
        if m.target == m.start + 2 {
          square := square[m.start + 3 := square[m.target - 1]][m.target - 1 := None];
        } else if m.target == m.start - 2 {
          square := square[m.start - 4 := square[m.target + 1]][m.target + 1 := None];
        }
      }
    }

    /** UnmakeMove: takes a move back from its saved record and rebuilds the bitboards. */
    method UnmakeMove(m: Move, s: MoveState)
      requires Valid() && SafeToUnmake(State(), m, s)
      modifies this
      ensures Valid() && Synced()
      ensures State() == Unmake(old(State()), m, s)
    {
      PutBackPieces(m, s);
      RestoreState(s);
      PutBackRook(m, s);
      whiteToMove := !whiteToMove;
      UpdateBitboards();
    }

    /** Saves, makes and unmakes a move. When the move can be taken back exactly, the board
        ends as it began. */
    method MakeMoveAndUnmake(m: Move)
      requires Valid() && SafeToMake(State(), m) && SafeToSave(State(), m)
      modifies this
      ensures Valid() && Synced()
      ensures State() == Unmake(Make(old(State()), m), m, Save(old(State()), m))
      ensures Restorable(old(State()), m) ==> State() == old(State())
    {
      ghost var p := State();
      var s := SaveState(m);
      MakeMove(m);
      SafeAfterMake(p, m);
      UnmakeMove(m, s);
      if Restorable(p, m) {
        MakeUnmakeRoundTrip(p, m);
      }
    }
  }
}
