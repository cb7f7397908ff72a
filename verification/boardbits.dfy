/** The twelve piece bitboards and three aggregates as functions of the 64 squares: what
    UpdateBitboards computes and what the bitboard move generator reads. */
module BoardBits {
  import opened Piece
  import opened Bits

  /** A code belongs on the bitboard of a side and a type: not empty, that colour bit, that
      type. A non-empty code whose type bits are 0 or 7 belongs on no board. */
  predicate Occupies(p: Code, white: bool, t: Code) {
    p != None && IsWhite(p) == white && TypeOf(p) == t
  }

  /** The squares among the first n that hold a piece of the given side and type. */
  function BitboardOf(sq: seq<Code>, n: nat, white: bool, t: Code): (b: Bitboard)
    requires n <= |sq| && n <= 64
    ensures InRange(b)
  {
    set j | 0 <= j < n && Occupies(sq[j], white, t)
  }

  lemma BitboardOfStep(sq: seq<Code>, n: nat, white: bool, t: Code)
    requires n < |sq| && n < 64
    ensures BitboardOf(sq, n + 1, white, t) ==
            if Occupies(sq[n], white, t) then BitboardOf(sq, n, white, t) + Bit(n)
            else BitboardOf(sq, n, white, t)
  {
  }

  /** The twelve piece boards, white pawns to black king. */
  datatype PieceBoards = PieceBoards(
    whitePawns: Bitboard, whiteKnights: Bitboard, whiteBishops: Bitboard,
    whiteRooks: Bitboard, whiteQueens: Bitboard, whiteKing: Bitboard,
    blackPawns: Bitboard, blackKnights: Bitboard, blackBishops: Bitboard,
    blackRooks: Bitboard, blackQueens: Bitboard, blackKing: Bitboard)

  const NoPieces := PieceBoards({}, {}, {}, {}, {}, {}, {}, {}, {}, {}, {}, {})

  /** The board of one side and type; types outside the six have none. */
  function Get(b: PieceBoards, white: bool, t: Code): Bitboard {
    if white then
      if t == Pawn then b.whitePawns else if t == Knight then b.whiteKnights
      else if t == Bishop then b.whiteBishops else if t == Rook then b.whiteRooks
      else if t == Queen then b.whiteQueens else if t == King then b.whiteKing else {}
    else
      if t == Pawn then b.blackPawns else if t == Knight then b.blackKnights
      else if t == Bishop then b.blackBishops else if t == Rook then b.blackRooks
      else if t == Queen then b.blackQueens else if t == King then b.blackKing else {}
  }

  /** One pass of UpdateBitboards' loop: an empty square is skipped; otherwise square i joins
      the board its colour bit and type bits select, and a code with type bits 0 or 7 matches
      no case and joins none. */
  function AddSquare(b: PieceBoards, p: Code, i: int): PieceBoards
    requires 0 <= i < 64
  {
    if p == None then b
    else
      var t := TypeOf(p);
      if IsWhite(p) then
        if t == Pawn then b.(whitePawns := b.whitePawns + Bit(i))
        else if t == Knight then b.(whiteKnights := b.whiteKnights + Bit(i))
        else if t == Bishop then b.(whiteBishops := b.whiteBishops + Bit(i))
        else if t == Rook then b.(whiteRooks := b.whiteRooks + Bit(i))
        else if t == Queen then b.(whiteQueens := b.whiteQueens + Bit(i))
        else if t == King then b.(whiteKing := b.whiteKing + Bit(i))
        else b
      else
        if t == Pawn then b.(blackPawns := b.blackPawns + Bit(i))
        else if t == Knight then b.(blackKnights := b.blackKnights + Bit(i))
        else if t == Bishop then b.(blackBishops := b.blackBishops + Bit(i))
        else if t == Rook then b.(blackRooks := b.blackRooks + Bit(i))
        else if t == Queen then b.(blackQueens := b.blackQueens + Bit(i))
        else if t == King then b.(blackKing := b.blackKing + Bit(i))
        else b
  }

  /** The loop of UpdateBitboards over the first n squares, from all-empty boards. */
  function Scan(sq: seq<Code>, n: nat): PieceBoards
    requires n <= |sq| && n <= 64
  {
    if n == 0 then NoPieces else AddSquare(Scan(sq, n - 1), sq[n - 1], n - 1)
  }

  /** A pass adds square i to exactly the one board of its side and type. */
  lemma GetAddSquare(b: PieceBoards, p: Code, i: int, white: bool, t: Code)
    requires 0 <= i < 64 && IsPieceType(t)
    ensures Get(AddSquare(b, p, i), white, t) ==
            if Occupies(p, white, t) then Get(b, white, t) + Bit(i) else Get(b, white, t)
  {
  }

  /** After the loop over n squares, each board holds exactly the squares among the first n
      with a piece of its side and type. */
  lemma {:induction false} ScanHolds(sq: seq<Code>, n: nat, white: bool, t: Code)
    requires n <= |sq| && n <= 64 && IsPieceType(t)
    ensures Get(Scan(sq, n), white, t) == BitboardOf(sq, n, white, t)
    decreases n
  {
    if n > 0 {
      ScanHolds(sq, n - 1, white, t);
      GetAddSquare(Scan(sq, n - 1), sq[n - 1], n - 1, white, t);
      BitboardOfStep(sq, n - 1, white, t);
    }
  }

  /** A code is on the board of at most one side and type. */
  lemma OccupiesUnique(p: Code, w1: bool, t1: Code, w2: bool, t2: Code)
    requires Occupies(p, w1, t1) && Occupies(p, w2, t2)
    ensures w1 == w2 && t1 == t2
  {
  }

  /** All pieces of one side (`WhitePiecesBB` / `BlackPiecesBB`): the union of its six
      boards, pawns first. */
  function Side(b: PieceBoards, white: bool): Bitboard {
    Get(b, white, Pawn) + Get(b, white, Knight) + Get(b, white, Bishop) +
    Get(b, white, Rook) + Get(b, white, Queen) + Get(b, white, King)
  }

  /** A square holds a piece of a side, as the bitboards see it: a code of that colour whose
      type is one of the six. */
  predicate HoldsSide(p: Code, white: bool) {
    p != None && IsWhite(p) == white && IsPieceType(TypeOf(p))
  }

  /** After the full loop, a side's board holds exactly the squares with a piece of that
      side. */
  lemma SideHolds(sq: seq<Code>, white: bool, j: int)
    requires |sq| == 64
    ensures j in Side(Scan(sq, 64), white) <==> 0 <= j < 64 && HoldsSide(sq[j], white)
  {
    ScanHolds(sq, 64, white, Pawn);
    ScanHolds(sq, 64, white, Knight);
    ScanHolds(sq, 64, white, Bishop);
    ScanHolds(sq, 64, white, Rook);
    ScanHolds(sq, 64, white, Queen);
    ScanHolds(sq, 64, white, King);
  }

  /** After the full loop, `OccupiedBB` holds exactly the squares with a code of a piece
      type; non-empty codes with type bits 0 or 7 count as empty. */
  lemma OccupiedHolds(sq: seq<Code>, j: int)
    requires |sq| == 64
    ensures j in Side(Scan(sq, 64), true) + Side(Scan(sq, 64), false) <==>
            0 <= j < 64 && sq[j] != None && IsPieceType(TypeOf(sq[j]))
  {
    SideHolds(sq, true, j);
    SideHolds(sq, false, j);
  }

  /** The two sides' boards never share a square. */
  lemma SidesDisjoint(sq: seq<Code>)
    requires |sq| == 64
    ensures Side(Scan(sq, 64), true) * Side(Scan(sq, 64), false) == {}
  {
    forall j | j in Side(Scan(sq, 64), true)
      ensures j !in Side(Scan(sq, 64), false)
    {
      SideHolds(sq, true, j);
      SideHolds(sq, false, j);
    }
  }
}
