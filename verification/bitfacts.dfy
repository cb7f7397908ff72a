/** What the bitboard generator's lists contain: the knight and king moves read off the
    tables, the shape of the rook and bishop rays (including their quirks), the pawn moves,
    and where every generated move starts. */
module BitMoveFacts {
  import opened Piece
  import opened Positions
  import opened Bits
  import opened MoveRules
  import opened BitMoves

  /** The table loop yields one plain move to each listed square and nothing else. */
  lemma {:induction false} JumpMovesIff(from: int, targets: seq<int>, mv: Move)
    ensures mv in JumpMoves(from, targets) <==>
      mv.start == from && mv.promotion == None && mv.target in targets
  {
    if |targets| > 0 {
      var init := targets[..|targets| - 1];
      JumpMovesIff(from, init, mv);
      assert targets == init + [targets[|targets| - 1]];
    }
  }

  /** A knight moves by an L-shaped jump onto any square of the board that does not hold a
      piece of the side to move. */
  lemma KnightMovesIff(v: BitView, from: int, mv: Move)
    requires OnBoard(from) && |v.p.squares| == 64
    ensures mv in SquareMoves(v, Knights, from) <==>
      mv.start == from && mv.promotion == None && OnBoard(mv.target) &&
      IsKnightJump(from, mv.target) && mv.target !in Us(v)
  {
    var attacks := KnightTargets(from, KnightJumps) - Us(v);
    JumpMovesIff(from, Ascending(attacks), mv);
    AscendingSorted(attacks);
    KnightTargetsAreJumps(from, mv.target);
  }

  /** A king moves to any of its up to eight neighbours that does not hold a piece of the
      side to move; the bitboard generator offers no castling. */
  lemma KingMovesIff(v: BitView, from: int, mv: Move)
    requires OnBoard(from) && |v.p.squares| == 64
    ensures mv in SquareMoves(v, Kings, from) <==>
      mv.start == from && mv.promotion == None && OnBoard(mv.target) && mv.target != from &&
      Abs(mv.target / 8 - from / 8) <= 1 && Abs(mv.target % 8 - from % 8) <= 1 && mv.target !in Us(v)
  {
    var attacks := KingTargets(from) - Us(v);
    JumpMovesIff(from, Ascending(attacks), mv);
    AscendingSorted(attacks);
  }

  // ---------------------------------------------------------------- rays

  /** The k-th square of a rook ray that starts n steps out lies n + k steps along the
      direction and passes the loop's test, and every square before the last is empty. */
  lemma {:induction false} RookRayShape(occupied: Bitboard, from: int, dir: int, n: int, k: int)
    requires OnBoard(from) && IsRookDir(dir)
    requires 0 <= k < |RookRay(occupied, from, dir, Along(from, dir, n))|
    ensures RookRay(occupied, from, dir, Along(from, dir, n))[k] == Move(from, Along(from, dir, n + k), None)
    ensures RookContinues(from, dir, Along(from, dir, n + k))
    ensures k < |RookRay(occupied, from, dir, Along(from, dir, n))| - 1 ==> Along(from, dir, n + k) !in occupied
    decreases k
  {
    if k > 0 {
      assert Along(from, dir, n) + dir == Along(from, dir, n + 1);
      RookRayShape(occupied, from, dir, n + 1, k - 1);
    }
  }

  /** The ray reaches every square up to and including the first occupied one, whoever holds
      it: a rook is offered the capture of a piece of its own colour. */
  lemma {:induction false} RookRayReaches(occupied: Bitboard, from: int, dir: int, n: int, k: int)
    requires OnBoard(from) && IsRookDir(dir) && n <= k
    requires forall j :: n <= j <= k ==> RookContinues(from, dir, Along(from, dir, j))
    requires forall j :: n <= j < k ==> Along(from, dir, j) !in occupied
    ensures Move(from, Along(from, dir, k), None) in RookRay(occupied, from, dir, Along(from, dir, n))
    decreases k - n
  {
    if n < k {
      assert Along(from, dir, n) + dir == Along(from, dir, n + 1);
      RookRayReaches(occupied, from, dir, n + 1, k);
    }
  }

  /** The k-th square of a bishop ray that starts n steps out lies n + k steps along the
      diagonal, on the board and at most two files from the bishop, and every square before
      the last is empty. */
  lemma {:induction false} BishopRayShape(occupied: Bitboard, from: int, dir: int, n: int, k: int)
    requires OnBoard(from) && IsBishopDir(dir)
    requires 0 <= k < |BishopRay(occupied, from, dir, Along(from, dir, n))|
    ensures BishopRay(occupied, from, dir, Along(from, dir, n))[k] == Move(from, Along(from, dir, n + k), None)
    ensures BishopContinues(from, Along(from, dir, n + k))
    ensures k < |BishopRay(occupied, from, dir, Along(from, dir, n))| - 1 ==> Along(from, dir, n + k) !in occupied
    decreases k
  {
    if k > 0 {
      assert Along(from, dir, n) + dir == Along(from, dir, n + 1);
      BishopRayShape(occupied, from, dir, n + 1, k - 1);
    }
  }

  /** Three diagonal steps always land three or more files away (or wrap round the edge),
      so the two-file test ends every bishop ray after at most two squares: bishops and the
      diagonal half of a queen reach only their two nearest squares on each diagonal. */
  lemma BishopRayAtMostTwo(occupied: Bitboard, from: int, dir: int)
    requires OnBoard(from) && IsBishopDir(dir)
    ensures |BishopRay(occupied, from, dir, from + dir)| <= 2
  {
    var third := from + 3 * dir;
    var rank, file := from / 8, from % 8;
    var shift := if dir == 9 || dir == -7 then 3 else 5;
    var ranks := if dir == 9 then 3 else if dir == 7 then 2 else if dir == -7 then -3 else -4;
    assert third == 8 * (rank + ranks) + (file + shift);
    if file + shift < 8 {
      Split8(third, rank + ranks, file + shift);
    } else {
      Split8(third, rank + ranks + 1, file + shift - 8);
    }
    assert !BishopContinues(from, third);
    assert BishopRay(occupied, from, dir, third) == [];
    assert |BishopRay(occupied, from, dir, from + 2 * dir)| <= 1;
  }

  /** A bishop one step from the corner diagonal shows the cut: from b1 (square 1) on an
      empty board the up-right ray stops at d3 (square 19) instead of running on to g6. */
  lemma BishopRayStopsEarly()
    ensures BishopRay({}, 1, 9, 10) == [Move(1, 10, None), Move(1, 19, None)]
  {
    assert BishopRay({}, 1, 9, 28) == [];
  }

  // ---------------------------------------------------------------- pawns

  /** Every pawn move starts on the pawn's square, and the only promotion offered is to a
      queen, on the side's last rank. */
  lemma PawnMovesQueenOnly(v: BitView, from: int, mv: Move)
    requires OnBoard(from) && mv in PawnMovesBB(v, from)
    ensures mv.start == from
    ensures mv.promotion == None || (mv.promotion == Queen && mv.target / 8 == (if v.p.whiteToMove then 7 else 0))
  {
    var left, right := LeftOf(v, from), RightOf(v, from);
    if mv in PawnPushesBB(v, from) {
    } else if mv in PawnCaptureBB(v, from, left) {
    } else if mv in PawnCaptureBB(v, from, right) {
    } else {
      assert mv in PawnEnPassantBB(v, from);
    }
  }

  /** A single push: one step ahead onto an empty square, a queen on the last rank. */
  predicate IsPushBB(v: BitView, from: int, mv: Move) {
    var white := v.p.whiteToMove;
    mv.target == from + (if white then 8 else -8) && OnBoard(mv.target) && mv.target !in v.occupied &&
    mv.promotion == QueenOnLastRank(mv.target, if white then 7 else 0)
  }

  /** A double push: from the starting rank, two steps ahead over two empty squares. */
  predicate IsDoublePushBB(v: BitView, from: int, mv: Move) {
    var white := v.p.whiteToMove;
    var step := if white then 8 else -8;
    from / 8 == (if white then 1 else 6) && mv.target == from + 2 * step && mv.promotion == None &&
    OnBoard(from + step) && from + step !in v.occupied && OnBoard(mv.target) && mv.target !in v.occupied
  }

  /** A capture: onto one of the two capture squares, on the board, outside the pawn's
      file, where an opponent piece stands; a queen on the last rank. */
  predicate IsCaptureBB(v: BitView, from: int, mv: Move) {
    (mv.target == LeftOf(v, from) || mv.target == RightOf(v, from)) &&
    OnBoard(mv.target) && !SameFile(from, mv.target) && mv.target in Them(v) &&
    mv.promotion == QueenOnLastRank(mv.target, if v.p.whiteToMove then 7 else 0)
  }

  /** En passant: onto the en-passant target when it is one of the two capture squares. */
  predicate IsEnPassantBB(v: BitView, from: int, mv: Move) {
    v.p.enPassant >= 0 && mv.target == v.p.enPassant && mv.promotion == None &&
    (LeftOf(v, from) == v.p.enPassant || RightOf(v, from) == v.p.enPassant)
  }

  /** A pawn's bitboard moves are exactly its single pushes, double pushes, captures and
      en-passant captures, each starting on the pawn. */
  lemma PawnMovesIff(v: BitView, from: int, mv: Move)
    requires OnBoard(from)
    ensures mv in PawnMovesBB(v, from) <==>
      mv.start == from &&
      (IsPushBB(v, from, mv) || IsDoublePushBB(v, from, mv) || IsCaptureBB(v, from, mv) || IsEnPassantBB(v, from, mv))
  {
    var left, right := LeftOf(v, from), RightOf(v, from);
    assert mv in PawnMovesBB(v, from) <==>
      mv in PawnPushesBB(v, from) || mv in PawnCaptureBB(v, from, left) ||
      mv in PawnCaptureBB(v, from, right) || mv in PawnEnPassantBB(v, from);
  }

  /** The capture test only refuses the pawn's own file, so a white pawn on the h-file edge
      of the second rank (square 8, a2) "captures" square 15 (h2) on its own rank. */
  lemma PawnCaptureWraps(v: BitView)
    requires v.p.whiteToMove && 15 in v.black
    ensures Move(8, 15, None) in PawnMovesBB(v, 8)
    ensures SameRank(8, 15)
  {
    assert PawnCaptureBB(v, 8, LeftOf(v, 8)) == [Move(8, 15, None)];
  }

  /** En passant has no rank test: any pawn of the side to move whose capture square is the
      en-passant target is offered it, here a white pawn on its starting square a2. */
  lemma PawnEnPassantAnyRank(v: BitView)
    requires v.p.whiteToMove && v.p.enPassant == 17
    ensures Move(8, 17, None) in PawnMovesBB(v, 8)
  {
    assert PawnEnPassantBB(v, 8) == [Move(8, 17, None)];
  }

  // ---------------------------------------------------------------- whole list

  /** Every rook-ray move is a plain move from the rook's square onto the board. */
  lemma {:induction false} RookRaysStart(occupied: Bitboard, from: int, dirs: seq<int>, mv: Move)
    requires OnBoard(from) && forall k :: 0 <= k < |dirs| ==> IsRookDir(dirs[k])
    requires mv in RookRays(occupied, from, dirs)
    ensures mv.start == from && mv.promotion == None && OnBoard(mv.target)
  {
    var last := |dirs| - 1;
    if mv in RookRays(occupied, from, dirs[..last]) {
      RookRaysStart(occupied, from, dirs[..last], mv);
    } else {
      var ray := RookRay(occupied, from, dirs[last], from + dirs[last]);
      var k :| 0 <= k < |ray| && ray[k] == mv;
      assert from + dirs[last] == Along(from, dirs[last], 1);
      RookRayShape(occupied, from, dirs[last], 1, k);
    }
  }

  /** Every bishop-ray move is a plain move from the bishop's square onto the board. */
  lemma {:induction false} BishopRaysStart(occupied: Bitboard, from: int, dirs: seq<int>, mv: Move)
    requires OnBoard(from) && forall k :: 0 <= k < |dirs| ==> IsBishopDir(dirs[k])
    requires mv in BishopRays(occupied, from, dirs)
    ensures mv.start == from && mv.promotion == None && OnBoard(mv.target)
  {
    var last := |dirs| - 1;
    if mv in BishopRays(occupied, from, dirs[..last]) {
      BishopRaysStart(occupied, from, dirs[..last], mv);
    } else {
      var ray := BishopRay(occupied, from, dirs[last], from + dirs[last]);
      var k :| 0 <= k < |ray| && ray[k] == mv;
      assert from + dirs[last] == Along(from, dirs[last], 1);
      BishopRayShape(occupied, from, dirs[last], 1, k);
    }
  }

  /** Every move generated for a square starts on that square. */
  lemma SquareMovesStart(v: BitView, g: Group, from: int, mv: Move)
    requires OnBoard(from) && |v.p.squares| == 64 && mv in SquareMoves(v, g, from)
    ensures mv.start == from
  {
    match g
    case Pawns => PawnMovesQueenOnly(v, from, mv);
    case Knights => KnightMovesIff(v, from, mv);
    case Kings => KingMovesIff(v, from, mv);
    case Sliders =>
      if mv in RookRays(v.occupied, from, RookDirs) {
        RookRaysStart(v.occupied, from, RookDirs, mv);
      } else {
        BishopRaysStart(v.occupied, from, BishopDirs, mv);
      }
  }

  /** Every move of a group starts on one of the squares the group's loop visits. */
  lemma {:induction false} GatherStart(v: BitView, g: Group, froms: seq<int>, mv: Move)
    requires |v.p.squares| == 64 && forall k :: 0 <= k < |froms| ==> OnBoard(froms[k])
    requires mv in Gather(v, g, froms)
    ensures mv.start in froms
  {
    var last := |froms| - 1;
    var init := froms[..last];
    assert Gather(v, g, froms) == Gather(v, g, init) + SquareMoves(v, g, froms[last]);
    if mv in Gather(v, g, init) {
      GatherStart(v, g, init, mv);
      assert froms == init + [froms[last]];
    } else {
      SquareMovesStart(v, g, froms[last], mv);
    }
  }

  /** Every move of a group starts on a square of the group's board. */
  lemma GatherBoardStart(v: BitView, g: Group, board: Bitboard, mv: Move)
    requires |v.p.squares| == 64 && InRange(board)
    requires mv in Gather(v, g, Ascending(board))
    ensures mv.start in board
  {
    GatherStart(v, g, Ascending(board), mv);
    AscendingSorted(board);
  }

  /** Every generated move starts on a square holding a pawn, knight, king, rook, bishop or
      queen of the side to move. */
  lemma BitboardMovesStart(v: BitView, mv: Move)
    requires WordsInRange(v) && mv in BitboardMoves(v)
    ensures mv.start in Mine(v, Pawn) + Mine(v, Knight) + Mine(v, King) + SliderBoard(v)
  {
    if mv in Gather(v, Pawns, Ascending(Mine(v, Pawn))) {
      GatherBoardStart(v, Pawns, Mine(v, Pawn), mv);
    } else if mv in Gather(v, Knights, Ascending(Mine(v, Knight))) {
      GatherBoardStart(v, Knights, Mine(v, Knight), mv);
    } else if mv in Gather(v, Kings, Ascending(Mine(v, King))) {
      GatherBoardStart(v, Kings, Mine(v, King), mv);
    } else {
      GatherBoardStart(v, Sliders, SliderBoard(v), mv);
    }
  }
}
