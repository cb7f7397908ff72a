/** The array move generator: the edge table, the two attack lists that GenerateMoves
    rebuilds, and the list of moves the interface checks clicks against. The readers take
    the board as its value (`Board.State()`); GenerateLegalMoves works on the board object
    itself, making and unmaking each candidate. */
module Logic {
  import opened Piece
  import opened Positions
  import opened MoveRules
  import opened Boards

  class GameLogic {
    /** `numSquaresToEdge`: one row of eight counts per square. */
    const numSquaresToEdge: array<seq<int>>
    var whiteAttackedSquares: seq<int>
    var blackAttackedSquares: seq<int>
    /** The moves on offer to the player, against which IsValidMove checks a request. */
    var moves: seq<Move>

    constructor ()
      ensures fresh(numSquaresToEdge) && numSquaresToEdge.Length == 64
      ensures whiteAttackedSquares == [] && blackAttackedSquares == [] && moves == []
    {
      numSquaresToEdge := new seq<int>[64](_ => []);
      whiteAttackedSquares, blackAttackedSquares, moves := [], [], [];
    }

    /** The edge table holds every square's row. */
    predicate EdgesReady()
      reads numSquaresToEdge
    {
      numSquaresToEdge.Length == 64 &&
      forall s :: 0 <= s < 64 ==> numSquaresToEdge[s] == EdgeRow(s)
    }

    /** Fills the edge table, file by file and rank by rank. */
    method PrecomputedMoveData()
      requires numSquaresToEdge.Length == 64
      modifies numSquaresToEdge
      ensures EdgesReady()
    {
      for file := 0 to 8
        invariant forall s :: 0 <= s < 64 && s % 8 < file ==> numSquaresToEdge[s] == EdgeRow(s)
      {
        for rank := 0 to 8
          invariant forall s :: 0 <= s < 64 && (s % 8 < file || (s % 8 == file && s / 8 < rank)) ==>
            numSquaresToEdge[s] == EdgeRow(s)
        {
          var numNorth := 7 - rank;
          var numSouth := rank;
          var numWest := file;
          var numEast := 7 - file;
          var squareIndex := rank * 8 + file;
          Split8(squareIndex, rank, file);
          numSquaresToEdge[squareIndex] := [
            numNorth, numSouth, numWest, numEast,
            Min(numSouth, numEast), Min(numNorth, numWest), Min(numNorth, numEast), Min(numSouth, numWest)];
          forall s | 0 <= s < 64 && s % 8 == file && s / 8 == rank
            ensures s == squareIndex
          {
            Split8(s, s / 8, s % 8);
          }
        }
      }
    }

    /** The knight and king steps: each offset whose target is on the board, within two
        ranks and two files, and not held by the mover's colour. */
    method GetMovesForOffsets(p: Position, from: int, offsets: seq<int>) returns (ms: seq<Move>)
      requires WellFormed(p) && OnBoard(from)
      ensures ms == OffsetMoves(p, from, offsets)
    {
      ms := [];
      var fromRank, fromFile := from / 8, from % 8;
      var pieceCol := IsWhite(p.squares[from]);
      for k := 0 to |offsets|
        invariant ms == OffsetMoves(p, from, offsets[..k])
      {
        assert offsets[..k + 1][..k] == offsets[..k];
        var targetIndex := from + offsets[k];
        if !OnBoard(targetIndex) {
          continue;
        }
        var pieceOnTargetSquare := p.squares[targetIndex];
        var targetPieceCol := IsWhite(pieceOnTargetSquare);
        var toRank, toFile := targetIndex / 8, targetIndex % 8;
        if Abs(toRank - fromRank) > 2 || Abs(toFile - fromFile) > 2 {
          continue;
        }
        if targetPieceCol == pieceCol && pieceOnTargetSquare != None {
          continue;
        }
        ms := ms + [Move(from, targetIndex, None)];
      }
      assert offsets[..|offsets|] == offsets;
    }

    /** The rays of a bishop, rook or queen, each up to the edge-table count. */
    method GetSlidingPieceMoves(p: Position, from: int) returns (ms: seq<Move>)
      requires WellFormed(p) && OnBoard(from) && EdgesReady()
      ensures ms == SlidingMoves(p, from, EdgeRow(from))
    {
      ms := [];
      var piece := p.squares[from];
      var startDirectionIndex := if TypeOf(piece) == Bishop then 4 else 0;
      var endDirectionIndex := if TypeOf(piece) == Rook then 4 else 8;
      var pieceCol := IsWhite(piece);
      for directionIndex := startDirectionIndex to endDirectionIndex
        invariant ms == Rays(p, from, EdgeRow(from), startDirectionIndex, directionIndex)
      {
        var offset := DirectionOffsets[directionIndex];
        var count := numSquaresToEdge[from][directionIndex];
        ghost var before := ms;
        var n := 0;
        while n < count
          invariant 0 <= n <= count
          invariant before + Ray(p, from, offset, 0, count) == ms + Ray(p, from, offset, n, count)
        {
          var targetSquare := from + offset * (n + 1);
          assert targetSquare == Along(from, offset, n + 1);
          if !OnBoard(targetSquare) {
            break;
          }
          var pieceOnTargetSquare := p.squares[targetSquare];
          var targetPieceCol := IsWhite(pieceOnTargetSquare);
          if pieceOnTargetSquare == None {
            ms := ms + [Move(from, targetSquare, None)];
          } else if targetPieceCol == pieceCol {
            break;
          } else if targetPieceCol != pieceCol {
            ms := ms + [Move(from, targetSquare, None)];
            break;
          }
          n := n + 1;
        }
        assert ms == before + Ray(p, from, offset, 0, count);
      }
    }

    /** The attack list of one colour. */
    function AttackList(white: bool): seq<int>
      reads this
    {
      if white then whiteAttackedSquares else blackAttackedSquares
    }

    /** The attack list of the side not to move, which castling consults. */
    function OpponentAttacked(p: Position): seq<int>
      reads this
    {
      AttackList(!p.whiteToMove)
    }

    /** The attack lists as the reply generation for `m` leaves them: the replying side's
        list holds the attacks of the position after the move, the mover's list is empty. */
    predicate RepliesListed(p: Position, m: Move)
      requires Checkable(p, m)
      reads this
    {
      AttackList(!p.whiteToMove) == AttacksUpTo(Make(p, m), 64) && AttackList(p.whiteToMove) == []
    }

    /** Appends a square to one colour's attack list. */
    method AddAttacked(white: bool, s: int)
      modifies this`whiteAttackedSquares, this`blackAttackedSquares
      ensures AttackList(white) == old(AttackList(white)) + [s]
      ensures AttackList(!white) == old(AttackList(!white))
    {
      if white {
        whiteAttackedSquares := whiteAttackedSquares + [s];
      } else {
        blackAttackedSquares := blackAttackedSquares + [s];
      }
    }

    /** A pawn's pushes, captures and en-passant move; each diagonal square that passes the
        capture test joins the pawn's colour's attack list, occupied or not. */
    method GetPawnMoves(p: Position, from: int) returns (ms: seq<Move>)
      requires WellFormed(p) && OnBoard(from)
      modifies this`whiteAttackedSquares, this`blackAttackedSquares
      ensures ms == PawnMoves(p, from)
      ensures var w := IsWhite(p.squares[from]);
        AttackList(w) == old(AttackList(w)) + PawnAttacks(p, from) && AttackList(!w) == old(AttackList(!w))
    {
      var isWhitePawn := IsWhite(p.squares[from]);
      var direction := if isWhitePawn then 8 else -8;
      ms := GetPawnPushes(p, from);
      var lefts := GetPawnCapture(p, from, from + direction - 1);
      var rights := GetPawnCapture(p, from, from + direction + 1);
      var passant := GetEnPassant(p, from);
      ms := ms + lefts + rights + passant;
    }

    /** The one- and two-square pushes. */
    method GetPawnPushes(p: Position, from: int) returns (ms: seq<Move>)
      requires WellFormed(p) && OnBoard(from)
      ensures ms == PawnPushes(p, from)
    {
      var isWhitePawn := IsWhite(p.squares[from]);
      var direction := if isWhitePawn then 8 else -8;
      var startingRank := if isWhitePawn then 1 else 6;
      var promotionRank := if isWhitePawn then 7 else 0;
      var oneStepMove := from + direction;
      var twoStepMove := from + 2 * direction;
      ms := [];
      if IsLegalMove(p, from, oneStepMove) && p.squares[oneStepMove] == None {
        if oneStepMove / 8 == promotionRank {
          ms := ms + Promotions(from, oneStepMove);
        } else {
          ms := ms + [Move(from, oneStepMove, None)];
        }
        if from / 8 == startingRank && IsLegalMove(p, from, twoStepMove) && p.squares[twoStepMove] == None {
          ms := ms + [Move(from, twoStepMove, None)];
        }
      }
    }

    /** The capture onto the diagonal square `captureSquare`: marked attacked when it passes
        the capture test, and a move (or four promotions) only when occupied. */
    method GetPawnCapture(p: Position, from: int, captureSquare: int) returns (ms: seq<Move>)
      requires WellFormed(p) && OnBoard(from)
      modifies this`whiteAttackedSquares, this`blackAttackedSquares
      ensures ms == PawnCapture(p, from, captureSquare)
      ensures var w := IsWhite(p.squares[from]);
        AttackList(w) == old(AttackList(w)) + (if PawnTakes(p, from, captureSquare) then [captureSquare] else []) &&
        AttackList(!w) == old(AttackList(!w))
    {
      var isWhitePawn := IsWhite(p.squares[from]);
      var promotionRank := if isWhitePawn then 7 else 0;
      ms := [];
      if OnBoard(captureSquare) && IsSameRank(from, captureSquare) && isWhitePawn != IsWhite(p.squares[captureSquare]) {
        AddAttacked(isWhitePawn, captureSquare);
        if p.squares[captureSquare] != None {
          if captureSquare / 8 == promotionRank {
            ms := Promotions(from, captureSquare);
          } else {
            ms := [Move(from, captureSquare, None)];
          }
        }
      }
    }

    /** The en-passant capture from the fifth rank of the pawn's side, left before right. */
    method GetEnPassant(p: Position, from: int) returns (ms: seq<Move>)
      requires WellFormed(p) && OnBoard(from)
      ensures ms == PawnEnPassant(p, from)
    {
      var isWhitePawn := IsWhite(p.squares[from]);
      var direction := if isWhitePawn then 8 else -8;
      var enPassantRank := if isWhitePawn then 4 else 3;
      ms := [];
      if from / 8 == enPassantRank {
        var enPassantLeft := from + direction - 1;
        var enPassantRight := from + direction + 1;
        if OnBoard(enPassantLeft) && p.enPassant == enPassantLeft {
          ms := ms + [Move(from, enPassantLeft, None)];
        } else if OnBoard(enPassantRight) && p.enPassant == enPassantRight {
          ms := ms + [Move(from, enPassantRight, None)];
        }
      }
    }

    /** Castling for a king of the side to move, checked against the opponent's attack list
        as it stands. */
    method GetCastlingMoves(p: Position, from: int) returns (ms: seq<Move>)
      requires WellFormed(p) && OnBoard(from) && CastlingReadsInRange(p, from)
      ensures ms == CastlingMoves(p, from, OpponentAttacked(p))
    {
      ms := [];
      if p.whiteToMove {
        if p.whiteKingside && p.squares[from + 1] == None && p.squares[from + 2] == None
          && p.squares[from + 3] == White | Rook
          && from + 1 !in blackAttackedSquares && from + 2 !in blackAttackedSquares
        {
          ms := ms + [Move(from, from + 2, None)];
        }
        if p.whiteQueenside && p.squares[from - 1] == None && p.squares[from - 2] == None
          && p.squares[from - 3] == None && p.squares[from - 4] == White | Rook
          && from - 1 !in blackAttackedSquares && from - 2 !in blackAttackedSquares
        {
          ms := ms + [Move(from, from - 2, None)];
        }
      } else {
        if p.blackKingside && p.squares[from + 1] == None && p.squares[from + 2] == None
          && p.squares[from + 3] == Black | Rook
          && from + 1 !in whiteAttackedSquares && from + 2 !in whiteAttackedSquares
        {
          ms := ms + [Move(from, from + 2, None)];
        }
        if p.blackQueenside && p.squares[from - 1] == None && p.squares[from - 2] == None
          && p.squares[from - 3] == None && p.squares[from - 4] == Black | Rook
          && from - 1 !in whiteAttackedSquares && from - 2 !in whiteAttackedSquares
        {
          ms := ms + [Move(from, from - 2, None)];
        }
      }
    }

    /** The moves of the piece on `from`, by its type; the pawn branch also extends its
        side's attack list. */
    method GenerateMovesForPiece(p: Position, from: int) returns (ms: seq<Move>)
      requires WellFormed(p) && OnBoard(from) && KingReadsInRange(p, from) && EdgesReady()
      modifies this`whiteAttackedSquares, this`blackAttackedSquares
      ensures ms == PieceMoves(p, from, old(OpponentAttacked(p)))
      ensures AttackList(p.whiteToMove) == old(AttackList(p.whiteToMove)) + PieceAttacks(p, from)
      ensures OpponentAttacked(p) == old(OpponentAttacked(p))
    {
      ms := [];
      var piece := p.squares[from];
      if piece == None {
        return;
      }
      var isWhitePiece := IsWhite(piece);
      if p.whiteToMove != isWhitePiece {
        return;
      }
      var t := TypeOf(piece);
      if t == Knight {
        ms := GetMovesForOffsets(p, from, KnightOffsets);
      } else if t == Bishop || t == Rook || t == Queen {
        ms := GetSlidingPieceMoves(p, from);
      } else if t == King {
        var steps := GetMovesForOffsets(p, from, DirectionOffsets);
        var castles := GetCastlingMoves(p, from);
        ms := steps + castles;
      } else if t == Pawn {
        ms := GetPawnMoves(p, from);
      }
    }

    /** The pseudo-legal moves of the side to move, square by square. Both attack lists are
        cleared first and only the mover's list is extended: pawns add their capture
        squares, other pieces the targets of their moves. */
    method GenerateMoves(p: Position) returns (ms: seq<Move>)
      requires WellFormed(p) && CastlingSafe(p) && EdgesReady()
      modifies this`whiteAttackedSquares, this`blackAttackedSquares
      ensures ms == MovesUpTo(p, 64)
      ensures AttackList(p.whiteToMove) == AttacksUpTo(p, 64) && OpponentAttacked(p) == []
    {
      whiteAttackedSquares := [];
      blackAttackedSquares := [];
      ms := [];
      for i := 0 to 64
        invariant ms == MovesUpTo(p, i)
        invariant AttackList(p.whiteToMove) == AttacksUpTo(p, i) && OpponentAttacked(p) == []
      {
        ms := GenerateForSquare(p, i, ms);
      }
    }

    /** One square of GenerateMoves: a piece of the side to move has its moves appended to
        the list and their attacked squares to the mover's attack list. */
    method GenerateForSquare(p: Position, i: int, before: seq<Move>) returns (ms: seq<Move>)
      requires WellFormed(p) && CastlingSafe(p) && EdgesReady() && 0 <= i < 64
      requires before == MovesUpTo(p, i)
      requires AttackList(p.whiteToMove) == AttacksUpTo(p, i) && OpponentAttacked(p) == []
      modifies this`whiteAttackedSquares, this`blackAttackedSquares
      ensures ms == MovesUpTo(p, i + 1)
      ensures AttackList(p.whiteToMove) == AttacksUpTo(p, i + 1) && OpponentAttacked(p) == []
    {
      ms := before;
      var piece := p.squares[i];
      if piece == None || p.whiteToMove != IsWhite(piece) {
        return;
      }
      var pieceMoves := GenerateMovesForPiece(p, i);
      PieceStartsHere(p, i);
      AppendMoves(p, pieceMoves);
      ms := ms + pieceMoves;
    }

    /** The inner loop of GenerateMoves: each move's target joins the mover's attack list
        unless the move starts on a pawn. */
    method AppendMoves(p: Position, pieceMoves: seq<Move>)
      requires WellFormed(p) && forall k :: 0 <= k < |pieceMoves| ==> OnBoard(pieceMoves[k].start)
      modifies this`whiteAttackedSquares, this`blackAttackedSquares
      ensures AttackList(p.whiteToMove) == old(AttackList(p.whiteToMove)) + NonPawnTargets(p, pieceMoves)
      ensures OpponentAttacked(p) == old(OpponentAttacked(p))
    {
      for k := 0 to |pieceMoves|
        invariant AttackList(p.whiteToMove) == old(AttackList(p.whiteToMove)) + NonPawnTargets(p, pieceMoves[..k])
        invariant OpponentAttacked(p) == old(OpponentAttacked(p))
      {
        var move := pieceMoves[k];
        assert pieceMoves[..k + 1][..k] == pieceMoves[..k];
        if TypeOf(p.squares[move.start]) != Pawn {
          AddAttacked(p.whiteToMove, move.target);
        }
      }
      assert pieceMoves[..|pieceMoves|] == pieceMoves;
    }

    /** The squares some move targets, gathered into a set. */
    method TargetsOf(ms: seq<Move>) returns (attacked: set<int>)
      ensures attacked == TargetSet(ms)
    {
      attacked := {};
      for j := 0 to |ms|
        invariant attacked == TargetSet(ms[..j])
      {
        assert ms[..j + 1] == ms[..j] + [ms[j]];
        attacked := attacked + {ms[j].target};
      }
      assert ms[..|ms|] == ms;
    }

    /** Makes the move on the board, generates the replies, tests whether the mover's
        king square is among their targets, and unmakes the move. */
    method KingSafeAfter(b: Board, moveToVerify: Move) returns (safe: bool)
      requires b.Valid() && EdgesReady() && Checkable(b.State(), moveToVerify)
      modifies b, this`whiteAttackedSquares, this`blackAttackedSquares
      ensures b.Valid() && b.Synced() && b.State() == old(b.State())
      ensures safe == LeavesKingSafe(old(b.State()), moveToVerify)
      ensures RepliesListed(old(b.State()), moveToVerify)
    {
      ghost var p := b.State();
      var movingIsWhite := b.whiteToMove;
      var prevState := b.SaveState(moveToVerify);
      b.MakeMove(moveToVerify);
      var opponentMoves := GenerateMoves(b.State());
      var opponentAttacked := TargetsOf(opponentMoves);
      var movedKingSquare := if movingIsWhite then b.whiteKingSquare else b.blackKingSquare;
      safe := movedKingSquare !in opponentAttacked;
      SafeAfterMake(p, moveToVerify);
      b.UnmakeMove(moveToVerify, prevState);
      MakeUnmakeRoundTrip(p, moveToVerify);
    }

    /** The pseudo-legal moves after which the mover's king is not a target of any reply,
        in order. Each candidate is made on the board, the replies generated, and the move
        unmade; as each can be taken back exactly, the board ends as it began. */
    method GenerateLegalMoves(b: Board) returns (legalMoves: seq<Move>)
      requires b.Valid() && EdgesReady() && CastlingSafe(b.State())
      requires forall m :: m in MovesUpTo(b.State(), 64) ==> Checkable(b.State(), m)
      modifies b, this`whiteAttackedSquares, this`blackAttackedSquares
      ensures b.Valid() && b.State() == old(b.State())
      ensures legalMoves == LegalMoves(old(b.State()), MovesUpTo(old(b.State()), 64))
      ensures |MovesUpTo(old(b.State()), 64)| > 0 ==> b.Synced()
      ensures |MovesUpTo(old(b.State()), 64)| == 0 ==>
        AttackList(old(b.State()).whiteToMove) == AttacksUpTo(old(b.State()), 64) &&
        OpponentAttacked(old(b.State())) == []
      ensures |MovesUpTo(old(b.State()), 64)| > 0 ==>
        RepliesListed(old(b.State()), MovesUpTo(old(b.State()), 64)[|MovesUpTo(old(b.State()), 64)| - 1])
    {
      var pseudoLegalMoves := GenerateMoves(b.State());
      legalMoves := KeepLegal(b, pseudoLegalMoves);
    }

    /** GenerateLegalMoves' loop: each pseudo-legal move in turn is made, checked and
        unmade, and kept when it leaves the mover's king unattacked. */
    method KeepLegal(b: Board, pseudoLegalMoves: seq<Move>) returns (legalMoves: seq<Move>)
      requires b.Valid() && EdgesReady()
      requires forall m :: m in pseudoLegalMoves ==> Checkable(b.State(), m)
      modifies b, this`whiteAttackedSquares, this`blackAttackedSquares
      ensures b.Valid() && b.State() == old(b.State())
      ensures legalMoves == LegalMoves(old(b.State()), pseudoLegalMoves)
      ensures |pseudoLegalMoves| > 0 ==> b.Synced()
      ensures |pseudoLegalMoves| == 0 ==>
        whiteAttackedSquares == old(whiteAttackedSquares) && blackAttackedSquares == old(blackAttackedSquares)
      ensures |pseudoLegalMoves| > 0 ==> RepliesListed(old(b.State()), pseudoLegalMoves[|pseudoLegalMoves| - 1])
    {
      ghost var p := b.State();
      legalMoves := [];
      for k := 0 to |pseudoLegalMoves|
        invariant b.Valid() && b.State() == p && EdgesReady()
        invariant legalMoves == LegalMoves(p, pseudoLegalMoves[..k])
        invariant k > 0 ==> b.Synced()
        invariant k == 0 ==>
          whiteAttackedSquares == old(whiteAttackedSquares) && blackAttackedSquares == old(blackAttackedSquares)
        invariant k > 0 ==> RepliesListed(p, pseudoLegalMoves[k - 1])
      {
        legalMoves := KeepIfSafe(b, pseudoLegalMoves, k, legalMoves);
      }
      assert pseudoLegalMoves[..|pseudoLegalMoves|] == pseudoLegalMoves;
    }

    /** One round of GenerateLegalMoves' loop: the k-th candidate joins the kept moves when
        it leaves the mover's king unattacked. */
    method KeepIfSafe(b: Board, pseudoLegalMoves: seq<Move>, k: nat, legalMoves: seq<Move>)
      returns (kept: seq<Move>)
      requires b.Valid() && EdgesReady() && k < |pseudoLegalMoves|
      requires Checkable(b.State(), pseudoLegalMoves[k])
      requires legalMoves == LegalMoves(b.State(), pseudoLegalMoves[..k])
      modifies b, this`whiteAttackedSquares, this`blackAttackedSquares
      ensures b.Valid() && b.Synced() && b.State() == old(b.State())
      ensures kept == LegalMoves(old(b.State()), pseudoLegalMoves[..k + 1])
      ensures RepliesListed(old(b.State()), pseudoLegalMoves[k])
    {
      ghost var p := b.State();
      var moveToVerify := pseudoLegalMoves[k];
      assert pseudoLegalMoves[..k + 1] == pseudoLegalMoves[..k] + [moveToVerify];
      LegalMovesSnoc(p, pseudoLegalMoves[..k], moveToVerify);
      var safe := KingSafeAfter(b, moveToVerify);
      kept := legalMoves;
      if safe {
        kept := kept + [moveToVerify];
      }
    }

    /** Whether a requested move is among the moves on offer. */
    method IsValidMove(originalIndex: int, newIndex: int, promotionPiece: Code) returns (r: bool)
      ensures r <==> Move(originalIndex, newIndex, promotionPiece) in moves
    {
      for k := 0 to |moves|
        invariant Move(originalIndex, newIndex, promotionPiece) !in moves[..k]
      {
        var move := moves[k];
        if move.start == originalIndex && move.target == newIndex && move.promotion == promotionPiece {
          return true;
        }
        assert moves[..k + 1] == moves[..k] + [move];
      }
      assert moves[..|moves|] == moves;
      return false;
    }
  }
}
