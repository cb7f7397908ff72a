/** The bitboard move generator: knight and king attack tables filled once, and a generator
    that walks the side to move's piece boards lowest square first. It differs from the array
    generator in ways the lemmas below make explicit: no castling, promotion to a queen only,
    diagonal rays cut once they stray more than two files, rook and bishop rays that include
    the first occupied square whatever its colour, and pawn captures that only refuse a
    target in the pawn's own file. */
module BitMoves {
  import opened Piece
  import opened Positions
  import opened Bits
  import opened BoardBits
  import opened MoveRules
  import opened Boards

  // ---------------------------------------------------------------- attack tables

  /** The knight offsets in the order the table loop tries them. */
  const KnightJumps: seq<int> := [-17, -15, -10, -6, 6, 10, 15, 17]

  /** Within two ranks and two files of `square`: the test that keeps a knight offset from
      wrapping round the board's edge. */
  predicate WithinTwo(square: int, to: int) {
    Abs(to / 8 - square / 8) <= 2 && Abs(to % 8 - square % 8) <= 2
  }

  /** The squares a knight on `square` reaches through the given offsets. */
  function KnightTargets(square: int, offsets: seq<int>): Bitboard {
    set o | o in offsets && OnBoard(square + o) && WithinTwo(square, square + o) :: square + o
  }

  /** One more offset adds its square exactly when it passes the table's tests. */
  lemma KnightTargetsSnoc(square: int, offsets: seq<int>, o: int)
    ensures KnightTargets(square, offsets + [o]) == KnightTargets(square, offsets) +
      (if OnBoard(square + o) && WithinTwo(square, square + o) then {square + o} else {})
  {
    forall t | t in KnightTargets(square, offsets + [o])
      ensures t in KnightTargets(square, offsets) || (t == square + o && OnBoard(t) && WithinTwo(square, t))
    {
      var x :| x in offsets + [o] && OnBoard(square + x) && WithinTwo(square, square + x) && t == square + x;
      if x != o {
        assert x in offsets;
      }
    }
    forall t | t in KnightTargets(square, offsets)
      ensures t in KnightTargets(square, offsets + [o])
    {
      var x :| x in offsets && OnBoard(square + x) && WithinTwo(square, square + x) && t == square + x;
      assert x in offsets + [o];
    }
    if OnBoard(square + o) && WithinTwo(square, square + o) {
      assert o in offsets + [o];
    }
  }

  /** An L-shaped jump: two ranks and one file, or one rank and two files. */
  predicate IsKnightJump(square: int, to: int) {
    var dr, df := Abs(to / 8 - square / 8), Abs(to % 8 - square % 8);
    (dr == 2 && df == 1) || (dr == 1 && df == 2)
  }

  /** The up to eight neighbours of `square`. */
  function KingTargets(square: int): Bitboard {
    set t | 0 <= t < 64 && t != square && Abs(t / 8 - square / 8) <= 1 && Abs(t % 8 - square % 8) <= 1
  }

  /** GenerateKnightAttacks: the knight's table entry for one square. */
  method GenerateKnightAttacks(square: int) returns (attacks: Bitboard)
    requires OnBoard(square)
    ensures attacks == KnightTargets(square, KnightJumps)
  {
    var rank, file := square / 8, square % 8;
    attacks := {};
    var offsets := KnightJumps;
    for k := 0 to |offsets|
      invariant attacks == KnightTargets(square, offsets[..k])
    {
      assert offsets[..k + 1] == offsets[..k] + [offsets[k]];
      KnightTargetsSnoc(square, offsets[..k], offsets[k]);
      var to := square + offsets[k];
      if to < 0 || to >= 64 {
        continue;
      }
      var tr, tf := to / 8, to % 8;
      if Abs(tr - rank) <= 2 && Abs(tf - file) <= 2 {
        attacks := attacks + Bit(to);
      }
    }
    assert offsets[..|offsets|] == offsets;
  }

  /** The neighbours already visited by the king-table loop when it is about to try rank
      offset dr and file offset df. */
  function KingTargetsBefore(square: int, dr: int, df: int): Bitboard {
    set t | t in KingTargets(square) &&
      (t / 8 - square / 8 < dr || (t / 8 - square / 8 == dr && t % 8 - square % 8 < df))
  }

  /** GenerateKingAttacks: the king's table entry for one square. */
  method GenerateKingAttacks(square: int) returns (attacks: Bitboard)
    requires OnBoard(square)
    ensures attacks == KingTargets(square)
  {
    var rank, file := square / 8, square % 8;
    attacks := {};
    KingTargetsNone(square);
    for dr := -1 to 2
      invariant attacks == KingTargetsBefore(square, dr, -1)
    {
      for df := -1 to 2
        invariant attacks == KingTargetsBefore(square, dr, df)
      {
        KingTargetsStep(square, dr, df);
        if dr == 0 && df == 0 {
          continue;
        }
        var tr, tf := rank + dr, file + df;
        if tr >= 0 && tr < 8 && tf >= 0 && tf < 8 {
          attacks := attacks + Bit(tr * 8 + tf);
        }
      }
      KingTargetsNextRank(square, dr);
    }
    KingTargetsAll(square);
  }

  lemma KingTargetsNone(square: int)
    ensures KingTargetsBefore(square, -1, -1) == {}
  {
  }

  lemma KingTargetsAll(square: int)
    ensures KingTargetsBefore(square, 2, -1) == KingTargets(square)
  {
  }

  lemma KingTargetsNextRank(square: int, dr: int)
    ensures KingTargetsBefore(square, dr, 2) == KingTargetsBefore(square, dr + 1, -1)
  {
  }

  /** Trying one more (rank, file) offset adds its square exactly when it is a neighbour on
      the board. */
  lemma KingTargetsStep(square: int, dr: int, df: int)
    requires OnBoard(square) && -1 <= dr <= 1 && -1 <= df <= 1
    ensures var tr, tf := square / 8 + dr, square % 8 + df;
      KingTargetsBefore(square, dr, df + 1) == KingTargetsBefore(square, dr, df) +
        (if !(dr == 0 && df == 0) && 0 <= tr < 8 && 0 <= tf < 8 then {tr * 8 + tf} else {})
  {
    var tr, tf := square / 8 + dr, square % 8 + df;
    if 0 <= tr < 8 && 0 <= tf < 8 {
      Split8(tr * 8 + tf, tr, tf);
    }
    forall t | t in KingTargetsBefore(square, dr, df + 1) && t !in KingTargetsBefore(square, dr, df)
      ensures !(dr == 0 && df == 0) && 0 <= tr < 8 && 0 <= tf < 8 && t == tr * 8 + tf
    {
      Split8(t, t / 8, t % 8);
    }
  }

  /** The knight table holds exactly the L-shaped jumps that stay on the board. */
  lemma KnightTargetsAreJumps(square: int, to: int)
    requires OnBoard(square)
    ensures to in KnightTargets(square, KnightJumps) <==> OnBoard(to) && IsKnightJump(square, to)
  {
    if to in KnightTargets(square, KnightJumps) {
      var o :| o in KnightJumps && OnBoard(square + o) && WithinTwo(square, square + o) && to == square + o;
      var k := if o == -17 then 0 else if o == 17 then 1 else if o == -15 then 2 else if o == 15 then 3
        else if o == -10 then 4 else if o == 10 then 5 else if o == 6 then 6 else 7;
      KnightParts(k);
      NoWrap(square, to, KnightRanks()[k], KnightFiles()[k]);
    }
    if OnBoard(to) && IsKnightJump(square, to) {
      var dr, df := to / 8 - square / 8, to % 8 - square % 8;
      assert to == square + (8 * dr + df);
      assert 8 * dr + df in KnightJumps;
    }
  }

  /** A knight attacks a square exactly when a knight there would attack it back. */
  lemma KnightTargetsSymmetric(a: int, b: int)
    requires OnBoard(a) && OnBoard(b)
    ensures b in KnightTargets(a, KnightJumps) <==> a in KnightTargets(b, KnightJumps)
  {
    KnightTargetsAreJumps(a, b);
    KnightTargetsAreJumps(b, a);
  }

  /** The king table agrees with the array generator's king steps: a square is in it exactly
      when one of the eight direction offsets lands on it without wrapping. */
  lemma KingTargetsAreSteps(square: int, to: int)
    requires OnBoard(square)
    ensures to in KingTargets(square) <==>
      exists d :: 0 <= d < 8 && to == square + DirectionOffsets[d] && OnBoard(to) && WithinTwo(square, to)
  {
    if to in KingTargets(square) {
      var dr, df := to / 8 - square / 8, to % 8 - square % 8;
      assert to == square + (8 * dr + df);
      var d := if dr == 1 && df == 0 then 0 else if dr == -1 && df == 0 then 1
        else if dr == 0 && df == -1 then 2 else if dr == 0 && df == 1 then 3
        else if dr == -1 && df == 1 then 4 else if dr == 1 && df == -1 then 5
        else if dr == 1 && df == 1 then 6 else 7;
      DirectionSteps(d);
    }
    if exists d :: 0 <= d < 8 && to == square + DirectionOffsets[d] && OnBoard(to) && WithinTwo(square, to) {
      var d :| 0 <= d < 8 && to == square + DirectionOffsets[d] && OnBoard(to) && WithinTwo(square, to);
      DirectionSteps(d);
      NoWrap(square, to, RankSteps[d], FileSteps[d]);
    }
  }

  /** The two tables, filled once for every square. */
  class AttackTables {
    const knightAttacks: array<Bitboard>
    const kingAttacks: array<Bitboard>

    predicate Ready()
      reads knightAttacks, kingAttacks
    {
      knightAttacks.Length == 64 && kingAttacks.Length == 64 &&
      forall s :: 0 <= s < 64 ==> knightAttacks[s] == KnightTargets(s, KnightJumps) && kingAttacks[s] == KingTargets(s)
    }

    /** The static constructor's loop over the 64 squares. */
    constructor ()
      ensures Ready()
    {
      var knights := new Bitboard[64](_ => {});
      var kings := new Bitboard[64](_ => {});
      for square := 0 to 64
        invariant forall s :: 0 <= s < square ==> knights[s] == KnightTargets(s, KnightJumps) && kings[s] == KingTargets(s)
      {
        knights[square] := GenerateKnightAttacks(square);
        kings[square] := GenerateKingAttacks(square);
      }
      knightAttacks, kingAttacks := knights, kings;
    }
  }

  // ---------------------------------------------------------------- the generator

  /** What GenerateMovesBitboard reads: the board's squares, turn and en-passant target, and
      its piece and aggregate bitboards. */
  datatype BitView = BitView(p: Position, pieces: PieceBoards, white: Bitboard, black: Bitboard, occupied: Bitboard)

  function ViewOf(b: Board): BitView
    reads b
  {
    BitView(b.State(), b.pieces, b.whitePieces, b.blackPieces, b.occupied)
  }

  function Us(v: BitView): Bitboard { if v.p.whiteToMove then v.white else v.black }
  function Them(v: BitView): Bitboard { if v.p.whiteToMove then v.black else v.white }

  /** The side to move's board of one piece type. */
  function Mine(v: BitView, t: Code): Bitboard { Get(v.pieces, v.p.whiteToMove, t) }

  function SliderBoard(v: BitView): Bitboard { Mine(v, Rook) + Mine(v, Bishop) + Mine(v, Queen) }

  /** The boards the generator walks are 64-bit words: every square they hold is on the board. */
  predicate WordsInRange(v: BitView) {
    |v.p.squares| == 64 &&
    InRange(Mine(v, Pawn)) && InRange(Mine(v, Knight)) && InRange(Mine(v, King)) &&
    InRange(Mine(v, Rook)) && InRange(Mine(v, Bishop)) && InRange(Mine(v, Queen))
  }

  /** A pawn arriving on the last rank becomes a queen; no other promotion is offered. */
  function QueenOnLastRank(t: int, promotionRank: int): Code {
    if t / 8 == promotionRank then Queen else None
  }

  /** The left and right capture squares of a pawn of the side to move. */
  function LeftOf(v: BitView, from: int): int { from + (if v.p.whiteToMove then 7 else -9) }
  function RightOf(v: BitView, from: int): int { from + (if v.p.whiteToMove then 9 else -7) }

  /** The bitboard generator's file and rank tests. */
  predicate SameFile(a: int, b: int) { a % 8 == b % 8 }
  predicate SameRank(a: int, b: int) { a / 8 == b / 8 }

  /** The push onto an empty square, promoting to a queen on the last rank, and the double
      push from the starting rank when both squares ahead are empty. */
  function PawnPushesBB(v: BitView, from: int): seq<Move>
    requires OnBoard(from)
  {
    var white := v.p.whiteToMove;
    var step := if white then 8 else -8;
    var startingRank := if white then 1 else 6;
    var one, two := from + step, from + 2 * step;
    if OnBoard(one) && one !in v.occupied then
      [Move(from, one, QueenOnLastRank(one, if white then 7 else 0))] +
      (if from / 8 == startingRank && OnBoard(two) && two !in v.occupied then [Move(from, two, None)] else [])
    else []
  }

  /** A capture onto the diagonal square `c`: it must be on the board, outside the pawn's own
      file, and hold an opponent piece. */
  function PawnCaptureBB(v: BitView, from: int, c: int): seq<Move> {
    if OnBoard(c) && !SameFile(from, c) && c in Them(v) then
      [Move(from, c, QueenOnLastRank(c, if v.p.whiteToMove then 7 else 0))]
    else []
  }

  /** A move onto the en-passant target when it is one of the two capture squares. */
  function PawnEnPassantBB(v: BitView, from: int): seq<Move> {
    if v.p.enPassant >= 0 && (LeftOf(v, from) == v.p.enPassant || RightOf(v, from) == v.p.enPassant) then
      [Move(from, v.p.enPassant, None)]
    else []
  }

  /** A pawn's moves: pushes, the left and right captures, then en passant. */
  function PawnMovesBB(v: BitView, from: int): seq<Move>
    requires OnBoard(from)
  {
    PawnPushesBB(v, from) + PawnCaptureBB(v, from, LeftOf(v, from)) +
    PawnCaptureBB(v, from, RightOf(v, from)) + PawnEnPassantBB(v, from)
  }

  /** A plain move from `from` to each square of the list, in order. */
  function JumpMoves(from: int, targets: seq<int>): seq<Move> {
    if |targets| == 0 then []
    else JumpMoves(from, targets[..|targets| - 1]) + [Move(from, targets[|targets| - 1], None)]
  }

  predicate IsRookDir(dir: int) { dir == 8 || dir == -8 || dir == -1 || dir == 1 }
  predicate IsBishopDir(dir: int) { dir == 7 || dir == -7 || dir == 9 || dir == -9 }

  const RookDirs: seq<int> := [8, -8, -1, 1]
  const BishopDirs: seq<int> := [7, -7, 9, -9]

  /** The rook loop's test: the square is on the board and, for a sideways ray, on the
      rook's rank. */
  predicate RookContinues(from: int, dir: int, to: int) {
    0 <= to < 64 && (if dir == 1 || dir == -1 then SameRank(from, to) else true)
  }

  /** The bishop loop's test: the square is on the board and at most two files from the
      bishop's. */
  predicate BishopContinues(from: int, to: int) {
    0 <= to < 64 && Abs(to % 8 - from % 8) <= 2
  }

  /** A rook ray from `to` on: each square on the board (and, sideways, on the rook's rank)
      is listed, and the ray ends after the first occupied square, whoever holds it. */
  function RookRay(occupied: Bitboard, from: int, dir: int, to: int): seq<Move>
    requires OnBoard(from) && IsRookDir(dir)
    decreases if dir > 0 then 64 - to else to + 1
  {
    if RookContinues(from, dir, to) then
      [Move(from, to, None)] + (if to in occupied then [] else RookRay(occupied, from, dir, to + dir))
    else []
  }

  /** A bishop ray from `to` on: it ends off the board, on a square more than two files from
      the bishop's, or after the first occupied square, whoever holds it. */
  function BishopRay(occupied: Bitboard, from: int, dir: int, to: int): seq<Move>
    requires OnBoard(from) && IsBishopDir(dir)
    decreases if dir > 0 then 64 - to else to + 1
  {
    if !BishopContinues(from, to) then []
    else [Move(from, to, None)] + (if to in occupied then [] else BishopRay(occupied, from, dir, to + dir))
  }

  function RookRays(occupied: Bitboard, from: int, dirs: seq<int>): seq<Move>
    requires OnBoard(from) && forall k :: 0 <= k < |dirs| ==> IsRookDir(dirs[k])
  {
    if |dirs| == 0 then []
    else RookRays(occupied, from, dirs[..|dirs| - 1]) + RookRay(occupied, from, dirs[|dirs| - 1], from + dirs[|dirs| - 1])
  }

  function BishopRays(occupied: Bitboard, from: int, dirs: seq<int>): seq<Move>
    requires OnBoard(from) && forall k :: 0 <= k < |dirs| ==> IsBishopDir(dirs[k])
  {
    if |dirs| == 0 then []
    else BishopRays(occupied, from, dirs[..|dirs| - 1]) + BishopRay(occupied, from, dirs[|dirs| - 1], from + dirs[|dirs| - 1])
  }

  /** A slider's moves, by the type the square array gives it: rook rays for a rook or
      queen, then bishop rays for a bishop or queen. */
  function SliderMovesBB(v: BitView, from: int): seq<Move>
    requires OnBoard(from) && |v.p.squares| == 64
  {
    var t := TypeOf(v.p.squares[from]);
    (if t == Rook || t == Queen then RookRays(v.occupied, from, RookDirs) else []) +
    (if t == Bishop || t == Queen then BishopRays(v.occupied, from, BishopDirs) else [])
  }

  datatype Group = Pawns | Knights | Kings | Sliders

  /** The moves of one square of a group. */
  ghost function SquareMoves(v: BitView, g: Group, from: int): seq<Move>
    requires OnBoard(from) && |v.p.squares| == 64
  {
    match g
    case Pawns => PawnMovesBB(v, from)
    case Knights => JumpMoves(from, Ascending(KnightTargets(from, KnightJumps) - Us(v)))
    case Kings => JumpMoves(from, Ascending(KingTargets(from) - Us(v)))
    case Sliders => SliderMovesBB(v, from)
  }

  /** The moves of a group's squares, in the order given. */
  ghost function Gather(v: BitView, g: Group, froms: seq<int>): seq<Move>
    requires |v.p.squares| == 64 && forall k :: 0 <= k < |froms| ==> OnBoard(froms[k])
  {
    if |froms| == 0 then []
    else
      assert OnBoard(froms[|froms| - 1]);
      Gather(v, g, froms[..|froms| - 1]) + SquareMoves(v, g, froms[|froms| - 1])
  }

  /** GenerateMovesBitboard's list: pawns, knights, kings, then rooks, bishops and queens,
      each group lowest square first. */
  ghost function BitboardMoves(v: BitView): seq<Move>
    requires WordsInRange(v)
  {
    Gather(v, Pawns, Ascending(Mine(v, Pawn))) + Gather(v, Knights, Ascending(Mine(v, Knight))) +
    Gather(v, Kings, Ascending(Mine(v, King))) + Gather(v, Sliders, Ascending(SliderBoard(v)))
  }

  /** Regrouping a concatenation, which the loops below need after each append. */
  lemma AppendAssoc<T>(a: seq<T>, b: seq<T>, c: seq<T>)
    ensures a + (b + c) == (a + b) + c
  { }

  /** One pawn's moves: the body of the pawn loop. */
  method PawnMovesAt(v: BitView, from: int) returns (moves: seq<Move>)
    requires OnBoard(from)
    ensures moves == PawnMovesBB(v, from)
  {
    var white := v.p.whiteToMove;
    var them := if white then v.black else v.white;
    moves := PawnPushesAt(v, from);
    var left := from + (if white then 7 else -9);
    var right := from + (if white then 9 else -7);
    var leftMoves := PawnCaptureAt(v, from, left, them);
    moves := moves + leftMoves;
    var rightMoves := PawnCaptureAt(v, from, right, them);
    moves := moves + rightMoves;
    if v.p.enPassant >= 0 {
      if left == v.p.enPassant || right == v.p.enPassant {
        moves := moves + [Move(from, v.p.enPassant, None)];
      }
    }
  }

  /** The single and double pushes. */
  method PawnPushesAt(v: BitView, from: int) returns (moves: seq<Move>)
    requires OnBoard(from)
    ensures moves == PawnPushesBB(v, from)
  {
    var white := v.p.whiteToMove;
    var step := if white then 8 else -8;
    var startingRank := if white then 1 else 6;
    var promotionRank := if white then 7 else 0;
    var occ := v.occupied;
    moves := [];
    var fromRank := from / 8;
    var one := from + step;
    if one >= 0 && one < 64 && one !in occ {
      if one / 8 == promotionRank {
        moves := moves + [Move(from, one, Queen)];
      } else {
        moves := moves + [Move(from, one, None)];
      }
      var two := from + 2 * step;
      if fromRank == startingRank && two >= 0 && two < 64 && two !in occ {
        if one !in occ {
          moves := moves + [Move(from, two, None)];
        }
      }
    }
  }

  /** The capture onto one diagonal square. */
  method PawnCaptureAt(v: BitView, from: int, c: int, them: Bitboard) returns (moves: seq<Move>)
    requires them == Them(v)
    ensures moves == PawnCaptureBB(v, from, c)
  {
    var promotionRank := if v.p.whiteToMove then 7 else 0;
    moves := [];
    if c >= 0 && c < 64 && !SameFile(from, c) && c in them {
      if c / 8 == promotionRank {
        moves := [Move(from, c, Queen)];
      } else {
        moves := [Move(from, c, None)];
      }
    }
  }

  /** The inner PopLsb loop of the knight and king branches: one move per square of the
      attack board, lowest first. */
  method JumpMovesAt(from: int, attacks: Bitboard) returns (moves: seq<Move>)
    requires InRange(attacks)
    ensures moves == JumpMoves(from, Ascending(attacks))
  {
    moves := [];
    ghost var done: seq<int> := [];
    var rest := attacks;
    while rest != {}
      invariant InRange(rest) && Increasing(done)
      invariant forall x :: x in done <==> x in attacks && x !in rest
      invariant forall k, j :: 0 <= k < |done| && j in rest ==> done[k] < j
      invariant moves == JumpMoves(from, done)
      decreases rest
    {
      var to;
      to, rest := PopLsb(rest);
      assert (done + [to])[..|done|] == done;
      done := done + [to];
      moves := moves + [Move(from, to, None)];
    }
    SortedIsAscending(attacks, done);
  }

  /** One rook ray. */
  method RookRayAt(occupied: Bitboard, from: int, dir: int) returns (moves: seq<Move>)
    requires OnBoard(from) && IsRookDir(dir)
    ensures moves == RookRay(occupied, from, dir, from + dir)
  {
    moves := [];
    var to := from + dir;
    while RookContinues(from, dir, to)
      invariant RookRay(occupied, from, dir, from + dir) == moves + RookRay(occupied, from, dir, to)
      decreases if dir > 0 then 64 - to else to + 1
    {
      moves := moves + [Move(from, to, None)];
      if to in occupied {
        break;
      }
      to := to + dir;
    }
  }

  /** One bishop ray. */
  method BishopRayAt(occupied: Bitboard, from: int, dir: int) returns (moves: seq<Move>)
    requires OnBoard(from) && IsBishopDir(dir)
    ensures moves == BishopRay(occupied, from, dir, from + dir)
  {
    moves := [];
    var to := from + dir;
    while to >= 0 && to < 64
      invariant BishopRay(occupied, from, dir, from + dir) == moves + BishopRay(occupied, from, dir, to)
      decreases if dir > 0 then 64 - to else to + 1
    {
      if Abs(to % 8 - from % 8) > 2 && (Abs(dir) == 7 || Abs(dir) == 9) {
        break;
      }
      AppendAssoc(moves, [Move(from, to, None)], if to in occupied then [] else BishopRay(occupied, from, dir, to + dir));
      moves := moves + [Move(from, to, None)];
      if to in occupied {
        break;
      }
      var next := to + dir;
      if next < 0 || next >= 64 {
        break;
      }
      to := next;
    }
  }

  /** One slider's rays, by the type the square array gives it. */
  method SliderMovesAt(v: BitView, from: int) returns (moves: seq<Move>)
    requires OnBoard(from) && |v.p.squares| == 64
    ensures moves == SliderMovesBB(v, from)
  {
    var t := v.p.squares[from] & TypeMask;
    moves := [];
    if t == Rook || t == Queen {
      moves := RookRaysAt(v.occupied, from);
    }
    if t == Bishop || t == Queen {
      var bishopMoves := BishopRaysAt(v.occupied, from);
      moves := moves + bishopMoves;
    }
  }

  /** The rook loop over the four rook directions. */
  method RookRaysAt(occupied: Bitboard, from: int) returns (moves: seq<Move>)
    requires OnBoard(from)
    ensures moves == RookRays(occupied, from, RookDirs)
  {
    moves := [];
    for k := 0 to |RookDirs|
      invariant moves == RookRays(occupied, from, RookDirs[..k])
    {
      assert RookDirs[..k + 1][..k] == RookDirs[..k];
      var ray := RookRayAt(occupied, from, RookDirs[k]);
      moves := moves + ray;
    }
    assert RookDirs[..|RookDirs|] == RookDirs;
  }

  /** The bishop loop over the four diagonal directions. */
  method BishopRaysAt(occupied: Bitboard, from: int) returns (moves: seq<Move>)
    requires OnBoard(from)
    ensures moves == BishopRays(occupied, from, BishopDirs)
  {
    moves := [];
    for k := 0 to |BishopDirs|
      invariant moves == BishopRays(occupied, from, BishopDirs[..k])
    {
      assert BishopDirs[..k + 1][..k] == BishopDirs[..k];
      var ray := BishopRayAt(occupied, from, BishopDirs[k]);
      moves := moves + ray;
    }
    assert BishopDirs[..|BishopDirs|] == BishopDirs;
  }

  /** The moves of one square of a group, as the generator's loops compute them. */
  method SquareMovesAt(tables: AttackTables, v: BitView, g: Group, from: int) returns (moves: seq<Move>)
    requires tables.Ready() && OnBoard(from) && |v.p.squares| == 64
    ensures moves == SquareMoves(v, g, from)
  {
    var us := if v.p.whiteToMove then v.white else v.black;
    match g
    case Pawns =>
      moves := PawnMovesAt(v, from);
    case Knights =>
      moves := JumpMovesAt(from, tables.knightAttacks[from] - us);
    case Kings =>
      moves := JumpMovesAt(from, tables.kingAttacks[from] - us);
    case Sliders =>
      moves := SliderMovesAt(v, from);
  }

  /** One group's outer loop: pop each square of the board, lowest first, and append its
      moves. */
  method GatherAt(tables: AttackTables, v: BitView, g: Group, board: Bitboard) returns (moves: seq<Move>)
    requires tables.Ready() && |v.p.squares| == 64 && InRange(board)
    ensures moves == Gather(v, g, Ascending(board))
  {
    moves := [];
    ghost var done: seq<int> := [];
    var rest := board;
    while rest != {}
      invariant InRange(rest) && Increasing(done)
      invariant forall x :: x in done <==> x in board && x !in rest
      invariant forall k, j :: 0 <= k < |done| && j in rest ==> done[k] < j
      invariant forall k :: 0 <= k < |done| ==> OnBoard(done[k])
      invariant moves == Gather(v, g, done)
      decreases rest
    {
      var from;
      from, rest := PopLsb(rest);
      var fromMoves := SquareMovesAt(tables, v, g, from);
      assert (done + [from])[..|done|] == done;
      done := done + [from];
      moves := moves + fromMoves;
    }
    SortedIsAscending(board, done);
  }

  /** GenerateMovesBitboard: the pseudo-legal moves of the side to move read off the
      bitboards. */
  method GenerateMovesBitboard(tables: AttackTables, b: Board) returns (moves: seq<Move>)
    requires tables.Ready() && WordsInRange(ViewOf(b))
    ensures moves == BitboardMoves(ViewOf(b))
  {
    moves := GenerateFromView(tables, ViewOf(b));
  }

  /** The four group loops over what the generator reads from the board. */
  method GenerateFromView(tables: AttackTables, v: BitView) returns (moves: seq<Move>)
    requires tables.Ready() && WordsInRange(v)
    ensures moves == BitboardMoves(v)
  {
    var pawnMoves := GatherAt(tables, v, Pawns, Mine(v, Pawn));
    var knightMoves := GatherAt(tables, v, Knights, Mine(v, Knight));
    var kingMoves := GatherAt(tables, v, Kings, Mine(v, King));
    var sliderMoves := GatherAt(tables, v, Sliders, SliderBoard(v));
    moves := pawnMoves + knightMoves + kingMoves + sliderMoves;
  }
}
