/** The pseudo-legal move rules of the array generator, as functions of a position: which
    moves each piece type produces, in the order the generator lists them. The `GameLogic`
    class in gamelogic.dfy builds the same lists with loops and is proved against these
    functions; the lemmas here state what the lists contain. */
module MoveRules {
  import opened Piece
  import opened Positions

  /** The knight's eight jumps and the eight queen directions (the first four are the
      rook's), in the generator's order. */
  const KnightOffsets: seq<int> := [-17, 17, -15, 15, -10, 10, 6, -6]
  const DirectionOffsets: seq<int> := [8, -8, -1, 1, -7, 7, 9, -9]

  /** Rank and file change of one step in each direction. */
  const RankSteps: seq<int> := [1, -1, 0, 0, -1, 1, 1, -1]
  const FileSteps: seq<int> := [0, 0, -1, 1, 1, -1, 1, -1]

  function Abs(x: int): nat {
    if x < 0 then -x else x
  }

  function Min(a: int, b: int): int {
    if a < b then a else b
  }

  /** The remainder of C#'s `%`, which truncates toward zero. */
  function Rem(a: int, n: int): int
    requires n > 0
  {
    if a >= 0 then a % n else -((-a) % n)
  }

  /** Misnamed in the source: the two squares' files differ by at most one. */
  predicate IsSameRank(a: int, b: int) {
    Abs(Rem(a, 8) - Rem(b, 8)) <= 1
  }

  /** `k` steps of `offset` away from `from`. */
  function Along(from: int, offset: int, k: int): int {
    from + offset * k
  }

  /** A square index splits into rank and file. */
  lemma Split8(t: int, rank: int, file: int)
    requires t == 8 * rank + file && 0 <= file < 8
    ensures t / 8 == rank && t % 8 == file
  {
  }

  // ---------------------------------------------------------------- edge table

  /** Row of `numSquaresToEdge` for a square: how many steps fit before the edge in each of
      the eight directions. */
  function EdgeRow(s: int): (row: seq<int>)
    requires OnBoard(s)
    ensures |row| == 8
    ensures forall d :: 0 <= d < 8 ==> 0 <= row[d] <= 7
  {
    var rank, file := s / 8, s % 8;
    var north, south, west, east := 7 - rank, rank, file, 7 - file;
    [north, south, west, east, Min(south, east), Min(north, west), Min(north, east), Min(south, west)]
  }

  /** Each direction offset is its rank step times 8 plus its file step. */
  lemma DirectionSteps(d: int)
    requires 0 <= d < 8
    ensures DirectionOffsets[d] == 8 * RankSteps[d] + FileSteps[d]
    ensures -1 <= RankSteps[d] <= 1 && -1 <= FileSteps[d] <= 1
    ensures RankSteps[d] != 0 || FileSteps[d] != 0
  {
  }

  /** k steps of a line direction (rank and file steps each -1, 0 or 1) that stay within
      the eight ranks and files land where the two steps say. */
  lemma LineStep(s: int, dr: int, df: int, k: int)
    requires OnBoard(s) && -1 <= dr <= 1 && -1 <= df <= 1
    requires 0 <= s / 8 + dr * k < 8 && 0 <= s % 8 + df * k < 8
    ensures OnBoard(Along(s, 8 * dr + df, k))
    ensures Along(s, 8 * dr + df, k) / 8 == s / 8 + dr * k
    ensures Along(s, 8 * dr + df, k) % 8 == s % 8 + df * k
  {
    var r, f := s / 8 + dr * k, s % 8 + df * k;
    assert (8 * dr + df) * k == 8 * (dr * k) + df * k;
    Split8(Along(s, 8 * dr + df, k), r, f);
  }

  /** Up to the table's count, stepping in a direction stays on the board and on one line:
      after k steps the rank and file have moved by exactly k times the direction's steps,
      so a ray never wraps round an edge. */
  lemma EdgeNoWrap(s: int, d: int, k: int)
    requires OnBoard(s) && 0 <= d < 8 && 1 <= k <= EdgeRow(s)[d]
    ensures OnBoard(Along(s, DirectionOffsets[d], k))
    ensures Along(s, DirectionOffsets[d], k) / 8 == s / 8 + RankSteps[d] * k
    ensures Along(s, DirectionOffsets[d], k) % 8 == s % 8 + FileSteps[d] * k
  {
    DirectionSteps(d);
    EdgeFits(s, d, k);
    LineStep(s, RankSteps[d], FileSteps[d], k);
  }

  /** Up to the table's count, the rank and file after k steps stay within the eight. */
  lemma EdgeFits(s: int, d: int, k: int)
    requires OnBoard(s) && 0 <= d < 8 && 1 <= k <= EdgeRow(s)[d]
    ensures 0 <= s / 8 + RankSteps[d] * k < 8 && 0 <= s % 8 + FileSteps[d] * k < 8
  {
    var dr, df := RankSteps[d], FileSteps[d];
    DirectionSteps(d);
    assert dr * k == (if dr == 1 then k else if dr == -1 then -k else 0);
    assert df * k == (if df == 1 then k else if df == -1 then -k else 0);
  }

  /** The count is the largest that fits: one step more leaves the eight ranks or files. */
  lemma EdgeTight(s: int, d: int)
    requires OnBoard(s) && 0 <= d < 8
    ensures var k := EdgeRow(s)[d] + 1;
      !(0 <= s / 8 + RankSteps[d] * k < 8 && 0 <= s % 8 + FileSteps[d] * k < 8)
  {
  }

  // ---------------------------------------------------------------- offset moves

  /** Colour test of the source: a code without the White bit counts as black, so an empty
      square has the colour black. */
  predicate SameColour(p: Code, q: Code) {
    IsWhite(p) == IsWhite(q)
  }

  /** GetMovesForOffsets keeps a target that is on the board, at most two ranks and two
      files away, and not occupied by a piece of the mover's colour. */
  predicate OffsetAllowed(p: Position, from: int, t: int)
    requires WellFormed(p) && OnBoard(from)
  {
    OnBoard(t) &&
    Abs(t / 8 - from / 8) <= 2 && Abs(t % 8 - from % 8) <= 2 &&
    !(SameColour(p.squares[t], p.squares[from]) && p.squares[t] != None)
  }

  /** The moves GetMovesForOffsets lists, in the order of the offsets. */
  function OffsetMoves(p: Position, from: int, offsets: seq<int>): seq<Move>
    requires WellFormed(p) && OnBoard(from)
    decreases |offsets|
  {
    if |offsets| == 0 then []
    else
      var t := from + offsets[|offsets| - 1];
      OffsetMoves(p, from, offsets[..|offsets| - 1]) +
      (if OffsetAllowed(p, from, t) then [Move(from, t, None)] else [])
  }

  /** A move is listed exactly when some offset leads to an allowed target. */
  lemma {:induction false} OffsetMovesIff(p: Position, from: int, offsets: seq<int>, mv: Move)
    requires WellFormed(p) && OnBoard(from)
    ensures mv in OffsetMoves(p, from, offsets) <==>
      exists k :: 0 <= k < |offsets| && mv == Move(from, from + offsets[k], None) &&
                  OffsetAllowed(p, from, from + offsets[k])
    decreases |offsets|
  {
    if |offsets| > 0 {
      var init := offsets[..|offsets| - 1];
      OffsetMovesIff(p, from, init, mv);
      if mv in OffsetMoves(p, from, offsets) && mv !in OffsetMoves(p, from, init) {
        var k := |offsets| - 1;
        assert mv == Move(from, from + offsets[k], None) && OffsetAllowed(p, from, from + offsets[k]);
      }
      if exists k :: 0 <= k < |offsets| && mv == Move(from, from + offsets[k], None) &&
                     OffsetAllowed(p, from, from + offsets[k]) {
        var k :| 0 <= k < |offsets| && mv == Move(from, from + offsets[k], None) &&
                 OffsetAllowed(p, from, from + offsets[k]);
        if k < |offsets| - 1 {
          assert offsets[k] == init[k];
        }
      }
    }
  }

  /** A jump of `8 * dr + df`, with both parts at most two, that passes the two-rank and
      two-file test really moves by dr ranks and df files: a jump that wraps round the
      board's edge changes the file by six or more and is caught by the test. */
  lemma NoWrap(from: int, t: int, dr: int, df: int)
    requires OnBoard(from) && OnBoard(t) && t == from + 8 * dr + df
    requires -2 <= dr <= 2 && -2 <= df <= 2
    requires Abs(t % 8 - from % 8) <= 2
    ensures t / 8 == from / 8 + dr
    ensures t % 8 == from % 8 + df
  {
    var rank, file := from / 8, from % 8;
    if file + df < 0 {
      Split8(t, rank + dr - 1, file + df + 8);
    } else if file + df >= 8 {
      Split8(t, rank + dr + 1, file + df - 8);
    } else {
      Split8(t, rank + dr, file + df);
    }
  }

  /** The offset lists split into rank and file parts. */
  function KnightRanks(): seq<int> { [-2, 2, -2, 2, -1, 1, 1, -1] }
  function KnightFiles(): seq<int> { [-1, 1, 1, -1, -2, 2, -2, 2] }

  lemma KnightParts(k: int)
    requires 0 <= k < 8
    ensures KnightOffsets[k] == 8 * KnightRanks()[k] + KnightFiles()[k]
    ensures (Abs(KnightRanks()[k]) == 2 && Abs(KnightFiles()[k]) == 1) ||
            (Abs(KnightRanks()[k]) == 1 && Abs(KnightFiles()[k]) == 2)
  {
  }

  /** Every knight move is an L: two ranks and one file, or one rank and two files, onto a
      square that is empty or holds a piece of the other colour. */
  lemma KnightMovesAreJumps(p: Position, from: int, mv: Move)
    requires WellFormed(p) && OnBoard(from) && mv in OffsetMoves(p, from, KnightOffsets)
    ensures mv.start == from && mv.promotion == None && OnBoard(mv.target)
    ensures var dr, df := Abs(mv.target / 8 - from / 8), Abs(mv.target % 8 - from % 8);
      (dr == 2 && df == 1) || (dr == 1 && df == 2)
    ensures p.squares[mv.target] == None || !SameColour(p.squares[mv.target], p.squares[from])
  {
    OffsetMovesIff(p, from, KnightOffsets, mv);
    var k :| 0 <= k < |KnightOffsets| && mv == Move(from, from + KnightOffsets[k], None) &&
             OffsetAllowed(p, from, from + KnightOffsets[k]);
    KnightParts(k);
    NoWrap(from, mv.target, KnightRanks()[k], KnightFiles()[k]);
  }

  /** Every king step (offsets along the eight directions) goes to one of the up to eight
      neighbouring squares, empty or holding a piece of the other colour. */
  lemma KingStepsAreAdjacent(p: Position, from: int, mv: Move)
    requires WellFormed(p) && OnBoard(from) && mv in OffsetMoves(p, from, DirectionOffsets)
    ensures mv.start == from && mv.promotion == None && OnBoard(mv.target) && mv.target != from
    ensures Abs(mv.target / 8 - from / 8) <= 1 && Abs(mv.target % 8 - from % 8) <= 1
    ensures p.squares[mv.target] == None || !SameColour(p.squares[mv.target], p.squares[from])
  {
    OffsetMovesIff(p, from, DirectionOffsets, mv);
    var d :| 0 <= d < |DirectionOffsets| && mv == Move(from, from + DirectionOffsets[d], None) &&
             OffsetAllowed(p, from, from + DirectionOffsets[d]);
    var dr, df := RankSteps[d], FileSteps[d];
    DirectionSteps(d);
    NoWrap(from, mv.target, dr, df);
  }

  /** Conversely, every neighbouring square that the king may enter is listed. */
  lemma KingStepsComplete(p: Position, from: int, d: int)
    requires WellFormed(p) && OnBoard(from) && 0 <= d < 8
    requires 0 <= from / 8 + RankSteps[d] < 8 && 0 <= from % 8 + FileSteps[d] < 8
    requires var t := from + DirectionOffsets[d];
      p.squares[8 * (from / 8 + RankSteps[d]) + from % 8 + FileSteps[d]] == None ||
      !SameColour(p.squares[8 * (from / 8 + RankSteps[d]) + from % 8 + FileSteps[d]], p.squares[from])
    ensures Move(from, from + DirectionOffsets[d], None) in OffsetMoves(p, from, DirectionOffsets)
  {
    var t := from + DirectionOffsets[d];
    DirectionSteps(d);
    Split8(t, from / 8 + RankSteps[d], from % 8 + FileSteps[d]);
    assert OffsetAllowed(p, from, t);
    OffsetMovesIff(p, from, DirectionOffsets, Move(from, t, None));
  }

  // ---------------------------------------------------------------- sliding moves

  /** A target a slider may stop on: empty, or holding a piece of the other colour. */
  predicate Enterable(p: Position, from: int, t: int)
    requires WellFormed(p) && OnBoard(from) && OnBoard(t)
  {
    p.squares[t] == None || !SameColour(p.squares[t], p.squares[from])
  }

  /** The squares strictly between step n and step k of a ray are on the board and empty. */
  predicate Clear(p: Position, from: int, offset: int, n: int, k: int)
    requires WellFormed(p)
  {
    forall j :: n < j < k ==> OnBoard(Along(from, offset, j)) && p.squares[Along(from, offset, j)] == None
  }

  /** One ray of GetSlidingPieceMoves from step n + 1 up to step `count`: empty squares are
      listed and the ray goes on; the first occupied square ends it, listed only when it
      holds a piece of the other colour; leaving the board also ends it. */
  function Ray(p: Position, from: int, offset: int, n: nat, count: int): seq<Move>
    requires WellFormed(p) && OnBoard(from)
    decreases count - n
  {
    if n >= count then []
    else
      var t := Along(from, offset, n + 1);
      if !OnBoard(t) then []
      else if p.squares[t] == None then [Move(from, t, None)] + Ray(p, from, offset, n + 1, count)
      else if SameColour(p.squares[t], p.squares[from]) then []
      else [Move(from, t, None)]
  }

  /** What a ray lists: the square k steps out, for some k up to the count, with every
      square before it empty and the square itself enterable. */
  lemma {:induction false} RaySound(p: Position, from: int, offset: int, n: nat, count: int, mv: Move)
    requires WellFormed(p) && OnBoard(from) && mv in Ray(p, from, offset, n, count)
    ensures mv.start == from && mv.promotion == None
    ensures exists k :: (n < k <= count && mv.target == Along(from, offset, k) &&
      OnBoard(mv.target) && Clear(p, from, offset, n, k) && Enterable(p, from, mv.target))
    decreases count - n
  {
    var t := Along(from, offset, n + 1);
    if mv == Move(from, t, None) {
      assert Clear(p, from, offset, n, n + 1);
    } else {
      RaySound(p, from, offset, n + 1, count, mv);
      var k :| n + 1 < k <= count && mv.target == Along(from, offset, k) &&
               OnBoard(mv.target) && Clear(p, from, offset, n + 1, k) && Enterable(p, from, mv.target);
      assert Clear(p, from, offset, n, k);
    }
  }

  /** Every square a ray can reach is listed. */
  lemma {:induction false} RayComplete(p: Position, from: int, offset: int, n: nat, count: int, k: int)
    requires WellFormed(p) && OnBoard(from)
    requires n < k <= count && OnBoard(Along(from, offset, k))
    requires Clear(p, from, offset, n, k) && Enterable(p, from, Along(from, offset, k))
    ensures Move(from, Along(from, offset, k), None) in Ray(p, from, offset, n, count)
    decreases count - n
  {
    if n + 1 < k {
      assert OnBoard(Along(from, offset, n + 1)) && p.squares[Along(from, offset, n + 1)] == None;
      RayComplete(p, from, offset, n + 1, count, k);
    }
  }

  /** The directions a sliding piece uses: 4 to 7 (diagonals) for a bishop, 0 to 3 for a
      rook, all eight for a queen. */
  function FirstDirection(piece: Code): int {
    if TypeOf(piece) == Bishop then 4 else 0
  }

  function EndDirection(piece: Code): int {
    if TypeOf(piece) == Rook then 4 else 8
  }

  /** The rays of directions lo up to d - 1, in order, each as long as the row allows. */
  function Rays(p: Position, from: int, row: seq<int>, lo: int, d: int): seq<Move>
    requires WellFormed(p) && OnBoard(from) && |row| == 8 && 0 <= lo && d <= 8
    decreases d - lo
  {
    if d <= lo then []
    else Rays(p, from, row, lo, d - 1) + Ray(p, from, DirectionOffsets[d - 1], 0, row[d - 1])
  }

  /** The moves GetSlidingPieceMoves lists, given the square's row of the edge table. */
  function SlidingMoves(p: Position, from: int, row: seq<int>): seq<Move>
    requires WellFormed(p) && OnBoard(from) && |row| == 8
  {
    var piece := p.squares[from];
    Rays(p, from, row, FirstDirection(piece), EndDirection(piece))
  }

  /** A slider reaches t along direction d in k steps: k within the edge count, every
      square before t empty, t enterable. */
  predicate Reaches(p: Position, from: int, d: int, k: int, t: int)
    requires WellFormed(p) && OnBoard(from) && 0 <= d < 8
  {
    1 <= k <= EdgeRow(from)[d] && t == Along(from, DirectionOffsets[d], k) && OnBoard(t) &&
    Clear(p, from, DirectionOffsets[d], 0, k) && Enterable(p, from, t)
  }

  lemma {:induction false} RaysIff(p: Position, from: int, lo: int, d: int, mv: Move)
    requires WellFormed(p) && OnBoard(from) && 0 <= lo && d <= 8
    ensures mv in Rays(p, from, EdgeRow(from), lo, d) <==>
      mv.start == from && mv.promotion == None &&
      exists e, k :: lo <= e < d && Reaches(p, from, e, k, mv.target)
    decreases d - lo
  {
    var row := EdgeRow(from);
    if d > lo {
      var e := d - 1;
      var offset := DirectionOffsets[e];
      RaysIff(p, from, lo, d - 1, mv);
      if mv in Ray(p, from, offset, 0, row[e]) {
        RaySound(p, from, offset, 0, row[e], mv);
        var k :| 0 < k <= row[e] && mv.target == Along(from, offset, k) &&
                 OnBoard(mv.target) && Clear(p, from, offset, 0, k) && Enterable(p, from, mv.target);
        assert Reaches(p, from, e, k, mv.target);
      }
      if mv.start == from && mv.promotion == None && exists k :: Reaches(p, from, e, k, mv.target) {
        var k :| Reaches(p, from, e, k, mv.target);
        RayComplete(p, from, offset, 0, row[e], k);
      }
    }
  }

  /** A bishop, rook or queen lists exactly the squares it reaches in its directions: along
      each ray the empty squares, then the first occupied square if it holds an enemy piece,
      and nothing beyond; no ray wraps round an edge (EdgeNoWrap). */
  lemma SlidingMovesIff(p: Position, from: int, mv: Move)
    requires WellFormed(p) && OnBoard(from)
    ensures mv in SlidingMoves(p, from, EdgeRow(from)) <==>
      mv.start == from && mv.promotion == None &&
      exists d, k :: FirstDirection(p.squares[from]) <= d < EndDirection(p.squares[from]) &&
                     Reaches(p, from, d, k, mv.target)
  {
    RaysIff(p, from, FirstDirection(p.squares[from]), EndDirection(p.squares[from]), mv);
  }

  // ---------------------------------------------------------------- pawns

  /** IsLegalMove, as the pawn pushes use it: both squares on the board, the moving piece of
      the side to move, and the target not holding a piece of the mover's colour (an empty
      square has no White bit, so a black mover must also find the target empty or white). */
  predicate IsLegalMove(p: Position, from: int, to: int)
    requires WellFormed(p)
  {
    OnBoard(from) && OnBoard(to) &&
    var target := p.squares[to];
    var white := IsWhite(p.squares[from]);
    var targetWhite := IsWhite(target);
    p.whiteToMove == white && !((white && targetWhite) || (!white && !targetWhite && target != None))
  }

  /** IsLegalMove holds exactly for on-board squares, a mover of the side to move, and a
      target that is empty or holds a piece of the other colour. */
  lemma IsLegalMoveIff(p: Position, from: int, to: int)
    requires WellFormed(p)
    ensures IsLegalMove(p, from, to) <==>
      OnBoard(from) && OnBoard(to) && p.whiteToMove == IsWhite(p.squares[from]) &&
      (p.squares[to] == None || !SameColour(p.squares[to], p.squares[from]))
  {
  }

  function StartRank(white: bool): int { if white then 1 else 6 }
  function PromotionRank(white: bool): int { if white then 7 else 0 }
  function EnPassantRank(white: bool): int { if white then 4 else 3 }

  /** The four promotion moves, queen first. */
  function Promotions(from: int, t: int): seq<Move> {
    [Move(from, t, Queen), Move(from, t, Rook), Move(from, t, Bishop), Move(from, t, Knight)]
  }

  /** A pawn arriving on t: the four promotions on the last rank, a plain move elsewhere. */
  function Advance(from: int, t: int, white: bool): seq<Move>
    requires OnBoard(t)
  {
    if t / 8 == PromotionRank(white) then Promotions(from, t) else [Move(from, t, None)]
  }

  /** The pushes: one step onto an empty square, and from the starting rank a second step
      onto an empty square as well. */
  function PawnPushes(p: Position, from: int): seq<Move>
    requires WellFormed(p) && OnBoard(from)
  {
    var white := IsWhite(p.squares[from]);
    var one, two := from + Step(white), from + 2 * Step(white);
    if IsLegalMove(p, from, one) && p.squares[one] == None then
      Advance(from, one, white) +
      (if from / 8 == StartRank(white) && IsLegalMove(p, from, two) && p.squares[two] == None
       then [Move(from, two, None)] else [])
    else []
  }

  /** The capture test on a diagonal square c: on the board, in a neighbouring file (or the
      same file), and holding a code whose White bit differs from the pawn's. An empty square
      passes for a white pawn, whose colour differs from the empty square's "black". */
  predicate PawnTakes(p: Position, from: int, c: int)
    requires WellFormed(p) && OnBoard(from)
  {
    OnBoard(c) && IsSameRank(from, c) && IsWhite(p.squares[from]) != IsWhite(p.squares[c])
  }

  /** A capture onto c is listed only when the square is occupied. */
  function PawnCapture(p: Position, from: int, c: int): seq<Move>
    requires WellFormed(p) && OnBoard(from)
  {
    if PawnTakes(p, from, c) && p.squares[c] != None then Advance(from, c, IsWhite(p.squares[from])) else []
  }

  /** From the fifth rank of its side, a pawn moves onto the en-passant target when it lies
      diagonally ahead, left first; at most one such move. */
  function PawnEnPassant(p: Position, from: int): seq<Move>
    requires WellFormed(p) && OnBoard(from)
  {
    var white := IsWhite(p.squares[from]);
    var left, right := from + Step(white) - 1, from + Step(white) + 1;
    if from / 8 == EnPassantRank(white) then
      if OnBoard(left) && p.enPassant == left then [Move(from, left, None)]
      else if OnBoard(right) && p.enPassant == right then [Move(from, right, None)]
      else []
    else []
  }

  /** The moves GetPawnMoves lists: pushes, the left capture, the right capture, en passant. */
  function PawnMoves(p: Position, from: int): seq<Move>
    requires WellFormed(p) && OnBoard(from)
  {
    var white := IsWhite(p.squares[from]);
    PawnPushes(p, from) + PawnCapture(p, from, from + Step(white) - 1) +
    PawnCapture(p, from, from + Step(white) + 1) + PawnEnPassant(p, from)
  }

  /** The squares GetPawnMoves adds to its side's attack list: each diagonal square that
      passes the capture test, occupied or not. */
  function PawnAttacks(p: Position, from: int): seq<int>
    requires WellFormed(p) && OnBoard(from)
  {
    var white := IsWhite(p.squares[from]);
    var left, right := from + Step(white) - 1, from + Step(white) + 1;
    (if PawnTakes(p, from, left) then [left] else []) + (if PawnTakes(p, from, right) then [right] else [])
  }

  /** A push goes one square ahead onto an empty square, or two squares ahead from the
      starting rank with both squares empty, and only for a pawn of the side to move. */
  lemma PawnPushesSound(p: Position, from: int, mv: Move)
    requires WellFormed(p) && OnBoard(from) && mv in PawnPushes(p, from)
    ensures var white := IsWhite(p.squares[from]);
      mv.start == from && p.whiteToMove == white && OnBoard(mv.target) && p.squares[mv.target] == None &&
      (mv.target == from + Step(white) ||
       (mv.target == from + 2 * Step(white) && from / 8 == StartRank(white) &&
        p.squares[from + Step(white)] == None && mv.promotion == None))
  {
  }

  /** The diagonal squares that pass IsSameRank are the true diagonal neighbours: one rank
      ahead and one file to the side; the wrapped square at the far edge is refused. */
  lemma PawnCaptureDiagonal(from: int, c: int, white: bool)
    requires OnBoard(from) && OnBoard(c) && IsSameRank(from, c)
    requires c == from + Step(white) - 1 || c == from + Step(white) + 1
    ensures c / 8 == from / 8 + (if white then 1 else -1)
    ensures Abs(c % 8 - from % 8) == 1
  {
    var rank, file := from / 8, from % 8;
    var r := rank + (if white then 1 else -1);
    var df := c - from - Step(white);
    if file + df < 0 {
      Split8(c, r - 1, file + df + 8);
    } else if file + df >= 8 {
      Split8(c, r + 1, file + df - 8);
    } else {
      Split8(c, r, file + df);
    }
  }

  /** A capture goes to a diagonal neighbour ahead that holds a piece of the other colour. */
  lemma PawnCaptureSound(p: Position, from: int, c: int, mv: Move)
    requires WellFormed(p) && OnBoard(from) && mv in PawnCapture(p, from, c)
    requires c == from + Step(IsWhite(p.squares[from])) - 1 || c == from + Step(IsWhite(p.squares[from])) + 1
    ensures mv.start == from && mv.target == c && OnBoard(c)
    ensures c / 8 == from / 8 + (if IsWhite(p.squares[from]) then 1 else -1) && Abs(c % 8 - from % 8) == 1
    ensures p.squares[c] != None && !SameColour(p.squares[c], p.squares[from])
  {
    PawnCaptureDiagonal(from, c, IsWhite(p.squares[from]));
  }

  /** En passant: at most one move, only from the side's fifth rank, onto the en-passant
      target diagonally ahead. */
  lemma PawnEnPassantAtMostOnce(p: Position, from: int)
    requires WellFormed(p) && OnBoard(from)
    ensures |PawnEnPassant(p, from)| <= 1
    ensures forall mv :: mv in PawnEnPassant(p, from) ==>
      var white := IsWhite(p.squares[from]);
      from / 8 == EnPassantRank(white) && mv == Move(from, p.enPassant, None) && OnBoard(mv.target) &&
      (mv.target == from + Step(white) - 1 || mv.target == from + Step(white) + 1)
  {
  }

  /** A pawn arriving on t names a promotion exactly on the last rank, and then all four
      promotions are there. */
  lemma AdvancePromotion(from: int, t: int, white: bool, mv: Move)
    requires OnBoard(t) && mv in Advance(from, t, white)
    ensures mv.start == from && mv.target == t
    ensures mv.promotion != None <==> t / 8 == PromotionRank(white)
    ensures mv.promotion != None ==> forall q :: q in Promotions(from, t) ==> q in Advance(from, t, white)
  {
  }

  /** A pawn move names a promotion exactly when it reaches the last rank, and then all four
      promotions are listed. */
  lemma PawnPromotionIff(p: Position, from: int, mv: Move)
    requires WellFormed(p) && OnBoard(from) && mv in PawnMoves(p, from)
    ensures OnBoard(mv.target)
    ensures mv.promotion != None <==> mv.target / 8 == PromotionRank(IsWhite(p.squares[from]))
    ensures mv.promotion != None ==>
      forall q :: q in Promotions(from, mv.target) ==> q in PawnMoves(p, from)
  {
    var white := IsWhite(p.squares[from]);
    var one, two := from + Step(white), from + 2 * Step(white);
    var left, right := from + Step(white) - 1, from + Step(white) + 1;
    var pushes, lefts, rights, ep :=
      PawnPushes(p, from), PawnCapture(p, from, left), PawnCapture(p, from, right), PawnEnPassant(p, from);
    assert PawnMoves(p, from) == pushes + lefts + rights + ep;
    if mv in pushes {
      if mv.target == one {
        assert mv in Advance(from, one, white);
        AdvancePromotion(from, one, white, mv);
      } else {
        PawnPushesSound(p, from, mv);
        Split8(from, StartRank(white), from % 8);
        Split8(two, StartRank(white) + 2 * (if white then 1 else -1), from % 8);
      }
    } else if mv in lefts {
      AdvancePromotion(from, left, white, mv);
    } else if mv in rights {
      AdvancePromotion(from, right, white, mv);
    } else {
      assert mv in ep;
      PawnEnPassantAtMostOnce(p, from);
      assert from / 8 == EnPassantRank(white);
    }
  }

  // ---------------------------------------------------------------- castling

  predicate KingsideRight(p: Position) {
    if p.whiteToMove then p.whiteKingside else p.blackKingside
  }

  predicate QueensideRight(p: Position) {
    if p.whiteToMove then p.whiteQueenside else p.blackQueenside
  }

  /** The code of the side to move's rook (`White | Rook` or `Black | Rook`). */
  function OwnRook(p: Position): Code {
    ColourBit(p.whiteToMove) | Rook
  }

  /** Every square GetCastlingMoves reads exists: it reads start + 1, + 2, + 3 and start - 1
      to - 4 left to right, stopping at the first test that fails, and throws on an index
      off the array. A king on its home square always passes. */
  predicate CastlingReadsInRange(p: Position, from: int)
    requires WellFormed(p) && OnBoard(from)
  {
    (KingsideRight(p) ==>
      from + 1 < 64 && (p.squares[from + 1] == None ==>
      from + 2 < 64 && (p.squares[from + 2] == None ==> from + 3 < 64))) &&
    (QueensideRight(p) ==>
      0 <= from - 1 && (p.squares[from - 1] == None ==>
      0 <= from - 2 && (p.squares[from - 2] == None ==>
      0 <= from - 3 && (p.squares[from - 3] == None ==> 0 <= from - 4))))
  }

  predicate CanCastleKingside(p: Position, from: int, opponentAttacked: seq<int>)
    requires WellFormed(p) && OnBoard(from) && CastlingReadsInRange(p, from)
  {
    KingsideRight(p) && p.squares[from + 1] == None && p.squares[from + 2] == None &&
    p.squares[from + 3] == OwnRook(p) &&
    from + 1 !in opponentAttacked && from + 2 !in opponentAttacked
  }

  predicate CanCastleQueenside(p: Position, from: int, opponentAttacked: seq<int>)
    requires WellFormed(p) && OnBoard(from) && CastlingReadsInRange(p, from)
  {
    QueensideRight(p) && p.squares[from - 1] == None && p.squares[from - 2] == None &&
    p.squares[from - 3] == None && p.squares[from - 4] == OwnRook(p) &&
    from - 1 !in opponentAttacked && from - 2 !in opponentAttacked
  }

  /** The moves GetCastlingMoves lists for a king on `from`, given the opponent's attack list:
      the king's two-square move towards each side where it may castle, kingside first. */
  function CastlingMoves(p: Position, from: int, opponentAttacked: seq<int>): seq<Move>
    requires WellFormed(p) && OnBoard(from) && CastlingReadsInRange(p, from)
  {
    (if CanCastleKingside(p, from, opponentAttacked) then [Move(from, from + 2, None)] else []) +
    (if CanCastleQueenside(p, from, opponentAttacked) then [Move(from, from - 2, None)] else [])
  }

  /** Castling is listed only with the right held, the squares between king and rook empty,
      the side's own rook in the corner and the two squares next to the king missing from
      the opponent's attack list; and whenever all of that holds. */
  lemma CastlingMovesIff(p: Position, from: int, opponentAttacked: seq<int>, mv: Move)
    requires WellFormed(p) && OnBoard(from) && CastlingReadsInRange(p, from)
    ensures mv in CastlingMoves(p, from, opponentAttacked) <==>
      (mv == Move(from, from + 2, None) && KingsideRight(p) && from + 3 < 64 &&
       p.squares[from + 1] == None && p.squares[from + 2] == None && p.squares[from + 3] == OwnRook(p) &&
       from + 1 !in opponentAttacked && from + 2 !in opponentAttacked) ||
      (mv == Move(from, from - 2, None) && QueensideRight(p) && 0 <= from - 4 &&
       p.squares[from - 1] == None && p.squares[from - 2] == None && p.squares[from - 3] == None &&
       p.squares[from - 4] == OwnRook(p) &&
       from - 1 !in opponentAttacked && from - 2 !in opponentAttacked)
  {
  }

  // ---------------------------------------------------------------- one piece, one side

  /** A king of the side to move on `from` can have its castling squares read. */
  predicate KingReadsInRange(p: Position, from: int)
    requires WellFormed(p) && OnBoard(from)
  {
    var piece := p.squares[from];
    piece != None && IsWhite(piece) == p.whiteToMove && TypeOf(piece) == King ==>
      CastlingReadsInRange(p, from)
  }

  /** No castling read of the side to move goes off the array. */
  predicate CastlingSafe(p: Position)
    requires WellFormed(p)
  {
    forall i :: 0 <= i < 64 ==> KingReadsInRange(p, i)
  }

  /** The moves GenerateMovesForPiece lists for the square `from`: nothing for an empty
      square or a piece of the side not to move; otherwise by type, the king adding its
      castling moves after its steps, and a code whose type bits are 0 or 7 producing
      nothing. */
  function PieceMoves(p: Position, from: int, opponentAttacked: seq<int>): seq<Move>
    requires WellFormed(p) && OnBoard(from) && KingReadsInRange(p, from)
  {
    var piece := p.squares[from];
    if piece == None || p.whiteToMove != IsWhite(piece) then []
    else
      var t := TypeOf(piece);
      if t == Knight then OffsetMoves(p, from, KnightOffsets)
      else if t == Bishop || t == Rook || t == Queen then SlidingMoves(p, from, EdgeRow(from))
      else if t == King then OffsetMoves(p, from, DirectionOffsets) + CastlingMoves(p, from, opponentAttacked)
      else if t == Pawn then PawnMoves(p, from)
      else []
  }

  /** The squares GenerateMovesForPiece adds to its side's attack list: only the pawn branch
      adds any. */
  function PieceAttacks(p: Position, from: int): seq<int>
    requires WellFormed(p) && OnBoard(from)
  {
    var piece := p.squares[from];
    if piece == None || p.whiteToMove != IsWhite(piece) || TypeOf(piece) != Pawn then []
    else PawnAttacks(p, from)
  }

  /** Every move listed for a square starts on that square. */
  lemma PieceMovesStart(p: Position, from: int, opponentAttacked: seq<int>, mv: Move)
    requires WellFormed(p) && OnBoard(from) && KingReadsInRange(p, from)
    requires mv in PieceMoves(p, from, opponentAttacked)
    ensures mv.start == from
  {
    var piece := p.squares[from];
    var t := TypeOf(piece);
    if t == Knight {
      OffsetMovesIff(p, from, KnightOffsets, mv);
    } else if t == Bishop || t == Rook || t == Queen {
      SlidingMovesIff(p, from, mv);
    } else if t == King {
      OffsetMovesIff(p, from, DirectionOffsets, mv);
    } else if t == Pawn {
      PawnMovesStart(p, from, mv);
    }
  }

  /** Every pawn move starts on the pawn's square. */
  lemma PawnMovesStart(p: Position, from: int, mv: Move)
    requires WellFormed(p) && OnBoard(from) && mv in PawnMoves(p, from)
    ensures mv.start == from
  {
    var white := IsWhite(p.squares[from]);
    var left, right := from + Step(white) - 1, from + Step(white) + 1;
    if mv in PawnPushes(p, from) {
      PawnPushesSound(p, from, mv);
    } else if mv in PawnCapture(p, from, left) {
      PawnCaptureSound(p, from, left, mv);
    } else if mv in PawnCapture(p, from, right) {
      PawnCaptureSound(p, from, right, mv);
    } else {
      PawnEnPassantAtMostOnce(p, from);
    }
  }

  /** The moves GenerateMoves lists from squares 0 to n - 1, square by square, with the
      opponent's attack list empty (GenerateMoves clears both lists first and appends only
      to its own side's). */
  function MovesUpTo(p: Position, n: int): seq<Move>
    requires WellFormed(p) && 0 <= n <= 64 && CastlingSafe(p)
  {
    if n == 0 then [] else MovesUpTo(p, n - 1) + PieceMoves(p, n - 1, [])
  }

  /** The targets of the moves whose start square does not hold a pawn, in order: what
      GenerateMoves adds to the attack list after each piece's moves. */
  function NonPawnTargets(p: Position, ms: seq<Move>): seq<int>
    requires WellFormed(p) && forall k :: 0 <= k < |ms| ==> OnBoard(ms[k].start)
  {
    if |ms| == 0 then []
    else
      assert OnBoard(ms[|ms| - 1].start);
      NonPawnTargets(p, ms[..|ms| - 1]) +
      (if TypeOf(p.squares[ms[|ms| - 1].start]) != Pawn then [ms[|ms| - 1].target] else [])
  }

  /** The side to move's attack list after squares 0 to n - 1: each pawn's capture squares,
      each other piece's move targets. */
  function AttacksUpTo(p: Position, n: int): seq<int>
    requires WellFormed(p) && 0 <= n <= 64 && CastlingSafe(p)
  {
    if n == 0 then []
    else
      AttacksUpTo(p, n - 1) + PieceAttacks(p, n - 1) +
      (if p.squares[n - 1] != None && p.whiteToMove == IsWhite(p.squares[n - 1]) then
         PieceStartsHere(p, n - 1); NonPawnTargets(p, PieceMoves(p, n - 1, []))
       else [])
  }

  /** The moves of one square all start there (a shape NonPawnTargets can use). */
  lemma PieceStartsHere(p: Position, from: int)
    requires WellFormed(p) && OnBoard(from) && KingReadsInRange(p, from)
    ensures forall k :: 0 <= k < |PieceMoves(p, from, [])| ==> PieceMoves(p, from, [])[k].start == from
  {
    forall mv | mv in PieceMoves(p, from, [])
      ensures mv.start == from
    {
      PieceMovesStart(p, from, [], mv);
    }
  }

  /** Every move GenerateMoves lists moves a piece of the side to move from its own square. */
  lemma {:induction false} MovesUpToSound(p: Position, n: int, mv: Move)
    requires WellFormed(p) && 0 <= n <= 64 && CastlingSafe(p) && mv in MovesUpTo(p, n)
    ensures 0 <= mv.start < n && p.squares[mv.start] != None
    ensures IsWhite(p.squares[mv.start]) == p.whiteToMove
    ensures mv in PieceMoves(p, mv.start, [])
  {
    if mv !in MovesUpTo(p, n - 1) {
      PieceMovesStart(p, n - 1, [], mv);
    } else {
      MovesUpToSound(p, n - 1, mv);
    }
  }

  // ---------------------------------------------------------------- legality

  /** The set of squares some move targets (the HashSet GenerateLegalMoves builds). */
  function TargetSet(ms: seq<Move>): set<int> {
    set mv | mv in ms :: mv.target
  }

  /** The king square of a side. */
  function KingSquare(p: Position, white: bool): int {
    if white then p.whiteKingSquare else p.blackKingSquare
  }

  /** Every listed move can be made and taken back exactly, and the opponent's replies can
      be generated afterwards without reading off the array. */
  predicate Checkable(p: Position, m: Move) {
    Restorable(p, m) && CastlingSafe(Make(p, m))
  }

  /** After the move, the recorded king square of the side that moved is not the target of
      any pseudo-legal reply. */
  predicate LeavesKingSafe(p: Position, m: Move)
    requires Checkable(p, m)
  {
    var q := Make(p, m);
    KingSquare(q, p.whiteToMove) !in TargetSet(MovesUpTo(q, 64))
  }

  /** The moves that can be checked and leave the mover's king unattacked. */
  ghost function SafeMoves(p: Position): iset<Move> {
    iset m | Checkable(p, m) && LeavesKingSafe(p, m)
  }

  /** The moves of ms that lie in s, keeping their order. */
  ghost function KeepOnly(ms: seq<Move>, s: iset<Move>): seq<Move> {
    if |ms| == 0 then []
    else KeepOnly(ms[..|ms| - 1], s) + (if ms[|ms| - 1] in s then [ms[|ms| - 1]] else [])
  }

  /** Filtering one more move appends it exactly when it lies in the set. */
  lemma KeepOnlySnoc(ms: seq<Move>, s: iset<Move>, m: Move)
    ensures KeepOnly(ms + [m], s) == KeepOnly(ms, s) + (if m in s then [m] else [])
  {
    assert (ms + [m])[..|ms|] == ms;
  }

  /** A move is kept exactly when it is listed and lies in the set. */
  lemma {:induction false} KeepOnlyIff(ms: seq<Move>, s: iset<Move>, m: Move)
    ensures m in KeepOnly(ms, s) <==> m in ms && m in s
  {
    if |ms| > 0 {
      var init := ms[..|ms| - 1];
      KeepOnlyIff(init, s, m);
      assert ms == init + [ms[|ms| - 1]];
    }
  }

  /** GenerateLegalMoves' filter over a list of candidates, keeping their order. */
  ghost function LegalMoves(p: Position, ms: seq<Move>): seq<Move> {
    KeepOnly(ms, SafeMoves(p))
  }

  /** Filtering one more candidate appends it exactly when it is safe. */
  lemma LegalMovesSnoc(p: Position, ms: seq<Move>, m: Move)
    requires Checkable(p, m)
    ensures LegalMoves(p, ms + [m]) == LegalMoves(p, ms) + (if LeavesKingSafe(p, m) then [m] else [])
  {
    KeepOnlySnoc(ms, SafeMoves(p), m);
  }

  /** A candidate is kept exactly when it leaves the mover's king unattacked. */
  lemma LegalMovesIff(p: Position, ms: seq<Move>, m: Move)
    requires forall m :: m in ms ==> Checkable(p, m)
    ensures m in LegalMoves(p, ms) <==> m in ms && LeavesKingSafe(p, m)
  {
    KeepOnlyIff(ms, SafeMoves(p), m);
  }
}
