/** The engine's fixed-depth negamax search with alpha-beta pruning, and its choice of reply.
    The board operations the search calls (the bitboard move generator, making and unmaking a
    move, the bitboard evaluation and the side to move) are given as an abstract game: total
    functions of an abstract state, with an explicit stack of states so that unmaking a move
    returns to the state before it. Scores are from the point of view of the side to move,
    except that a side with no moves scores -INF (white) or +INF (black) as the source
    writes it, whichever side that is. */
module Search {
  import opened Positions
  import opened Piece

  const INF: int := 1000000
  const MaxDepth: nat := 3

  /** `default(Move)`: the all-zero move returned when there is nothing to choose from. */
  const NoMove: Move := Move(0, 0, None)

  /** The board operations the search relies on. */
  datatype Game<!S> = Game(
    moves: S -> seq<Move>,
    play: (S, Move) -> S,
    evaluate: S -> int,
    whiteToMove: S -> bool)

  function Max(a: int, b: int): int { if a >= b then a else b }

  /** The score of a position at depth 0: the evaluation, negated when black is to move. */
  function Leaf<S>(g: Game<S>, s: S): int {
    if g.whiteToMove(s) then g.evaluate(s) else -g.evaluate(s)
  }

  /** The score of a position without moves, nudged by how far the search has come. */
  function NoMoves<S>(g: Game<S>, s: S, depth: int): int {
    if g.whiteToMove(s) then -INF + (MaxDepth - depth) else INF - (MaxDepth - depth)
  }

  // ---------------------------------------------------------------- the search's value

  /** The value AlphaBeta returns from state s with the window (alpha, beta). */
  function AlphaBetaValue<S>(g: Game<S>, s: S, depth: nat, alpha: int, beta: int): int
    decreases depth, 0, 0
  {
    if depth == 0 then Leaf(g, s)
    else if |g.moves(s)| == 0 then NoMoves(g, s, depth)
    else ChildrenValue(g, s, g.moves(s), 0, depth - 1, alpha, beta, -INF)
  }

  /** The child loop from the k-th move on, with the window's lower edge raised to alpha and
      the best score so far `value`: the first child scoring at least beta cuts the loop
      off with beta. */
  function ChildrenValue<S>(g: Game<S>, s: S, ms: seq<Move>, k: nat, depth: nat,
                            alpha: int, beta: int, value: int): int
    requires k <= |ms|
    decreases depth, 1, |ms| - k
  {
    if k == |ms| then value
    else
      var score := -AlphaBetaValue(g, g.play(s, ms[k]), depth, -beta, -alpha);
      if score >= beta then beta
      else ChildrenValue(g, s, ms, k + 1, depth, Max(alpha, score), beta, Max(value, score))
  }

  // ---------------------------------------------------------------- the reference: negamax

  /** The plain negamax value, searching every move: the reference the pruned search is
      measured against. */
  function Negamax<S>(g: Game<S>, s: S, depth: nat): int
    decreases depth, 0, 0
  {
    if depth == 0 then Leaf(g, s)
    else if |g.moves(s)| == 0 then NoMoves(g, s, depth)
    else BestChild(g, s, g.moves(s), |g.moves(s)|, depth - 1)
  }

  /** The best negated child value among the first k moves, and at least -INF. */
  function BestChild<S>(g: Game<S>, s: S, ms: seq<Move>, k: nat, depth: nat): int
    requires k <= |ms|
    decreases depth, 1, k
  {
    if k == 0 then -INF
    else Max(BestChild(g, s, ms, k - 1, depth), -Negamax(g, g.play(s, ms[k - 1]), depth))
  }

  /** Looking at more moves never lowers the best child value. */
  lemma {:induction false} BestChildGrows<S>(g: Game<S>, s: S, ms: seq<Move>, k: nat, j: nat, depth: nat)
    requires k <= j <= |ms|
    ensures BestChild(g, s, ms, k, depth) <= BestChild(g, s, ms, j, depth)
    decreases j - k
  {
    if k < j {
      BestChildGrows(g, s, ms, k, j - 1, depth);
    }
  }

  /** Alpha-beta is exact inside its window: with -INF <= alpha < beta <= INF, the pruned
      search returns the negamax value when that value lies strictly inside the window, a
      value no higher than alpha when negamax is at most alpha, and one no lower than beta
      when negamax is at least beta. */
  lemma {:induction false} AlphaBetaWindow<S>(g: Game<S>, s: S, depth: nat, alpha: int, beta: int)
    requires -INF <= alpha < beta <= INF
    ensures Negamax(g, s, depth) <= alpha ==> AlphaBetaValue(g, s, depth, alpha, beta) <= alpha
    ensures Negamax(g, s, depth) >= beta ==> AlphaBetaValue(g, s, depth, alpha, beta) >= beta
    ensures alpha < Negamax(g, s, depth) < beta ==> AlphaBetaValue(g, s, depth, alpha, beta) == Negamax(g, s, depth)
    decreases depth, 0, 0
  {
    if depth > 0 && |g.moves(s)| > 0 {
      ChildrenWindow(g, s, g.moves(s), 0, depth - 1, alpha, beta, alpha, -INF);
    }
  }

  /** The child loop keeps the window theorem's invariant: while no child has reached beta,
      either the best child so far is at most the original alpha (and so is `value`, with
      alpha not yet raised), or `value` and the raised alpha both equal it. */
  lemma {:induction false} ChildrenWindow<S>(g: Game<S>, s: S, ms: seq<Move>, k: nat, depth: nat,
                                             alpha0: int, beta: int, alpha: int, value: int)
    requires k <= |ms| && -INF <= alpha0 < beta <= INF
    requires BestChild(g, s, ms, k, depth) < beta
    requires BestChild(g, s, ms, k, depth) <= alpha0 ==> value <= alpha0 && alpha == alpha0
    requires BestChild(g, s, ms, k, depth) > alpha0 ==> value == BestChild(g, s, ms, k, depth) && alpha == value
    ensures var r, n := ChildrenValue(g, s, ms, k, depth, alpha, beta, value), BestChild(g, s, ms, |ms|, depth);
      (n <= alpha0 ==> r <= alpha0) && (n >= beta ==> r >= beta) && (alpha0 < n < beta ==> r == n)
    decreases depth, 1, |ms| - k
  {
    if k < |ms| {
      var child := g.play(s, ms[k]);
      AlphaBetaWindow(g, child, depth, -beta, -alpha);
      var score := -AlphaBetaValue(g, child, depth, -beta, -alpha);
      if score >= beta {
        BestChildGrows(g, s, ms, k + 1, |ms|, depth);
      } else {
        ChildrenWindow(g, s, ms, k + 1, depth, alpha0, beta, Max(alpha, score), Max(value, score));
      }
    }
  }

  /** Fail-hard at the top: once a position has moves and is searched to some depth, its
      value never exceeds beta (a leaf's evaluation, by contrast, is returned unclipped). */
  lemma AlphaBetaAtMostBeta<S>(g: Game<S>, s: S, depth: nat, alpha: int, beta: int)
    requires depth > 0 && |g.moves(s)| > 0 && -INF < beta
    ensures AlphaBetaValue(g, s, depth, alpha, beta) <= beta
  {
    ChildrenAtMostBeta(g, s, g.moves(s), 0, depth - 1, alpha, beta, -INF);
  }

  /** The child loop returns beta on a cut-off, and otherwise a best score below beta. */
  lemma {:induction false} ChildrenAtMostBeta<S>(g: Game<S>, s: S, ms: seq<Move>, k: nat, depth: nat,
                                                 alpha: int, beta: int, value: int)
    requires k <= |ms| && value < beta
    ensures ChildrenValue(g, s, ms, k, depth, alpha, beta, value) <= beta
    decreases |ms| - k
  {
    if k < |ms| {
      var score := -AlphaBetaValue(g, g.play(s, ms[k]), depth, -beta, -alpha);
      if score < beta {
        ChildrenAtMostBeta(g, s, ms, k + 1, depth, Max(alpha, score), beta, Max(value, score));
      }
    }
  }

  /** The score of a side without moves keeps the source's signs: -INF-ish when white is to
      move but +INF-ish when black is, although negamax scores are from the mover's point
      of view, so a black side without moves rates its position as won. */
  lemma NoMovesSignAsWritten<S>(g: Game<S>, s: S, depth: nat)
    requires 0 < depth <= MaxDepth && |g.moves(s)| == 0
    ensures g.whiteToMove(s) ==> AlphaBetaValue(g, s, depth, -INF, INF) < -INF + MaxDepth
    ensures !g.whiteToMove(s) ==> AlphaBetaValue(g, s, depth, -INF, INF) > INF - MaxDepth
  {
  }

  // ---------------------------------------------------------------- choosing a reply

  /** The score ChooseComputerMove gives each candidate: the negated value of the reply
      search two plies deeper. */
  function RootScores<S>(g: Game<S>, s: S, moves: seq<Move>): (scores: seq<int>)
    ensures |scores| == |moves|
  {
    seq(|moves|, k requires 0 <= k < |moves| => -AlphaBetaValue(g, g.play(s, moves[k]), MaxDepth - 1, -INF, INF))
  }

  /** The index and score the choice loop holds after a list of scores: it starts at the
      first move with -INF and moves on only for a strictly greater score. */
  function Leader(scores: seq<int>): (r: (nat, int))
    ensures |scores| > 0 ==> r.0 < |scores|
  {
    if |scores| == 0 then (0, -INF)
    else
      var (i, best) := Leader(scores[..|scores| - 1]);
      var last := scores[|scores| - 1];
      if last > best then (|scores| - 1, last) else (i, best)
  }

  /** The loop keeps the first maximum: the index is a candidate's, its score (floored at
      -INF) is the greatest, and every earlier candidate scored strictly less, so ties go to
      the earlier move. */
  lemma {:induction false} LeaderIsFirstBest(scores: seq<int>)
    ensures |scores| > 0 ==> Leader(scores).1 == Max(-INF, scores[Leader(scores).0])
    ensures forall j :: 0 <= j < |scores| ==> scores[j] <= Leader(scores).1
    ensures forall j :: 0 <= j < Leader(scores).0 && j < |scores| ==> scores[j] < Leader(scores).1
    ensures Leader(scores).1 >= -INF
  {
    if |scores| > 0 {
      var init := scores[..|scores| - 1];
      LeaderIsFirstBest(init);
      assert forall j :: 0 <= j < |init| ==> init[j] == scores[j];
    }
  }

  /** When every candidate's reply value lies strictly between -INF and INF, the choice
      scores are the exact negamax values, so the chosen move is the first with the best
      negamax score. */
  lemma RootScoresExact<S>(g: Game<S>, s: S, moves: seq<Move>)
    requires forall k :: 0 <= k < |moves| ==> -INF < Negamax(g, g.play(s, moves[k]), MaxDepth - 1) < INF
    ensures forall k :: 0 <= k < |moves| ==>
      RootScores(g, s, moves)[k] == -Negamax(g, g.play(s, moves[k]), MaxDepth - 1)
  {
    forall k | 0 <= k < |moves|
      ensures RootScores(g, s, moves)[k] == -Negamax(g, g.play(s, moves[k]), MaxDepth - 1)
    {
      AlphaBetaWindow(g, g.play(s, moves[k]), MaxDepth - 1, -INF, INF);
    }
  }

  // ---------------------------------------------------------------- the engine

  /** The board as the search sees it: the current state, and the states left by the moves
      made and not yet unmade. */
  class Engine<S> {
    const game: Game<S>
    var current: S
    var history: seq<S>

    constructor (game: Game<S>, start: S)
      ensures this.game == game && current == start && history == []
    {
      this.game := game;
      current := start;
      history := [];
    }

    /** `MakeMoveBB`: plays a move, remembering the state it leaves. */
    method MakeMoveBB(m: Move)
      modifies this
      ensures history == old(history) + [old(current)]
      ensures current == game.play(old(current), m)
    {
      history := history + [current];
      current := game.play(current, m);
    }

    /** `UnmakeMoveBB`: returns to the state before the last move made. */
    method UnmakeMoveBB()
      requires |history| > 0
      modifies this
      ensures current == old(history)[|old(history)| - 1]
      ensures history == old(history)[..|old(history)| - 1]
    {
      current := history[|history| - 1];
      history := history[..|history| - 1];
    }

    /** `AlphaBeta`: every move made is unmade, so the board ends as it began, and the
        result is the search's value. */
    method AlphaBeta(depth: nat, alpha: int, beta: int) returns (r: int)
      modifies this
      ensures current == old(current) && history == old(history)
      ensures r == AlphaBetaValue(game, old(current), depth, alpha, beta)
      decreases depth
    {
      if depth == 0 {
        var eval := game.evaluate(current);
        return if game.whiteToMove(current) then eval else -eval;
      }
      var moves := game.moves(current);
      if |moves| == 0 {
        return if game.whiteToMove(current) then -INF + (MaxDepth - depth) else INF - (MaxDepth - depth);
      }
      ghost var s := current;
      var value := -INF;
      var a := alpha;
      for k := 0 to |moves|
        invariant current == s && history == old(history)
        invariant ChildrenValue(game, s, moves, 0, depth - 1, alpha, beta, -INF) ==
                  ChildrenValue(game, s, moves, k, depth - 1, a, beta, value)
      {
        MakeMoveBB(moves[k]);
        var childScore := AlphaBeta(depth - 1, -beta, -a);
        var score := -childScore;
        UnmakeMoveBB();
        if score >= beta {
          return beta;
        }
        if score > value {
          value := score;
        }
        if score > a {
          a := score;
        }
      }
      return value;
    }

    /** `ChooseComputerMove`: the all-zero move for an empty list; otherwise the first
        candidate with the strictly greatest score, the board ending as it began. */
    method ChooseComputerMove(moves: seq<Move>) returns (bestMove: Move)
      modifies this
      ensures current == old(current) && history == old(history)
      ensures |moves| == 0 ==> bestMove == NoMove
      ensures |moves| > 0 ==> bestMove == moves[Leader(RootScores(game, old(current), moves)).0]
    {
      if |moves| == 0 {
        return NoMove;
      }
      ghost var s := current;
      ghost var scores := RootScores(game, s, moves);
      LeaderIsFirstBest(scores);
      bestMove := moves[0];
      var bestScore := -INF;
      ghost var bestIndex := 0;
      for k := 0 to |moves|
        invariant current == s && history == old(history)
        invariant Leader(scores[..k]) == (bestIndex, bestScore)
        invariant 0 <= bestIndex < |moves| && bestMove == moves[bestIndex]
      {
        MakeMoveBB(moves[k]);
        var childScore := AlphaBeta(MaxDepth - 1, -INF, INF);
        var score := -childScore;
        UnmakeMoveBB();
        assert scores[..k + 1][..k] == scores[..k];
        if score > bestScore {
          bestScore := score;
          bestMove := moves[k];
          bestIndex := k;
        }
      }
      assert scores[..|moves|] == scores;
    }
  }
}
