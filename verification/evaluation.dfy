/** Material evaluation: the sum, over the non-empty squares, of each piece's value from a
    ten-entry table, positive for white and negative for black. The table has no entry for
    kings (or for any other code), and looking such a code up fails; the model returns that
    failure, naming the code, where the source throws. */
module Evaluation {
  import opened Piece

  const PawnValue: int := 100
  const KnightValue: int := 300
  const BishopValue: int := 320
  const RookValue: int := 500
  const QueenValue: int := 900

  /** The `pieceValues` dictionary, keyed by the codes' integer values as in the source. */
  const PieceValues: map<int, int> := map[
    (White | Pawn) as int := PawnValue, (White | Knight) as int := KnightValue,
    (White | Bishop) as int := BishopValue, (White | Rook) as int := RookValue,
    (White | Queen) as int := QueenValue,
    (Black | Pawn) as int := -PawnValue, (Black | Knight) as int := -KnightValue,
    (Black | Bishop) as int := -BishopValue, (Black | Rook) as int := -RookValue,
    (Black | Queen) as int := -QueenValue]

  /** The outcome of an evaluation: the material balance, or the first non-empty code the
      table has no entry for. */
  datatype Balance = Balance(value: int) | MissingKey(piece: Code)

  /** A non-empty code the table does not know. */
  predicate Unvalued(piece: Code) {
    piece != None && piece as int !in PieceValues
  }

  /** The evaluation of the first squares of a position, square by square. */
  function Material(position: seq<Code>): Balance {
    if |position| == 0 then Balance(0)
    else
      match Material(position[..|position| - 1])
      case MissingKey(c) => MissingKey(c)
      case Balance(v) =>
        var piece := position[|position| - 1];
        if piece == None then Balance(v)
        else if piece as int in PieceValues then Balance(v + PieceValues[piece as int])
        else MissingKey(piece)
  }

  /** `Evaluate`: the loop over the squares accumulating the balance. */
  method Evaluate(position: seq<Code>) returns (r: Balance)
    ensures r == Material(position)
  {
    var materialBalance := 0;
    for k := 0 to |position|
      invariant Material(position[..k]) == Balance(materialBalance)
    {
      var piece := position[k];
      assert position[..k + 1][..k] == position[..k];
      if piece == None {
        continue;
      }
      if piece as int !in PieceValues {
        assert Material(position[..k + 1]) == MissingKey(piece);
        MissingKeySticks(position, k + 1);
        return MissingKey(piece);
      }
      materialBalance := materialBalance + PieceValues[piece as int];
    }
    assert position[..|position|] == position;
    r := Balance(materialBalance);
  }

  /** Once a prefix fails, every longer prefix fails with the same code. */
  lemma {:induction false} MissingKeySticks(position: seq<Code>, k: nat)
    requires k <= |position| && Material(position[..k]).MissingKey?
    ensures Material(position) == Material(position[..k])
    decreases |position| - k
  {
    if k < |position| {
      assert position[..k + 1][..k] == position[..k];
      MissingKeySticks(position, k + 1);
    } else {
      assert position[..k] == position;
    }
  }

  // ---------------------------------------------------------------- when it fails

  /** The evaluation fails exactly when some square holds a code the table does not know, and
      then it names the first such code. */
  lemma {:induction false} MaterialFails(position: seq<Code>)
    ensures Material(position).MissingKey? <==> exists k :: 0 <= k < |position| && Unvalued(position[k])
    ensures Material(position).MissingKey? ==>
      exists k :: 0 <= k < |position| && position[k] == Material(position).piece &&
        Unvalued(position[k]) && forall j :: 0 <= j < k ==> !Unvalued(position[j])
  {
    if |position| > 0 {
      var init := position[..|position| - 1];
      MaterialFails(init);
      assert forall j :: 0 <= j < |init| ==> init[j] == position[j];
      if exists k :: 0 <= k < |position| && Unvalued(position[k]) {
        var k :| 0 <= k < |position| && Unvalued(position[k]);
        if k < |init| {
          assert Unvalued(init[k]);
        }
      }
    }
  }

  /** The table has no king entries: a position holding a king of either colour cannot be
      evaluated. */
  lemma KingFails(position: seq<Code>, k: int)
    requires 0 <= k < |position| && (position[k] == White | King || position[k] == Black | King)
    ensures Material(position).MissingKey?
  {
    assert Unvalued(position[k]);
    MaterialFails(position);
  }

  // ---------------------------------------------------------------- what it sums

  /** How many squares hold a given code. */
  function Count(position: seq<Code>, piece: Code): nat {
    if |position| == 0 then 0
    else Count(position[..|position| - 1], piece) + (if position[|position| - 1] == piece then 1 else 0)
  }

  /** A code is counted exactly when it stands on some square. */
  lemma {:induction false} CountPositive(position: seq<Code>, piece: Code)
    ensures Count(position, piece) > 0 <==> piece in position
  {
    if |position| > 0 {
      var init := position[..|position| - 1];
      CountPositive(init, piece);
      assert position == init + [position[|position| - 1]];
    }
  }

  /** The balance as piece counts times values: an order-free reference definition. */
  function CountValue(position: seq<Code>): int {
    PawnValue * (Count(position, White | Pawn) - Count(position, Black | Pawn)) +
    KnightValue * (Count(position, White | Knight) - Count(position, Black | Knight)) +
    BishopValue * (Count(position, White | Bishop) - Count(position, Black | Bishop)) +
    RookValue * (Count(position, White | Rook) - Count(position, Black | Rook)) +
    QueenValue * (Count(position, White | Queen) - Count(position, Black | Queen))
  }

  /** A successful evaluation is the count-based balance of the position. */
  lemma {:induction false} MaterialCounts(position: seq<Code>)
    requires Material(position).Balance?
    ensures Material(position).value == CountValue(position)
  {
    if |position| > 0 {
      var init, piece := position[..|position| - 1], position[|position| - 1];
      assert Material(init).Balance?;
      MaterialCounts(init);
      if piece != None {
        assert piece == White | Pawn || piece == White | Knight || piece == White | Bishop ||
               piece == White | Rook || piece == White | Queen || piece == Black | Pawn ||
               piece == Black | Knight || piece == Black | Bishop || piece == Black | Rook ||
               piece == Black | Queen;
      }
    }
  }

  /** The evaluation ignores where the pieces stand: positions holding as many of each code,
      in any arrangement, both fail or both succeed with the same balance. */
  lemma MaterialPermutation(position: seq<Code>, other: seq<Code>)
    requires forall piece :: Count(position, piece) == Count(other, piece)
    ensures Material(position).Balance? <==> Material(other).Balance?
    ensures Material(position).Balance? ==> Material(position).value == Material(other).value
  {
    MaterialFails(position);
    MaterialFails(other);
    if exists k :: 0 <= k < |position| && Unvalued(position[k]) {
      var k :| 0 <= k < |position| && Unvalued(position[k]);
      CountPositive(position, position[k]);
      CountPositive(other, position[k]);
      var j :| 0 <= j < |other| && other[j] == position[k];
    }
    if exists k :: 0 <= k < |other| && Unvalued(other[k]) {
      var k :| 0 <= k < |other| && Unvalued(other[k]);
      CountPositive(other, other[k]);
      CountPositive(position, other[k]);
      var j :| 0 <= j < |position| && position[j] == other[k];
    }
    if Material(position).Balance? {
      MaterialCounts(position);
      MaterialCounts(other);
    }
  }

  /** An empty board scores 0. */
  lemma {:induction false} EmptyScoresZero(position: seq<Code>)
    requires forall k :: 0 <= k < |position| ==> position[k] == None
    ensures Material(position) == Balance(0)
  {
    if |position| > 0 {
      EmptyScoresZero(position[..|position| - 1]);
    }
  }

  // ---------------------------------------------------------------- colour swap

  /** A code with exactly one colour bit, or the empty code. */
  predicate OneColour(piece: Code) {
    piece == None || ((piece & White != 0) != (piece & Black != 0))
  }

  /** The same piece type in the other colour. */
  function Recolour(piece: Code): Code {
    if piece == None then None else piece ^ (White | Black)
  }

  /** Every square recoloured. */
  function Recoloured(position: seq<Code>): (r: seq<Code>)
    ensures |r| == |position|
  {
    if |position| == 0 then []
    else Recoloured(position[..|position| - 1]) + [Recolour(position[|position| - 1])]
  }

  /** The table is symmetric: a code is known exactly when its recoloured code is, with the
      opposite value. */
  lemma RecolourValue(piece: Code)
    requires OneColour(piece)
    ensures Recolour(piece) == None <==> piece == None
    ensures piece as int in PieceValues <==> Recolour(piece) as int in PieceValues
    ensures piece as int in PieceValues ==> PieceValues[Recolour(piece) as int] == -PieceValues[piece as int]
  {
    if piece != None {
      assert Recolour(Recolour(piece)) == piece;
    }
    var r := Recolour(piece);
    if piece as int in PieceValues {
      if piece == White | Pawn || piece == Black | Pawn {
      } else if piece == White | Knight || piece == Black | Knight {
      } else if piece == White | Bishop || piece == Black | Bishop {
      } else if piece == White | Rook || piece == Black | Rook {
      } else {
        assert piece == White | Queen || piece == Black | Queen;
      }
    }
    if r as int in PieceValues {
      assert r == White | Pawn || r == White | Knight || r == White | Bishop ||
             r == White | Rook || r == White | Queen || r == Black | Pawn ||
             r == Black | Knight || r == Black | Bishop || r == Black | Rook ||
             r == Black | Queen;
    }
  }

  /** Swapping the colour of every piece negates the balance (and a failure names the
      recoloured code). */
  lemma {:induction false} RecolourNegates(position: seq<Code>)
    requires forall k :: 0 <= k < |position| ==> OneColour(position[k])
    ensures Material(Recoloured(position)) ==
      match Material(position)
      case Balance(v) => Balance(-v)
      case MissingKey(c) => MissingKey(Recolour(c))
  {
    if |position| > 0 {
      var init, piece := position[..|position| - 1], position[|position| - 1];
      RecolourNegates(init);
      RecolourValue(piece);
      var swapped := Recoloured(position);
      assert swapped[..|swapped| - 1] == Recoloured(init);
    }
  }
}
