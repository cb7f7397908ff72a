/** Reading the piece-placement field of a FEN string into the 64 squares.
    Strings are sequences of characters; only the first field of the string is applied. */
module Fen {
  import opened Piece

  /** The standard start position. */
  const StartFen: string := "rnbqkbnr/pppppppp/8/8/8/8/PPPPPPPP/RNBQKBNR w KQkq - 0 1"

  /** The 64 squares of a freshly allocated array: all empty. */
  const NoSquares: seq<Code> := seq(64, _ => None)

  /** The fields of s between single spaces, empty fields included (`s.Split(' ')`). */
  function Fields(s: string): (r: seq<string>)
    ensures |r| >= 1
    ensures forall k :: 0 <= k < |r| ==> ' ' !in r[k]
  {
    if |s| == 0 then [""]
    else
      var rest := Fields(s[1..]);
      if s[0] == ' ' then [""] + rest
      else [[s[0]] + rest[0]] + rest[1..]
  }

  /** Fields joined back with single spaces. */
  function Join(fs: seq<string>): string
    requires |fs| >= 1
  {
    if |fs| == 1 then fs[0] else fs[0] + " " + Join(fs[1..])
  }

  function Count(s: string, c: char): nat {
    if |s| == 0 then 0 else (if s[0] == c then 1 else 0) + Count(s[1..], c)
  }

  /** Splitting loses nothing: joining the fields gives the string back, and there is one
      field more than there are spaces. */
  lemma {:induction false} SplitJoin(s: string)
    ensures Join(Fields(s)) == s
    ensures |Fields(s)| == Count(s, ' ') + 1
  {
    if |s| > 0 {
      SplitJoin(s[1..]);
      var rest := Fields(s[1..]);
      if s[0] == ' ' {
        assert Fields(s)[1..] == rest;
        assert s == [' '] + s[1..];
      } else {
        var fs := Fields(s);
        assert fs[0] == [s[0]] + rest[0];
        if |rest| == 1 {
          assert s == [s[0]] + rest[0];
        } else {
          assert fs[1..] == rest[1..];
          assert Join(rest) == rest[0] + " " + Join(rest[1..]);
          assert s == [s[0]] + s[1..];
        }
      }
    }
  }

  /** `char.IsDigit`, on the ASCII digits. */
  predicate IsDigit(c: char) {
    '0' <= c <= '9'
  }

  /** `char.ToLower`, on the ASCII letters. */
  function Lower(c: char): char {
    if 'A' <= c <= 'Z' then (c as int + 32) as char else c
  }

  /** The piece type a letter names, whatever its case; None for any other character. */
  function LetterType(c: char): Code {
    match Lower(c)
    case 'p' => Pawn
    case 'n' => Knight
    case 'b' => Bishop
    case 'r' => Rook
    case 'q' => Queen
    case 'k' => King
    case _ => None
  }

  /** The code a FEN letter stands for: an upper-case letter is a white piece, the same
      letter in lower case the black piece of that type, and any other character None. */
  function PieceFromChar(c: char): (p: Code)
    ensures LetterType(c) == None ==> p == None
    ensures LetterType(c) != None ==>
      p != None && TypeOf(p) == LetterType(c) && (IsWhite(p) <==> c != Lower(c))
  {
    match Lower(c)
    case 'p' => if c == 'p' then Black | Pawn else White | Pawn
    case 'n' => if c == 'n' then Black | Knight else White | Knight
    case 'b' => if c == 'b' then Black | Bishop else White | Bishop
    case 'r' => if c == 'r' then Black | Rook else White | Rook
    case 'q' => if c == 'q' then Black | Queen else White | Queen
    case 'k' => if c == 'k' then Black | King else White | King
    case _ => None
  }

  /** The codes a board square can hold when written by FEN: a colour bit and a type. */
  predicate IsPieceCode(p: Code) {
    IsPieceType(TypeOf(p)) && (p == White | TypeOf(p) || p == Black | TypeOf(p))
  }

  /** The FEN letter of a piece code: the reference inverse of PieceFromChar. */
  function PieceChar(p: Code): (c: char)
    requires IsPieceCode(p)
    ensures c != '/' && !IsDigit(c)
  {
    var l := match TypeOf(p)
      case 2 => 'p' case 3 => 'n' case 4 => 'b' case 5 => 'r' case 6 => 'q' case _ => 'k';
    if IsWhite(p) then (l as int - 32) as char else l
  }

  /** Writing a piece's letter and reading it back gives the same piece. */
  lemma PieceCharRoundTrip(p: Code)
    requires IsPieceCode(p)
    ensures PieceFromChar(PieceChar(p)) == p
  {
  }

  /** Every character PieceFromChar accepts is the letter of the piece it yields. */
  lemma PieceFromCharRoundTrip(c: char)
    requires PieceFromChar(c) != None
    ensures IsPieceCode(PieceFromChar(c)) && PieceChar(PieceFromChar(c)) == c
  {
  }

  /** Where the placement loop ends: every character read, or an index off the array (the
      source's IndexOutOfRangeException), with the writes made before it kept. */
  datatype Placement = Placed(squares: seq<Code>) | OffBoard(squares: seq<Code>)

  /** The placement loop from a rank and file onwards: '/' goes down a rank to file 0, a
      digit skips that many files without writing, any other character writes its code at
      rank * 8 + file and moves one file on. */
  function Place(sq: seq<Code>, s: string, rank: int, file: int): (r: Placement)
    requires |sq| == 64
    ensures |r.squares| == 64
    decreases |s|
  {
    if |s| == 0 then Placed(sq)
    else if s[0] == '/' then Place(sq, s[1..], rank - 1, 0)
    else if IsDigit(s[0]) then Place(sq, s[1..], rank, file + (s[0] as int - '0' as int))
    else if 0 <= rank * 8 + file < 64 then Place(sq[rank * 8 + file := PieceFromChar(s[0])], s[1..], rank, file + 1)
    else OffBoard(sq)
  }

  /** The squares of one rank, one character per square: the piece letter, or '1' for an
      empty square. */
  function RankText(sq: seq<Code>, rank: int, file: int): (t: string)
    requires |sq| == 64 && 0 <= rank < 8 && 0 <= file <= 8
    requires forall i :: 0 <= i < 64 ==> sq[i] == None || IsPieceCode(sq[i])
    ensures |t| == 8 - file
    decreases 8 - file
  {
    if file == 8 then ""
    else
      var p := sq[rank * 8 + file];
      [if p == None then '1' else PieceChar(p)] + RankText(sq, rank, file + 1)
  }

  /** A placement field for a board, ranks 7 down to `rank`, separated by '/'. */
  function Render(sq: seq<Code>, rank: int): string
    requires |sq| == 64 && 0 <= rank < 8
    requires forall i :: 0 <= i < 64 ==> sq[i] == None || IsPieceCode(sq[i])
    decreases rank
  {
    if rank == 0 then RankText(sq, 0, 0) else RankText(sq, rank, 0) + "/" + Render(sq, rank - 1)
  }

  /** `before` with the pieces of `sq` on the squares of the given rank from `file` on. */
  function Overlay(before: seq<Code>, sq: seq<Code>, rank: int, file: int): (r: seq<Code>)
    requires |before| == 64 && |sq| == 64 && 0 <= rank < 8 && 0 <= file <= 8
    ensures |r| == 64
    decreases 8 - file
  {
    if file == 8 then before
    else
      var i := rank * 8 + file;
      Overlay(if sq[i] != None then before[i := sq[i]] else before, sq, rank, file + 1)
  }

  lemma {:induction false} OverlayAt(before: seq<Code>, sq: seq<Code>, rank: int, file: int, i: int)
    requires |before| == 64 && |sq| == 64 && 0 <= rank < 8 && 0 <= file <= 8 && 0 <= i < 64
    ensures Overlay(before, sq, rank, file)[i] ==
      (if i / 8 == rank && file <= i % 8 && sq[i] != None then sq[i] else before[i])
    decreases 8 - file
  {
    if file < 8 {
      var j := rank * 8 + file;
      OverlayAt(if sq[j] != None then before[j := sq[j]] else before, sq, rank, file + 1, i);
    }
  }

  lemma {:induction false} PlaceRank(before: seq<Code>, sq: seq<Code>, rank: int, file: int, rest: string)
    requires |before| == 64 && |sq| == 64 && 0 <= rank < 8 && 0 <= file <= 8
    requires forall i :: 0 <= i < 64 ==> sq[i] == None || IsPieceCode(sq[i])
    ensures Place(before, RankText(sq, rank, file) + rest, rank, file)
         == Place(Overlay(before, sq, rank, file), rest, rank, 8)
    decreases 8 - file
  {
    if file < 8 {
      var t := RankText(sq, rank, file);
      var p := sq[rank * 8 + file];
      assert (t + rest)[1..] == RankText(sq, rank, file + 1) + rest;
      assert (t + rest)[0] == (if p == None then '1' else PieceChar(p));
      if p == None {
        assert Place(before, t + rest, rank, file) == Place(before, (t + rest)[1..], rank, file + 1);
        assert Overlay(before, sq, rank, file) == Overlay(before, sq, rank, file + 1);
        PlaceRank(before, sq, rank, file + 1, rest);
      } else {
        PieceCharRoundTrip(p);
        var b := before[rank * 8 + file := p];
        assert Place(before, t + rest, rank, file) == Place(b, (t + rest)[1..], rank, file + 1);
        assert Overlay(before, sq, rank, file) == Overlay(b, sq, rank, file + 1);
        PlaceRank(b, sq, rank, file + 1, rest);
      }
    } else {
      assert RankText(sq, rank, file) + rest == rest;
    }
  }

  /** `before` with the pieces of `sq` on ranks `rank` down to 0. */
  function OverlayRanks(before: seq<Code>, sq: seq<Code>, rank: int): (r: seq<Code>)
    requires |before| == 64 && |sq| == 64 && 0 <= rank < 8
    ensures |r| == 64
    decreases rank
  {
    var b := Overlay(before, sq, rank, 0);
    if rank == 0 then b else OverlayRanks(b, sq, rank - 1)
  }

  lemma {:induction false} OverlayRanksAt(before: seq<Code>, sq: seq<Code>, rank: int, i: int)
    requires |before| == 64 && |sq| == 64 && 0 <= rank < 8 && 0 <= i < 64
    ensures OverlayRanks(before, sq, rank)[i] ==
      (if i / 8 <= rank && sq[i] != None then sq[i] else before[i])
    decreases rank
  {
    var b := Overlay(before, sq, rank, 0);
    OverlayAt(before, sq, rank, 0, i);
    if rank > 0 {
      OverlayRanksAt(b, sq, rank - 1, i);
    }
  }

  lemma RenderStep(sq: seq<Code>, rank: int)
    requires |sq| == 64 && 0 < rank < 8
    requires forall i :: 0 <= i < 64 ==> sq[i] == None || IsPieceCode(sq[i])
    ensures Render(sq, rank) == RankText(sq, rank, 0) + ("/" + Render(sq, rank - 1))
  {
  }

  lemma PlaceSlash(sq: seq<Code>, x: string, rank: int, file: int)
    requires |sq| == 64
    ensures Place(sq, "/" + x, rank, file) == Place(sq, x, rank - 1, 0)
  {
    assert ("/" + x)[1..] == x;
  }

  lemma {:induction false} PlaceRender(before: seq<Code>, sq: seq<Code>, rank: int)
    requires |before| == 64 && |sq| == 64 && 0 <= rank < 8
    requires forall i :: 0 <= i < 64 ==> sq[i] == None || IsPieceCode(sq[i])
    ensures Place(before, Render(sq, rank), rank, 0) == Placed(OverlayRanks(before, sq, rank))
    decreases rank
  {
    var b := Overlay(before, sq, rank, 0);
    var t := RankText(sq, rank, 0);
    if rank == 0 {
      PlaceRank(before, sq, 0, 0, "");
      assert t + "" == t;
      assert Place(b, "", 0, 8) == Placed(b);
    } else {
      var rest := "/" + Render(sq, rank - 1);
      RenderStep(sq, rank);
      PlaceRank(before, sq, rank, 0, rest);
      PlaceSlash(b, Render(sq, rank - 1), rank, 8);
      PlaceRender(b, sq, rank - 1);
    }
  }

  /** Reading a placement written one character per square puts every piece of the board on
      its square; empty squares are not written, so they keep what they held before. */
  lemma RenderRoundTrip(before: seq<Code>, sq: seq<Code>)
    requires |before| == 64 && |sq| == 64
    requires forall i :: 0 <= i < 64 ==> sq[i] == None || IsPieceCode(sq[i])
    ensures Place(before, Render(sq, 7), 7, 0).Placed?
    ensures forall i :: 0 <= i < 64 ==>
      Place(before, Render(sq, 7), 7, 0).squares[i] == (if sq[i] != None then sq[i] else before[i])
  {
    PlaceRender(before, sq, 7);
    forall i | 0 <= i < 64
      ensures Place(before, Render(sq, 7), 7, 0).squares[i] == (if sq[i] != None then sq[i] else before[i])
    {
      OverlayRanksAt(before, sq, 7, i);
    }
  }

  /** What loading a FEN string does to the squares: too few fields is rejected before any
      write, otherwise the placement field is read from rank 7, file 0. */
  datatype Loaded = TooFewFields | Parsed(placement: Placement)

  function Load(sq: seq<Code>, fen: string): (r: Loaded)
    requires |sq| == 64
    ensures r.TooFewFields? <==> Count(fen, ' ') < 5
  {
    SplitJoin(fen);
    var parts := Fields(fen);
    if |parts| < 6 then TooFewFields else Parsed(Place(sq, parts[0], 7, 0))
  }
}
