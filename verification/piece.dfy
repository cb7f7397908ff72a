/** Piece codes: a 3-bit piece type and a colour bit packed into one small integer.
    Every code the engine stores fits in five bits, so codes are modelled as 8-bit vectors,
    on which `&` and `|` mean what they mean on the source's `int`. */
module Piece {

  type Code = bv8

  const None: Code := 0
  const King: Code := 1
  const Pawn: Code := 2
  const Knight: Code := 3
  const Bishop: Code := 4
  const Rook: Code := 5
  const Queen: Code := 6

  const White: Code := 8
  const Black: Code := 16
  const TypeMask: Code := 7

  /** The type bits of a code (`piece & TypeMask`, also written `piece & 0b111`). */
  function TypeOf(p: Code): Code {
    p & TypeMask
  }

  /** The colour test used everywhere: a code is white when its White bit is set. */
  predicate IsWhite(p: Code) {
    p & White != 0
  }

  /** The colour bit for a side. */
  function ColourBit(white: bool): Code {
    if white then White else Black
  }

  /** The six real piece types. */
  predicate IsPieceType(t: Code) {
    t == King || t == Pawn || t == Knight || t == Bishop || t == Rook || t == Queen
  }

  /** Encoding: the code of a piece of the given side and type. */
  function Encode(white: bool, t: Code): (p: Code)
    requires IsPieceType(t)
    ensures p != None
    ensures TypeOf(p) == t
    ensures IsWhite(p) == white
  {
    ColourBit(white) | t
  }

  /** None and the six types are pairwise distinct and lie within TypeMask. */
  lemma TypeCodesDistinct()
    ensures [None, King, Pawn, Knight, Bishop, Rook, Queen] == [0, 1, 2, 3, 4, 5, 6]
    ensures forall t :: IsPieceType(t) ==> t & TypeMask == t && t != None
  {
  }

  /** White and Black are distinct single bits, both outside TypeMask. */
  lemma ColourBitsDisjoint()
    ensures White != Black && White & Black == 0
    ensures White & TypeMask == 0 && Black & TypeMask == 0
    ensures White & (White - 1) == 0 && Black & (Black - 1) == 0
  {
  }

  /** Decoding inverts encoding: type and colour are recovered from `colour | type`,
      for both colour bits and every type value that fits in the type mask. */
  lemma DecodeEncode(c: Code, t: Code)
    requires c == White || c == Black
    requires t & TypeMask == t
    ensures TypeOf(c | t) == t
    ensures IsWhite(c | t) <==> c == White
  {
  }

  /** Codes are determined by their colour and type: two piece codes built by Encode are equal
      exactly when they agree on both. */
  lemma EncodeInjective(w1: bool, t1: Code, w2: bool, t2: Code)
    requires IsPieceType(t1) && IsPieceType(t2)
    ensures Encode(w1, t1) == Encode(w2, t2) <==> w1 == w2 && t1 == t2
  {
  }

  /** The empty code has no colour bit and decodes to type None. */
  lemma EmptyDecodes()
    ensures !IsWhite(None) && TypeOf(None) == None && None & Black == 0
  {
  }
}
