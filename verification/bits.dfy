/** 64-bit bitboards: bit i stands for board square i.
    The engine only combines boards with `|`, `&` and `& ~` and tests single bits, never shifting
    or adding them, so a board is modelled exactly by the set of squares whose bits are set:
    `|` is union, `&` intersection, `a & ~b` difference, and `(b & Bit(i)) != 0` is `i in b`.
    The source calls two helpers, `Bitboard.Bit` and `Bitboard.PopLsb`, whose definitions are not
    part of this model; they are given here as "the board holding square i alone" and as
    "return the lowest square of the board and remove it". */
module Bits {

  type Bitboard = set<int>

  /** Every square of the board is one of the 64 (every bit lies within the 64-bit word). */
  predicate InRange(b: Bitboard) {
    forall i :: i in b ==> 0 <= i < 64
  }

  /** The one-bit board of square i (`1UL << i`). */
  function Bit(i: int): (b: Bitboard)
    requires 0 <= i < 64
    ensures InRange(b)
    ensures forall j :: j in b <==> j == i
  {
    {i}
  }

  /** The lowest square of a non-empty board: the one PopLsb hands out. */
  ghost function Lowest(b: Bitboard): (i: int)
    requires b != {}
    ensures i in b && forall j :: j in b ==> i <= j
  {
    LowestExists(b);
    var i :| i in b && forall j :: j in b ==> i <= j;
    i
  }

  /** Every non-empty (finite) board has a lowest square. */
  lemma {:induction false} LowestExists(b: Bitboard)
    requires b != {}
    ensures exists i :: i in b && forall j :: j in b ==> i <= j
    decreases |b|
  {
    assert (forall z :: z !in b) ==> b == {};
    var x :| x in b;
    if b == {x} {
      assert forall j :: j in b ==> x <= j;
    } else {
      LowestExists(b - {x});
      var y :| y in b - {x} && forall j :: j in b - {x} ==> y <= j;
      var m := if x < y then x else y;
      forall j | j in b
        ensures m <= j
      {
        if j != x {
          assert j in b - {x};
        }
      }
      assert m in b;
    }
  }

  /** The squares of a board, lowest first: the order in which repeated PopLsb calls hand
      them out. */
  ghost function Ascending(b: Bitboard): (s: seq<int>)
    ensures forall k :: 0 <= k < |s| ==> s[k] in b
    decreases |b|
  {
    if b == {} then [] else [Lowest(b)] + Ascending(b - {Lowest(b)})
  }

  /** A strictly increasing list. */
  predicate Increasing(s: seq<int>) {
    forall x, y :: 0 <= x < y < |s| ==> s[x] < s[y]
  }

  /** The list is strictly increasing and holds exactly the board's squares. */
  lemma {:induction false} AscendingSorted(b: Bitboard)
    ensures Increasing(Ascending(b))
    ensures forall x :: x in Ascending(b) <==> x in b
    decreases |b|
  {
    if b != {} {
      var i := Lowest(b);
      var tail := Ascending(b - {i});
      AscendingSorted(b - {i});
      assert Ascending(b) == [i] + tail;
      forall x, y | 0 <= x < y < |Ascending(b)|
        ensures Ascending(b)[x] < Ascending(b)[y]
      {
        assert Ascending(b)[y] == tail[y - 1];
        assert tail[y - 1] in tail;
        if x > 0 {
          assert Ascending(b)[x] == tail[x - 1];
        }
      }
    }
  }

  /** A non-empty list holds its first element. */
  lemma HeadListed(s: seq<int>)
    ensures |s| == 0 || s[0] in s
  {
  }

  /** The tail of a strictly increasing list is strictly increasing and holds every element
      but the first. */
  lemma IncreasingTail(s: seq<int>)
    requires Increasing(s) && |s| > 0
    ensures Increasing(s[1..])
    ensures forall x :: x in s ==> s[0] <= x
    ensures forall x :: x in s[1..] <==> x in s && x != s[0]
  {
    forall x | x in s
      ensures s[0] <= x
    {
      var j :| 0 <= j < |s| && s[j] == x;
    }
    forall x | x in s && x != s[0]
      ensures x in s[1..]
    {
      var j :| 0 <= j < |s| && s[j] == x;
      assert s[1..][j - 1] == x;
    }
    forall x | x in s[1..]
      ensures x != s[0]
    {
      var j :| 0 <= j < |s[1..]| && s[1..][j] == x;
      assert s[j + 1] == x;
    }
  }

  /** Two strictly increasing lists with the same elements are the same list. */
  lemma {:induction false} IncreasingUnique(s: seq<int>, t: seq<int>)
    requires Increasing(s) && Increasing(t)
    requires forall x :: x in s <==> x in t
    ensures s == t
    decreases |s|
  {
    HeadListed(s);
    HeadListed(t);
    if |s| > 0 && |t| > 0 {
      IncreasingTail(s);
      IncreasingTail(t);
      assert s[0] == t[0];
      IncreasingUnique(s[1..], t[1..]);
      assert s == [s[0]] + s[1..];
      assert t == [t[0]] + t[1..];
    }
  }

  /** The ascending list of a board is unique: a strictly increasing list holding exactly the
      board's squares is Ascending(b). */
  lemma SortedIsAscending(b: Bitboard, s: seq<int>)
    requires Increasing(s)
    requires forall x :: x in s <==> x in b
    ensures s == Ascending(b)
  {
    AscendingSorted(b);
    IncreasingUnique(s, Ascending(b));
  }

  /** Removing the lowest square removes exactly the head of the list. */
  lemma AscendingPop(b: Bitboard, i: int)
    requires i in b && forall j :: j in b && j != i ==> i < j
    ensures Ascending(b) == [i] + Ascending(b - {i})
  {
    assert Lowest(b) == i;
  }

  /** A board lists nothing exactly when it holds no square: an in-range board is empty (the
      word is 0) exactly when its list is empty. */
  lemma AscendingEmptyIffZero(b: Bitboard)
    ensures b == {} <==> Ascending(b) == []
  {
    AscendingSorted(b);
    assert (forall z :: z !in b) ==> b == {};
  }

  /** Index of the lowest set bit of a non-empty board, and the board with that bit cleared
      (`Bitboard.PopLsb(ref b)`); AscendingPop states what this does to the board's list. */
  method PopLsb(b: Bitboard) returns (i: int, rest: Bitboard)
    requires InRange(b) && b != {}
    ensures 0 <= i < 64 && i in b
    ensures forall j :: j in b && j != i ==> i < j
    ensures rest == b - {i} && InRange(rest)
  {
    i := 0;
    while i < 63 && i !in b
      invariant 0 <= i < 64
      invariant forall j :: 0 <= j < i ==> j !in b
      decreases 64 - i
    {
      i := i + 1;
    }
    rest := b - {i};
  }
}
