/** The board card picker's `toggle` callback.

    Pressing a card's button removes that card from the board when it is
    there and otherwise appends it, unless the board already holds five
    cards.  The board is kept as a list of card codes, so the callback is
    modelled for any element type. */
module BoardToggle {
  import opened Seqs

  /** The most cards a board can hold. */
  const MAX_BOARD: nat := 5

  /** `toggle(c)` on the board list `curr`. */
  function Toggle<T(==)>(board: seq<T>, c: T): (r: seq<T>)
    ensures multiset(r) <= multiset(board) + multiset{c}
  {
    if c in board then RemoveFirst(board, c)
    else if |board| < MAX_BOARD then board + [c]
    else board
  }

  /** A board the picker can show: at most five cards, none twice. */
  predicate ValidBoard<T(==)>(board: seq<T>) {
    |board| <= MAX_BOARD && NoDup(board)
  }

  /** Toggling keeps a board valid. */
  lemma TogglePreservesValid<T>(board: seq<T>, c: T)
    requires ValidBoard(board)
    ensures ValidBoard(Toggle(board, c))
  {
    var r := Toggle(board, c);
    if c in board {
      RemoveFirstElems(board, c);
    } else if |board| < MAX_BOARD {
      NoDupAppendIff(board, [c]);
    }
  }

  /** After toggling `c` on a board without repeats, `c` is on the board
      exactly when it was not before and there was room for it; every
      other card stays where it was. */
  lemma ToggleMembership<T>(board: seq<T>, c: T)
    requires NoDup(board)
    ensures c in Toggle(board, c) <==> c !in board && |board| < MAX_BOARD
    ensures forall x :: x != c ==> (x in Toggle(board, c) <==> x in board)
  {
    if c in board {
      RemoveFirstElems(board, c);
    }
  }

  /** Toggling a card on and off again restores the board. */
  lemma ToggleTwice<T>(board: seq<T>, c: T)
    requires c !in board && |board| < MAX_BOARD
    ensures Toggle(Toggle(board, c), c) == board
  {
    RemoveLast(board, c);
  }

  /** Removing a card that occurs only at the end leaves the rest. */
  lemma {:induction false} RemoveLast<T>(s: seq<T>, c: T)
    requires c !in s
    ensures RemoveFirst(s + [c], c) == s
  {
    if s != [] {
      assert (s + [c])[1..] == s[1..] + [c];
      RemoveLast(s[1..], c);
    }
  }
}
