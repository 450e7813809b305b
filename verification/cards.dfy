/** Cards, card codes and the 52-card deck.

    Both scripts use the rank alphabet `23456789TJQKA` (low to high) and the
    suit letters `c d h s`.  They differ in the card library behind them:
    `nlhe_range_check.py` builds cards with eval7 (`eval7.Card(code)`, which
    raises on an unknown code) and ranks a higher evaluator score as the
    stronger hand; `range_dynamics_checker.py` builds them with treys through
    `str_to_card` (which normalises "10" and "0" to "T" and returns None on an
    unknown code) and ranks a LOWER score as the stronger hand.  The two also
    enumerate the deck in different suit orders. */
module Cards {
  import opened Seqs
  import opened Text

  /** The rank alphabet, index 0 = deuce, 12 = ace. */
  const RANKS: string := "23456789TJQKA"
  /** The suit alphabet of the range parser, index 0 = clubs ... 3 = spades. */
  const SUITS: string := "cdhs"

  type Rank = r: nat | r < 13
  type Suit = s: nat | s < 4

  /** A card value; equality is by (rank, suit), as for eval7 and treys cards. */
  datatype Card = Card(rank: Rank, suit: Suit)

  datatype Option<T> = None | Some(value: T)

  /** Which of the two scripts, i.e. which card library, is being modelled. */
  datatype Engine = Eval7 | Treys

  /** `ranks.find(c)` as the parser uses it: the index of `c` in the rank
      alphabet, None for -1. */
  function RankOf(c: char): (r: Option<Rank>)
    ensures r.Some? <==> c in RANKS
    ensures r.Some? ==> RANKS[r.value] == c
  {
    match c
    case '2' => Some(0)
    case '3' => Some(1)
    case '4' => Some(2)
    case '5' => Some(3)
    case '6' => Some(4)
    case '7' => Some(5)
    case '8' => Some(6)
    case '9' => Some(7)
    case 'T' => Some(8)
    case 'J' => Some(9)
    case 'Q' => Some(10)
    case 'K' => Some(11)
    case 'A' => Some(12)
    case _ => None
  }

  /** The index of suit letter `c` in `cdhs`, if it is one. */
  function SuitOf(c: char): (r: Option<Suit>)
    ensures r.Some? <==> c in SUITS
    ensures r.Some? ==> SUITS[r.value] == c
  {
    match c
    case 'c' => Some(0)
    case 'd' => Some(1)
    case 'h' => Some(2)
    case 's' => Some(3)
    case _ => None
  }

  /** The two-character code of a card, e.g. "Th" (`str(card)` for eval7,
      `Card.int_to_str` for treys). */
  function Code(c: Card): string {
    [RANKS[c.rank], SUITS[c.suit]]
  }

  /** Card construction from a code by the card library: the first
      character must be a rank letter and the second a suit letter;
      anything else is an error (None). */
  function LibraryCard(s: string): (r: Option<Card>)
    ensures r.Some? <==> |s| >= 2 && s[0] in RANKS && s[1] in SUITS
    ensures r.Some? ==> Code(r.value) == s[..2]
  {
    if |s| < 2 then None
    else match (RankOf(s[0]), SuitOf(s[1]))
      case (Some(r), Some(u)) => Some(Card(r, u))
      case _ => None
  }

  /** `str_to_card` of `range_dynamics_checker.py`: replace every "10", then
      every '0', by "T", and build a treys card, or None if that fails. */
  function StrToCard(s: string): (r: Option<Card>)
  {
    LibraryCard(ReplaceChar(ReplaceTen(s), '0', 'T'))
  }

  /** The card built from one exact-combo half: the eval7 script hands the
      library the code as written; the treys script goes through
      `str_to_card`. */
  function ExactCard(e: Engine, s: string): Option<Card> {
    match e
    case Eval7 => LibraryCard(s)
    case Treys => StrToCard(s)
  }

  /** The rank and suit alphabets have no repeated letter, so looking a
      letter up inverts indexing. */
  lemma AlphabetsDistinct()
    ensures NoDup(RANKS) && NoDup(SUITS)
    ensures forall r: Rank :: RankOf(RANKS[r]) == Some(r)
    ensures forall u: Suit :: SuitOf(SUITS[u]) == Some(u)
  {
  }

  /** A rank letter maps back to its rank. */
  lemma RankOfLetter(r: Rank)
    ensures RankOf(RANKS[r]) == Some(r)
  {
  }

  /** Every card's code parses back to the card, with either library. */
  lemma CodeRoundTrip(e: Engine, c: Card)
    ensures LibraryCard(Code(c)) == Some(c)
    ensures ExactCard(e, Code(c)) == Some(c)
  {
    AlphabetsDistinct();
    var code := Code(c);
    assert LibraryCard(code) == Some(c) by {
      assert RankOf(code[0]) == Some(c.rank);
      assert SuitOf(code[1]) == Some(c.suit);
    }
    assert '1' !in code && '0' !in code by {
      NoDigitOneOrZero(c);
    }
    ReplaceTenRemovesTens(code);
    assert ReplaceChar(code, '0', 'T') == code;
  }

  lemma NoDigitOneOrZero(c: Card)
    ensures '1' !in Code(c) && '0' !in Code(c)
  {
    assert '1' !in RANKS && '0' !in RANKS && '0' !in SUITS && '1' !in SUITS;
    assert RANKS[c.rank] in RANKS;
  }

  /** `str_to_card` accepts exactly the codes whose normalised form starts
      with a rank and a suit letter, and then returns the card with that
      code. */
  lemma StrToCardSpec(s: string)
    ensures var t := ReplaceChar(ReplaceTen(s), '0', 'T');
      && (StrToCard(s).Some? <==> |t| >= 2 && t[0] in RANKS && t[1] in SUITS)
      && (StrToCard(s).Some? ==> Code(StrToCard(s).value) == t[..2])
  {
  }

  /** The zero spellings of the ten ("0h", "10h") are tens to `str_to_card`,
      while eval7 rejects "0h". */
  lemma StrToCardTens()
    ensures StrToCard("0h") == Some(Card(8, 2))
    ensures StrToCard("10h") == Some(Card(8, 2))
  {
    TenCodes();
  }

  /** eval7 has no zero spelling of the ten. */
  lemma LibraryCardRejectsZero()
    ensures LibraryCard("0h") == None
  {
    assert '0' !in RANKS;
  }

  lemma TenCodes()
    ensures ReplaceChar(ReplaceTen("10h"), '0', 'T') == "Th"
    ensures ReplaceChar(ReplaceTen("0h"), '0', 'T') == "Th"
    ensures LibraryCard("Th") == Some(Card(8, 2))
  {
    assert ReplaceTen("10h") == "Th" by {
      assert "10h"[2..] == "h";
      assert ReplaceTen("h") == "h";
    }
    assert ReplaceTen("0h") == "0h" by {
      assert "0h"[1..] == "h";
      assert ReplaceTen("h") == "h";
    }
    assert ReplaceChar("0h", '0', 'T') == "Th";
    assert ReplaceChar("Th", '0', 'T') == "Th";
    assert LibraryCard("Th") == Some(Card(8, 2)) by {
      AlphabetsDistinct();
      assert RANKS[8] == 'T';
      assert SUITS[2] == 'h';
    }
  }

  /** The suit order in which each script enumerates the deck: eval7's
      `for s in 'cdhs'`, treys' `for s in "shdc"`. */
  function DeckSuitOrder(e: Engine): (order: seq<Suit>)
    ensures |order| == 4 && NoDup(order)
  {
    match e
    case Eval7 => [0, 1, 2, 3]
    case Treys => [3, 2, 1, 0]
  }

  /** The full deck, ranks from deuce to ace, each rank in the engine's suit
      order. */
  function FullDeck(e: Engine): (deck: seq<Card>)
    ensures |deck| == 52
  {
    var order := DeckSuitOrder(e);
    seq(52, i requires 0 <= i < 52 => Card(i / 4, order[i % 4]))
  }

  /** The deck holds every card exactly once. */
  lemma FullDeckComplete(e: Engine)
    ensures NoDup(FullDeck(e))
    ensures forall c: Card :: c in FullDeck(e)
    ensures |Elems(FullDeck(e))| == 52
  {
    var deck := FullDeck(e);
    var order := DeckSuitOrder(e);
    forall i, j | 0 <= i < j < 52 ensures deck[i] != deck[j] {
      DivMod4(i);
      DivMod4(j);
      if i / 4 == j / 4 {
        assert i % 4 != j % 4;
      }
    }
    forall c: Card ensures c in deck {
      var k := if e == Eval7 then c.suit else 3 - c.suit;
      var i := 4 * c.rank + k;
      DivMod4(i);
      assert deck[i] == c;
    }
    ElemsCard(deck);
  }

  lemma DivMod4(i: nat)
    ensures i == 4 * (i / 4) + i % 4 && 0 <= i % 4 < 4
  {
  }

  /** The set of all 52 cards. */
  function AllCards(): (all: set<Card>)
    ensures forall c: Card :: c in all
    ensures |all| == 52
  {
    FullDeckComplete(Eval7);
    Elems(FullDeck(Eval7))
  }
}
